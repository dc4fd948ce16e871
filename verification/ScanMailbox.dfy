/**
 * The background folder scan: submitters overwrite a one-slot mailbox, a capacity-one channel
 * wakes the worker, and a generation counter tells a running scan that it is out of date.
 * Submitters are interchangeable, so the machine counts how many stand at each step.
 */
module ScanMailbox {
  import opened Common

  type Generation = nat

  /** The submitter holding the slot mutex, if any. */
  datatype Slot = Free | Locked | Bumped(generation: Generation)

  datatype Worker =
    | Waiting                                        // blocked on the channel
    | Woken                                          // received a wake, has not looked at shutdown
    | Taking                                         // wants the slot mutex to take the job
    | Running(generation: Generation)
    | Finishing(generation: Generation, superseded: bool)
    | Dead                                           // left the loop, or never opened its database

  /** `stored`, `taken`, `ran` and `cutShort` record history. */
  datatype State = State(
    wanting: nat, slot: Slot, sending: nat,
    pending: Option<Generation>, counter: Generation, token: bool,
    worker: Worker, shutdown: bool, dbOpens: bool,
    stored: Generation, taken: Generation, ran: Generation, cutShort: bool)

  datatype Event =
    | Submit                                         // a caller with a non-empty list of roots
    | Lock | Bump | Store | Send                     // one submitter, step by step
    | Receive | LookAtShutdown | Take                // the worker
    | Stop                                           // the running scan notices that it should stop
    | Complete                                       // the running scan ends by itself
    | Report
    | Shutdown
    | OpenFails

  predicate Enabled(s: State, e: Event) {
    match e
    case Submit => true
    case Lock => s.wanting > 0 && s.slot.Free?
    case Bump => s.slot.Locked?
    case Store => s.slot.Bumped?
    case Send => s.sending > 0
    case Receive => s.worker.Waiting? && s.dbOpens && s.token
    case LookAtShutdown => s.worker.Woken?
    case Take => s.worker.Taking? && s.slot.Free?
    case Stop => s.worker.Running? && (s.shutdown || s.counter != s.worker.generation)
    case Complete => s.worker.Running?
    case Report => s.worker.Finishing?
    case Shutdown => true
    case OpenFails => !s.dbOpens && s.worker.Waiting? && s.taken == 0
  }

  function Next(s: State, e: Event): State
    requires Enabled(s, e)
  {
    match e
    case Submit => s.(wanting := s.wanting + 1)
    case Lock => s.(wanting := s.wanting - 1, slot := Locked)
    case Bump => s.(slot := Bumped(s.counter + 1), counter := s.counter + 1)
    case Store =>
      s.(slot := Free, pending := Some(s.slot.generation), stored := s.slot.generation, sending := s.sending + 1)
    case Send => s.(sending := s.sending - 1, token := s.token || !s.worker.Dead?)
    case Receive => s.(token := false, worker := Woken)
    case LookAtShutdown => s.(worker := if s.shutdown then Dead else Taking)
    case Take =>
      if s.pending.None? then s.(worker := Waiting)
      else s.(worker := Running(s.pending.value), pending := None, taken := s.pending.value)
    case Stop => s.(worker := Finishing(s.worker.generation, s.counter != s.worker.generation))
    case Complete => s.(worker := Finishing(s.worker.generation, false))
    case Report => s.(worker := Waiting, ran := s.worker.generation, cutShort := s.worker.superseded)
    case Shutdown => s.(shutdown := true)
    case OpenFails => s.(worker := Dead)
  }

  ghost predicate Init(s: State) {
    && s.wanting == 0 && s.slot.Free? && s.sending == 0 && s.pending.None? && s.counter == 0 && !s.token
    && s.worker.Waiting? && !s.shutdown && s.stored == 0 && s.taken == 0 && s.ran == 0 && !s.cutShort
  }

  // ---- the invariant ------------------------------------------------------------------------

  /** A stored job is never without somebody who will make the worker look at it. */
  ghost predicate WakeUnderWay(s: State) {
    s.pending.Some? && !s.worker.Dead? ==> s.token || s.sending > 0 || s.worker.Woken? || s.worker.Taking?
  }

  ghost predicate Generations(s: State) {
    && (if s.slot.Bumped? then s.slot.generation == s.counter && s.stored + 1 == s.counter else s.stored == s.counter)
    && (if s.pending.Some? then s.pending.value == s.stored && s.taken < s.stored else s.taken == s.stored)
    && (s.worker.Running? || s.worker.Finishing? ==> s.worker.generation == s.taken > 0)
    && (s.worker.Waiting? || s.worker.Woken? || s.worker.Taking? ==> s.ran == s.taken)
  }

  /** Only a scan that is out of date is ever cut short as superseded. */
  ghost predicate CutShortOnlyIfStale(s: State) {
    && (s.worker.Finishing? && s.worker.superseded ==> s.counter > s.worker.generation)
    && (s.cutShort ==> s.counter > s.ran)
  }

  ghost predicate Inv(s: State) {
    && WakeUnderWay(s) && Generations(s) && CutShortOnlyIfStale(s)
    && (s.worker.Dead? ==> s.shutdown || !s.dbOpens)
  }

  lemma StepKeepsWake(s: State, e: Event)
    requires Inv(s) && Enabled(s, e)
    ensures WakeUnderWay(Next(s, e))
  {
  }

  /** Steps of the callers; the others leave slot and counter alone. */
  predicate OfSubmitter(e: Event) {
    e.Submit? || e.Lock? || e.Bump? || e.Store? || e.Send?
  }

  lemma SubmitterKeepsGenerations(s: State, e: Event)
    requires Generations(s) && Enabled(s, e) && OfSubmitter(e)
    ensures Generations(Next(s, e))
  {
  }

  lemma WorkerKeepsGenerations(s: State, e: Event)
    requires Generations(s) && Enabled(s, e) && !OfSubmitter(e)
    ensures Generations(Next(s, e))
  {
    match e
    case Receive =>
    case Take =>
    case _ =>
  }

  lemma StepKeepsStale(s: State, e: Event)
    requires Generations(s) && CutShortOnlyIfStale(s) && Enabled(s, e)
    ensures CutShortOnlyIfStale(Next(s, e))
  {
    match e
    case Stop =>
    case Report =>
    case Bump =>
    case _ =>
  }

  lemma StepKeepsInv(s: State, e: Event)
    requires Inv(s) && Enabled(s, e)
    ensures Inv(Next(s, e))
  {
    StepKeepsWake(s, e);
    StepKeepsStale(s, e);
    if OfSubmitter(e) {
      SubmitterKeepsGenerations(s, e);
    } else {
      WorkerKeepsGenerations(s, e);
    }
    assert Next(s, e).worker.Dead? ==> Next(s, e).shutdown || !Next(s, e).dbOpens;
    hide Next, WakeUnderWay, Generations, CutShortOnlyIfStale, Enabled;
  }

  ghost predicate AllEnabled(s: State, es: seq<Event>)
    decreases |es|
  {
    es == [] || (Enabled(s, es[0]) && AllEnabled(Next(s, es[0]), es[1..]))
  }

  function Run(s: State, es: seq<Event>): State
    requires AllEnabled(s, es)
    decreases |es|
  {
    if es == [] then s else Run(Next(s, es[0]), es[1..])
  }

  lemma {:induction false} RunKeepsInv(s: State, es: seq<Event>)
    requires Inv(s) && AllEnabled(s, es)
    ensures Inv(Run(s, es))
    decreases |es|
  {
    if es != [] {
      StepKeepsInv(s, es[0]);
      RunKeepsInv(Next(s, es[0]), es[1..]);
    }
  }

  // ---- what every interleaving guarantees ---------------------------------------------------

  /** A pending job is always about to be looked at, and a scan out of date always has a successor. */
  lemma NoLostWake(s: State, es: seq<Event>)
    requires Init(s) && AllEnabled(s, es)
    ensures var r := Run(s, es);
            r.pending.Some? && !r.worker.Dead? ==> r.token || r.sending > 0 || r.worker.Woken? || r.worker.Taking?
    ensures var r := Run(s, es);
            r.worker.Running? && r.counter != r.worker.generation ==>
              r.pending == Some(r.counter) || r.slot == Bumped(r.counter)
  {
    RunKeepsInv(s, es);
  }

  /** No submitter is under way and the worker sleeps on an empty channel. */
  predicate Quiet(s: State) {
    s.wanting == 0 && s.slot.Free? && s.sending == 0 && s.worker.Waiting? && !s.token
  }

  /** In every quiet state the newest request has been run, and not as an outdated one. */
  lemma NewestRequestRan(s: State, es: seq<Event>)
    requires Init(s) && AllEnabled(s, es) && Quiet(Run(s, es))
    ensures var r := Run(s, es); r.pending.None? && r.ran == r.counter && !r.cutShort
  {
    RunKeepsInv(s, es);
  }

  // ---- and that quiet states are reached ----------------------------------------------------

  /** Steps of the submitters and the worker themselves; callers and the operator add the others. */
  predicate Internal(e: Event) {
    !e.Submit? && !e.Shutdown? && !e.OpenFails?
  }

  function WorkerRank(w: Worker): nat {
    match w
    case Woken => 4
    case Taking => 3
    case Running(_) => 2
    case Finishing(_, _) => 1
    case _ => 0
  }

  function Work(s: State): nat {
    24 * s.wanting + (match s.slot case Free => 0 case Locked => 18 case Bumped(_) => 12)
    + 6 * s.sending + (if s.token then 5 else 0) + WorkerRank(s.worker)
  }

  /** The generation the newest request made so far has or will get. */
  function Newest(s: State): Generation {
    s.counter + s.wanting + if s.slot.Locked? then 1 else 0
  }

  lemma InternalStepsRunOut(s: State, e: Event)
    requires Enabled(s, e) && Internal(e)
    ensures Work(Next(s, e)) < Work(s)
    ensures Newest(Next(s, e)) == Newest(s)
    ensures Next(s, e).shutdown == s.shutdown && Next(s, e).dbOpens == s.dbOpens
  {
  }

  lemma StuckIsServed(s: State)
    requires Inv(s) && s.dbOpens && !s.shutdown
    requires forall e :: Internal(e) ==> !Enabled(s, e)
    ensures Quiet(s) && s.ran == s.counter == Newest(s) && !s.cutShort
  {
    if !Quiet(s) {
      SomebodyCanMove(s);
    }
  }

  lemma SomebodyCanMove(s: State)
    requires Inv(s) && s.dbOpens && !s.shutdown && !Quiet(s)
    ensures exists e :: Internal(e) && Enabled(s, e)
  {
    if s.slot.Locked? { assert Enabled(s, Bump); }
    else if s.slot.Bumped? { assert Enabled(s, Store); }
    else if s.wanting > 0 { assert Enabled(s, Lock); }
    else if s.sending > 0 { assert Enabled(s, Send); }
    else {
      match s.worker
      case Waiting => assert Enabled(s, Receive);
      case Woken => assert Enabled(s, LookAtShutdown);
      case Taking => assert Enabled(s, Take);
      case Running(_) => assert Enabled(s, Complete);
      case Finishing(_, _) => assert Enabled(s, Report);
      case Dead =>
    }
  }

  /**
   * From every reachable state without shutdown: however the threads are scheduled, their own
   * steps run out within a bound known beforehand, and when none is left the newest request ran.
   */
  lemma {:induction false} EveryNewestRequestIsServed(s: State, es: seq<Event>)
    requires Inv(s) && AllEnabled(s, es) && s.dbOpens && !s.shutdown
    requires forall k :: 0 <= k < |es| ==> Internal(es[k])
    ensures |es| <= Work(s)
    ensures (forall e :: Internal(e) ==> !Enabled(Run(s, es), e)) ==>
              (Quiet(Run(s, es)) && Run(s, es).ran == Newest(s) && !Run(s, es).cutShort)
    decreases |es|
  {
    if es == [] {
      if forall e :: Internal(e) ==> !Enabled(s, e) {
        StuckIsServed(s);
      }
    } else {
      var s' := Next(s, es[0]);
      assert Internal(es[0]);
      StepKeepsInv(s, es[0]);
      InternalStepsRunOut(s, es[0]);
      EveryNewestRequestIsServed(s', es[1..]);
      assert Run(s, es) == Run(s', es[1..]);
    }
  }

  // ---- both sides as the code has them --------------------------------------------------------

  datatype Job = Job(roots: seq<string>, excludeRules: seq<string>, generation: Generation)

  /** The steps of one request, when nobody comes between them. */
  const SUBMISSION: seq<Event> := [Submit, Lock, Bump, Store, Send]

  /** The steps of one wake-up, until the job runs or the worker waits again. */
  function WakeUp(shutdown: bool): seq<Event> {
    if shutdown then [Receive, LookAtShutdown] else [Receive, LookAtShutdown, Take]
  }

  lemma {:induction false} StepsInTurn(s: State, e: Event, es: seq<Event>)
    requires Enabled(s, e) && AllEnabled(Next(s, e), es)
    ensures AllEnabled(s, [e] + es) && Run(s, [e] + es) == Run(Next(s, e), es)
  {
    hide Next, Enabled;
    assert ([e] + es)[1..] == es;
  }

  /** What is left of a request once it holds the slot. */
  lemma StoringRuns(s: State)
    requires s.slot.Locked?
    ensures AllEnabled(s, [Bump, Store, Send])
    ensures Run(s, [Bump, Store, Send]) == Submitted(s)
  {
    var s1 := Next(s, Bump);
    var s2 := Next(s1, Store);
    var s3 := Next(s2, Send);
    assert s3 == Submitted(s);
    assert Enabled(s, Bump) && Enabled(s1, Store) && Enabled(s2, Send);
    hide Enabled, Next;
    assert AllEnabled(s3, []) && Run(s3, []) == s3;
    StepsInTurn(s2, Send, []);
    StepsInTurn(s1, Store, [Send]);
    StepsInTurn(s, Bump, [Store, Send]);
    assert [Bump] + [Store, Send] == [Bump, Store, Send] && [Store] + [Send] == [Store, Send] && [Send] + [] == [Send];
  }

  function Submitted(s: State): State {
    s.(slot := Free, counter := s.counter + 1, pending := Some(s.counter + 1), stored := s.counter + 1,
       token := s.token || !s.worker.Dead?)
  }

  lemma SlotIsTaken(s: State)
    requires s.slot.Free?
    ensures Enabled(s, Submit) && Enabled(Next(s, Submit), Lock) && Next(Next(s, Submit), Lock) == s.(slot := Locked)
  {
  }

  /** A request made while the slot is free ends with its job stored and the worker told, if there is one. */
  lemma SubmissionRuns(s: State)
    requires s.slot.Free?
    ensures AllEnabled(s, SUBMISSION) && Run(s, SUBMISSION) == Submitted(s)
  {
    hide Enabled, Next, AllEnabled, Run;
    SlotIsTaken(s);
    StoringRuns(s.(slot := Locked));
    StepsInTurn(Next(s, Submit), Lock, [Bump, Store, Send]);
    StepsInTurn(s, Submit, [Lock] + [Bump, Store, Send]);
    assert [Submit] + ([Lock] + [Bump, Store, Send]) == SUBMISSION;
  }

  lemma WakeUpRuns(s: State)
    requires s.slot.Free? && s.worker.Waiting? && s.dbOpens && s.token
    ensures AllEnabled(s, WakeUp(s.shutdown))
    ensures var r := Run(s, WakeUp(s.shutdown));
            if s.shutdown then r == s.(token := false, worker := Dead)
            else if s.pending.None? then r == s.(token := false)
            else r == s.(token := false, pending := None, taken := s.pending.value, worker := Running(s.pending.value))
  {
    var s1 := Next(s, Receive);
    var s2 := Next(s1, LookAtShutdown);
    if s.shutdown {
      assert AllEnabled(s2, []) && Run(s2, []) == s2;
      StepsInTurn(s1, LookAtShutdown, []);
      StepsInTurn(s, Receive, [LookAtShutdown] + []);
      assert WakeUp(true) == [Receive] + ([LookAtShutdown] + []);
    } else {
      var s3 := Next(s2, Take);
      assert AllEnabled(s3, []) && Run(s3, []) == s3;
      StepsInTurn(s2, Take, []);
      StepsInTurn(s1, LookAtShutdown, [Take] + []);
      StepsInTurn(s, Receive, [LookAtShutdown] + ([Take] + []));
      assert WakeUp(false) == [Receive] + ([LookAtShutdown] + ([Take] + []));
    }
  }

  class ScanExecutor {
    var pending: Option<Job>
    var generation: Generation
    var wake: bool                                   // a token in the channel
    var receiver: bool                               // the worker still holds its end

    /** The object is what the machine's state says of slot, counter and channel. */
    ghost predicate Shows(s: State)
      reads this
    {
      && s.pending == (if pending.Some? then Some(pending.value.generation) else None)
      && s.counter == generation && s.token == wake && (s.worker.Dead? <==> !receiver)
    }

    constructor ()
      ensures pending == None && generation == 0 && !wake && receiver
      ensures forall s :: Init(s) ==> Shows(s)
    {
      pending, generation, wake, receiver := None, 0, false, true;
    }

    /** The newest request replaces whatever was pending; an empty one is ignored. */
    method Submit(roots: seq<string>, excludeRules: seq<string>, ghost s: State)
      requires Shows(s) && s.slot.Free?
      modifies this
      ensures receiver == old(receiver)
      ensures roots == [] ==> pending == old(pending) && generation == old(generation) && wake == old(wake)
      ensures roots != [] ==> generation == old(generation) + 1 && pending == Some(Job(roots, excludeRules, generation))
      ensures roots != [] ==> AllEnabled(s, SUBMISSION) && Shows(Run(s, SUBMISSION))
    {
      if roots == [] {
        return;
      }
      generation := generation + 1;
      pending := Some(Job(roots, excludeRules, generation));
      wake := wake || receiver;
      SubmissionRuns(s);
    }

    /** What the worker does with one wake: at most one job leaves, and the slot is empty after. */
    method TakeJob(shutdown: bool, ghost s: State) returns (job: Option<Job>)
      requires Shows(s) && s.slot.Free? && s.worker.Waiting? && s.dbOpens && wake && shutdown == s.shutdown
      modifies this
      ensures job == if shutdown then None else old(pending)
      ensures pending == (if shutdown then old(pending) else None) && generation == old(generation) && !wake
      ensures AllEnabled(s, WakeUp(shutdown)) && Shows(Run(s, WakeUp(shutdown)))
      ensures Run(s, WakeUp(shutdown)).worker ==
              if shutdown then Dead else if job.Some? then Running(job.value.generation) else Waiting
    {
      WakeUpRuns(s);
      wake := false;
      if shutdown {
        receiver := false;
        return None;
      }
      job := pending;
      pending := None;
    }
  }
}

/**
 * Bursts of worker threads over one queue. Every SQL statement, every look at the removed roots
 * and every answer of a handler is one step; the steps of the workers, of the connections that add
 * or delete tasks, of folder removals, of crashes and of start-ups interleave freely.
 */
module Workers {
  import opened Common
  import opened Paths
  import opened TaskQueue

  /** A claimed task: `task` is the row as the claim returned it, `now` the clock read before it. */
  datatype Job = Job(id: TaskId, task: Task, now: int)

  datatype Pc =
    | Looking
    | Holding(job: Job)                      // claimed, payload and removed roots not looked at yet
    | Handling(job: Job)                     // in the handler
    | Writing(job: Job, verdict: Verdict)    // about to write the verdict
    | Exited

  /** `resolved` counts what this worker added to the burst's processed and failed counters. */
  datatype Worker = Worker(pc: Pc, localDone: nat, resolved: nat)

  /**
   * The sequential loop is a burst of one worker without a cap. The last five fields only record
   * history: crashes a task was running in, ids deleted by somebody, ids whose handler succeeded
   * or failed for good, and ids whose path was seen under a removed root.
   */
  datatype State = State(
    rows: Rows, nextId: TaskId, up: bool,
    sequential: bool, cap: Option<nat>, workers: seq<Worker>, counted: nat,
    removed: seq<string>,
    interrupted: map<TaskId, nat>, deleted: set<TaskId>, succeeded: set<TaskId>, fatal: set<TaskId>, seenRemoved: set<TaskId>)

  datatype Event =
    | StartBurst(budget: nat, chunk: Option<nat>)
    | StartSequential
    | Claim(w: nat, filter: Filter, kind: string, now: int, id: TaskId)
    | Inspect(w: nat)
    | Reply(w: nat, answer: Answer)
    | Write(w: nat)
    | Leave(w: nat)                          // shutdown, pause, yield, cap reached, queue drained
    | Insert(task: Task)
    | DeleteTask(id: TaskId)
    | SetRemoved(roots: seq<string>)
    | PausedDrain(id: TaskId, now: int, answer: Answer)
    | Crash
    | StartUp(now: int)

  predicate HasJob(pc: Pc) {
    pc.Holding? || pc.Handling? || pc.Writing?
  }

  /** No worker of a burst is left: the main thread goes on. */
  predicate Quiet(s: State) {
    forall i :: 0 <= i < |s.workers| ==> s.workers[i].pc.Exited?
  }

  /** `chunk.div_ceil(budget).max(1)`. */
  function PerWorkerCap(chunk: nat, budget: nat): (cap: nat)
    requires budget >= 1
  {
    Max((chunk + budget - 1) / budget, 1)
  }

  ghost predicate Enabled(s: State, e: Event) {
    match e
    case StartBurst(budget, _) => s.up && Quiet(s) && budget >= 1
    case StartSequential => s.up && Quiet(s)
    case Claim(w, f, kind, now, id) =>
      && w < |s.workers| && s.workers[w].pc.Looking?
      && (s.cap.Some? ==> s.workers[w].localDone < s.cap.value)
      && IsNext(s.rows, f, kind, now, id)
    case Inspect(w) => w < |s.workers| && s.workers[w].pc.Holding?
    case Reply(w, _) => w < |s.workers| && s.workers[w].pc.Handling?
    case Write(w) => w < |s.workers| && s.workers[w].pc.Writing?
    case Leave(w) => w < |s.workers| && s.workers[w].pc.Looking?
    case Insert(t) => t.state == Pending && t.attempts == 0 && t.startedAt == None && t.finishedAt == None
    case DeleteTask(_) => true
    case SetRemoved(_) => true
    case PausedDrain(id, _, _) =>
      && s.up && Quiet(s) && id in s.rows && s.rows[id].state == Pending
      && s.rows[id].change.Some? && UnderAny(s.rows[id].change.value.path, s.removed)
    case Crash => s.up
    case StartUp(_) => !s.up
  }

  function At(s: State, w: nat, pc: Pc): State
    requires w < |s.workers|
  {
    s.(workers := s.workers[w := s.workers[w].(pc := pc)])
  }

  function Idlers(n: nat): seq<Worker> {
    seq(n, _ => Worker(Looking, 0, 0))
  }

  function ClaimStep(s: State, w: nat, now: int, id: TaskId): State
    requires w < |s.workers| && id in s.rows
  {
    var t := Claimed(s.rows[id], now);
    s.(rows := s.rows[id := t],
       workers := s.workers[w := s.workers[w].(pc := Holding(Job(id, t, now)), localDone := s.workers[w].localDone + 1)])
  }

  function InspectStep(s: State, w: nat): State
    requires w < |s.workers| && s.workers[w].pc.Holding?
  {
    var job := s.workers[w].pc.job;
    match BeforeHandler(job.task.change, s.removed, s.sequential)
    case None => At(s, w, Handling(job))
    case Some(Unreadable) => At(s, w, Writing(job, Unreadable)).(fatal := s.fatal + {job.id})
    case Some(v) => At(s, w, Writing(job, v)).(seenRemoved := s.seenRemoved + {job.id})
  }

  function ReplyStep(s: State, w: nat, answer: Answer): State
    requires w < |s.workers| && s.workers[w].pc.Handling?
  {
    var job := s.workers[w].pc.job;
    var v := AfterHandler(job.task.change, answer, job.now, s.removed);
    var t := At(s, w, Writing(job, v));
    if answer == Ok then t.(succeeded := s.succeeded + {job.id})
    else if FatalAnswer(answer) then t.(fatal := s.fatal + {job.id})
    else if job.task.change.Some? && UnderAny(job.task.change.value.path, s.removed) then t.(seenRemoved := s.seenRemoved + {job.id})
    else t
  }

  function WriteStep(s: State, w: nat): State
    requires w < |s.workers| && s.workers[w].pc.Writing?
  {
    var me := s.workers[w];
    var Writing(job, v) := me.pc;
    var counts := if Counts(v) then 1 else 0;
    s.(rows := Settle(s.rows, job.id, job.task, v, job.now),
       workers := s.workers[w := Worker(if EndsWorker(v) && !s.sequential then Exited else Looking,
                                        LocalDoneAfter(me.localDone, v), me.resolved + counts)],
       counted := s.counted + counts)
  }

  function DrainStep(s: State, id: TaskId, now: int, answer: Answer): State
    requires id in s.rows && s.rows[id].change.Some?
  {
    if s.rows[id].change.value.kind == Remove && answer != Ok then s
    else s.(rows := s.rows[id := s.rows[id].(state := Done, finishedAt := Some(now))], seenRemoved := s.seenRemoved + {id})
  }

  function StartUpStep(s: State, now: int): State {
    s.(rows := Recovered(s.rows, now), up := true,
       interrupted := map id | id in s.rows :: Interruptions(s, id) + (if s.rows[id].state == Running then 1 else 0))
  }

  function Interruptions(s: State, id: TaskId): nat {
    if id in s.interrupted then s.interrupted[id] else 0
  }

  function Next(s: State, e: Event): State
    requires Enabled(s, e)
  {
    match e
    case StartBurst(budget, chunk) =>
      s.(sequential := false, workers := Idlers(budget), counted := 0,
         cap := if chunk.Some? then Some(PerWorkerCap(chunk.value, budget)) else None)
    case StartSequential => s.(sequential := true, workers := Idlers(1), counted := 0, cap := None)
    case Claim(w, _, _, now, id) => ClaimStep(s, w, now, id)
    case Inspect(w) => InspectStep(s, w)
    case Reply(w, answer) => ReplyStep(s, w, answer)
    case Write(w) => WriteStep(s, w)
    case Leave(w) => At(s, w, Exited)
    case Insert(t) => s.(rows := s.rows[s.nextId := t], nextId := s.nextId + 1)
    case DeleteTask(id) => s.(rows := s.rows - {id}, deleted := s.deleted + {id})
    case SetRemoved(roots) => s.(removed := roots)
    case PausedDrain(id, now, answer) => DrainStep(s, id, now, answer)
    case Crash => s.(up := false, workers := [], counted := 0)
    case StartUp(now) => StartUpStep(s, now)
  }

  const INITIAL: State := State(map[], 1, false, false, None, [], 0, [], map[], {}, {}, {}, {})

  // ---- the invariant ------------------------------------------------------------------------

  /** Whoever holds a task holds exactly what the table says, unless the row was deleted. */
  ghost predicate HeldAsClaimed(s: State) {
    forall i :: 0 <= i < |s.workers| && HasJob(s.workers[i].pc) ==>
      var job := s.workers[i].pc.job;
      && 1 <= job.id < s.nextId
      && job.task.state == Running
      && (job.id in s.rows ==> s.rows[job.id] == job.task)
      && (job.id !in s.rows ==> job.id in s.deleted)
  }

  ghost predicate OneHolderEach(s: State) {
    forall i, j :: 0 <= i < j < |s.workers| && HasJob(s.workers[i].pc) && HasJob(s.workers[j].pc) ==>
      s.workers[i].pc.job.id != s.workers[j].pc.job.id
  }

  ghost predicate HeldBySome(s: State, id: TaskId) {
    exists i :: 0 <= i < |s.workers| && HasJob(s.workers[i].pc) && s.workers[i].pc.job.id == id
  }

  ghost predicate RunningIsHeld(s: State) {
    s.up ==> forall id :: id in s.rows && s.rows[id].state == Running ==> HeldBySome(s, id)
  }

  /** Ids are handed out once, and disappear only by being deleted. */
  ghost predicate IdsKept(s: State) {
    && (forall id :: id in s.rows ==> 1 <= id < s.nextId)
    && (forall id :: 1 <= id < s.nextId ==> id in s.rows || id in s.deleted)
    && (forall id :: id in s.interrupted ==> id < s.nextId)
  }

  /** Attempts count claims that a crash cut short, plus the one under way. */
  ghost predicate AttemptsExact(s: State) {
    forall id :: id in s.rows ==>
      var extra := s.rows[id].attempts - Interruptions(s, id);
      && (s.rows[id].state == Pending ==> extra == 0)
      && (s.rows[id].state == Running ==> extra == 1)
      && 0 <= extra <= 1
  }

  /** Every ending has its cause. */
  ghost predicate EndingsJustified(s: State) {
    && (forall id :: id in s.rows && s.rows[id].state == Done ==> id in s.succeeded || id in s.seenRemoved)
    && (forall id :: id in s.rows && s.rows[id].state == Failed ==> id in s.fatal)
    && (forall i :: 0 <= i < |s.workers| && s.workers[i].pc.Writing? ==> VerdictJustified(s, s.workers[i].pc))
  }

  ghost predicate VerdictJustified(s: State, pc: Pc)
    requires pc.Writing?
  {
    match pc.verdict
    case Succeeded => pc.job.id in s.succeeded
    case Dropped | DroppedInFlight => pc.job.id in s.seenRemoved
    case FailedFatally | Unreadable => pc.job.id in s.fatal
    case _ => true
  }

  function ResolvedBy(ws: seq<Worker>): nat {
    if ws == [] then 0 else ResolvedBy(ws[..|ws| - 1]) + ws[|ws| - 1].resolved
  }

  ghost predicate CountersExact(s: State) {
    && s.counted == ResolvedBy(s.workers)
    && (s.cap.Some? ==> forall i :: 0 <= i < |s.workers| ==> WithinCap(s.workers[i], s.cap.value))
  }

  ghost predicate WithinCap(w: Worker, cap: nat) {
    w.resolved + (if HasJob(w.pc) then 1 else 0) <= w.localDone <= cap
  }

  ghost predicate Inv(s: State) {
    && HeldAsClaimed(s) && OneHolderEach(s) && RunningIsHeld(s) && IdsKept(s)
    && AttemptsExact(s) && EndingsJustified(s) && CountersExact(s)
    && s.nextId >= 1
    && (!s.up ==> s.workers == [])
  }

  lemma {:induction false} ResolvedOneWorker(ws: seq<Worker>, w: nat, v: Worker)
    requires w < |ws|
    ensures ResolvedBy(ws[w := v]) == ResolvedBy(ws) - ws[w].resolved + v.resolved
  {
    var n := |ws| - 1;
    if w == n {
      assert ws[w := v][..n] == ws[..n];
    } else {
      assert ws[w := v][..n] == ws[..n][w := v];
      ResolvedOneWorker(ws[..n], w, v);
    }
  }

  lemma {:induction false} ResolvedByIdlers(n: nat)
    ensures ResolvedBy(Idlers(n)) == 0
  {
    if n > 0 {
      assert Idlers(n)[..n - 1] == Idlers(n - 1);
      ResolvedByIdlers(n - 1);
    }
  }

  lemma StartKeepsInv(s: State, e: Event)
    requires Inv(s) && Enabled(s, e) && (e.StartBurst? || e.StartSequential?)
    ensures Inv(Next(s, e))
  {
    var t := Next(s, e);
    ResolvedByIdlers(|t.workers|);
    assert forall id :: HeldBySome(s, id) ==> false;
  }

  lemma ClaimKeepsHolding(s: State, e: Event)
    requires Inv(s) && Enabled(s, e) && e.Claim?
    ensures HeldAsClaimed(Next(s, e)) && OneHolderEach(Next(s, e)) && RunningIsHeld(Next(s, e))
  {
    var t := Next(s, e);
    assert HeldBySome(t, e.id) by {
      assert HasJob(t.workers[e.w].pc);
    }
    StillHeld(s, t, e.w);
    forall i | 0 <= i < |s.workers| && HasJob(s.workers[i].pc)
      ensures s.workers[i].pc.job.id != e.id
    {
      assert s.rows[e.id].state == Pending;
    }
  }

  lemma ClaimKeepsRows(s: State, e: Event)
    requires Inv(s) && Enabled(s, e) && e.Claim?
    ensures IdsKept(Next(s, e)) && AttemptsExact(Next(s, e)) && EndingsJustified(Next(s, e))
  {
    var t := Next(s, e);
    assert forall id :: Interruptions(t, id) == Interruptions(s, id);
    assert forall id :: id in s.rows && id != e.id ==> t.rows[id] == s.rows[id];
    forall i | 0 <= i < |t.workers| && t.workers[i].pc.Writing?
      ensures VerdictJustified(t, t.workers[i].pc)
    {
      assert i != e.w && t.workers[i] == s.workers[i] && VerdictJustified(s, s.workers[i].pc);
    }
  }

  lemma ClaimKeepsInv(s: State, e: Event)
    requires Inv(s) && Enabled(s, e) && e.Claim?
    ensures Inv(Next(s, e))
  {
    var t := Next(s, e);
    ResolvedOneWorker(s.workers, e.w, t.workers[e.w]);
    ClaimKeepsHolding(s, e);
    ClaimKeepsRows(s, e);
    if s.cap.Some? {
      assert WithinCap(s.workers[e.w], s.cap.value) && WithinCap(t.workers[e.w], s.cap.value);
    }
  }

  /** The other workers keep what they hold. */
  lemma StillHeld(s: State, t: State, w: nat)
    requires w < |s.workers| == |t.workers| && t.workers == s.workers[w := t.workers[w]]
    ensures forall id :: HeldBySome(s, id) && !(HasJob(s.workers[w].pc) && s.workers[w].pc.job.id == id) ==> HeldBySome(t, id)
    ensures HasJob(s.workers[w].pc) && HasJob(t.workers[w].pc) && s.workers[w].pc.job.id == t.workers[w].pc.job.id ==>
              forall id :: HeldBySome(s, id) ==> HeldBySome(t, id)
  {
    forall id | HeldBySome(s, id)
      ensures HeldBySome(t, id) || (HasJob(s.workers[w].pc) && s.workers[w].pc.job.id == id)
    {
      var i :| 0 <= i < |s.workers| && HasJob(s.workers[i].pc) && s.workers[i].pc.job.id == id;
      if i != w {
        assert t.workers[i] == s.workers[i];
      }
    }
    if HasJob(s.workers[w].pc) && HasJob(t.workers[w].pc) {
      assert HeldBySome(t, t.workers[w].pc.job.id);
    }
  }

  /** A worker that only moves on with the job it has; the history sets may grow. */
  ghost predicate MovedOn(s: State, t: State, w: nat, pc: Pc) {
    && w < |s.workers| && HasJob(s.workers[w].pc) && HasJob(pc) && pc.job == s.workers[w].pc.job
    && t == s.(workers := s.workers[w := s.workers[w].(pc := pc)],
               succeeded := t.succeeded, fatal := t.fatal, seenRemoved := t.seenRemoved)
    && s.succeeded <= t.succeeded && s.fatal <= t.fatal && s.seenRemoved <= t.seenRemoved
  }

  lemma MovingOnKeepsInv(s: State, t: State, w: nat, pc: Pc)
    requires Inv(s) && MovedOn(s, t, w, pc)
    requires pc.Writing? ==> VerdictJustified(t, pc)
    ensures Inv(t)
  {
    ResolvedOneWorker(s.workers, w, t.workers[w]);
    StillHeld(s, t, w);
    assert HeldAsClaimed(t) && OneHolderEach(t) && RunningIsHeld(t);
    forall i | 0 <= i < |t.workers| && t.workers[i].pc.Writing?
      ensures VerdictJustified(t, t.workers[i].pc)
    {
      if i != w {
        assert t.workers[i] == s.workers[i];
        assert VerdictJustified(s, s.workers[i].pc);
      }
    }
    assert EndingsJustified(t);
    assert WithinCapSame(s.workers[w], t.workers[w]);
    assert CountersExact(t);
    assert IdsKept(t) && AttemptsExact(t);
  }

  predicate WithinCapSame(a: Worker, b: Worker) {
    a.resolved == b.resolved && a.localDone == b.localDone && HasJob(a.pc) == HasJob(b.pc)
  }

  lemma InspectKeepsInv(s: State, e: Event)
    requires Inv(s) && Enabled(s, e) && e.Inspect?
    ensures Inv(Next(s, e))
  {
    var job := s.workers[e.w].pc.job;
    var early := BeforeHandler(job.task.change, s.removed, s.sequential);
    MovingOnKeepsInv(s, Next(s, e), e.w, if early.None? then Handling(job) else Writing(job, early.value));
  }

  /** What a reply can be turned into. */
  lemma VerdictOfReply(change: Option<Change>, answer: Answer, now: int, removed: seq<string>)
    ensures var v := AfterHandler(change, answer, now, removed);
            && (v == Succeeded <==> answer == Ok)
            && (v == FailedFatally <==> FatalAnswer(answer))
            && (v == DroppedInFlight ==> change.Some? && UnderAny(change.value.path, removed))
            && v != Dropped && v != Unreadable
  {
  }

  lemma ReplyKeepsInv(s: State, e: Event)
    requires Inv(s) && Enabled(s, e) && e.Reply?
    ensures Inv(Next(s, e))
  {
    var job := s.workers[e.w].pc.job;
    VerdictOfReply(job.task.change, e.answer, job.now, s.removed);
    MovingOnKeepsInv(s, Next(s, e), e.w, Writing(job, AfterHandler(job.task.change, e.answer, job.now, s.removed)));
  }

  /** The row of the written task has left RUNNING, with the attempt refunded when it was put back. */
  lemma SettledRow(row: Task, task: Task, v: Verdict, now: int)
    requires row == task
    ensures var r := Settled(row, task, v, now);
            && r.state != Running
            && (r.state == Pending ==> r.attempts == task.attempts - 1)
            && (r.state != Pending ==> r.attempts == task.attempts)
            && (r.state == Done ==> v == Succeeded || v == Dropped || v == DroppedInFlight)
            && (r.state == Failed ==> v == FailedFatally || v == Unreadable)
  {
  }

  lemma WriteKeepsRows(s: State, t: State, w: nat)
    requires Inv(s) && w < |s.workers| && s.workers[w].pc.Writing? && t == WriteStep(s, w)
    ensures IdsKept(t) && AttemptsExact(t) && EndingsJustified(t)
  {
    var Writing(job, v) := s.workers[w].pc;
    assert VerdictJustified(s, s.workers[w].pc);
    if job.id in s.rows {
      SettledRow(s.rows[job.id], job.task, v, job.now);
      assert t.rows[job.id] == Settled(s.rows[job.id], job.task, v, job.now);
    }
    assert forall id :: id in t.rows && id != job.id ==> t.rows[id] == s.rows[id];
    forall i | 0 <= i < |t.workers| && t.workers[i].pc.Writing?
      ensures VerdictJustified(t, t.workers[i].pc)
    {
      assert i != w && t.workers[i] == s.workers[i];
      assert VerdictJustified(s, s.workers[i].pc);
    }
  }

  lemma WriteKeepsHolding(s: State, t: State, w: nat)
    requires Inv(s) && w < |s.workers| && s.workers[w].pc.Writing? && t == WriteStep(s, w)
    ensures HeldAsClaimed(t) && OneHolderEach(t) && RunningIsHeld(t)
  {
    var Writing(job, v) := s.workers[w].pc;
    StillHeld(s, t, w);
    if job.id in s.rows {
      SettledRow(s.rows[job.id], job.task, v, job.now);
    }
    forall i | 0 <= i < |t.workers| && HasJob(t.workers[i].pc)
      ensures i != w && t.workers[i] == s.workers[i] && t.workers[i].pc.job.id != job.id
    {
      assert i != w && t.workers[i] == s.workers[i];
      assert if i < w then s.workers[i].pc.job.id != s.workers[w].pc.job.id else s.workers[w].pc.job.id != s.workers[i].pc.job.id;
    }
  }

  lemma WriteKeepsInv(s: State, e: Event)
    requires Inv(s) && Enabled(s, e) && e.Write?
    ensures Inv(Next(s, e))
  {
    var t := Next(s, e);
    ResolvedOneWorker(s.workers, e.w, t.workers[e.w]);
    WriteKeepsRows(s, t, e.w);
    WriteKeepsHolding(s, t, e.w);
    if s.cap.Some? {
      assert WithinCap(s.workers[e.w], s.cap.value);
      assert WithinCap(t.workers[e.w], s.cap.value);
    }
  }

  lemma LeaveKeepsHolding(s: State, e: Event)
    requires Inv(s) && Enabled(s, e) && e.Leave?
    ensures HeldAsClaimed(Next(s, e)) && OneHolderEach(Next(s, e)) && RunningIsHeld(Next(s, e))
  {
    hide IdsKept, AttemptsExact, EndingsJustified, CountersExact;
    StillHeld(s, Next(s, e), e.w);
  }

  lemma LeaveKeepsCounts(s: State, e: Event)
    requires Inv(s) && Enabled(s, e) && e.Leave?
    ensures EndingsJustified(Next(s, e)) && CountersExact(Next(s, e))
  {
    hide IdsKept, AttemptsExact, HeldAsClaimed, OneHolderEach, RunningIsHeld;
    ResolvedOneWorker(s.workers, e.w, Next(s, e).workers[e.w]);
  }

  lemma LeaveKeepsInv(s: State, e: Event)
    requires Inv(s) && Enabled(s, e) && e.Leave?
    ensures Inv(Next(s, e))
  {
    hide HeldAsClaimed, OneHolderEach, RunningIsHeld, EndingsJustified, CountersExact;
    LeaveKeepsHolding(s, e);
    LeaveKeepsCounts(s, e);
  }

  lemma InsertKeepsInv(s: State, e: Event)
    requires Inv(s) && Enabled(s, e) && e.Insert?
    ensures Inv(Next(s, e))
  {
    var t := Next(s, e);
    assert forall id :: HeldBySome(s, id) ==> HeldBySome(t, id);
    assert Interruptions(t, s.nextId) == 0;
    assert forall id :: Interruptions(t, id) == Interruptions(s, id);
    assert forall i :: 0 <= i < |s.workers| && s.workers[i].pc.Writing? && VerdictJustified(s, s.workers[i].pc) ==>
             VerdictJustified(t, t.workers[i].pc);
  }

  lemma DeleteKeepsInv(s: State, e: Event)
    requires Inv(s) && Enabled(s, e) && (e.DeleteTask? || e.SetRemoved?)
    ensures Inv(Next(s, e))
  {
    var t := Next(s, e);
    assert forall id :: HeldBySome(s, id) ==> HeldBySome(t, id);
    assert forall id :: Interruptions(t, id) == Interruptions(s, id);
    assert forall i :: 0 <= i < |s.workers| && s.workers[i].pc.Writing? && VerdictJustified(s, s.workers[i].pc) ==>
             VerdictJustified(t, t.workers[i].pc);
  }

  lemma DrainKeepsInv(s: State, e: Event)
    requires Inv(s) && Enabled(s, e) && e.PausedDrain?
    ensures Inv(Next(s, e))
  {
    var t := Next(s, e);
    assert t.workers == s.workers;
    assert forall id :: HeldBySome(s, id) ==> HeldBySome(t, id);
    assert forall id :: Interruptions(t, id) == Interruptions(s, id);
    assert forall id :: id in t.rows && id != e.id ==> t.rows[id] == s.rows[id];
  }

  lemma CrashKeepsInv(s: State, e: Event)
    requires Inv(s) && Enabled(s, e) && e.Crash?
    ensures Inv(Next(s, e))
  {
    var t := Next(s, e);
    assert forall id :: Interruptions(t, id) == Interruptions(s, id);
  }

  lemma RecoveredRowFacts(t: Task, now: int)
    ensures RecoveredRow(t, now).attempts == t.attempts
    ensures RecoveredRow(t, now).state == if t.state == Running then Pending else t.state
  {
  }

  lemma StartUpKeepsInv(s: State, e: Event)
    requires Inv(s) && Enabled(s, e) && e.StartUp?
    ensures Inv(Next(s, e))
  {
    var t := Next(s, e);
    forall id | id in t.rows
      ensures id in s.rows && t.rows[id].state != Running
      ensures t.rows[id].state == Pending ==> t.rows[id].attempts == Interruptions(t, id)
      ensures 0 <= t.rows[id].attempts - Interruptions(t, id) <= 1
      ensures t.rows[id].state == Done || t.rows[id].state == Failed ==> t.rows[id].state == s.rows[id].state
    {
      assert t.rows[id] == RecoveredRow(s.rows[id], e.now);
      RecoveredRowFacts(s.rows[id], e.now);
      assert Interruptions(t, id) == Interruptions(s, id) + (if s.rows[id].state == Running then 1 else 0);
    }
    assert AttemptsExact(t);
    assert EndingsJustified(t);
    assert IdsKept(t);
    assert CountersExact(t);
  }

  lemma StepKeepsInv(s: State, e: Event)
    requires Inv(s) && Enabled(s, e)
    ensures Inv(Next(s, e))
  {
    match e
    case StartBurst(_, _) => StartKeepsInv(s, e);
    case StartSequential => StartKeepsInv(s, e);
    case Claim(_, _, _, _, _) => ClaimKeepsInv(s, e);
    case Inspect(_) => InspectKeepsInv(s, e);
    case Reply(_, _) => ReplyKeepsInv(s, e);
    case Write(_) => WriteKeepsInv(s, e);
    case Leave(_) => LeaveKeepsInv(s, e);
    case Insert(_) => InsertKeepsInv(s, e);
    case DeleteTask(_) => DeleteKeepsInv(s, e);
    case SetRemoved(_) => DeleteKeepsInv(s, e);
    case PausedDrain(_, _, _) => DrainKeepsInv(s, e);
    case Crash => CrashKeepsInv(s, e);
    case StartUp(_) => StartUpKeepsInv(s, e);
  }

  // ---- whole runs ---------------------------------------------------------------------------

  ghost predicate AllEnabled(s: State, es: seq<Event>)
    decreases |es|
  {
    es == [] || (Enabled(s, es[0]) && AllEnabled(Next(s, es[0]), es[1..]))
  }

  function Run(s: State, es: seq<Event>): State
    requires AllEnabled(s, es)
    decreases |es|
  {
    if es == [] then s else Run(Next(s, es[0]), es[1..])
  }

  lemma {:induction false} RunKeepsInv(s: State, es: seq<Event>)
    requires Inv(s) && AllEnabled(s, es)
    ensures Inv(Run(s, es))
    decreases |es|
  {
    if es != [] {
      StepKeepsInv(s, es[0]);
      RunKeepsInv(Next(s, es[0]), es[1..]);
    }
  }

  lemma InitialInv()
    ensures Inv(INITIAL)
  {
  }

  /**
   * In every run: an id that was handed out is in the table until somebody deletes it; no two
   * workers hold the same one; while the daemon is up a RUNNING row has a worker, and a worker's
   * row is RUNNING; and when the last worker of a burst has left, nothing is RUNNING.
   */
  lemma NoTaskLostOrHeldTwice(es: seq<Event>)
    requires AllEnabled(INITIAL, es)
    ensures var s := Run(INITIAL, es);
            && (forall id :: 1 <= id < s.nextId ==> id in s.rows || id in s.deleted)
            && (forall i, j :: 0 <= i < j < |s.workers| && HasJob(s.workers[i].pc) && HasJob(s.workers[j].pc) ==>
                  s.workers[i].pc.job.id != s.workers[j].pc.job.id)
            && (s.up ==> forall id :: id in s.rows ==> (s.rows[id].state == Running <==> HeldBySome(s, id)))
            && (s.up && Quiet(s) ==> forall id :: id in s.rows ==> s.rows[id].state != Running)
  {
    InitialInv();
    RunKeepsInv(INITIAL, es);
  }

  /**
   * In every run, a task is DONE only if its handler succeeded or its path was seen under a
   * removed root, FAILED only if it was unreadable or its handler failed for good; and the
   * attempts of a task that waits are exactly the crashes it was running in: neither busy
   * answers, pauses, shutdowns nor cancellations show in them.
   */
  lemma EndingsAndAttempts(es: seq<Event>, id: TaskId)
    requires AllEnabled(INITIAL, es) && id in Run(INITIAL, es).rows
    ensures var s := Run(INITIAL, es);
            && (s.rows[id].state == Done ==> id in s.succeeded || id in s.seenRemoved)
            && (s.rows[id].state == Failed ==> id in s.fatal)
            && (s.rows[id].state == Pending ==> s.rows[id].attempts == Interruptions(s, id))
            && (s.rows[id].state == Running ==> s.rows[id].attempts == Interruptions(s, id) + 1)
  {
    InitialInv();
    RunKeepsInv(INITIAL, es);
  }

  lemma SucceededBy(s: State, e: Event, id: TaskId)
    requires Enabled(s, e) && id in Next(s, e).succeeded && id !in s.succeeded
    ensures e.Reply? && e.answer == Ok && s.workers[e.w].pc.job.id == id
  {
  }

  lemma FatalBy(s: State, e: Event, id: TaskId)
    requires Enabled(s, e) && id in Next(s, e).fatal && id !in s.fatal
    ensures || (e.Reply? && FatalAnswer(e.answer) && s.workers[e.w].pc.job.id == id)
            || (e.Inspect? && s.workers[e.w].pc.job.id == id && s.workers[e.w].pc.job.task.change == None)
  {
  }

  lemma SeenRemovedBy(s: State, e: Event, id: TaskId)
    requires Enabled(s, e) && id in Next(s, e).seenRemoved && id !in s.seenRemoved
    ensures || (e.PausedDrain? && e.id == id && UnderAny(s.rows[id].change.value.path, s.removed))
            || ((e.Reply? || e.Inspect?) && s.workers[e.w].pc.job.id == id
                && UnderAny(s.workers[e.w].pc.job.task.change.value.path, s.removed))
  {
    hide UnderAny;
  }

  lemma DeletedBy(s: State, e: Event, id: TaskId)
    requires Enabled(s, e) && id in Next(s, e).deleted && id !in s.deleted
    ensures e == DeleteTask(id)
  {
  }

  lemma InterruptedBy(s: State, e: Event, id: TaskId)
    requires Enabled(s, e) && Interruptions(Next(s, e), id) > Interruptions(s, id)
    ensures e.StartUp? && id in s.rows && s.rows[id].state == Running && Interruptions(Next(s, e), id) == Interruptions(s, id) + 1
  {
  }

  /** What the recorded causes stand for: each is entered by exactly the event it is named after. */
  lemma CausesAreEvents(s: State, e: Event, id: TaskId)
    requires Inv(s) && Enabled(s, e)
    ensures var t := Next(s, e);
            && (id in t.succeeded && id !in s.succeeded ==>
                  e.Reply? && e.answer == Ok && s.workers[e.w].pc.job.id == id)
            && (id in t.fatal && id !in s.fatal ==>
                  || (e.Reply? && FatalAnswer(e.answer) && s.workers[e.w].pc.job.id == id)
                  || (e.Inspect? && s.workers[e.w].pc.job.id == id && s.workers[e.w].pc.job.task.change == None))
            && (id in t.seenRemoved && id !in s.seenRemoved ==>
                  || (e.PausedDrain? && e.id == id && UnderAny(s.rows[id].change.value.path, s.removed))
                  || ((e.Reply? || e.Inspect?) && s.workers[e.w].pc.job.id == id
                      && UnderAny(s.workers[e.w].pc.job.task.change.value.path, s.removed)))
            && (id in t.deleted && id !in s.deleted ==> e == DeleteTask(id))
            && (Interruptions(t, id) > Interruptions(s, id) ==>
                  e.StartUp? && id in s.rows && s.rows[id].state == Running && Interruptions(t, id) == Interruptions(s, id) + 1)
  {
    hide Next, Inv, Interruptions;
    var t := Next(s, e);
    if id in t.succeeded && id !in s.succeeded {
      SucceededBy(s, e, id);
    }
    if id in t.fatal && id !in s.fatal {
      FatalBy(s, e, id);
    }
    if id in t.seenRemoved && id !in s.seenRemoved {
      SeenRemovedBy(s, e, id);
    }
    if id in t.deleted && id !in s.deleted {
      DeletedBy(s, e, id);
    }
    if Interruptions(t, id) > Interruptions(s, id) {
      InterruptedBy(s, e, id);
    }
  }

  /** DONE and FAILED are final: the row stays as it is until it is deleted. */
  lemma StepKeepsEnded(s: State, e: Event, id: TaskId)
    requires Inv(s) && Enabled(s, e) && id in s.rows && s.rows[id].state in {Done, Failed}
    ensures var t := Next(s, e);
            (id in t.rows && t.rows[id] == s.rows[id]) || (e == DeleteTask(id) && id in t.deleted)
  {
    match e
    case Write(w) =>
      assert HasJob(s.workers[w].pc);
    case Claim(_, _, _, _, _) =>
    case _ =>
  }

  lemma {:induction false} EndedIsFinal(s: State, es: seq<Event>, id: TaskId)
    requires Inv(s) && AllEnabled(s, es) && id in s.rows && s.rows[id].state in {Done, Failed}
    ensures var t := Run(s, es);
            (id in t.rows && t.rows[id] == s.rows[id]) || DeleteTask(id) in es
    decreases |es|
  {
    if es != [] {
      StepKeepsInv(s, es[0]);
      StepKeepsEnded(s, es[0], id);
      if es[0] != DeleteTask(id) {
        EndedIsFinal(Next(s, es[0]), es[1..], id);
        if DeleteTask(id) in es[1..] {
          assert DeleteTask(id) in es;
        }
      } else {
        assert es[0] in es;
      }
    }
  }

  /** Without a crash no waiting task has an attempt to its name, however often it was put back. */
  lemma {:induction false} NoCrashNoAttempts(s: State, es: seq<Event>)
    requires Inv(s) && AllEnabled(s, es) && Crash !in es
    requires forall id :: Interruptions(s, id) == 0
    requires !s.up ==> forall id :: id in s.rows ==> s.rows[id].state != Running
    ensures var t := Run(s, es);
            forall id :: id in t.rows && t.rows[id].state == Pending ==> t.rows[id].attempts == 0
    decreases |es|
  {
    if es == [] {
      forall id | id in s.rows && s.rows[id].state == Pending
        ensures s.rows[id].attempts == 0
      {
        assert Interruptions(s, id) == 0;
      }
    } else {
      var t := Next(s, es[0]);
      StepKeepsInv(s, es[0]);
      StillNoInterruptions(s, es[0]);
      assert es[0] in es && forall e :: e in es[1..] ==> e in es;
      NoCrashNoAttempts(t, es[1..]);
      assert Run(s, es) == Run(t, es[1..]);
    }
  }

  lemma StillNoInterruptions(s: State, e: Event)
    requires Inv(s) && Enabled(s, e) && e != Crash
    requires forall id :: Interruptions(s, id) == 0
    requires !s.up ==> forall id :: id in s.rows ==> s.rows[id].state != Running
    ensures forall id :: Interruptions(Next(s, e), id) == 0
    ensures !Next(s, e).up ==> forall id :: id in Next(s, e).rows ==> Next(s, e).rows[id].state != Running
  {
    forall id
      ensures Interruptions(Next(s, e), id) == 0
    {
      CausesAreEvents(s, e, id);
    }
  }

  // ---- the size of a burst ------------------------------------------------------------------

  ghost predicate WithinBurst(es: seq<Event>) {
    forall e :: e in es ==> !e.StartBurst? && !e.StartSequential? && !e.Crash?
  }

  lemma {:induction false} BurstKeepsItsSize(s: State, es: seq<Event>)
    requires s.up && AllEnabled(s, es) && WithinBurst(es)
    ensures |Run(s, es).workers| == |s.workers| && Run(s, es).cap == s.cap
    decreases |es|
  {
    if es != [] {
      assert es[0] in es && forall e :: e in es[1..] ==> e in es;
      BurstKeepsItsSize(Next(s, es[0]), es[1..]);
    }
  }

  lemma {:induction false} ResolvedAtMost(ws: seq<Worker>, cap: nat)
    requires forall i :: 0 <= i < |ws| ==> WithinCap(ws[i], cap)
    ensures ResolvedBy(ws) <= |ws| * cap
  {
    if ws != [] {
      var n := |ws| - 1;
      ResolvedAtMost(ws[..n], cap);
      assert WithinCap(ws[n], cap);
      assert (n + 1) * cap == n * cap + cap;
    }
  }

  lemma CapTimesBudget(chunk: nat, budget: nat)
    requires chunk >= 1 && budget >= 1
    ensures chunk <= budget * PerWorkerCap(chunk, budget) < chunk + budget
  {
    var n := chunk + budget - 1;
    assert n == budget * (n / budget) + n % budget;
    assert budget * 1 <= n;
    assert n / budget >= 1;
  }

  /**
   * However the workers of a burst interleave and however many busy answers give a claim back,
   * a burst processes or fails at most budget times the per-worker cap of tasks: fewer than
   * chunk + budget.
   */
  lemma BurstBound(before: seq<Event>, budget: nat, chunk: nat, within: seq<Event>)
    requires AllEnabled(INITIAL, before) && Enabled(Run(INITIAL, before), StartBurst(budget, Some(chunk)))
    requires AllEnabled(Next(Run(INITIAL, before), StartBurst(budget, Some(chunk))), within) && WithinBurst(within)
    ensures var t := Run(Next(Run(INITIAL, before), StartBurst(budget, Some(chunk))), within);
            && t.counted <= budget * PerWorkerCap(chunk, budget)
            && (chunk >= 1 ==> t.counted < chunk + budget)
  {
    InitialInv();
    RunKeepsInv(INITIAL, before);
    var s := Next(Run(INITIAL, before), StartBurst(budget, Some(chunk)));
    StepKeepsInv(Run(INITIAL, before), StartBurst(budget, Some(chunk)));
    RunKeepsInv(s, within);
    BurstKeepsItsSize(s, within);
    ResolvedAtMost(Run(s, within).workers, PerWorkerCap(chunk, budget));
    if chunk >= 1 {
      CapTimesBudget(chunk, budget);
    }
  }
}

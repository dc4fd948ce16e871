/**
 * At most one decode per content hash: threads wait while a hash is in flight, and a wait can be
 * abandoned on shutdown or cancellation. Threads are interchangeable, so each hash has a count of
 * waiting threads, of live guards and of waits abandoned so far.
 */
module SingleFlight {
  type Hash = int

  datatype State = State(inFlight: set<Hash>, waiting: multiset<Hash>, live: multiset<Hash>, abandoned: multiset<Hash>)

  /** `giveUp`: shutdown was requested or the caller's cancel flag is set when the thread looks. */
  datatype Event =
    | Begin(h: Hash, giveUp: bool)
    | Wake(h: Hash, giveUp: bool)    // notified, or the timed wait ran out
    | Drop(h: Hash)

  predicate Enabled(s: State, e: Event) {
    match e
    case Begin(_, _) => true
    case Wake(h, _) => h in s.waiting
    case Drop(h) => h in s.live
  }

  /** What a thread does when it holds the mutex and looks at the set. */
  function Look(s: State, h: Hash, giveUp: bool): State {
    if h !in s.inFlight then s.(inFlight := s.inFlight + {h}, live := s.live + multiset{h})
    else if giveUp then s.(live := s.live + multiset{h}, abandoned := s.abandoned + multiset{h})
    else s.(waiting := s.waiting + multiset{h})
  }

  function Next(s: State, e: Event): State
    requires Enabled(s, e)
  {
    match e
    case Begin(h, giveUp) => Look(s, h, giveUp)
    case Wake(h, giveUp) => Look(s.(waiting := s.waiting - multiset{h}), h, giveUp)
    case Drop(h) => s.(inFlight := s.inFlight - {h}, live := s.live - multiset{h})
  }

  const INITIAL: State := State({}, multiset{}, multiset{}, multiset{})

  ghost predicate Inv(s: State) {
    forall h ::
      && s.live[h] <= (if h in s.inFlight then 1 else 0) + s.abandoned[h]
      && (h in s.inFlight ==> s.live[h] > 0)
  }

  lemma StepKeepsInv(s: State, e: Event)
    requires Inv(s) && Enabled(s, e)
    ensures Inv(Next(s, e))
  {
  }

  ghost predicate AllEnabled(s: State, es: seq<Event>)
    decreases |es|
  {
    es == [] || (Enabled(s, es[0]) && AllEnabled(Next(s, es[0]), es[1..]))
  }

  function Run(s: State, es: seq<Event>): State
    requires AllEnabled(s, es)
    decreases |es|
  {
    if es == [] then s else Run(Next(s, es[0]), es[1..])
  }

  lemma {:induction false} RunKeepsInv(s: State, es: seq<Event>)
    requires Inv(s) && AllEnabled(s, es)
    ensures Inv(Run(s, es))
    decreases |es|
  {
    if es != [] {
      StepKeepsInv(s, es[0]);
      RunKeepsInv(Next(s, es[0]), es[1..]);
    }
  }

  /**
   * In every run, the guards of a hash outnumber its entry in the set by at most the waits on it
   * that were abandoned; a hash nobody gave up on has at most one guard, and is in the set
   * exactly while that guard lives.
   */
  lemma GuardsBounded(es: seq<Event>, h: Hash)
    requires AllEnabled(INITIAL, es)
    ensures var s := Run(INITIAL, es);
            && s.live[h] <= (if h in s.inFlight then 1 else 0) + s.abandoned[h]
            && (s.abandoned[h] == 0 ==> s.live[h] <= 1 && (h in s.inFlight <==> s.live[h] == 1))
  {
    RunKeepsInv(INITIAL, es);
  }

  /** In no state of the run do two threads hold the hash. */
  ghost predicate NeverTwo(s: State, es: seq<Event>, h: Hash)
    requires AllEnabled(s, es)
    decreases |es|
  {
    s.live[h] <= 1 && (es == [] || NeverTwo(Next(s, es[0]), es[1..], h))
  }

  lemma {:induction false} AbandonedStays(s: State, es: seq<Event>, h: Hash)
    requires AllEnabled(s, es)
    ensures s.abandoned[h] <= Run(s, es).abandoned[h]
    decreases |es|
  {
    if es != [] {
      AbandonedStays(Next(s, es[0]), es[1..], h);
    }
  }

  lemma {:induction false} NeverTwoFrom(s: State, es: seq<Event>, h: Hash)
    requires Inv(s) && AllEnabled(s, es) && s.abandoned[h] == 0
    ensures NeverTwo(s, es, h) <==> Run(s, es).abandoned[h] == 0
    decreases |es|
  {
    if es != [] {
      var t := Next(s, es[0]);
      StepKeepsInv(s, es[0]);
      if t.abandoned[h] == 0 {
        NeverTwoFrom(t, es[1..], h);
      } else {
        // The thread gives up while the hash is held: now there are two guards.
        AbandonedStays(t, es[1..], h);
        assert t.live[h] == s.live[h] + 1 && h in s.inFlight;
      }
    }
  }

  /**
   * A hash has at most one guard in every state of a run if and only if nobody gave up waiting
   * for it in that run.
   */
  lemma OneGuardUnlessAbandoned(es: seq<Event>, h: Hash)
    requires AllEnabled(INITIAL, es)
    ensures NeverTwo(INITIAL, es, h) <==> Run(INITIAL, es).abandoned[h] == 0
  {
    NeverTwoFrom(INITIAL, es, h);
  }

  /** Once the guards of a hash are gone nothing holds its waiters back: the next one to look gets in. */
  lemma NoEntryOutlivesItsGuards(es: seq<Event>, h: Hash)
    requires AllEnabled(INITIAL, es) && Run(INITIAL, es).live[h] == 0
    ensures h !in Run(INITIAL, es).inFlight
    ensures h in Run(INITIAL, es).waiting ==>
              Next(Run(INITIAL, es), Wake(h, false)).live[h] == 1 && h in Next(Run(INITIAL, es), Wake(h, false)).inFlight
  {
    RunKeepsInv(INITIAL, es);
  }

  /** With one abandoned wait the exclusion does not heal: a guard that leaves opens the door for two. */
  lemma AbandonedWaitLingers(s: State, h: Hash)
    requires h in s.inFlight && s.live[h] == 2
    ensures var dropped := Next(s, Drop(h));
            && dropped.live[h] == 1 && h !in dropped.inFlight
            && Next(dropped, Begin(h, false)).live[h] == 2 && h in Next(dropped, Begin(h, false)).inFlight
  {
    assert (s.live - multiset{h})[h] == 1;
  }

  /** Such a state is reached by one ordinary guard and one waiter that gives up. */
  lemma AbandonedWaitDoubles(h: Hash)
    ensures AllEnabled(INITIAL, [Begin(h, false), Begin(h, true)])
    ensures var s := Run(INITIAL, [Begin(h, false), Begin(h, true)]);
            h in s.inFlight && s.live[h] == 2 && s.abandoned[h] == 1
  {
    var s1 := Next(INITIAL, Begin(h, false));
    assert h in s1.inFlight && s1.live[h] == 1;
    var es := [Begin(h, false), Begin(h, true)];
    assert es[1..] == [Begin(h, true)] && es[1..][1..] == [];
    var s2 := Next(s1, Begin(h, true));
    assert AllEnabled(s2, []) && Run(s2, []) == s2;
    assert AllEnabled(s1, es[1..]) && Run(s1, es[1..]) == s2;
  }
}

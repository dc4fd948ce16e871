/**
 * The lock-free decode gates: load, compare with the capacity, compare-and-swap, retry. The
 * capacity may be changed at any moment and a weak exchange may fail for no reason. Threads that
 * stand at the same step with the same loaded value are interchangeable.
 */
module DecodeGates {
  import opened Common

  /** `largest` is the largest capacity there ever was; it only records history. */
  datatype State = State(
    inUse: nat, capacity: nat,
    loaded: multiset<nat>,     // about to compare their value with the capacity
    passed: multiset<nat>,     // compared, about to exchange
    guards: nat,
    largest: nat)

  datatype Event =
    | Load
    | Compare(current: nat)
    | Exchange(current: nat, spurious: bool)
    | DropGuard
    | SetCapacity(capacity: nat)

  predicate Enabled(s: State, e: Event) {
    match e
    case Load => true
    case Compare(c) => c in s.loaded
    case Exchange(c, _) => c in s.passed
    case DropGuard => s.guards > 0
    case SetCapacity(_) => true
  }

  const WORD: nat := 0x1_0000_0000_0000_0000

  /** fetch_sub wraps around at zero. */
  function Decrement(n: nat): nat {
    if n == 0 then WORD - 1 else n - 1
  }

  function Next(s: State, e: Event): State
    requires Enabled(s, e)
  {
    match e
    case Load => s.(loaded := s.loaded + multiset{s.inUse})
    case Compare(c) =>
      if c >= s.capacity then s.(loaded := s.loaded - multiset{c})
      else s.(loaded := s.loaded - multiset{c}, passed := s.passed + multiset{c})
    case Exchange(c, spurious) =>
      if s.inUse == c && !spurious then
        s.(inUse := c + 1, guards := s.guards + 1, passed := s.passed - multiset{c})
      else s.(passed := s.passed - multiset{c}, loaded := s.loaded + multiset{s.inUse})
    case DropGuard => s.(inUse := Decrement(s.inUse), guards := s.guards - 1)
    case SetCapacity(n) => s.(capacity := Max(n, 1), largest := Max(s.largest, Max(n, 1)))
  }

  function Initial(capacity: nat): State {
    State(0, Max(capacity, 1), multiset{}, multiset{}, 0, Max(capacity, 1))
  }

  ghost predicate Inv(s: State) {
    && s.inUse == s.guards
    && 1 <= s.capacity <= s.largest
    && s.inUse <= s.largest
    && forall c :: c in s.passed ==> c < s.largest
  }

  lemma StepKeepsInv(s: State, e: Event)
    requires Inv(s) && Enabled(s, e)
    ensures Inv(Next(s, e))
    ensures Next(s, e).largest >= s.largest
  {
  }

  ghost predicate AllEnabled(s: State, es: seq<Event>)
    decreases |es|
  {
    es == [] || (Enabled(s, es[0]) && AllEnabled(Next(s, es[0]), es[1..]))
  }

  function Run(s: State, es: seq<Event>): State
    requires AllEnabled(s, es)
    decreases |es|
  {
    if es == [] then s else Run(Next(s, es[0]), es[1..])
  }

  lemma {:induction false} RunKeepsInv(s: State, es: seq<Event>)
    requires Inv(s) && AllEnabled(s, es)
    ensures Inv(Run(s, es))
    ensures Run(s, es).largest == Largest(s.largest, es)
    decreases |es|
  {
    if es != [] {
      StepKeepsInv(s, es[0]);
      RunKeepsInv(Next(s, es[0]), es[1..]);
    }
  }

  /** The largest capacity a run sets, starting from the given one. */
  function Largest(start: nat, es: seq<Event>): nat
    decreases |es|
  {
    if es == [] then start
    else Largest(if es[0].SetCapacity? then Max(start, Max(es[0].capacity, 1)) else start, es[1..])
  }

  /**
   * In every interleaving the counter is the number of live guards, dropping one never wraps
   * around, and the counter never exceeds the largest capacity that was ever set.
   */
  lemma GateCountsGuards(capacity: nat, es: seq<Event>)
    requires AllEnabled(Initial(capacity), es)
    ensures var s := Run(Initial(capacity), es);
            && s.inUse == s.guards
            && (s.guards > 0 ==> Next(s, DropGuard).inUse == s.inUse - 1)
            && s.inUse <= Largest(Max(capacity, 1), es)
  {
    RunKeepsInv(Initial(capacity), es);
  }

  /** Without capacity changes the gate admits at most its capacity. */
  lemma FixedCapacity(capacity: nat, es: seq<Event>)
    requires AllEnabled(Initial(capacity), es)
    requires forall k :: 0 <= k < |es| ==> !es[k].SetCapacity?
    ensures Run(Initial(capacity), es).guards <= Max(capacity, 1)
  {
    GateCountsGuards(capacity, es);
    NoChangeNoGrowth(Max(capacity, 1), es);
  }

  lemma {:induction false} NoChangeNoGrowth(start: nat, es: seq<Event>)
    requires forall k :: 0 <= k < |es| ==> !es[k].SetCapacity?
    ensures Largest(start, es) == start
    decreases |es|
  {
    if es != [] {
      assert !es[0].SetCapacity?;
      NoChangeNoGrowth(start, es[1..]);
    }
  }
}

/** The sequential loop's cadence: every eighth claim asks for a partial task first. */
module Cadence {
  import opened Common
  import opened TaskQueue

  /** usize on a 64-bit target. */
  const WORD: nat := 0x1_0000_0000_0000_0000

  predicate PrefersPartial(claims: nat) {
    claims % CADENCE == 0
  }

  function WrappingNext(claims: nat): nat {
    (claims + 1) % WORD
  }

  /** The counter `n` passes later. */
  function CounterAfter(claims: nat, n: nat): (c: nat)
    requires claims < WORD
    ensures c < WORD
  {
    if n == 0 then claims else WrappingNext(CounterAfter(claims, n - 1))
  }

  class SequentialLoop {
    const daemon: Daemon
    var seqClaims: nat
    var processed: nat
    var failed: nat

    constructor (daemon: Daemon)
      ensures this.daemon == daemon && seqClaims == 0 && processed == 0 && failed == 0
    {
      this.daemon, seqClaims, processed, failed := daemon, 0, 0, 0;
    }

    /** One pass: the counter moves on whether or not there was something to claim. */
    method Pass(now: int, removedBefore: seq<string>, answer: Answer, meanwhile: Rows, removedAfter: seq<string>)
      returns (ghost id: TaskId, ghost task: Option<Task>)
      requires seqClaims < WORD
      modifies this, daemon`busyCounts, daemon.queue`rows
      ensures seqClaims == WrappingNext(old(seqClaims)) < WORD
      ensures task.None? ==> daemon.queue.rows == old(daemon.queue.rows) && NothingDue(daemon.queue.rows, AnyPriority, daemon.kind, now)
      ensures task.Some? ==>
                NextUnder(old(daemon.queue.rows), PrefersPartial(old(seqClaims)), AnyPriority, daemon.kind, now, id)
                && task.value == Claimed(old(daemon.queue.rows)[id], now)
      ensures task.None? ==> processed == old(processed) && failed == old(failed) && daemon.busyCounts == old(daemon.busyCounts)
      ensures task.Some? ==>
                var verdict := VerdictOf(task.value.change, removedBefore, true, answer, now, removedAfter);
                var left := if BeforeHandler(task.value.change, removedBefore, true).Some?
                            then old(daemon.queue.rows)[id := task.value] else meanwhile;
                && daemon.queue.rows == Settle(left, id, task.value, verdict, now)
                && daemon.busyCounts == BusyCounts(old(daemon.busyCounts), id, verdict)
                && processed == old(processed) + (if verdict == Succeeded then 1 else 0)
                && failed == old(failed) + (if verdict == FailedFatally then 1 else 0)
    {
      var preferPartial := seqClaims % CADENCE == 0;
      seqClaims := WrappingNext(seqClaims);
      var result, taskId, claimed := daemon.StepInner(now, preferPartial, removedBefore, answer, meanwhile, removedAfter);
      id, task := taskId, claimed;
      if result.Some? {
        match result.value.outcome {
          case TaskDone => processed := processed + 1;
          case TaskFailed => failed := failed + 1;
        }
      }
    }
  }

  /** What one pass of the loop found and took. */
  datatype Claim = Claim(rows: Rows, now: int, id: TaskId)

  ghost predicate PartialDue(c: Claim, kind: string) {
    !NothingDue(c.rows, AtPriority(PARTIAL_PRIORITY), kind, c.now)
  }

  /** The claims of consecutive passes that start with the counter at `claims`. */
  ghost predicate ClaimsOf(window: seq<Claim>, claims: nat, kind: string)
    requires claims < WORD
  {
    forall k :: 0 <= k < |window| ==>
      NextUnder(window[k].rows, PrefersPartial(CounterAfter(claims, k)), AnyPriority, kind, window[k].now, window[k].id)
  }

  lemma NextRemainder(a: nat)
    ensures (a + 1) % 8 == if a % 8 == 7 then 0 else a % 8 + 1
  {
    var q := a / 8;
    assert a == 8 * q + a % 8;
    if a % 8 == 7 {
      assert a + 1 == 8 * (q + 1);
    }
  }

  lemma OneMore(a: nat, b: nat)
    requires a % 8 == b % 8
    ensures (a + 1) % 8 == (b + 1) % 8
  {
    NextRemainder(a);
    NextRemainder(b);
  }

  lemma NextModulo(c: nat)
    requires c < WORD
    ensures WrappingNext(c) % 8 == (c + 1) % 8
  {
    if c + 1 < WORD {
      assert WrappingNext(c) == c + 1;
    }
  }

  lemma {:induction false} CounterModulo(claims: nat, n: nat)
    requires claims < WORD
    ensures CounterAfter(claims, n) % 8 == (claims + n) % 8
  {
    if n > 0 {
      var c := CounterAfter(claims, n - 1);
      CounterModulo(claims, n - 1);
      OneMore(c, claims + n - 1);
      NextModulo(c);
    }
  }

  lemma OneOfEight(claims: nat, i: nat)
    requires i < 8
    ensures (claims + i) % 8 == 0 <==> i == (8 - claims % 8) % 8
  {
    var r := claims % 8;
    assert claims == 8 * (claims / 8) + r;
    assert (claims + i) % 8 == (r + i) % 8;
  }

  /**
   * Of any eight consecutive passes exactly one prefers partial tasks, also where the counter
   * wraps around; if a partial task is due in each of them, that pass claims one, the longest
   * waiting, whatever more urgent work there is.
   */
  lemma EveryWindowClaimsAPartial(window: seq<Claim>, claims: nat, kind: string)
    requires claims < WORD && |window| == CADENCE
    requires ClaimsOf(window, claims, kind)
    requires forall k :: 0 <= k < |window| ==> PartialDue(window[k], kind)
    ensures var k := (CADENCE - claims % CADENCE) % CADENCE;
            && (forall i :: 0 <= i < CADENCE ==> (PrefersPartial(CounterAfter(claims, i)) <==> i == k))
            && IsNext(window[k].rows, AtPriority(PARTIAL_PRIORITY), kind, window[k].now, window[k].id)
            && window[k].rows[window[k].id].priority == PARTIAL_PRIORITY
  {
    var k := (CADENCE - claims % CADENCE) % CADENCE;
    forall i | 0 <= i < CADENCE
      ensures PrefersPartial(CounterAfter(claims, i)) <==> i == k
    {
      CounterModulo(claims, i);
      OneOfEight(claims, i);
    }
    assert PartialDue(window[k], kind);
  }

  /** Seven passes are not enough: with more urgent work due, all of them may take that. */
  lemma SevenPassesMayPassOver(rows: Rows, now: int, kind: string, id: TaskId)
    requires IsNext(rows, AnyPriority, kind, now, id)
    ensures ClaimsOf(seq(CADENCE - 1, _ => Claim(rows, now, id)), 1, kind)
  {
    forall k | 0 <= k < CADENCE - 1
      ensures !PrefersPartial(CounterAfter(1, k))
    {
      CounterModulo(1, k);
      OneOfEight(1, k);
    }
  }
}

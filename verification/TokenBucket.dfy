/** The disk token bucket: nanosecond clock, integer rounding and saturating machine arithmetic. */
module TokenBucket {
  import opened Common

  const SECOND: nat := 1_000_000_000
  const U64_MAX: nat := 0xFFFF_FFFF_FFFF_FFFF
  const U128_MAX: nat := 0xFFFF_FFFF_FFFF_FFFF_FFFF_FFFF_FFFF_FFFF
  const I64_MAX: int := 0x7FFF_FFFF_FFFF_FFFF
  const I64_MIN: int := -0x8000_0000_0000_0000

  predicate IsI64(n: int) { I64_MIN <= n <= I64_MAX }

  function SaturatingSub(a: int, b: int): int {
    if a - b > I64_MAX then I64_MAX else if a - b < I64_MIN then I64_MIN else a - b
  }

  datatype Bucket = Bucket(rate: nat, capacity: nat, available: nat, lastNs: int)

  ghost predicate Valid(b: Bucket) {
    1 <= b.rate <= U64_MAX && 1 <= b.capacity <= U64_MAX && b.available <= b.capacity && IsI64(b.lastNs)
  }

  /** Tokens earned since the last refill, as the code computes them. */
  function Earned(b: Bucket, now: int): nat {
    var diff := SaturatingSub(now, b.lastNs);
    var elapsed: nat := if diff < 0 then 0 else diff;
    Min(Min(elapsed * b.rate, U128_MAX) / SECOND, U64_MAX)
  }

  function Refill(b: Bucket, now: int): Bucket {
    b.(available := Min(Min(b.available + Earned(b, now), U64_MAX), b.capacity), lastNs := now)
  }

  /** A grant, or the number of nanoseconds to wait. A wait of zero nanoseconds is a grant. */
  datatype Answer = Granted | Wait(ns: nat)

  predicate Grants(b: Bucket, cost: nat) {
    b.available >= cost || b.available >= b.capacity
  }

  function CeilDiv(a: nat, d: nat): (q: nat)
    requires d > 0
    ensures q * d >= a && (q > 0 ==> (q - 1) * d < a)
  {
    var q := (a + d - 1) / d;
    assert q * d <= a + d - 1 < q * d + d by {
      assert a + d - 1 == q * d + (a + d - 1) % d;
    }
    assert (q - 1) * d == q * d - d;
    q
  }

  /** The exact wait; the code caps it at the largest 64-bit number. */
  function ExactWait(b: Bucket, cost: nat): nat
    requires b.rate > 0 && b.available <= cost
  {
    CeilDiv((cost - b.available) * SECOND, b.rate)
  }

  function Acquire(b: Bucket, cost: nat, now: int): (r: (Bucket, Answer))
    requires Valid(b)
  {
    var full := Refill(b, now);
    if Grants(full, cost) then (full.(available := if full.available >= cost then full.available - cost else 0), Granted)
    else (full, Wait(Min(ExactWait(full, cost), U64_MAX)))
  }

  class RateLimiter {
    var rate: nat
    var capacity: nat
    var available: nat
    var lastNs: int

    function Value(): Bucket
      reads this
    {
      Bucket(rate, capacity, available, lastNs)
    }

    constructor (ratePerSec: nat, cap: nat, now: int)
      requires ratePerSec <= U64_MAX && cap <= U64_MAX && IsI64(now)
      ensures Value() == Bucket(Max(ratePerSec, 1), Max(cap, 1), Max(cap, 1), now) && Valid(Value())
    {
      rate, capacity, available, lastNs := Max(ratePerSec, 1), Max(cap, 1), Max(cap, 1), now;
    }

    method TopUp(now: int)
      requires Valid(Value()) && IsI64(now)
      modifies this`available, this`lastNs
      ensures Value() == Refill(old(Value()), now) && Valid(Value())
    {
      var diff := SaturatingSub(now, lastNs);
      var elapsed: nat := if diff < 0 then 0 else diff;
      var added := Min(elapsed * rate, U128_MAX) / SECOND;
      available := Min(Min(available + Min(added, U64_MAX), U64_MAX), capacity);
      lastNs := now;
    }

    method AcquireTokens(cost: nat, now: int) returns (waitNs: nat)
      requires Valid(Value()) && IsI64(now) && cost <= U64_MAX
      modifies this`available, this`lastNs
      ensures Valid(Value())
      ensures Value() == Acquire(old(Value()), cost, now).0
      ensures Acquire(old(Value()), cost, now).1 == if waitNs == 0 then Granted else Wait(waitNs)
    {
      TopUp(now);
      if available >= cost || available >= capacity {
        available := if available >= cost then available - cost else 0;
        return 0;
      }
      var deficit := cost - available;
      var exact := CeilDiv(deficit * SECOND, rate);
      waitNs := Min(exact, U64_MAX);
      assert exact * rate >= deficit * SECOND > 0;
    }
  }

  // ---- how much a run can be granted --------------------------------------------------------

  datatype Request = Request(cost: nat, now: int)

  /** The part of the bucket one request uses up; a cost above the capacity counts as the capacity. */
  function Charge(b: Bucket, r: Request): nat
    requires Valid(b)
  {
    if Acquire(b, r.cost, r.now).1.Granted? then Min(r.cost, b.capacity) else 0
  }

  ghost predicate ClockOk(b: Bucket, rs: seq<Request>) {
    && (forall i :: 0 <= i < |rs| ==> IsI64(rs[i].now) && b.lastNs <= rs[i].now)
    && forall i, j :: 0 <= i < j < |rs| ==> rs[i].now <= rs[j].now
  }

  lemma AcquireKeepsValid(b: Bucket, cost: nat, now: int)
    requires Valid(b) && IsI64(now)
    ensures var b' := Acquire(b, cost, now).0;
            Valid(b') && b'.rate == b.rate && b'.capacity == b.capacity && b'.lastNs == now
  {
  }

  function Charged(b: Bucket, rs: seq<Request>): nat
    requires Valid(b) && ClockOk(b, rs)
    decreases |rs|
  {
    if rs == [] then 0
    else
      var b' := Acquire(b, rs[0].cost, rs[0].now).0;
      AcquireKeepsValid(b, rs[0].cost, rs[0].now);
      assert forall i :: 0 <= i < |rs[1..]| ==> rs[1..][i] == rs[i + 1];
      Charge(b, rs[0]) + Charged(b', rs[1..])
  }

  /** What time adds in exact arithmetic. */
  function Income(rate: nat, from: int, to: int): nat
    requires from <= to
  {
    rate * (to - from) / SECOND
  }

  lemma EarnedAtMostIncome(b: Bucket, now: int)
    requires b.lastNs <= now
    ensures Earned(b, now) <= Income(b.rate, b.lastNs, now)
  {
    var diff := SaturatingSub(now, b.lastNs);
    assert diff <= now - b.lastNs;
    MulMonotone(diff, now - b.lastNs, b.rate);
    DivMonotone(diff * b.rate, b.rate * (now - b.lastNs));
  }

  lemma MulMonotone(a: nat, c: nat, r: nat)
    requires a <= c
    ensures a * r <= c * r == r * c
  {
    assert c * r == a * r + (c - a) * r;
  }

  lemma DivMonotone(a: nat, c: nat)
    requires a <= c
    ensures a / SECOND <= c / SECOND
  {
  }

  lemma IncomeAdds(rate: nat, t0: int, t1: int, t2: int)
    requires t0 <= t1 <= t2
    ensures Income(rate, t0, t1) + Income(rate, t1, t2) <= Income(rate, t0, t2)
  {
    assert rate * (t1 - t0) + rate * (t2 - t1) == rate * (t2 - t0);
    FloorsAdd(rate * (t1 - t0), rate * (t2 - t1));
  }

  lemma FloorsAdd(a: nat, c: nat)
    ensures a / SECOND + c / SECOND <= (a + c) / SECOND
  {
  }

  lemma OneCharge(b: Bucket, r: Request)
    requires Valid(b) && IsI64(r.now) && b.lastNs <= r.now
    ensures Charge(b, r) + Acquire(b, r.cost, r.now).0.available <= b.available + Income(b.rate, b.lastNs, r.now)
  {
    EarnedAtMostIncome(b, r.now);
  }

  lemma {:induction false} ChargedBounded(b: Bucket, rs: seq<Request>, end: int)
    requires Valid(b) && ClockOk(b, rs)
    requires b.lastNs <= end && forall i :: 0 <= i < |rs| ==> rs[i].now <= end
    ensures Charged(b, rs) <= b.available + Income(b.rate, b.lastNs, end)
    decreases |rs|
  {
    if rs != [] {
      var b' := Acquire(b, rs[0].cost, rs[0].now).0;
      AcquireKeepsValid(b, rs[0].cost, rs[0].now);
      assert forall i :: 0 <= i < |rs[1..]| ==> rs[1..][i] == rs[i + 1];
      ChargedBounded(b', rs[1..], end);
      OneCharge(b, rs[0]);
      IncomeAdds(b.rate, b.lastNs, rs[0].now, end);
    }
  }

  /** Over any run with a clock that never goes back, grants stay within burst plus rate times time. */
  lemma BurstPlusRate(b: Bucket, rs: seq<Request>, end: int)
    requires Valid(b) && b.available == b.capacity && ClockOk(b, rs)
    requires b.lastNs <= end && forall i :: 0 <= i < |rs| ==> rs[i].now <= end
    ensures Charged(b, rs) <= b.capacity + b.rate * (end - b.lastNs) / SECOND
  {
    ChargedBounded(b, rs, end);
  }

  // ---- the wait it asks for -----------------------------------------------------------------

  lemma EarnedExactly(b: Bucket, now: int)
    requires Valid(b) && b.lastNs <= now && IsI64(now) && now - b.lastNs <= I64_MAX
    ensures (now - b.lastNs) * b.rate <= U128_MAX
    ensures Earned(b, now) == Min((now - b.lastNs) * b.rate / SECOND, U64_MAX)
  {
    MulMonotone(now - b.lastNs, I64_MAX, b.rate);
    MulMonotone(b.rate, U64_MAX, I64_MAX);
  }

  lemma DivAtLeast(a: nat, d: nat)
    ensures a / SECOND >= d <==> a >= d * SECOND
  {
  }

  /** The most a clock that counts to I64_MAX nanoseconds can add. */
  function MostEarned(b: Bucket): nat {
    I64_MAX * b.rate / SECOND
  }

  /**
   * Coming back exactly after the requested wait succeeds if and only if the clock can measure
   * that wait, or fills the bucket in the longest time it can measure. Filling it helps only costs
   * above the capacity: for the others it comes down to the wait alone.
   */
  lemma RetryAfterWait(b: Bucket, cost: nat, now: int)
    requires Valid(b) && IsI64(now) && cost <= U64_MAX
    requires Acquire(b, cost, now).1.Wait?
    requires IsI64(now + Acquire(b, cost, now).1.ns)
    ensures var (b', answer) := Acquire(b, cost, now);
            && (Acquire(b', cost, now + answer.ns).1 == Granted <==> answer.ns <= I64_MAX || b'.available + MostEarned(b') >= b'.capacity)
            && (cost <= b.capacity ==> (Acquire(b', cost, now + answer.ns).1 == Granted <==> answer.ns <= I64_MAX))
  {
    var (b', answer) := Acquire(b, cost, now);
    if answer.ns <= I64_MAX {
      MeasuredWaitSucceeds(b, cost, now);
    } else {
      UnmeasuredWait(b, cost, now);
    }
  }

  lemma MeasuredWaitSucceeds(b: Bucket, cost: nat, now: int)
    requires Valid(b) && IsI64(now) && cost <= U64_MAX
    requires Acquire(b, cost, now).1.Wait? && Acquire(b, cost, now).1.ns <= I64_MAX
    requires IsI64(now + Acquire(b, cost, now).1.ns)
    ensures var (b', answer) := Acquire(b, cost, now);
            Acquire(b', cost, now + answer.ns).1 == Granted
  {
    var (b', answer) := Acquire(b, cost, now);
    var w := answer.ns;
    assert w == ExactWait(b', cost);
    EarnedExactly(b', now + w);
    DivAtLeast(w * b'.rate, cost - b'.available);
  }

  /** A longer wait counts as I64_MAX nanoseconds, which earn less than the cost. */
  lemma UnmeasuredWait(b: Bucket, cost: nat, now: int)
    requires Valid(b) && IsI64(now) && cost <= U64_MAX
    requires Acquire(b, cost, now).1.Wait?
    requires IsI64(now + Acquire(b, cost, now).1.ns)
    ensures var (b', answer) := Acquire(b, cost, now);
            answer.ns > I64_MAX ==>
              && b'.available + MostEarned(b') < cost
              && (Acquire(b', cost, now + answer.ns).1 == Granted <==> b'.available + MostEarned(b') >= b'.capacity)
  {
    var (b', answer) := Acquire(b, cost, now);
    if answer.ns > I64_MAX {
      var w := ExactWait(b', cost);
      assert I64_MAX <= w - 1;
      MulMonotone(I64_MAX, w - 1, b'.rate);
      assert (w - 1) * b'.rate < (cost - b'.available) * SECOND;
      DivAtLeast(I64_MAX * b'.rate, cost - b'.available);
      assert SaturatingSub(now + answer.ns, b'.lastNs) == I64_MAX;
      MulMonotone(b'.rate, U64_MAX, I64_MAX);
      assert Earned(b', now + answer.ns) == Min(MostEarned(b'), U64_MAX);
    }
  }

  /** One earlier retry still has to wait, for costs the bucket can hold. */
  lemma RetryTooEarly(b: Bucket, cost: nat, now: int, retry: int)
    requires Valid(b) && IsI64(now) && IsI64(retry) && cost <= b.capacity
    requires Acquire(b, cost, now).1.Wait?
    requires now <= retry < now + Acquire(b, cost, now).1.ns
    ensures Acquire(Acquire(b, cost, now).0, cost, retry).1.Wait?
  {
    var (b', answer) := Acquire(b, cost, now);
    var w := ExactWait(b', cost);
    assert retry - now <= w - 1;
    EarnedAtMostIncome(b', retry);
    MulMonotone(retry - now, w - 1, b'.rate);
    assert (w - 1) * b'.rate < (cost - b'.available) * SECOND;
    assert b'.rate * (retry - now) == (retry - now) * b'.rate;
    DivAtLeast((retry - now) * b'.rate, cost - b'.available);
  }

  /** A wait longer than the signed clock can measure need not be enough. */
  lemma WaitBeyondTheClock(b: Bucket, now: int)
    requires b == Bucket(1, 10_000_000_000, 0, now) && now == -9_000_000_000_000_000_000
    ensures Valid(b)
    ensures Acquire(b, 10_000_000_000, now) == (b, Wait(10_000_000_000_000_000_000))
    ensures IsI64(now + 10_000_000_000_000_000_000)
    ensures Acquire(b, 10_000_000_000, now + 10_000_000_000_000_000_000).1.Wait?
  {
    assert Earned(b, now) == 0;
    assert Refill(b, now) == b;
    assert ExactWait(b, 10_000_000_000) == 10_000_000_000_000_000_000;
    var late := now + 10_000_000_000_000_000_000;
    assert SaturatingSub(late, now) == I64_MAX;
    assert Earned(b, late) == I64_MAX / SECOND;
  }

  // ---- polling faster than the bucket can count ---------------------------------------------

  /** What a run of requests pours in, each refill rounded down by itself. */
  function Poured(b: Bucket, rs: seq<Request>): nat
    decreases |rs|
  {
    if rs == [] then 0 else Earned(b, rs[0].now) + Poured(b.(lastNs := rs[0].now), rs[1..])
  }

  lemma {:induction false} PouredIgnoresFill(b: Bucket, available: nat, rs: seq<Request>)
    ensures Poured(b.(available := available), rs) == Poured(b, rs)
    decreases |rs|
  {
    if rs != [] {
      PouredIgnoresFill(b.(lastNs := rs[0].now), available, rs[1..]);
      assert b.(available := available).(lastNs := rs[0].now) == b.(lastNs := rs[0].now).(available := available);
    }
  }

  /**
   * A caller that keeps asking for the same amount is never granted anything if and only if the
   * rounded refills of the whole run together do not bring the bucket to that amount (or, for a
   * larger one, to its capacity).
   */
  lemma {:induction false} NeverGranted(b: Bucket, rs: seq<Request>, cost: nat)
    requires Valid(b) && ClockOk(b, rs) && b.available < Min(cost, b.capacity)
    requires forall i :: 0 <= i < |rs| ==> rs[i].cost == cost
    ensures Charged(b, rs) == 0 <==> b.available + Poured(b, rs) < Min(cost, b.capacity)
    decreases |rs|
  {
    if rs != [] {
      var r := rs[0];
      var rest := rs[1..];
      assert forall i :: 0 <= i < |rest| ==> rest[i] == rs[i + 1];
      var b' := Acquire(b, r.cost, r.now).0;
      AcquireKeepsValid(b, r.cost, r.now);
      if b.available + Earned(b, r.now) < Min(cost, b.capacity) {
        assert b' == b.(lastNs := r.now).(available := b.available + Earned(b, r.now));
        PouredIgnoresFill(b.(lastNs := r.now), b.available + Earned(b, r.now), rest);
        NeverGranted(b', rest, cost);
      } else {
        assert Charge(b, r) == Min(cost, b.capacity) > 0;
      }
    }
  }

  /** Every request comes so soon after the one before that its share of a token is rounded away. */
  ghost predicate Hurried(b: Bucket, rs: seq<Request>)
    decreases |rs|
  {
    rs == [] || ((rs[0].now - b.lastNs) * b.rate < SECOND && Hurried(b.(lastNs := rs[0].now), rs[1..]))
  }

  lemma {:induction false} HurriedPoursNothing(b: Bucket, rs: seq<Request>)
    requires Valid(b) && ClockOk(b, rs) && Hurried(b, rs)
    ensures Poured(b, rs) == 0
    decreases |rs|
  {
    if rs != [] {
      EarnedAtMostIncome(b, rs[0].now);
      assert b.rate * (rs[0].now - b.lastNs) == (rs[0].now - b.lastNs) * b.rate;
      assert forall i :: 0 <= i < |rs[1..]| ==> rs[1..][i] == rs[i + 1];
      HurriedPoursNothing(b.(lastNs := rs[0].now), rs[1..]);
    }
  }

  /** So a caller that polls too fast is never granted anything, however long it polls. */
  lemma FastPollingStarves(b: Bucket, rs: seq<Request>, cost: nat)
    requires Valid(b) && ClockOk(b, rs) && b.available < Min(cost, b.capacity)
    requires forall i :: 0 <= i < |rs| ==> rs[i].cost == cost
    requires Hurried(b, rs)
    ensures Charged(b, rs) == 0
  {
    HurriedPoursNothing(b, rs);
    NeverGranted(b, rs, cost);
  }

  /** Requests for one token every half second. */
  function HalfSecondPolls(start: int, n: nat): seq<Request> {
    seq(n, i => Request(1, start + (i + 1) * (SECOND / 2)))
  }

  lemma {:induction false} HalfSecondsAreHurried(b: Bucket, n: nat)
    requires b.rate == 1
    ensures Hurried(b, HalfSecondPolls(b.lastNs, n))
    decreases n
  {
    if n > 0 {
      var next := b.(lastNs := b.lastNs + SECOND / 2);
      HalfSecondsAreHurried(next, n - 1);
      assert HalfSecondPolls(b.lastNs, n)[1..] == HalfSecondPolls(next.lastNs, n - 1);
    }
  }

  lemma HalfSecondsAreOnTime(n: nat)
    requires n <= 6_000_000_000
    ensures ClockOk(Bucket(1, 1, 0, 0), HalfSecondPolls(0, n))
    ensures forall i :: 0 <= i < n ==> HalfSecondPolls(0, n)[i].cost == 1
  {
    var half := SECOND / 2;
    var rs := HalfSecondPolls(0, n);
    assert half == 500_000_000 && |rs| == n;
    forall i | 0 <= i < n
      ensures rs[i].now == (i + 1) * 500_000_000 && 0 <= rs[i].now <= 3_000_000_000_000_000_000
    {
    }
  }

  /** An empty bucket that earns a token a second, polled twice a second, grants nothing in 95 years. */
  lemma HalfSecondPollingStarves(n: nat)
    requires n <= 6_000_000_000
    ensures Valid(Bucket(1, 1, 0, 0)) && ClockOk(Bucket(1, 1, 0, 0), HalfSecondPolls(0, n))
    ensures Charged(Bucket(1, 1, 0, 0), HalfSecondPolls(0, n)) == 0
  {
    hide Charged, Hurried;
    var b := Bucket(1, 1, 0, 0);
    HalfSecondsAreOnTime(n);
    HalfSecondsAreHurried(b, n);
    hide ClockOk, HalfSecondPolls;
    FastPollingStarves(b, HalfSecondPolls(0, n), 1);
  }
}

/** Schema migrations: one transaction each, a recorded version per migration, resumable at any point. */
module Migrations {
  import opened Common

  const U32_MAX: nat := 0xFFFF_FFFF

  type Script = int
  datatype Migration = Migration(version: nat, name: string, sql: Script)
  datatype Error = BrokenSequence(found: nat, expected: nat) | VersionOverflow | ScriptFailed(version: nat)
  datatype Outcome = Applied(count: nat) | Failed(error: Error)

  /** The schema is what the executed scripts made of it, in order; `recorded` is schema_migrations. */
  datatype Schema = Schema(scripts: seq<Script>, recorded: map<nat, string>)

  /** Versions 1, 2, ..., n. */
  ghost predicate Consecutive(list: seq<Migration>) {
    forall i :: 0 <= i < |list| ==> list[i].version == i + 1
  }

  /** The same, with the counter still able to step past the last one. */
  ghost predicate Dense(list: seq<Migration>) {
    |list| < U32_MAX && Consecutive(list)
  }

  function Scripts(list: seq<Migration>): seq<Script> {
    seq(|list|, i requires 0 <= i < |list| => list[i].sql)
  }

  /** What schema_migrations holds after the first `v` migrations: versions 1 to v and no other. */
  function Recorded(list: seq<Migration>, v: nat): (r: map<nat, string>)
    requires v <= |list|
    ensures forall i :: i in r <==> 1 <= i <= v
    ensures forall i :: i in r ==> r[i] == list[i - 1].name
  {
    if v == 0 then map[] else Recorded(list, v - 1)[v := list[v - 1].name]
  }

  /** The schema after the first `v` migrations on top of `base`, one transaction after the other. */
  ghost function Migrated(base: seq<Script>, list: seq<Migration>, v: nat): Schema
    requires v <= |list|
  {
    if v == 0 then Schema(base, map[])
    else
      var s := Migrated(base, list, v - 1);
      Schema(s.scripts + [list[v - 1].sql], s.recorded[v := list[v - 1].name])
  }

  /** It holds exactly those scripts, in order, and records exactly the versions 1 to v. */
  lemma {:induction false} MigratedHolds(base: seq<Script>, list: seq<Migration>, v: nat)
    requires v <= |list|
    ensures Migrated(base, list, v) == Schema(base + Scripts(list[..v]), Recorded(list, v))
  {
    if v == 0 {
      assert base + Scripts(list[..0]) == base;
    } else {
      MigratedHolds(base, list, v - 1);
      assert Scripts(list[..v]) == Scripts(list[..v - 1]) + [list[v - 1].sql];
      assert base + Scripts(list[..v]) == base + Scripts(list[..v - 1]) + [list[v - 1].sql];
    }
  }

  /** The first migration from index `v` on that does not go through, or the end of the list. */
  function FirstFailure(list: seq<Migration>, v: nat, works: Migration -> bool): (k: nat)
    requires v <= |list|
    ensures v <= k <= |list|
    ensures forall i :: v <= i < k ==> works(list[i])
    ensures k < |list| ==> !works(list[k])
    decreases |list| - v
  {
    if v == |list| || !works(list[v]) then v else FirstFailure(list, v + 1, works)
  }

  /** The version a run from version `v` ends at; a list older than the schema changes nothing. */
  function Reached(list: seq<Migration>, v: nat, works: Migration -> bool): (w: nat)
    ensures v <= w && (v <= |list| ==> w <= |list|)
  {
    if v <= |list| then FirstFailure(list, v, works) else v
  }

  lemma OneMoreReached(list: seq<Migration>, k: nat, works: Migration -> bool)
    requires k < |list|
    ensures Reached(list, k, works) == if works(list[k]) then Reached(list, k + 1, works) else k
  {
  }

  lemma TopVersion(base: seq<Script>, list: seq<Migration>, v: nat, current: nat)
    requires v <= |list|
    requires var recorded := Migrated(base, list, v).recorded;
             (forall i :: i in recorded ==> i <= current) && if recorded == map[] then current == 0 else current in recorded
    ensures current == v
  {
    MigratedHolds(base, list, v);
    var recorded := Migrated(base, list, v).recorded;
    assert v > 0 ==> v in recorded;
  }

  lemma NothingMissing(list: seq<Migration>, v: nat, works: Migration -> bool)
    requires v >= |list|
    ensures Reached(list, v, works) == v
  {
  }

  /** `list` is a plain sequence of migrations; the check accepts exactly the dense ones. */
  method ValidateSequence(list: seq<Migration>) returns (error: Option<Error>)
    requires forall m :: m in list ==> m.version <= U32_MAX
    ensures error == None <==> Dense(list)
    ensures error == Some(VersionOverflow) <==> |list| >= U32_MAX && Consecutive(list[..U32_MAX])
    ensures error.Some? && error.value.BrokenSequence? ==>
              exists i :: 0 <= i < |list| && Dense(list[..i])
                && error.value == BrokenSequence(list[i].version, i + 1) && list[i].version != i + 1
  {
    var expected: nat := 1;
    var k := 0;
    while k < |list|
      invariant 0 <= k <= |list| && expected == k + 1 <= U32_MAX
      invariant forall i :: 0 <= i < k ==> list[i].version == i + 1
    {
      if list[k].version != expected {
        assert Dense(list[..k]);
        return Some(BrokenSequence(list[k].version, expected));
      }
      if expected == U32_MAX {
        return Some(VersionOverflow);
      }
      expected := expected + 1;
      k := k + 1;
    }
    return None;
  }

  /** Versions 1 to 2^32 - 1 all fit their type, and yet the sequence is refused. */
  method FullRange() returns (list: seq<Migration>, error: Option<Error>)
    ensures |list| == U32_MAX && Consecutive(list) && forall m :: m in list ==> m.version <= U32_MAX
    ensures error == Some(VersionOverflow)
  {
    list := seq(U32_MAX, i requires 0 <= i < U32_MAX => Migration(i + 1, "", 0));
    error := ValidateSequence(list);
  }

  method LatestVersion(list: seq<Migration>) returns (max: nat)
    ensures forall m :: m in list ==> m.version <= max
    ensures max == 0 || exists m :: m in list && m.version == max
    ensures Dense(list) ==> max == |list|
  {
    max := 0;
    var i := 0;
    while i < |list|
      invariant 0 <= i <= |list|
      invariant forall j :: 0 <= j < i ==> list[j].version <= max
      invariant max == 0 || exists j :: 0 <= j < i && list[j].version == max
      invariant Dense(list) ==> max == i
    {
      if list[i].version > max {
        max := list[i].version;
      }
      i := i + 1;
    }
  }

  class Connection {
    var scripts: seq<Script>
    var recorded: map<nat, string>

    function State(): Schema
      reads this
    {
      Schema(scripts, recorded)
    }

    constructor (scripts: seq<Script>)
      ensures State() == Schema(scripts, map[])
    {
      this.scripts, this.recorded := scripts, map[];
    }

    /** COALESCE(MAX(version), 0). */
    method CurrentVersion() returns (current: nat)
      ensures forall i :: i in recorded ==> i <= current
      ensures if recorded == map[] then current == 0 else current in recorded
    {
      var versions := Ascending(recorded.Keys);
      current := 0;
      var k := 0;
      while k < |versions|
        invariant 0 <= k <= |versions|
        invariant if k == 0 then current == 0 else current in recorded
        invariant forall i :: 0 <= i < k ==> versions[i] <= current
      {
        assert versions[k] in versions;
        if versions[k] > current {
          current := versions[k];
        }
        k := k + 1;
      }
      if |versions| == 0 {
        forall i
          ensures i !in recorded
        {
          assert i in recorded.Keys <==> i in versions;
        }
      }
    }

    /** Script and version row commit together, or the transaction is rolled back. */
    method ApplyOne(m: Migration, works: Migration -> bool) returns (ok: bool)
      modifies this
      ensures ok <==> works(m) && m.version !in old(recorded)
      ensures ok ==> State() == Schema(old(scripts) + [m.sql], old(recorded)[m.version := m.name])
      ensures !ok ==> State() == old(State())
    {
      if !works(m) {
        return false;
      }
      if m.version in recorded {
        return false;
      }
      scripts := scripts + [m.sql];
      recorded := recorded[m.version := m.name];
      return true;
    }

    /** The same for the first migration that is missing. */
    method ApplyNext(m: Migration, works: Migration -> bool, ghost base: seq<Script>, ghost all: seq<Migration>, ghost k: nat)
      returns (ok: bool)
      requires k < |all| && m == all[k] && m.version == k + 1 && State() == Migrated(base, all, k)
      modifies this
      ensures ok <==> works(m)
      ensures State() == if ok then Migrated(base, all, k + 1) else Migrated(base, all, k)
    {
      MigratedHolds(base, all, k);
      ok := ApplyOne(m, works);
    }

    /**
     * Apply what is missing. `works` says which transactions go through on this run; a crash in
     * the middle of one looks like a failure of it. `list` may be older than the schema.
     */
    method RunPendingMigrations(list: seq<Migration>, works: Migration -> bool, ghost base: seq<Script>, ghost all: seq<Migration>, ghost v: nat)
      returns (outcome: Outcome)
      requires forall m :: m in list ==> m.version <= U32_MAX
      requires v <= |all| && State() == Migrated(base, all, v) && (Dense(list) ==> list <= all)
      modifies this
      ensures !Dense(list) ==> outcome.Failed? && State() == old(State())
      ensures Dense(list) ==>
                (var w := Reached(list, v, works);
                 && w <= |all| && State() == Migrated(base, all, w)
                 && outcome == if w >= |list| then Applied(w - v) else Failed(ScriptFailed(w + 1)))
    {
      hide Migrated, Reached, FirstFailure, Scripts;
      var broken := ValidateSequence(list);
      if broken.Some? {
        return Failed(broken.value);
      }
      var current := CurrentVersion();
      TopVersion(base, all, v, current);
      var applied: nat := 0;
      var k := 0;
      ghost var w := v;
      while k < |list|
        invariant 0 <= k <= |list|
        invariant w == Max(v, k) <= |all| && applied == w - v
        invariant State() == Migrated(base, all, w)
        invariant Reached(list, w, works) == Reached(list, v, works)
      {
        assert list[k] == all[k] && list[k].version == k + 1;
        if list[k].version > current {
          assert w == k;
          OneMoreReached(list, k, works);
          var ok := ApplyNext(list[k], works, base, all, k);
          if !ok {
            return Failed(ScriptFailed(list[k].version));
          }
          applied := applied + 1;
          w := w + 1;
        }
        k := k + 1;
      }
      NothingMissing(list, w, works);
      return Applied(applied);
    }
  }

  // ---- any number of starts -----------------------------------------------------------------

  /** One start of the program: how much of the list its build knows, and which transactions go through. */
  datatype Start = Start(known: nat, works: Migration -> bool)

  /** The version one start leads to, as the run above leaves it. */
  function VersionAfter(list: seq<Migration>, v: nat, start: Start): (w: nat)
    requires v <= |list| && start.known <= |list|
    ensures v <= w <= |list|
  {
    Reached(list[..start.known], v, start.works)
  }

  function AfterStarts(list: seq<Migration>, v: nat, starts: seq<Start>): (w: nat)
    requires v <= |list| && forall s :: s in starts ==> s.known <= |list|
    ensures v <= w <= |list|
    decreases |starts|
  {
    if starts == [] then v else AfterStarts(list, VersionAfter(list, v, starts[0]), starts[1..])
  }

  /**
   * Failures, crashes and older builds in any order, then one complete start: the schema and the
   * recorded versions are those of a single full run, and they were a dense prefix all along.
   */
  lemma {:induction false} ResumedEqualsOneRun(base: seq<Script>, list: seq<Migration>, starts: seq<Start>, works: Migration -> bool)
    requires forall s :: s in starts ==> s.known <= |list|
    requires forall m :: m in list ==> works(m)
    ensures var v := AfterStarts(list, 0, starts);
            && (forall i :: i in Migrated(base, list, v).recorded <==> 1 <= i <= v)
            && Migrated(base, list, VersionAfter(list, v, Start(|list|, works)))
               == Migrated(base, list, VersionAfter(list, 0, Start(|list|, works)))
               == Schema(base + Scripts(list), Recorded(list, |list|))
  {
    var v := AfterStarts(list, 0, starts);
    assert list[..|list|] == list;
    WholeListWorks(list, v, works);
    WholeListWorks(list, 0, works);
    MigratedHolds(base, list, v);
    MigratedHolds(base, list, |list|);
  }

  lemma {:induction false} WholeListWorks(list: seq<Migration>, v: nat, works: Migration -> bool)
    requires v <= |list| && forall m :: m in list ==> works(m)
    ensures FirstFailure(list, v, works) == |list|
    decreases |list| - v
  {
    if v < |list| {
      assert works(list[v]);
      WholeListWorks(list, v + 1, works);
    }
  }

  /** Starts only ever move forward, and by exactly the transactions that went through. */
  lemma {:induction false} StartsOnlyAdd(list: seq<Migration>, v: nat, starts: seq<Start>, k: nat)
    requires v <= |list| && (forall s :: s in starts ==> s.known <= |list|) && k <= |starts|
    ensures AfterStarts(list, v, starts[..k]) <= AfterStarts(list, v, starts)
    ensures AfterStarts(list, v, starts) == AfterStarts(list, AfterStarts(list, v, starts[..k]), starts[k..])
    decreases |starts|
  {
    if k == 0 {
      assert starts[..0] == [] && starts[0..] == starts;
    } else {
      assert starts[..k][0] == starts[0] && starts[..k][1..] == starts[1..][..k - 1];
      assert starts[1..][k - 1..] == starts[k..];
      StartsOnlyAdd(list, VersionAfter(list, v, starts[0]), starts[1..], k - 1);
    }
  }
}

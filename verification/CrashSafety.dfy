/**
 * A delete survives a crash at any step, and startup reconciliation can itself be interrupted
 * and repeated.
 */
module CrashSafety {
  import opened Common
  import opened DeletePlan
  import opened Journal

  // ---- one interrupted delete ---------------------------------------------------------------

  /** The pending batch still describes members of its group under the paths they have now. */
  ghost predicate Intact(db: Db, b: BatchId) {
    && b in db.batches
    && var batch := db.batches[b];
    && !batch.committed
    && batch.files.Keys <= Members(db, batch.group) <= db.files.Keys
    && forall f :: f in batch.files ==> batch.files[f] == Entry(db.files[f].path, Deleted)
  }

  /**
   * Reconciling an interrupted delete is finalizing it with the targets that are gone from disk:
   * same flags, same groups, same journal with the same roles. With nothing gone, the batch
   * disappears and no other row changes.
   */
  lemma ReconcileIsFinalize(db: Db, b: BatchId, disk: set<string>)
    requires Intact(db, b)
    ensures Absent(db.batches[b], disk) != {} ==>
              ReconcileBatch(db, b, disk) == Finalize(db, b, Absent(db.batches[b], disk))
    ensures Absent(db.batches[b], disk) == {} ==>
              ReconcileBatch(db, b, disk) == db.(batches := db.batches - {b})
  {
    var batch := db.batches[b];
    var absent := Absent(batch, disk);
    if absent != {} {
      forall f
        ensures f in absent ==>
                  (f in Members(db, batch.group) && f in db.files && batch.files[f] == Entry(db.files[f].path, Deleted))
      {
        assert f in absent ==> f in batch.files;
      }
      assert ReconciledRows(db, batch, absent) == FinalRows(db.files, Members(db, batch.group), absent);
    }
  }

  /** Recording the batch establishes `Intact`, and a batch with no absent target leaves no trace. */
  lemma RecordedIsIntact(db: Db, g: GroupId, trust: Trust, nt: bool, targets: map<FileId, string>)
    requires Consistent(db)
    requires targets.Keys <= Members(db, g)
    requires forall f :: f in targets ==> targets[f] == db.files[f].path
    ensures Intact(RecordPending(db, g, trust, nt, targets), db.nextBatch)
    ensures SameRows(RemoveBatch(RecordPending(db, g, trust, nt, targets), db.nextBatch), db)
  {
    var db' := RecordPending(db, g, trust, nt, targets);
    assert db'.batches - {db.nextBatch} == db.batches;
  }

  // ---- the removal loop and the list that a crash loses -------------------------------------

  datatype Meta = Meta(size: int, mtime: int)
  type Disk = map<string, Meta>

  /** What the operating system may refuse while one target is handled. */
  datatype Fault = NoFault | MetadataFault | RemoveFault

  datatype Target = Target(id: FileId, path: string, size: int, mtime: int)

  /** UNC and device paths are left to the user; only Windows builds know them. */
  predicate Unsupported(path: string, windows: bool) {
    && windows
    && "//" <= path
    && var rest := path[2..];
    ("?/" <= rest || rest == "?" || "./" <= rest || rest == ".")
  }

  /** Targets the loop leaves alone before it looks at their file: refused paths, and metadata errors other than "not found". */
  predicate Skips(t: Target, fault: Fault, windows: bool) {
    Unsupported(t.path, windows) || fault == MetadataFault
  }

  /** Does the delete count this target as removed? A path that is already gone counts, whatever removing it says. */
  predicate Removes(disk: Disk, t: Target, fault: Fault, windows: bool) {
    && !Skips(t, fault, windows)
    && (t.path !in disk || (fault == NoFault && disk[t.path] == Meta(t.size, t.mtime)))
  }

  /** The disk and the in-memory list of removed ids after the first `k` targets. */
  function AfterTargets(disk: Disk, targets: seq<Target>, fault: FileId -> Fault, windows: bool, k: nat): (r: (Disk, seq<FileId>))
    requires k <= |targets|
  {
    if k == 0 then (disk, [])
    else
      var (d, removed) := AfterTargets(disk, targets, fault, windows, k - 1);
      var t := targets[k - 1];
      if Removes(d, t, fault(t.id), windows) then (d - {t.path}, removed + [t.id]) else (d, removed)
  }

  ghost predicate DistinctTargets(targets: seq<Target>) {
    forall i, j :: 0 <= i < j < |targets| ==> targets[i].id != targets[j].id && targets[i].path != targets[j].path
  }

  /** A path no target names is never touched. */
  lemma {:induction false} OthersUntouched(disk: Disk, targets: seq<Target>, fault: FileId -> Fault, windows: bool, k: nat, path: string)
    requires k <= |targets|
    requires forall i :: 0 <= i < k ==> targets[i].path != path
    ensures path in AfterTargets(disk, targets, fault, windows, k).0 <==> path in disk
    ensures path in disk ==> AfterTargets(disk, targets, fault, windows, k).0[path] == disk[path]
  {
    if k > 0 {
      OthersUntouched(disk, targets, fault, windows, k - 1, path);
    }
  }

  lemma {:induction false} RemovedAreEarlierIds(disk: Disk, targets: seq<Target>, fault: FileId -> Fault, windows: bool, k: nat, id: FileId)
    requires k <= |targets|
    requires id in AfterTargets(disk, targets, fault, windows, k).1
    ensures exists i :: 0 <= i < k && targets[i].id == id
  {
    if k > 0 && id != targets[k - 1].id {
      RemovedAreEarlierIds(disk, targets, fault, windows, k - 1, id);
    }
  }

  /**
   * After any number of steps, a handled target is in the lost list exactly when its path is gone
   * from disk, except that a skipped target that was never there is gone without being listed.
   */
  lemma {:induction false} LostListIsOnDisk(disk: Disk, targets: seq<Target>, fault: FileId -> Fault, windows: bool, k: nat, i: nat)
    requires i < k <= |targets| && DistinctTargets(targets)
    ensures var (d, removed) := AfterTargets(disk, targets, fault, windows, k);
            targets[i].id in removed <==> targets[i].path !in d && !Skips(targets[i], fault(targets[i].id), windows)
  {
    var (d, removed) := AfterTargets(disk, targets, fault, windows, k - 1);
    if i < k - 1 {
      LostListIsOnDisk(disk, targets, fault, windows, k - 1, i);
    } else {
      if targets[i].id in removed {
        RemovedAreEarlierIds(disk, targets, fault, windows, k - 1, targets[i].id);
      }
    }
  }

  ghost predicate Describes(batch: Batch, targets: seq<Target>) {
    && (forall i :: 0 <= i < |targets| ==>
          targets[i].id in batch.files && batch.files[targets[i].id] == Entry(targets[i].path, Deleted))
    && (forall f :: f in batch.files ==> exists i :: 0 <= i < |targets| && targets[i].id == f)
  }

  /** A skipped target that was not on disk to begin with: nobody lists it, and reconciliation finds it absent. */
  predicate SkippedAbsent(disk: Disk, t: Target, fault: Fault, windows: bool) {
    Skips(t, fault, windows) && t.path !in disk
  }

  /**
   * A crash at any step of the removal loop costs nothing: what reconciliation reads off the disk
   * is the list of removed files that was in memory, plus the targets the loop would have found
   * already gone. Exactly the skipped targets that were absent all along are told apart.
   */
  lemma CrashLosesNothing(
    db: Db, b: BatchId, disk: Disk, targets: seq<Target>, fault: FileId -> Fault, windows: bool, k: nat)
    requires Intact(db, b) && Describes(db.batches[b], targets) && DistinctTargets(targets)
    requires k <= |targets|
    ensures var (d, removed) := AfterTargets(disk, targets, fault, windows, k);
            forall i :: 0 <= i < |targets| ==>
              (targets[i].id in Absent(db.batches[b], d.Keys) <==>
                 if i < k then targets[i].id in removed || SkippedAbsent(disk, targets[i], fault(targets[i].id), windows)
                 else targets[i].path !in disk)
  {
    var (d, removed) := AfterTargets(disk, targets, fault, windows, k);
    forall i | 0 <= i < |targets|
      ensures targets[i].id in Absent(db.batches[b], d.Keys) <==>
                 if i < k then targets[i].id in removed || SkippedAbsent(disk, targets[i], fault(targets[i].id), windows)
                 else targets[i].path !in disk
    {
      assert targets[i].id in db.batches[b].files;
      if i < k {
        LostListIsOnDisk(disk, targets, fault, windows, k, i);
        if Skips(targets[i], fault(targets[i].id), windows) {
          SkippedUntouched(disk, targets, fault, windows, k, i);
        }
      } else {
        OthersUntouched(disk, targets, fault, windows, k, targets[i].path);
      }
    }
  }

  lemma {:induction false} SkippedUntouched(disk: Disk, targets: seq<Target>, fault: FileId -> Fault, windows: bool, k: nat, i: nat)
    requires k <= |targets| && i < |targets| && DistinctTargets(targets) && Skips(targets[i], fault(targets[i].id), windows)
    ensures targets[i].path in AfterTargets(disk, targets, fault, windows, k).0 <==> targets[i].path in disk
  {
    if k > 0 {
      SkippedUntouched(disk, targets, fault, windows, k - 1, i);
    }
  }

  /** What the closing transaction would have been. */
  function Closing(db: Db, b: BatchId, removed: seq<FileId>): Db
    requires b in db.batches
  {
    if removed == [] then RemoveBatch(db, b) else Finalize(db, b, set f | f in removed)
  }

  ghost predicate NoneSkippedAbsent(disk: Disk, targets: seq<Target>, fault: FileId -> Fault, windows: bool) {
    forall i :: 0 <= i < |targets| ==> !SkippedAbsent(disk, targets[i], fault(targets[i].id), windows)
  }

  /**
   * Crashing right before the closing transaction and reconciling at startup ends in the very
   * state that transaction would have produced, if and only if no skipped target was absent from
   * disk before the delete.
   */
  lemma CrashBeforeCommit(db: Db, b: BatchId, disk: Disk, targets: seq<Target>, fault: FileId -> Fault, windows: bool)
    requires Intact(db, b) && Describes(db.batches[b], targets) && DistinctTargets(targets)
    ensures var (d, removed) := AfterTargets(disk, targets, fault, windows, |targets|);
            ReconcileBatch(db, b, d.Keys) == Closing(db, b, removed) <==> NoneSkippedAbsent(disk, targets, fault, windows)
  {
    if NoneSkippedAbsent(disk, targets, fault, windows) {
      CommitsIfNoneSkipped(db, b, disk, targets, fault, windows);
    } else {
      var i :| 0 <= i < |targets| && SkippedAbsent(disk, targets[i], fault(targets[i].id), windows);
      DiffersIfSkipped(db, b, disk, targets, fault, windows, i);
    }
  }

  lemma CommitsIfNoneSkipped(db: Db, b: BatchId, disk: Disk, targets: seq<Target>, fault: FileId -> Fault, windows: bool)
    requires Intact(db, b) && Describes(db.batches[b], targets) && DistinctTargets(targets)
    requires NoneSkippedAbsent(disk, targets, fault, windows)
    ensures var (d, removed) := AfterTargets(disk, targets, fault, windows, |targets|);
            ReconcileBatch(db, b, d.Keys) == Closing(db, b, removed)
  {
    var (d, removed) := AfterTargets(disk, targets, fault, windows, |targets|);
    var absent := Absent(db.batches[b], d.Keys);
    CrashLosesNothing(db, b, disk, targets, fault, windows, |targets|);
    forall f
      ensures f in absent <==> f in removed
    {
      if f in removed {
        RemovedAreEarlierIds(disk, targets, fault, windows, |targets|, f);
      }
    }
    assert absent == set f | f in removed;
    if removed != [] {
      assert removed[0] in absent;
    }
    ReconcileIsFinalize(db, b, d.Keys);
  }

  /** The target is a survivor in the journal of the one and deleted in that of the other. */
  lemma DiffersIfSkipped(db: Db, b: BatchId, disk: Disk, targets: seq<Target>, fault: FileId -> Fault, windows: bool, i: nat)
    requires Intact(db, b) && Describes(db.batches[b], targets) && DistinctTargets(targets)
    requires i < |targets| && SkippedAbsent(disk, targets[i], fault(targets[i].id), windows)
    ensures var (d, removed) := AfterTargets(disk, targets, fault, windows, |targets|);
            ReconcileBatch(db, b, d.Keys) != Closing(db, b, removed)
  {
    var (d, removed) := AfterTargets(disk, targets, fault, windows, |targets|);
    var f := targets[i].id;
    CrashLosesNothing(db, b, disk, targets, fault, windows, |targets|);
    LostListIsOnDisk(disk, targets, fault, windows, |targets|, i);
    ReconcileIsFinalize(db, b, d.Keys);
    assert f in db.batches[b].files && f in Members(db, db.batches[b].group) && f in db.files;
    var reconciled := ReconcileBatch(db, b, d.Keys);
    assert reconciled.batches[b].files[f].role == Deleted;
    if removed != [] {
      assert Closing(db, b, removed).batches[b].files[f].role == Survivor;
    }
  }

  /** While the loop runs, one and the same member outside the plan keeps its file as it was, at every step. */
  lemma AMemberKeepsItsFile(db: Db, g: GroupId, disk: Disk, targets: seq<Target>, fault: FileId -> Fault, windows: bool)
    requires Consistent(db)
    requires forall f, h :: f in db.files && h in db.files && f != h ==> db.files[f].path != db.files[h].path
    requires forall i :: 0 <= i < |targets| ==>
               targets[i].id in Members(db, g) && targets[i].path == db.files[targets[i].id].path
    requires exists m :: m in Members(db, g) && forall i :: 0 <= i < |targets| ==> targets[i].id != m
    ensures exists m :: m in Members(db, g) && m in db.files && (forall i :: 0 <= i < |targets| ==> targets[i].id != m)
              && UntouchedThroughout(disk, targets, fault, windows, db.files[m].path)
  {
    var m :| m in Members(db, g) && forall i :: 0 <= i < |targets| ==> targets[i].id != m;
    assert m in db.files;
    forall k | 0 <= k <= |targets|
      ensures SameFile(disk, AfterTargets(disk, targets, fault, windows, k).0, db.files[m].path)
    {
      OthersUntouched(disk, targets, fault, windows, k, db.files[m].path);
    }
  }

  predicate SameFile(before: Disk, after: Disk, path: string) {
    (path in after <==> path in before) && (path in before ==> after[path] == before[path])
  }

  ghost predicate UntouchedThroughout(disk: Disk, targets: seq<Target>, fault: FileId -> Fault, windows: bool, path: string) {
    forall k :: 0 <= k <= |targets| ==> SameFile(disk, AfterTargets(disk, targets, fault, windows, k).0, path)
  }

  // ---- a delete that reconciliation completes differently ---------------------------------------

  const REFUSED_PATH: string := "//?/C:/a.mp4"
  const ORDINARY_PATH: string := "C:/b.mp4"
  const THREE_FILES: map<FileId, File> := map[
    1 := File(REFUSED_PATH, 0, 0, false), 2 := File(ORDINARY_PATH, 0, 0, false), 3 := File("C:/c.mp4", 0, 0, false)]
  const THREE_COPIES: Db := Db(
    THREE_FILES, map[1 := Group(Exact, false, {1, 2, 3})],
    map[1 := Batch(1, Exact, false, false, false, map[1 := Entry(REFUSED_PATH, Deleted), 2 := Entry(ORDINARY_PATH, Deleted)])], 2)

  /**
   * On Windows, two copies are to be deleted: one under a path that is refused and whose file is
   * gone already, one that is really removed. The closing transaction would keep the first as a
   * survivor; after a crash, reconciliation journals and marks it deleted.
   */
  lemma RefusedAndAbsent(disk: Disk, fault: FileId -> Fault)
    requires disk == map[ORDINARY_PATH := Meta(0, 0), "C:/c.mp4" := Meta(0, 0)] && fault(1) == fault(2) == NoFault
    ensures var targets := [Target(1, REFUSED_PATH, 0, 0), Target(2, ORDINARY_PATH, 0, 0)];
            var (d, removed) := AfterTargets(disk, targets, fault, true, 2);
            && Intact(THREE_COPIES, 1) && Describes(THREE_COPIES.batches[1], targets) && DistinctTargets(targets)
            && removed == [2]
            && !Closing(THREE_COPIES, 1, removed).files[1].deleted
            && ReconcileBatch(THREE_COPIES, 1, d.Keys).files[1].deleted
            && ReconcileBatch(THREE_COPIES, 1, d.Keys) != Closing(THREE_COPIES, 1, removed)
  {
    var targets := [Target(1, REFUSED_PATH, 0, 0), Target(2, ORDINARY_PATH, 0, 0)];
    LoopOfTheExample(disk, targets, fault);
    BatchOfTheExample(targets);
    hide AfterTargets, Intact, Describes, DistinctTargets;
    RolesOfTheExample((disk - {ORDINARY_PATH}).Keys);
    DiffersIfSkipped(THREE_COPIES, 1, disk, targets, fault, true, 0);
  }

  lemma LoopOfTheExample(disk: Disk, targets: seq<Target>, fault: FileId -> Fault)
    requires disk == map[ORDINARY_PATH := Meta(0, 0), "C:/c.mp4" := Meta(0, 0)] && fault(1) == fault(2) == NoFault
    requires targets == [Target(1, REFUSED_PATH, 0, 0), Target(2, ORDINARY_PATH, 0, 0)]
    ensures AfterTargets(disk, targets, fault, true, 2) == (disk - {ORDINARY_PATH}, [2])
    ensures SkippedAbsent(disk, targets[0], fault(1), true)
  {
    PathsOfTheExample();
    assert AfterTargets(disk, targets, fault, true, 0) == (disk, []);
    assert AfterTargets(disk, targets, fault, true, 1) == (disk, []);
    assert Removes(disk, targets[1], fault(2), true);
    assert [] + [2] == [2];
  }

  lemma BatchOfTheExample(targets: seq<Target>)
    requires targets == [Target(1, REFUSED_PATH, 0, 0), Target(2, ORDINARY_PATH, 0, 0)]
    ensures Intact(THREE_COPIES, 1) && Describes(THREE_COPIES.batches[1], targets) && DistinctTargets(targets)
  {
    PathsOfTheExample();
    assert targets[0].id == 1 && targets[1].id == 2;
  }

  lemma RolesOfTheExample(disk: set<string>)
    requires disk == {"C:/c.mp4"}
    ensures !Closing(THREE_COPIES, 1, [2]).files[1].deleted
    ensures ReconcileBatch(THREE_COPIES, 1, disk).files[1].deleted
  {
    PathsOfTheExample();
    assert 1 in Absent(THREE_COPIES.batches[1], disk);
  }

  lemma PathsOfTheExample()
    ensures Unsupported(REFUSED_PATH, true) && !Unsupported(ORDINARY_PATH, true)
    ensures REFUSED_PATH != ORDINARY_PATH && REFUSED_PATH != "C:/c.mp4" && ORDINARY_PATH != "C:/c.mp4"
  {
    assert REFUSED_PATH[..2] == "//" && REFUSED_PATH[2..][..2] == "?/";
    assert REFUSED_PATH[0] == '/' && ORDINARY_PATH[0] == 'C';
    assert |REFUSED_PATH| != |ORDINARY_PATH|;
    assert ORDINARY_PATH[3] == 'b' && "C:/c.mp4"[3] == 'c';
  }

  // ---- startup reconciliation, interrupted any number of times ------------------------------

  /** Handling one pending batch takes exactly that batch off the pending list. */
  lemma OneLessPending(db: Db, b: BatchId, disk: set<string>)
    requires b in Pending(db)
    ensures Pending(ReconcileBatch(db, b, disk)) == Pending(db) - {b}
    ensures forall x :: x in db.batches && x != b ==>
              x in ReconcileBatch(db, b, disk).batches && ReconcileBatch(db, b, disk).batches[x] == db.batches[x]
  {
  }

  /** Reconcile the first `k` batches of the list, then stop: a crash between two batches. */
  function Interrupted(db: Db, k: nat, disk: set<string>): Db
    decreases k
  {
    if k == 0 || |Pending(db)| == 0 then db
    else Interrupted(ReconcileBatch(db, Least(Pending(db)), disk), k - 1, disk)
  }

  /** The list read at the start of a pass lists the batches one by one in the order they are left. */
  lemma PassStep(db: Db, disk: set<string>)
    requires |Pending(db)| > 0
    ensures ReconcilePending(db, disk) == ReconcilePending(ReconcileBatch(db, Least(Pending(db)), disk), disk)
  {
    var b := Least(Pending(db));
    var todo := Ascending(Pending(db));
    OneLessPending(db, b, disk);
    assert todo == [b] + Ascending(Pending(db) - {b});
    assert todo[1..] == Ascending(Pending(db) - {b});
  }

  /** What handling the least pending batch does not change, an interrupted pass does not change. */
  lemma {:induction false} InterruptedKeeps(f: Db -> Db, db: Db, k: nat, disk: set<string>)
    requires forall d :: |Pending(d)| > 0 ==> f(ReconcileBatch(d, Least(Pending(d)), disk)) == f(d)
    ensures f(Interrupted(db, k, disk)) == f(db)
    decreases k
  {
    if k > 0 && |Pending(db)| > 0 {
      InterruptedKeeps(f, ReconcileBatch(db, Least(Pending(db)), disk), k - 1, disk);
    }
  }

  lemma InterruptedThenRerun(db: Db, k: nat, disk: set<string>)
    ensures ReconcilePending(Interrupted(db, k, disk), disk) == ReconcilePending(db, disk)
  {
    forall d | |Pending(d)| > 0
      ensures ReconcilePending(ReconcileBatch(d, Least(Pending(d)), disk), disk) == ReconcilePending(d, disk)
    {
      PassStep(d, disk);
    }
    InterruptedKeeps(d => ReconcilePending(d, disk), db, k, disk);
  }

  /** Every start reconciles some batches and crashes; the last start runs to the end. */
  function Restarts(db: Db, crashes: seq<nat>, disk: set<string>): Db
    decreases |crashes|
  {
    if crashes == [] then ReconcilePending(db, disk)
    else Restarts(Interrupted(db, crashes[0], disk), crashes[1..], disk)
  }

  /** Any number of crashes between batches ends in the state of one uninterrupted pass. */
  lemma {:induction false} RestartsAgree(db: Db, crashes: seq<nat>, disk: set<string>)
    ensures Restarts(db, crashes, disk) == ReconcilePending(db, disk)
    decreases |crashes|
  {
    if crashes != [] {
      RestartsAgree(Interrupted(db, crashes[0], disk), crashes[1..], disk);
      InterruptedThenRerun(db, crashes[0], disk);
    }
  }

  /** The recorded targets of all pending batches, and those of them that are gone from disk. */
  function PendingTargets(db: Db): set<FileId> {
    set b, f | b in db.batches && !db.batches[b].committed && f in WithRole(db.batches[b], Deleted) :: f
  }

  function PendingAbsent(db: Db, disk: set<string>): set<FileId> {
    set b, f | b in db.batches && !db.batches[b].committed && f in Absent(db.batches[b], disk) :: f
  }

  lemma FlagTwice(files: map<FileId, File>, a: set<FileId>, b: set<FileId>)
    ensures Flag(Flag(files, a, true), b, true) == Flag(files, a + b, true)
    ensures Flag(files, {}, true) == files
  {
  }

  lemma FlagsAddUp(a: map<FileId, File>, b: map<FileId, File>, c: map<FileId, File>, gone: set<FileId>, rest: set<FileId>, all: set<FileId>)
    requires b == Flag(a, gone, true) && c == Flag(b, rest, true) && all == rest + gone
    ensures c == Flag(a, all, true)
  {
    FlagTwice(a, gone, rest);
    assert gone + rest == all;
  }

  lemma OneBatchFlags(db: Db, b: BatchId, disk: set<string>)
    requires b in db.batches
    ensures ReconcileBatch(db, b, disk).files == Flag(db.files, Absent(db.batches[b], disk), true)
  {
    FlagTwice(db.files, {}, {});
  }

  lemma EmptyPass(db: Db, disk: set<string>)
    requires Pending(db) == {}
    ensures ReconcilePending(db, disk) == db && PendingAbsent(db, disk) == {}
  {
    forall b | b in db.batches
      ensures db.batches[b].committed
    {
      assert b in Pending(db) <==> !db.batches[b].committed;
    }
  }

  /**
   * After a pass no batch is pending, and the files marked deleted are those that were before
   * plus exactly the recorded targets that are absent from disk.
   */
  lemma {:induction false} PassOutcome(db: Db, disk: set<string>)
    ensures Pending(ReconcilePending(db, disk)) == {}
    ensures ReconcilePending(db, disk).files == Flag(db.files, PendingAbsent(db, disk), true)
    decreases |Pending(db)|
  {
    if Pending(db) == {} {
      EmptyPass(db, disk);
      FlagTwice(db.files, {}, {});
    } else {
      var b := Least(Pending(db));
      var next := ReconcileBatch(db, b, disk);
      OneLessPending(db, b, disk);
      PassStep(db, disk);
      PassOutcome(next, disk);
      OneBatchFlags(db, b, disk);
      OnePendingTarget(db, b, disk);
      FlagsAddUp(db.files, next.files, ReconcilePending(next, disk).files,
        Absent(db.batches[b], disk), PendingAbsent(next, disk), PendingAbsent(db, disk));
    }
  }

  /** A second pass changes nothing. */
  lemma PassIsIdempotent(db: Db, disk: set<string>)
    ensures ReconcilePending(ReconcilePending(db, disk), disk) == ReconcilePending(db, disk)
  {
    PassOutcome(db, disk);
    assert Ascending(Pending(ReconcilePending(db, disk))) == [];
  }

  lemma OnePendingTarget(db: Db, b: BatchId, disk: set<string>)
    requires b in Pending(db)
    ensures PendingAbsent(db, disk) == PendingAbsent(ReconcileBatch(db, b, disk), disk) + Absent(db.batches[b], disk)
  {
    var next := ReconcileBatch(db, b, disk);
    OneLessPending(db, b, disk);
    forall f
      ensures f in PendingAbsent(db, disk) <==> f in PendingAbsent(next, disk) + Absent(db.batches[b], disk)
    {
      if f in PendingAbsent(db, disk) {
        var x :| x in db.batches && !db.batches[x].committed && f in Absent(db.batches[x], disk);
        if x != b {
          assert x in Pending(next);
        }
      }
      if f in PendingAbsent(next, disk) {
        var x :| x in next.batches && !next.batches[x].committed && f in Absent(next.batches[x], disk);
        assert x in Pending(next) && x != b;
      }
    }
  }

  /** A recorded target ends up deleted if and only if it was before or is gone from disk. */
  lemma TargetDeletedIffAbsent(db: Db, disk: set<string>, f: FileId)
    requires f in PendingTargets(db) && f in db.files
    requires forall b :: b in db.batches && f in db.batches[b].files ==> db.batches[b].files[f].path == db.files[f].path
    ensures f in ReconcilePending(db, disk).files
    ensures ReconcilePending(db, disk).files[f].deleted <==> db.files[f].deleted || db.files[f].path !in disk
  {
    PassOutcome(db, disk);
    var b :| b in db.batches && !db.batches[b].committed && f in WithRole(db.batches[b], Deleted);
    if db.files[f].path !in disk {
      assert f in Absent(db.batches[b], disk);
    }
  }

  // ---- what a pass over several batches leaves ------------------------------------------------

  /** Pending batches describe their groups, no two of them the same one. */
  ghost predicate Apart(db: Db) {
    && (forall b :: b in Pending(db) ==> Intact(db, b))
    && (forall b, c :: b in Pending(db) && c in Pending(db) && db.batches[b].group == db.batches[c].group ==> b == c)
  }

  ghost predicate BusyWith(db: Db, g: GroupId) {
    exists b :: b in Pending(db) && db.batches[b].group == g
  }

  predicate SameAt(a: map<GroupId, Group>, b: map<GroupId, Group>, g: GroupId) {
    (g in a <==> g in b) && (g in a ==> b[g] == a[g])
  }

  /** The batch and its group stand in `r` as if the batch alone had been finalized with its absent targets. */
  ghost predicate ClosedAlone(db: Db, b: BatchId, disk: set<string>, r: Db)
    requires b in db.batches
  {
    var batch := db.batches[b];
    var absent := Absent(batch, disk);
    if absent == {} then b !in r.batches && SameAt(db.groups, r.groups, batch.group)
    else
      && b in r.batches && r.batches[b] == Finalize(db, b, absent).batches[b]
      && SameAt(Finalize(db, b, absent).groups, r.groups, batch.group)
  }

  lemma OneBatchOtherBatches(db: Db, b: BatchId, disk: set<string>)
    requires b in db.batches
    ensures var next := ReconcileBatch(db, b, disk);
            && next.batches.Keys <= db.batches.Keys
            && forall c :: c in db.batches && c != b ==> c in next.batches && next.batches[c] == db.batches[c]
  {
    hide Commit, ReconciledRows, Flag, TakeOut;
  }

  lemma OneBatchOtherGroups(db: Db, b: BatchId, disk: set<string>)
    requires b in db.batches
    ensures var next := ReconcileBatch(db, b, disk);
            forall g :: g != db.batches[b].group ==> SameAt(db.groups, next.groups, g)
  {
    hide Commit, ReconciledRows, Flag;
  }

  lemma OneBatchElsewhere(db: Db, b: BatchId, disk: set<string>)
    requires b in db.batches
    ensures var next := ReconcileBatch(db, b, disk);
            && next.batches.Keys <= db.batches.Keys
            && (forall c :: c in db.batches && c != b ==> c in next.batches && next.batches[c] == db.batches[c])
            && (forall g :: g != db.batches[b].group ==> SameAt(db.groups, next.groups, g))
            && next.files.Keys == db.files.Keys && (forall f :: f in db.files ==> next.files[f].path == db.files[f].path)
  {
    OneBatchOtherBatches(db, b, disk);
    OneBatchOtherGroups(db, b, disk);
    OneBatchFlags(db, b, disk);
    hide ReconcileBatch, SameAt;
  }

  lemma OneBatchClosed(db: Db, b: BatchId, disk: set<string>)
    requires Intact(db, b)
    ensures ClosedAlone(db, b, disk, ReconcileBatch(db, b, disk))
  {
    ReconcileIsFinalize(db, b, disk);
  }

  /** Closed batches and groups without a pending one are left alone, and no batch appears. */
  lemma {:induction false} PassElsewhere(db: Db, disk: set<string>)
    ensures var r := ReconcilePending(db, disk);
            && r.batches.Keys <= db.batches.Keys
            && (forall c :: c in db.batches && db.batches[c].committed ==> c in r.batches && r.batches[c] == db.batches[c])
            && (forall g :: !BusyWith(db, g) ==> SameAt(db.groups, r.groups, g))
    decreases |Pending(db)|
  {
    if Pending(db) == {} {
      EmptyPass(db, disk);
    } else {
      var b := Least(Pending(db));
      var next := ReconcileBatch(db, b, disk);
      OneLessPending(db, b, disk);
      PassStep(db, disk);
      OneBatchElsewhere(db, b, disk);
      PassElsewhere(next, disk);
      assert !db.batches[b].committed;
      hide ReconcilePending, ReconcileBatch, SameAt, BusyWith, Pending;
      forall g | !BusyWith(db, g)
        ensures SameAt(db.groups, ReconcilePending(next, disk).groups, g)
      {
        LessBusy(db, next, b, g);
        SameTwice(db.groups, next.groups, ReconcilePending(next, disk).groups, g);
      }
    }
  }

  lemma SameTwice(a: map<GroupId, Group>, b: map<GroupId, Group>, c: map<GroupId, Group>, g: GroupId)
    requires SameAt(a, b, g) && SameAt(b, c, g)
    ensures SameAt(a, c, g)
  {
  }

  lemma LessBusy(db: Db, next: Db, b: BatchId, g: GroupId)
    requires b in Pending(db) && Pending(next) == Pending(db) - {b}
    requires forall c :: c in db.batches && c != b ==> c in next.batches && next.batches[c] == db.batches[c]
    ensures BusyWith(db, g) <==> db.batches[b].group == g || BusyWith(next, g)
  {
    if BusyWith(next, g) {
      var c :| c in Pending(next) && next.batches[c].group == g;
      assert c in Pending(db);
    }
    if c :| c in Pending(db) && db.batches[c].group == g && c != b {
      assert c in Pending(next);
    }
  }

  lemma StaysApart(db: Db, next: Db, b: BatchId)
    requires Apart(db) && b in Pending(db) && Pending(next) == Pending(db) - {b}
    requires forall c :: c in db.batches && c != b ==> c in next.batches && next.batches[c] == db.batches[c]
    requires forall g :: g != db.batches[b].group ==> SameAt(db.groups, next.groups, g)
    requires next.files.Keys == db.files.Keys && forall f :: f in db.files ==> next.files[f].path == db.files[f].path
    ensures Apart(next)
  {
    forall c | c in Pending(next)
      ensures Intact(next, c)
    {
      assert c in Pending(db) && Intact(db, c);
      assert SameAt(db.groups, next.groups, db.batches[c].group);
    }
  }

  lemma SamePathsSameRows(a: map<FileId, File>, b: map<FileId, File>, members: set<FileId>, removed: set<FileId>)
    requires b.Keys == a.Keys && forall f :: f in a ==> b[f].path == a[f].path
    ensures FinalRows(b, members, removed) == FinalRows(a, members, removed)
  {
    forall f | f in members && f in a
      ensures FinalRows(b, members, removed)[f] == FinalRows(a, members, removed)[f]
    {
    }
  }

  /** What another batch changes does not show in how this one is closed. */
  lemma ClosedAllTheSame(db: Db, next: Db, b: BatchId, disk: set<string>, r: Db)
    requires b in db.batches && b in next.batches && next.batches[b] == db.batches[b]
    requires SameAt(db.groups, next.groups, db.batches[b].group)
    requires next.files.Keys == db.files.Keys && forall f :: f in db.files ==> next.files[f].path == db.files[f].path
    requires ClosedAlone(next, b, disk, r)
    ensures ClosedAlone(db, b, disk, r)
  {
    var batch := db.batches[b];
    var members, absent := Members(db, batch.group), Absent(batch, disk);
    SamePathsSameRows(db.files, next.files, members, absent);
    assert Members(next, batch.group) == members;
    assert SameAt(TakeOut(db.groups, batch.group, absent), TakeOut(next.groups, batch.group, absent), batch.group);
  }

  /**
   * A pass closes every pending batch as finalizing it alone with its absent targets would: same
   * status, same journal rows and roles, same group; none shows the others that were closed before.
   */
  lemma {:induction false} PassFinalizesEach(db: Db, disk: set<string>, b: BatchId)
    requires Apart(db) && b in Pending(db)
    ensures ClosedAlone(db, b, disk, ReconcilePending(db, disk))
    decreases |Pending(db)|
  {
    var x := Least(Pending(db));
    var next := ReconcileBatch(db, x, disk);
    var r := ReconcilePending(db, disk);
    OneLessPending(db, x, disk);
    PassStep(db, disk);
    OneBatchElsewhere(db, x, disk);
    hide ReconcilePending, ReconcileBatch;
    if b == x {
      OneBatchClosed(db, b, disk);
      PassElsewhere(next, disk);
      OthersAreElsewhere(db, next, b);
      ClosedStays(db, next, b, disk, r);
    } else {
      StaysApart(db, next, x);
      assert b in Pending(next);
      PassFinalizesEach(next, disk, b);
      assert SameAt(db.groups, next.groups, db.batches[b].group);
      ClosedAllTheSame(db, next, b, disk, r);
    }
  }

  lemma OthersAreElsewhere(db: Db, next: Db, b: BatchId)
    requires Apart(db) && b in Pending(db) && Pending(next) == Pending(db) - {b}
    requires forall c :: c in db.batches && c != b ==> c in next.batches && next.batches[c] == db.batches[c]
    ensures !BusyWith(next, db.batches[b].group)
  {
    forall c | c in Pending(next)
      ensures next.batches[c].group != db.batches[b].group
    {
      assert c in Pending(db) && c != b;
    }
  }

  lemma ClosedStays(db: Db, next: Db, b: BatchId, disk: set<string>, r: Db)
    requires b in db.batches && ClosedAlone(db, b, disk, next)
    requires r.batches.Keys <= next.batches.Keys
    requires forall c :: c in next.batches && next.batches[c].committed ==> c in r.batches && r.batches[c] == next.batches[c]
    requires SameAt(next.groups, r.groups, db.batches[b].group)
    ensures ClosedAlone(db, b, disk, r)
  {
  }
}

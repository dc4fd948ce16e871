/** Deletes and undos form a stack: n committed deletes followed by n undos. */
module UndoStack {
  import opened Common
  import opened DeletePlan
  import opened Journal

  /** One committed delete: what was planned in a group and what really left the disk. */
  datatype Deletion = Deletion(group: GroupId, planned: set<FileId>, removed: set<FileId>)

  /** What the plan and the removal loop guarantee when the closing transaction runs. */
  ghost predicate CanDelete(db: Db, d: Deletion) {
    && d.group in db.groups
    && d.planned < db.groups[d.group].members
    && d.removed <= d.planned
    && d.removed != {}
  }

  function Targets(files: map<FileId, File>, ids: set<FileId>): map<FileId, string> {
    map f | f in ids && f in files :: files[f].path
  }

  function Delete(db: Db, d: Deletion): Db
    requires CanDelete(db, d)
  {
    var group := db.groups[d.group];
    Finalize(RecordPending(db, d.group, group.trust, group.nonTransitive, Targets(db.files, d.planned)), db.nextBatch, d.removed)
  }

  ghost predicate CanDeleteAll(db: Db, ds: seq<Deletion>)
    decreases |ds|
  {
    ds == [] || (CanDelete(db, ds[0]) && CanDeleteAll(Delete(db, ds[0]), ds[1..]))
  }

  function DeleteAll(db: Db, ds: seq<Deletion>): Db
    requires CanDeleteAll(db, ds)
    decreases |ds|
  {
    if ds == [] then db else DeleteAll(Delete(db, ds[0]), ds[1..])
  }

  function UndoTimes(db: Db, disk: set<string>, n: nat): Db {
    if n == 0 then db else UndoLast(UndoTimes(db, disk, n - 1), disk).0
  }

  function AllRemoved(ds: seq<Deletion>): set<FileId>
    decreases |ds|
  {
    if ds == [] then {} else ds[0].removed + AllRemoved(ds[1..])
  }

  function Gone(files: map<FileId, File>, ids: set<FileId>, disk: set<string>): set<FileId> {
    set f | f in ids && f in files && files[f].path !in disk
  }

  /** The files of the first delete on `g` that are not back on disk. */
  function StillGone(files: map<FileId, File>, ds: seq<Deletion>, g: GroupId, disk: set<string>): set<FileId>
    decreases |ds|
  {
    if ds == [] then {}
    else if ds[0].group == g then Gone(files, ds[0].removed, disk)
    else StillGone(files, ds[1..], g, disk)
  }

  /** File rows as n undos leave them: removed files are deleted exactly when absent. */
  function RewoundFiles(files: map<FileId, File>, removed: set<FileId>, disk: set<string>): map<FileId, File> {
    map f | f in files :: if f in removed then files[f].(deleted := files[f].path !in disk) else files[f]
  }

  function RewoundGroups(files: map<FileId, File>, groups: map<GroupId, Group>, ds: seq<Deletion>, disk: set<string>)
    : map<GroupId, Group>
  {
    map g | g in groups :: groups[g].(members := groups[g].members - StillGone(files, ds, g, disk))
  }

  /** The state n undos reach: the old one, minus what has not come back. */
  function Rewound(db: Db, ds: seq<Deletion>, disk: set<string>): Db {
    db.(files := RewoundFiles(db.files, AllRemoved(ds), disk),
        groups := RewoundGroups(db.files, db.groups, ds, disk))
  }

  /** In every delete at least one removed file is back on disk: an undo has something to restore. */
  ghost predicate EachRestorable(db: Db, ds: seq<Deletion>, disk: set<string>) {
    forall k :: 0 <= k < |ds| ==> SomeBack(db, ds[k], disk)
  }

  ghost predicate SomeBack(db: Db, d: Deletion, disk: set<string>) {
    exists f :: f in d.removed && f in db.files && db.files[f].path in disk
  }

  // ---- one delete ---------------------------------------------------------------------------

  /** The rows a delete leaves behind, spelled out. */
  lemma DeleteEffect(db: Db, d: Deletion)
    requires Consistent(db) && CanDelete(db, d)
    ensures var db' := Delete(db, d);
            var group := db.groups[d.group];
            && Consistent(db')
            && db'.files == Flag(db.files, d.removed, true)
            && db'.groups == TakeOut(db.groups, d.group, d.removed)
            && db.nextBatch !in db.batches
            && db'.batches.Keys == db.batches.Keys + {db.nextBatch}
            && db'.batches - {db.nextBatch} == db.batches
            && db'.batches[db.nextBatch].committed
            && db'.batches[db.nextBatch].group == d.group
            && db'.batches[db.nextBatch].trust == group.trust
            && db'.batches[db.nextBatch].nonTransitive == group.nonTransitive
            && db'.batches[db.nextBatch].files == FinalRows(db.files, group.members, d.removed)
            && db'.nextBatch == db.nextBatch + 1
  {
    var group := db.groups[d.group];
    var rec := RecordPending(db, d.group, group.trust, group.nonTransitive, Targets(db.files, d.planned));
    var db' := Delete(db, d);
    assert rec.batches - {db.nextBatch} == db.batches;
    assert db'.batches - {db.nextBatch} == db.batches;
  }

  /** The batch of a delete is the last committed one, whatever older batches there are. */
  lemma NewestIsLast(db: Db, b: BatchId)
    requires b in db.batches && db.batches[b].committed
    requires forall x :: x in db.batches ==> x <= b
    ensures |Committed(db)| > 0 && Last(db) == b
  {
    assert b in Committed(db);
    SubsetSize({b}, Committed(db));
  }

  /** What undo reads back from the journal of a delete. */
  lemma JournalRoles(files: map<FileId, File>, members: set<FileId>, removed: set<FileId>, batch: Batch, disk: set<string>)
    requires removed <= members <= files.Keys
    requires batch.files == FinalRows(files, members, removed)
    ensures WithRole(batch, Survivor) == members - removed
    ensures Restorable(batch, disk) == removed - Gone(files, removed, disk)
  {
    forall f
      ensures f in WithRole(batch, Survivor) <==> f in members - removed
      ensures f in Restorable(batch, disk) <==> f in removed - Gone(files, removed, disk)
    {
      assert f in members ==> f in files.Keys;
    }
  }

  /** `late` looks like `db` after the later deletes were undone again: same groups, maybe smaller. */
  ghost predicate Unwound(late: Db, db: Db) {
    && late.groups.Keys == db.groups.Keys
    && late.batches == db.batches
    && forall g :: g in db.groups ==>
         (late.groups[g].trust == db.groups[g].trust && late.groups[g].nonTransitive == db.groups[g].nonTransitive
          && late.groups[g].members <= db.groups[g].members)
  }

  /** The group rows after one undo on top of an unwound state. */
  lemma UndoneGroups(groups: map<GroupId, Group>, g: GroupId, removed: set<FileId>, gone: set<FileId>, late: map<GroupId, Group>)
    requires g in groups && gone <= removed <= groups[g].members
    requires late.Keys == TakeOut(groups, g, removed).Keys
    requires g in late ==> (late[g].trust == groups[g].trust && late[g].nonTransitive == groups[g].nonTransitive
                            && late[g].members <= groups[g].members - removed)
    ensures var group := if g in late then late[g] else Group(groups[g].trust, groups[g].nonTransitive, {});
            var r := late[g := group.(members := group.members + (groups[g].members - removed) + (removed - gone))];
            && r.Keys == groups.Keys
            && r[g] == groups[g].(members := groups[g].members - gone)
            && forall h :: h in groups && h != g ==> h in late && r[h] == late[h]
  {
    var group := if g in late then late[g] else Group(groups[g].trust, groups[g].nonTransitive, {});
    assert group.members + (groups[g].members - removed) + (removed - gone) == groups[g].members - gone;
  }

  /**
   * Undoing one delete on top of an unwound state: exactly the files back on disk become active,
   * and the group has its old members again except those that are still missing.
   */
  lemma UndoOneDelete(db: Db, d: Deletion, late: Db, disk: set<string>)
    requires Consistent(db) && CanDelete(db, d)
    requires Unwound(late, Delete(db, d))
    requires exists f :: f in d.removed && f in db.files && db.files[f].path in disk
    ensures var r := UndoLast(late, disk).0;
            && r.files == Flag(late.files, d.removed - Gone(db.files, d.removed, disk), false)
            && r.batches == db.batches
            && r.groups.Keys == db.groups.Keys
            && (forall g :: g in db.groups && g != d.group ==> g in late.groups && r.groups[g] == late.groups[g])
            && r.groups[d.group] == db.groups[d.group].(members := db.groups[d.group].members - Gone(db.files, d.removed, disk))
  {
    DeleteEffect(db, d);
    var group := db.groups[d.group];
    var b := db.nextBatch;
    NewestIsLast(late, b);
    var gone := Gone(db.files, d.removed, disk);
    JournalRoles(db.files, group.members, d.removed, late.batches[b], disk);
    var f :| f in d.removed && f in db.files && db.files[f].path in disk;
    assert f in Restorable(late.batches[b], disk);
    UndoneGroups(db.groups, d.group, d.removed, gone, late.groups);
  }

  // ---- the whole stack ----------------------------------------------------------------------

  lemma RewoundIsUnwound(db: Db, ds: seq<Deletion>, disk: set<string>)
    ensures Unwound(Rewound(db, ds, disk), db)
  {
  }

  lemma {:induction false} StillGoneSame(a: map<FileId, File>, ids: set<FileId>, ds: seq<Deletion>, g: GroupId, disk: set<string>)
    ensures StillGone(Flag(a, ids, true), ds, g, disk) == StillGone(a, ds, g, disk)
    decreases |ds|
  {
    if ds != [] {
      if ds[0].group == g {
        var r := ds[0].removed;
        forall f
          ensures f in Gone(Flag(a, ids, true), r, disk) <==> f in Gone(a, r, disk)
        {
        }
        assert Gone(Flag(a, ids, true), r, disk) == Gone(a, r, disk);
      } else {
        StillGoneSame(a, ids, ds[1..], g, disk);
      }
    }
  }

  lemma NoDeletes(db: Db, disk: set<string>)
    ensures SameRows(Rewound(db, [], disk), db)
  {
    var want := Rewound(db, [], disk);
    forall f | f in db.files
      ensures want.files[f] == db.files[f]
    {
    }
    forall g | g in db.groups
      ensures want.groups[g] == db.groups[g]
    {
      assert db.groups[g].members - {} == db.groups[g].members;
    }
    assert want.files == db.files && want.groups == db.groups;
  }

  ghost predicate SamePaths(a: Db, b: Db) {
    b.files.Keys == a.files.Keys && forall f :: f in a.files ==> b.files[f].path == a.files[f].path
  }

  lemma SamePathsSameBack(a: Db, b: Db, d: Deletion, disk: set<string>)
    requires SamePaths(a, b)
    ensures SomeBack(a, d, disk) <==> SomeBack(b, d, disk)
  {
  }

  lemma RestorableTail(db: Db, ds: seq<Deletion>, disk: set<string>)
    requires Consistent(db) && ds != [] && CanDelete(db, ds[0])
    ensures Consistent(Delete(db, ds[0]))
    ensures EachRestorable(db, ds, disk) <==> SomeBack(db, ds[0], disk) && EachRestorable(Delete(db, ds[0]), ds[1..], disk)
  {
    var db', rest := Delete(db, ds[0]), ds[1..];
    DeleteEffect(db, ds[0]);
    forall k | 0 <= k < |rest|
      ensures SomeBack(db', rest[k], disk) <==> SomeBack(db, ds[k + 1], disk)
    {
      SamePathsSameBack(db, db', rest[k], disk);
    }
    if SomeBack(db, ds[0], disk) && EachRestorable(db', rest, disk) {
      forall k | 0 <= k < |ds|
        ensures SomeBack(db, ds[k], disk)
      {
        assert k > 0 ==> SomeBack(db', rest[k - 1], disk);
      }
    }
  }

  lemma UndoTimesNext(db: Db, disk: set<string>, n: nat)
    ensures UndoTimes(db, disk, n + 1) == UndoLast(UndoTimes(db, disk, n), disk).0
  {
    hide UndoLast;
  }

  /** As long as every delete has a file back on disk, n undos unwind n deletes. */
  lemma {:induction false} StackUnwinds(db: Db, ds: seq<Deletion>, disk: set<string>)
    requires Consistent(db) && CanDeleteAll(db, ds) && EachRestorable(db, ds, disk)
    ensures SameRows(UndoTimes(DeleteAll(db, ds), disk, |ds|), Rewound(db, ds, disk))
    decreases |ds|
  {
    hide Delete, UndoLast, Rewound, Consistent, CanDelete, EachRestorable, SomeBack;
    if ds == [] {
      NoDeletes(db, disk);
    } else {
      var db', rest := Delete(db, ds[0]), ds[1..];
      RestorableTail(db, ds, disk);
      StackUnwinds(db', rest, disk);
      var late := UndoTimes(DeleteAll(db', rest), disk, |rest|);
      UndoTimesNext(DeleteAll(db', rest), disk, |rest|);
      LastLayer(db, ds, late, disk);
    }
  }

  lemma UndoRemovesAtMostOne(db: Db, disk: set<string>)
    ensures |UndoLast(db, disk).0.batches| >= |db.batches| - 1
  {
    var r := UndoLast(db, disk).0;
    if r != db {
      var b := Last(db);
      assert db.batches.Keys == r.batches.Keys + {b};
    }
  }

  /** A delete of which nothing is back holds up the undo that would have been its turn. */
  lemma NothingBackBlocks(db: Db, d: Deletion, late: Db, disk: set<string>)
    requires Consistent(db) && CanDelete(db, d) && late.batches == Delete(db, d).batches && !SomeBack(db, d, disk)
    ensures UndoLast(late, disk) == (late, NothingRestorable)
    ensures |late.batches| == |db.batches| + 1
  {
    DeleteEffect(db, d);
    var b := db.nextBatch;
    NewestIsLast(late, b);
    JournalRoles(db.files, db.groups[d.group].members, d.removed, late.batches[b], disk);
    forall f | f in d.removed
      ensures f in Gone(db.files, d.removed, disk)
    {
      assert f in db.groups[d.group].members && f in db.files;
    }
    assert d.removed - Gone(db.files, d.removed, disk) == {};
    BlockedOnce(late, disk);
    assert late.batches.Keys == db.batches.Keys + {b};
  }

  lemma {:induction false} TooManyLeft(db: Db, ds: seq<Deletion>, disk: set<string>)
    requires Consistent(db) && CanDeleteAll(db, ds) && !EachRestorable(db, ds, disk)
    ensures |UndoTimes(DeleteAll(db, ds), disk, |ds|).batches| > |db.batches|
    decreases |ds|
  {
    if ds != [] {
      var db', rest := Delete(db, ds[0]), ds[1..];
      var late := UndoTimes(DeleteAll(db', rest), disk, |rest|);
      assert UndoTimes(DeleteAll(db, ds), disk, |ds|) == UndoLast(late, disk).0;
      RestorableTail(db, ds, disk);
      DeleteEffect(db, ds[0]);
      if EachRestorable(db', rest, disk) {
        StackUnwinds(db', rest, disk);
        NothingBackBlocks(db, ds[0], late, disk);
      } else {
        TooManyLeft(db', rest, disk);
        assert db'.batches.Keys == db.batches.Keys + {db.nextBatch};
        UndoRemovesAtMostOne(late, disk);
      }
    }
  }

  /**
   * n deletes followed by n undos give this if and only if every one of the deletes has a file
   * back on disk: each file that was removed is active exactly when it is back, every group exists
   * again under its id, trust and flag, its member rows are the old ones except the files missing
   * from the first delete on it, and the journal is as before.
   */
  lemma StackOfUndos(db: Db, ds: seq<Deletion>, disk: set<string>)
    requires Consistent(db) && CanDeleteAll(db, ds)
    ensures SameRows(UndoTimes(DeleteAll(db, ds), disk, |ds|), Rewound(db, ds, disk)) <==> EachRestorable(db, ds, disk)
    ensures UndoTimes(DeleteAll(db, ds), disk, |ds|).batches == db.batches <==> EachRestorable(db, ds, disk)
  {
    if EachRestorable(db, ds, disk) {
      StackUnwinds(db, ds, disk);
    } else {
      TooManyLeft(db, ds, disk);
    }
  }

  lemma LastLayer(db: Db, ds: seq<Deletion>, late: Db, disk: set<string>)
    requires Consistent(db) && ds != [] && CanDelete(db, ds[0])
    requires SameRows(late, Rewound(Delete(db, ds[0]), ds[1..], disk))
    requires EachRestorable(db, ds, disk)
    ensures SameRows(UndoLast(late, disk).0, Rewound(db, ds, disk))
  {
    var d, rest := ds[0], ds[1..];
    var db' := Delete(db, d);
    DeleteEffect(db, d);
    RewoundIsUnwound(db', rest, disk);
    assert exists f :: f in d.removed && f in db.files && db.files[f].path in disk by {
      assert ds[0] == d;
    }
    UndoOneDelete(db, d, late, disk);
    LastLayerFiles(db.files, d.removed, AllRemoved(rest), disk);
    LastLayerGroups(db.files, db.groups, ds, late.groups, UndoLast(late, disk).0.groups, disk);
  }

  lemma LastLayerGroups(
    files: map<FileId, File>, groups: map<GroupId, Group>, ds: seq<Deletion>,
    late: map<GroupId, Group>, r: map<GroupId, Group>, disk: set<string>)
    requires ds != [] && ds[0].group in groups
    requires late == RewoundGroups(Flag(files, ds[0].removed, true), TakeOut(groups, ds[0].group, ds[0].removed), ds[1..], disk)
    requires r.Keys == groups.Keys
    requires forall g :: g in groups && g != ds[0].group ==> g in late && r[g] == late[g]
    requires r[ds[0].group] == groups[ds[0].group].(members := groups[ds[0].group].members - Gone(files, ds[0].removed, disk))
    ensures r == RewoundGroups(files, groups, ds, disk)
  {
    forall g | g in groups
      ensures r[g] == RewoundGroups(files, groups, ds, disk)[g]
    {
      if g != ds[0].group {
        StillGoneSame(files, ds[0].removed, ds[1..], g, disk);
      }
    }
  }

  lemma LastLayerFiles(files: map<FileId, File>, first: set<FileId>, later: set<FileId>, disk: set<string>)
    ensures Flag(RewoundFiles(Flag(files, first, true), later, disk), first - Gone(files, first, disk), false)
            == RewoundFiles(files, first + later, disk)
  {
    var a := Flag(RewoundFiles(Flag(files, first, true), later, disk), first - Gone(files, first, disk), false);
    var b := RewoundFiles(files, first + later, disk);
    forall f | f in files
      ensures a[f] == b[f]
    {
    }
    assert a == b;
  }

  /** With every removed file back on disk, n undos restore everything except earlier deletion marks. */
  lemma StackRestoresAll(db: Db, ds: seq<Deletion>, disk: set<string>)
    requires Consistent(db) && CanDeleteAll(db, ds)
    requires forall f :: f in AllRemoved(ds) && f in db.files ==> db.files[f].path in disk
    ensures var r := UndoTimes(DeleteAll(db, ds), disk, |ds|);
            && r.groups == db.groups && r.batches == db.batches
            && r.files == Flag(db.files, AllRemoved(ds), false)
            && ((forall f :: f in AllRemoved(ds) && f in db.files ==> !db.files[f].deleted) ==> r.files == db.files)
  {
    RestorableEverywhere(db, ds, disk);
    StackUnwinds(db, ds, disk);
    NothingMissing(db.files, db.groups, ds, disk);
  }

  lemma NothingMissing(files: map<FileId, File>, groups: map<GroupId, Group>, ds: seq<Deletion>, disk: set<string>)
    requires forall f :: f in AllRemoved(ds) && f in files ==> files[f].path in disk
    ensures RewoundFiles(files, AllRemoved(ds), disk) == Flag(files, AllRemoved(ds), false)
    ensures RewoundGroups(files, groups, ds, disk) == groups
    ensures (forall f :: f in AllRemoved(ds) && f in files ==> !files[f].deleted) ==>
              Flag(files, AllRemoved(ds), false) == files
  {
    forall f | f in files
      ensures RewoundFiles(files, AllRemoved(ds), disk)[f] == Flag(files, AllRemoved(ds), false)[f]
    {
    }
    forall g | g in groups
      ensures RewoundGroups(files, groups, ds, disk)[g] == groups[g]
    {
      NothingStillGone(files, ds, g, disk);
      assert groups[g].members - {} == groups[g].members;
    }
    if forall f :: f in AllRemoved(ds) && f in files ==> !files[f].deleted {
      var same := Flag(files, AllRemoved(ds), false);
      forall f | f in files
        ensures same[f] == files[f]
      {
      }
    }
  }

  lemma {:induction false} RestorableEverywhere(db: Db, ds: seq<Deletion>, disk: set<string>)
    requires Consistent(db) && CanDeleteAll(db, ds)
    requires forall f :: f in AllRemoved(ds) && f in db.files ==> db.files[f].path in disk
    ensures EachRestorable(db, ds, disk)
    decreases |ds|
  {
    if ds != [] {
      var d, rest := ds[0], ds[1..];
      DeleteEffect(db, d);
      var db' := Delete(db, d);
      RestorableEverywhere(db', rest, disk);
      forall k | 0 <= k < |ds|
        ensures SomeBack(db, ds[k], disk)
      {
        if k == 0 {
          NonEmpty(d.removed);
          var f := AnElement(d.removed);
          assert f in db.groups[d.group].members && f in db.files && f in AllRemoved(ds);
        } else {
          assert ds[k] == rest[k - 1];
          var f :| f in rest[k - 1].removed && f in db'.files && db'.files[f].path in disk;
          assert f in db.files && db.files[f].path in disk;
        }
      }
    }
  }

  lemma {:induction false} NothingStillGone(files: map<FileId, File>, ds: seq<Deletion>, g: GroupId, disk: set<string>)
    requires forall f :: f in AllRemoved(ds) && f in files ==> files[f].path in disk
    ensures StillGone(files, ds, g, disk) == {}
    decreases |ds|
  {
    if ds != [] {
      if ds[0].group == g {
        forall f
          ensures f !in Gone(files, ds[0].removed, disk)
        {
          assert f in ds[0].removed ==> f in AllRemoved(ds);
        }
      } else {
        NothingStillGone(files, ds[1..], g, disk);
      }
    }
  }

  /** An undo with no file back on disk changes nothing and stays on top of the journal. */
  lemma BlockedUndo(db: Db, disk: set<string>)
    requires |Committed(db)| > 0 && Restorable(db.batches[Last(db)], disk) == {}
    ensures forall n: nat :: UndoTimes(db, disk, n) == db
  {
    forall n: nat
      ensures UndoTimes(db, disk, n) == db
    {
      BlockedOnce(db, disk);
      StuckForever(db, disk, n);
    }
  }

  lemma BlockedOnce(db: Db, disk: set<string>)
    requires |Committed(db)| > 0 && Restorable(db.batches[Last(db)], disk) == {}
    ensures UndoLast(db, disk) == (db, NothingRestorable)
  {
  }

  lemma {:induction false} StuckForever(db: Db, disk: set<string>, n: nat)
    requires UndoLast(db, disk).0 == db
    ensures UndoTimes(db, disk, n) == db
  {
    if n > 0 {
      StuckForever(db, disk, n - 1);
    }
  }

  // ---- where the undos stop -----------------------------------------------------------------

  lemma DeleteKeepsPaths(db: Db, d: Deletion)
    requires Consistent(db) && CanDelete(db, d)
    ensures Consistent(Delete(db, d)) && SamePaths(db, Delete(db, d))
  {
    DeleteEffect(db, d);
  }

  lemma {:induction false} DeleteAllSplit(db: Db, ds: seq<Deletion>, j: nat)
    requires Consistent(db) && CanDeleteAll(db, ds) && j <= |ds|
    ensures CanDeleteAll(db, ds[..j]) && CanDeleteAll(DeleteAll(db, ds[..j]), ds[j..])
    ensures DeleteAll(db, ds) == DeleteAll(DeleteAll(db, ds[..j]), ds[j..])
    ensures Consistent(DeleteAll(db, ds[..j])) && SamePaths(db, DeleteAll(db, ds[..j]))
    decreases |ds|
  {
    hide Delete, CanDelete, Consistent;
    if j == 0 {
      assert ds[..0] == [] && ds[0..] == ds;
    } else {
      DeleteKeepsPaths(db, ds[0]);
      DeleteAllSplit(Delete(db, ds[0]), ds[1..], j - 1);
      assert ds[..j][0] == ds[0] && ds[..j][1..] == ds[1..][..j - 1] && ds[1..][j - 1..] == ds[j..];
    }
  }

  lemma {:induction false} UndoTimesAdd(db: Db, disk: set<string>, m: nat, n: nat)
    ensures UndoTimes(db, disk, m + n) == UndoTimes(UndoTimes(db, disk, m), disk, n)
  {
    hide UndoLast;
    if n > 0 {
      UndoTimesAdd(db, disk, m, n - 1);
      assert m + n - 1 == m + (n - 1);
    }
  }

  /**
   * When some delete has nothing back on disk, the undos stop at the last such delete, for good:
   * the deletes after it are unwound, it and all earlier ones stay, however many undos follow.
   */
  lemma UndosStopThere(db: Db, ds: seq<Deletion>, disk: set<string>, k: nat, n: nat)
    requires Consistent(db) && CanDeleteAll(db, ds) && k < |ds| && |ds| - 1 - k <= n
    requires !SomeBack(db, ds[k], disk) && forall j :: k < j < |ds| ==> SomeBack(db, ds[j], disk)
    ensures CanDeleteAll(db, ds[..k + 1])
    ensures SameRows(UndoTimes(DeleteAll(db, ds), disk, n), Rewound(DeleteAll(db, ds[..k + 1]), ds[k + 1..], disk))
  {
    hide UndoLast, Delete, CanDelete, Consistent, Rewound, SomeBack, CanDeleteAll, DeleteAll, SamePaths;
    DeleteAllSplit(db, ds, k + 1);
    var mid, tail := DeleteAll(db, ds[..k + 1]), ds[k + 1..];
    forall j | 0 <= j < |tail|
      ensures SomeBack(mid, tail[j], disk)
    {
      assert tail[j] == ds[k + 1 + j];
      SamePathsSameBack(db, mid, tail[j], disk);
    }
    StackUnwinds(mid, tail, disk);
    var late := UndoTimes(DeleteAll(mid, tail), disk, |tail|);
    RewoundIsUnwound(mid, tail, disk);
    LastDelete(db, ds, disk, k, late);
    StuckForever(late, disk, n - |tail|);
    UndoTimesAdd(DeleteAll(db, ds), disk, |tail|, n - |tail|);
  }

  lemma OneDelete(db: Db, d: Deletion)
    requires CanDeleteAll(db, [d])
    ensures CanDelete(db, d) && DeleteAll(db, [d]) == Delete(db, d)
  {
    hide Delete, CanDelete;
    assert [d][1..] == [];
  }

  lemma LastDelete(db: Db, ds: seq<Deletion>, disk: set<string>, k: nat, late: Db)
    requires Consistent(db) && CanDeleteAll(db, ds) && k < |ds| && !SomeBack(db, ds[k], disk)
    requires CanDeleteAll(db, ds[..k + 1]) && late.batches == DeleteAll(db, ds[..k + 1]).batches
    ensures UndoLast(late, disk).0 == late
  {
    hide UndoLast, Delete, CanDelete, Consistent, SomeBack, SamePaths;
    var upTo := ds[..k + 1];
    DeleteAllSplit(db, upTo, k);
    var before := DeleteAll(db, upTo[..k]);
    assert upTo[k..] == [ds[k]];
    OneDelete(before, ds[k]);
    SamePathsSameBack(db, before, ds[k], disk);
    NothingBackBlocks(before, ds[k], late, disk);
  }

  // ---- exactly the files that are back ------------------------------------------------------

  /** The files of all deletes on `g` that are not back on disk. */
  function AllGone(files: map<FileId, File>, ds: seq<Deletion>, g: GroupId, disk: set<string>): set<FileId>
    decreases |ds|
  {
    if ds == [] then {}
    else (if ds[0].group == g then Gone(files, ds[0].removed, disk) else {}) + AllGone(files, ds[1..], g, disk)
  }

  /** The same without the first delete on `g`. */
  function LaterGone(files: map<FileId, File>, ds: seq<Deletion>, g: GroupId, disk: set<string>): set<FileId>
    decreases |ds|
  {
    if ds == [] then {}
    else if ds[0].group == g then AllGone(files, ds[1..], g, disk)
    else LaterGone(files, ds[1..], g, disk)
  }

  lemma {:induction false} GoneInTwo(files: map<FileId, File>, ds: seq<Deletion>, g: GroupId, disk: set<string>)
    ensures AllGone(files, ds, g, disk) == StillGone(files, ds, g, disk) + LaterGone(files, ds, g, disk)
    decreases |ds|
  {
    if ds != [] {
      GoneInTwo(files, ds[1..], g, disk);
    }
  }

  lemma {:induction false} AllGoneSame(a: map<FileId, File>, ids: set<FileId>, ds: seq<Deletion>, g: GroupId, disk: set<string>)
    ensures AllGone(Flag(a, ids, true), ds, g, disk) == AllGone(a, ds, g, disk)
    ensures LaterGone(Flag(a, ids, true), ds, g, disk) == LaterGone(a, ds, g, disk)
    decreases |ds|
  {
    if ds != [] {
      AllGoneSame(a, ids, ds[1..], g, disk);
      GoneSame(a, ids, ds[0].removed, disk);
    }
  }

  lemma GoneSame(a: map<FileId, File>, ids: set<FileId>, removed: set<FileId>, disk: set<string>)
    ensures Gone(Flag(a, ids, true), removed, disk) == Gone(a, removed, disk)
  {
    forall f
      ensures f in Gone(Flag(a, ids, true), removed, disk) <==> f in Gone(a, removed, disk)
    {
    }
  }

  lemma MembersAfter(db: Db, d: Deletion, g: GroupId)
    requires Consistent(db) && CanDelete(db, d)
    ensures var db' := Delete(db, d);
            && Consistent(db') && db'.files == Flag(db.files, d.removed, true)
            && d.removed <= Members(db, d.group)
            && if g == d.group then Members(db', g) <= Members(db, g) - d.removed else Members(db', g) == Members(db, g)
  {
    DeleteEffect(db, d);
    hide Delete;
  }

  /** Deletes on a group take members of it, and there are none once the group is gone. */
  lemma {:induction false} GoneWereMembers(db: Db, ds: seq<Deletion>, g: GroupId, disk: set<string>)
    requires Consistent(db) && CanDeleteAll(db, ds)
    ensures AllGone(db.files, ds, g, disk) <= Members(db, g)
    decreases |ds|
  {
    if ds != [] {
      hide Delete, Consistent, CanDelete, Members, Flag;
      var d := ds[0];
      MembersAfter(db, d, g);
      GoneWereMembers(Delete(db, d), ds[1..], g, disk);
      AllGoneSame(db.files, d.removed, ds[1..], g, disk);
    }
  }

  lemma {:induction false} LaterWereOthers(db: Db, ds: seq<Deletion>, g: GroupId, disk: set<string>)
    requires Consistent(db) && CanDeleteAll(db, ds)
    ensures LaterGone(db.files, ds, g, disk) <= Members(db, g) - StillGone(db.files, ds, g, disk)
    decreases |ds|
  {
    if ds != [] {
      hide Delete, Consistent, CanDelete, Members, Flag;
      var d, db' := ds[0], Delete(db, ds[0]);
      MembersAfter(db, d, g);
      AllGoneSame(db.files, d.removed, ds[1..], g, disk);
      if d.group == g {
        GoneWereMembers(db', ds[1..], g, disk);
      } else {
        LaterWereOthers(db', ds[1..], g, disk);
        StillGoneSame(db.files, d.removed, ds[1..], g, disk);
      }
    }
  }

  /**
   * A group has its old members again but for all those still missing if and only if no file of
   * a second or later delete on it is missing.
   */
  lemma ExactlyThoseReturn(db: Db, ds: seq<Deletion>, disk: set<string>, g: GroupId)
    requires Consistent(db) && CanDeleteAll(db, ds) && EachRestorable(db, ds, disk) && g in db.groups
    ensures var r := UndoTimes(DeleteAll(db, ds), disk, |ds|);
            && g in r.groups
            && (r.groups[g].members == db.groups[g].members - AllGone(db.files, ds, g, disk)
                <==> LaterGone(db.files, ds, g, disk) == {})
  {
    StackUnwinds(db, ds, disk);
    GoneInTwo(db.files, ds, g, disk);
    LaterWereOthers(db, ds, g, disk);
    var members, first, later := db.groups[g].members, StillGone(db.files, ds, g, disk), LaterGone(db.files, ds, g, disk);
    if members - first == members - (first + later) {
      assert forall f :: f in later ==> f in members - first;
      assert later == {};
    } else {
      assert later != {};
    }
  }

  // ---- member rows that outlive their files -------------------------------------------------

  const FOUR_FILES: map<FileId, File> := map[
    1 := File("a", 0, 0, false), 2 := File("b", 0, 0, false),
    3 := File("c", 0, 0, false), 4 := File("d", 0, 0, false)]
  const FOUR_COPIES: Db := Db(FOUR_FILES, map[1 := Group(Exact, false, {1, 2, 3, 4})], map[], 1)
  const FIRST_DELETE: Deletion := Deletion(1, {1}, {1})
  const SECOND_DELETE: Deletion := Deletion(1, {2, 3}, {2, 3})

  lemma FourCopiesDelete()
    ensures Consistent(FOUR_COPIES) && CanDelete(FOUR_COPIES, FIRST_DELETE)
    ensures CanDelete(Delete(FOUR_COPIES, FIRST_DELETE), SECOND_DELETE)
  {
    assert 2 in {1, 2, 3, 4} && 2 !in FIRST_DELETE.planned;
    DeleteEffect(FOUR_COPIES, FIRST_DELETE);
    assert {1, 2, 3, 4} - {1} == {2, 3, 4};
    TwoElements({2, 3, 4}, 2, 3);
    assert 4 in {2, 3, 4} && 4 !in SECOND_DELETE.planned;
    assert 2 in SECOND_DELETE.removed;
  }

  lemma TwoDeletes(db: Db, a: Deletion, b: Deletion)
    requires CanDelete(db, a) && CanDelete(Delete(db, a), b)
    ensures CanDeleteAll(db, [a, b])
  {
    var db1 := Delete(db, a);
    assert [a, b][1..] == [b] && [b][1..] == [];
    assert CanDeleteAll(Delete(db1, b), []);
    assert CanDeleteAll(db1, [b]);
  }

  /** A file removed later than another one of its group, and still missing, is listed but deleted. */
  lemma LaterMissingFile(db: Db, a: Deletion, b: Deletion, disk: set<string>, f: FileId)
    requires Consistent(db) && CanDelete(db, a) && CanDelete(Delete(db, a), b) && a.group == b.group
    requires EachRestorable(db, [a, b], disk)
    requires f in b.removed && f !in a.removed && f in db.files && db.files[f].path !in disk
    ensures CanDeleteAll(db, [a, b])
    ensures var r := UndoTimes(DeleteAll(db, [a, b]), disk, 2);
            && f in r.files && r.files[f] == db.files[f].(deleted := true)
            && a.group in r.groups && f in r.groups[a.group].members
  {
    TwoDeletes(db, a, b);
    StackUnwinds(db, [a, b], disk);
    assert [a, b][1..] == [b];
    assert f in AllRemoved([b]) && f in AllRemoved([a, b]);
    assert StillGone(db.files, [a, b], a.group, disk) == Gone(db.files, a.removed, disk);
    DeleteEffect(db, a);
    assert f in Delete(db, a).groups[a.group].members;
  }

  /**
   * Member rows can outlive the files: a file missing from a later delete is a survivor in the
   * journal of an earlier one, so the earlier undo lists it again although it stays deleted.
   */
  lemma MissingFileListedAgain(disk: set<string>)
    requires disk == {"a", "b", "d"}
    ensures CanDelete(FOUR_COPIES, FIRST_DELETE) && CanDelete(Delete(FOUR_COPIES, FIRST_DELETE), SECOND_DELETE)
    ensures EachRestorable(FOUR_COPIES, [FIRST_DELETE, SECOND_DELETE], disk)
    ensures CanDeleteAll(FOUR_COPIES, [FIRST_DELETE, SECOND_DELETE])
    ensures var r := UndoTimes(DeleteAll(FOUR_COPIES, [FIRST_DELETE, SECOND_DELETE]), disk, 2);
            && 3 in r.files && r.files[3].deleted && r.files[3].path !in disk
            && 1 in r.groups && 3 in r.groups[1].members
  {
    FourCopiesDelete();
    assert 1 in FIRST_DELETE.removed && FOUR_FILES[1].path in disk;
    assert 2 in SECOND_DELETE.removed && FOUR_FILES[2].path in disk;
    LaterMissingFile(FOUR_COPIES, FIRST_DELETE, SECOND_DELETE, disk, 3);
  }

  /** With nothing of the second delete back, no number of undos brings back the file of the first. */
  lemma FirstDeleteOutOfReach(disk: set<string>, n: nat)
    requires disk == {"a", "d"}
    ensures CanDelete(FOUR_COPIES, FIRST_DELETE) && CanDelete(Delete(FOUR_COPIES, FIRST_DELETE), SECOND_DELETE)
    ensures CanDeleteAll(FOUR_COPIES, [FIRST_DELETE, SECOND_DELETE])
    ensures var r := UndoTimes(DeleteAll(FOUR_COPIES, [FIRST_DELETE, SECOND_DELETE]), disk, n);
            && 1 in r.files && r.files[1].deleted && r.files[1].path in disk && |r.batches| == 2
  {
    hide UndoTimes, UndoLast, Consistent;
    var ds := [FIRST_DELETE, SECOND_DELETE];
    FourCopiesDelete();
    TwoDeletes(FOUR_COPIES, FIRST_DELETE, SECOND_DELETE);
    UndosStopThere(FOUR_COPIES, ds, disk, 1, n);
    assert ds[..2] == ds && ds[2..] == [];
    NoDeletes(DeleteAll(FOUR_COPIES, ds), disk);
    AfterTwoDeletes(FOUR_COPIES, FIRST_DELETE, SECOND_DELETE);
  }

  lemma AfterTwoDeletes(db: Db, a: Deletion, b: Deletion)
    requires Consistent(db) && CanDelete(db, a) && CanDelete(Delete(db, a), b) && CanDeleteAll(db, [a, b])
    ensures var r := DeleteAll(db, [a, b]);
            r.files == Flag(Flag(db.files, a.removed, true), b.removed, true) && |r.batches| == |db.batches| + 2
  {
    var first := Delete(db, a);
    DeleteEffect(db, a);
    DeleteEffect(first, b);
    hide Delete, CanDelete, Consistent, TakeOut, FinalRows;
    assert [a, b][1..] == [b];
    OneDelete(first, b);
    assert |first.batches.Keys| == |db.batches.Keys| + 1;
    assert |Delete(first, b).batches.Keys| == |first.batches.Keys| + 1;
  }
}

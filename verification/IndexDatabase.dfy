/**
 * The daemon's delete, undo, reconcile and purge code over a mutable index. Every transaction is
 * one method, proved against its function in `Journal`.
 */
module IndexDatabase {
  import opened Common
  import opened DeletePlan
  import opened Journal
  import opened Paths
  import opened CrashSafety
  import TaskQueue
  import UndoStack

  class IndexDb {
    var files: map<FileId, File>
    var groups: map<GroupId, Group>
    var batches: map<BatchId, Batch>
    var nextBatch: BatchId
    var fingerprints: set<FileId>    // files with a fingerprint row
    var hashed: set<FileId>          // files with a content hash
    var regroup: map<FileId, int>    // files the next matcher pass has to look at, and since when

    function Rows(): Db
      reads this
    {
      Db(files, groups, batches, nextBatch)
    }

    constructor ()
      ensures Rows() == Db(map[], map[], map[], 1)
    {
      files, groups, batches, nextBatch := map[], map[], map[], 1;
      fingerprints, hashed, regroup := {}, {}, map[];
    }

    method ListMembers(g: GroupId) returns (ids: seq<FileId>)
      ensures Elements(ids) == Members(Rows(), g) && |ids| == |Members(Rows(), g)|
      ensures forall i, j :: 0 <= i < j < |ids| ==> ids[i] < ids[j]
    {
      AscendingSize(Members(Rows(), g));
      ids := Ascending(Members(Rows(), g));
    }

    method MarkDeleted(f: FileId)
      modifies this`files
      ensures files == Flag(old(files), {f}, true)
    {
      SameFlags(files);
      if f in files {
        files := files[f := files[f].(deleted := true)];
      }
      assert files == Flag(old(files), {f}, true);
    }

    method ClearDeleted(f: FileId)
      modifies this`files
      ensures files == Flag(old(files), {f}, false)
    {
      if f in files {
        files := files[f := files[f].(deleted := false)];
      }
      assert files == Flag(old(files), {f}, false);
    }

    method RemoveMember(g: GroupId, f: FileId)
      modifies this`groups
      ensures groups == WithoutMembers(old(groups), g, {f})
    {
      if g in groups {
        groups := groups[g := groups[g].(members := groups[g].members - {f})];
      }
    }

    method AddMemberIfAbsent(g: GroupId, f: FileId)
      requires g in groups
      modifies this`groups
      ensures groups == WithMembers(old(groups), g, {f})
    {
      groups := groups[g := groups[g].(members := groups[g].members + {f})];
    }

    method RecordPending(g: GroupId, trust: Trust, nonTransitive: bool, targets: seq<(FileId, string)>) returns (b: BatchId)
      modifies this`files, this`groups, this`batches, this`nextBatch
      ensures b == old(nextBatch)
      ensures Rows() == Journal.RecordPending(old(Rows()), g, trust, nonTransitive, Named(targets))
    {
      b := nextBatch;
      var rows: map<FileId, Entry> := map[];
      var k := 0;
      while k < |targets|
        invariant 0 <= k <= |targets|
        invariant rows == map f | f in Named(targets[..k]) :: Entry(Named(targets[..k])[f], Deleted)
      {
        assert targets[..k + 1][..k] == targets[..k];
        rows := rows[targets[k].0 := Entry(targets[k].1, Deleted)];
        k := k + 1;
      }
      assert targets[..k] == targets;
      batches := batches[b := Batch(g, trust, nonTransitive, false, false, rows)];
      nextBatch := nextBatch + 1;
    }

    method RemoveBatch(b: BatchId)
      modifies this`files, this`groups, this`batches, this`nextBatch
      ensures Rows() == Journal.RemoveBatch(old(Rows()), b)
    {
      batches := batches - {b};
    }

    /** Mark files deleted and drop their member rows: the loop both closing paths share. */
    method MarkAndRemove(g: GroupId, ids: seq<FileId>)
      modifies this`files, this`groups
      ensures files == Flag(old(files), Elements(ids), true)
      ensures groups == WithoutMembers(old(groups), g, Elements(ids))
    {
      var k := 0;
      SameFlags(files);
      SameGroups(groups, g);
      assert Elements(ids[..0]) == {};
      while k < |ids|
        invariant 0 <= k <= |ids|
        invariant files == Flag(old(files), Elements(ids[..k]), true)
        invariant groups == WithoutMembers(old(groups), g, Elements(ids[..k]))
      {
        var id := ids[k];
        assert Elements(ids[..k + 1]) == Elements(ids[..k]) + {id};
        FlagMore(old(files), Elements(ids[..k]), {id}, true);
        WithoutMore(old(groups), g, Elements(ids[..k]), {id});
        MarkDeleted(id);
        RemoveMember(g, id);
        k := k + 1;
      }
      assert ids[..k] == ids;
    }

    /** The journal rows of a finished delete, read before any member row goes. */
    method JournalMembers(g: GroupId, removed: seq<FileId>) returns (rows: map<FileId, Entry>)
      ensures rows == FinalRows(files, Members(Rows(), g), Elements(removed))
    {
      var members := ListMembers(g);
      rows := map[];
      var k := 0;
      while k < |members|
        invariant 0 <= k <= |members|
        invariant rows == FinalRows(files, Elements(members[..k]), Elements(removed))
      {
        var id := members[k];
        assert Elements(members[..k + 1]) == Elements(members[..k]) + {id};
        FinalOneMore(files, Elements(members[..k]), Elements(removed), id);
        if id in files {
          rows := rows[id := Entry(files[id].path, if id in removed then Deleted else Survivor)];
        }
        k := k + 1;
      }
      assert members[..k] == members;
    }

    method FinalizeDelete(b: BatchId, removed: seq<FileId>)
      requires b in batches
      modifies this`files, this`groups, this`batches, this`nextBatch
      ensures Rows() == Finalize(old(Rows()), b, Elements(removed))
    {
      var g := batches[b].group;
      var rows := JournalMembers(g, removed);
      TakenOutInSteps(Rows(), g, Elements(removed));
      MarkAndRemove(g, removed);
      var remaining := ListMembers(g);
      assert Members(Rows(), g) == Members(old(Rows()), g) - Elements(removed);
      if |remaining| < 2 {
        groups := groups - {g};
      }
      assert groups == TakeOut(old(groups), g, Elements(removed));
      batches := batches[b := Commit(batches[b], |remaining| < 2, rows)];
    }

    /** The recorded targets that are gone from disk. */
    method ListAbsent(batch: Batch, disk: set<string>) returns (absent: seq<FileId>)
      ensures Elements(absent) == Absent(batch, disk)
    {
      hide Absent;
      var named := Ascending(batch.files.Keys);
      ghost var all := Absent(batch, disk);
      AbsentMeans(batch, disk);
      ghost var done: set<FileId> := {};
      absent := [];
      var k := 0;
      while k < |named|
        invariant 0 <= k <= |named| && done == Elements(named[..k])
        invariant Elements(absent) == all * done
      {
        NextContaining(named, k);
        var id := named[k];
        var entry := batch.files[id];
        CollectOneMore(absent, all, done, id);
        if entry.role == Deleted && entry.path !in disk {
          absent := absent + [id];
        }
        done := done + {id};
        k := k + 1;
      }
      assert named[..k] == named;
      assert done == batch.files.Keys && all * done == all;
    }

    /** Add the surviving members to the rows of the absent targets. */
    method JournalSurvivors(batch: Batch, absent: seq<FileId>, survivors: seq<FileId>) returns (rows: map<FileId, Entry>)
      requires Elements(absent) <= batch.files.Keys && Elements(absent) !! Elements(survivors)
      ensures rows == MixedRows(files, batch.files, Elements(absent), Elements(survivors))
    {
      rows := map f | f in absent :: Entry(batch.files[f].path, Deleted);
      var k := 0;
      while k < |survivors|
        invariant 0 <= k <= |survivors|
        invariant rows == MixedRows(files, batch.files, Elements(absent), Elements(survivors[..k]))
      {
        var id := survivors[k];
        assert Elements(survivors[..k + 1]) == Elements(survivors[..k]) + {id};
        assert id in Elements(survivors);
        MixedOneMore(files, batch.files, Elements(absent), Elements(survivors[..k]), id);
        if id in files {
          rows := rows[id := Entry(files[id].path, Survivor)];
        }
        k := k + 1;
      }
      assert survivors[..k] == survivors;
    }

    method ReconcileBatch(b: BatchId, disk: set<string>) returns (finalized: bool)
      requires b in batches
      modifies this`files, this`groups, this`batches, this`nextBatch
      ensures Rows() == Journal.ReconcileBatch(old(Rows()), b, disk)
      ensures finalized == (Absent(old(batches)[b], disk) != {})
    {
      var batch := batches[b];
      var absent := ListAbsent(batch, disk);
      if absent == [] {
        assert Elements(absent) == {};
        RemoveBatch(b);
        return false;
      }
      assert absent[0] in Elements(absent);
      ghost var gone := Elements(absent);
      assert gone <= batch.files.Keys;
      TakenOutInSteps(Rows(), batch.group, gone);
      MarkAndRemove(batch.group, absent);
      var survivors := ListMembers(batch.group);
      assert Elements(survivors) == Members(old(Rows()), batch.group) - gone;
      var rows := JournalSurvivors(batch, absent, survivors);
      MixedIsReconciled(old(Rows()), files, batch, gone, Elements(survivors));
      if |survivors| < 2 {
        groups := groups - {batch.group};
      }
      assert groups == TakeOut(old(groups), batch.group, gone);
      batches := batches[b := Commit(batch, |survivors| < 2, rows)];
      finalized := true;
    }

    /** One step of the pass over a list read at its start. */
    method ReconcileNext(ghost before: Db, todo: seq<BatchId>, k: nat, disk: set<string>) returns (finalized: bool)
      requires k < |todo| && Waiting(before, Rows(), todo, k)
      modifies this`files, this`groups, this`batches, this`nextBatch
      ensures Waiting(before, Rows(), todo, k + 1)
      ensures Remaining(before, Rows(), todo, k + 1, disk) == old(Remaining(before, Rows(), todo, k, disk))
      ensures finalized == HadAbsent(before, todo[k], disk)
    {
      PassOne(before, Rows(), todo, k, disk);
      finalized := ReconcileBatch(todo[k], disk);
    }

    /** The loop of the pass. */
    method ReconcileListed(todo: seq<BatchId>, disk: set<string>) returns (finalized: nat)
      requires Waiting(Rows(), Rows(), todo, 0)
      modifies this`files, this`groups, this`batches, this`nextBatch
      ensures Waiting(old(Rows()), Rows(), todo, |todo|)
      ensures Remaining(old(Rows()), Rows(), todo, |todo|, disk) == old(Remaining(Rows(), Rows(), todo, 0, disk))
      ensures finalized == Closed(old(Rows()), todo, |todo|, disk)
    {
      hide Remaining, HadAbsent;
      ghost var before := Rows();
      ghost var final := Remaining(before, before, todo, 0, disk);
      finalized := 0;
      var k := 0;
      while k < |todo|
        invariant 0 <= k <= |todo|
        invariant Waiting(before, Rows(), todo, k)
        invariant Remaining(before, Rows(), todo, k, disk) == final
        invariant finalized == Closed(before, todo, k, disk)
      {
        var done := ReconcileNext(before, todo, k, disk);
        if done {
          finalized := finalized + 1;
        }
        k := k + 1;
      }
    }

    method ReconcilePendingDeletes(disk: set<string>) returns (finalized: nat)
      modifies this`files, this`groups, this`batches, this`nextBatch
      ensures Rows() == ReconcilePending(old(Rows()), disk)
      ensures finalized == |ToFinalize(old(Rows()), Pending(old(Rows())), disk)|
    {
      ghost var before := Rows();
      var todo := ListPending();
      finalized := ReconcileListed(todo, disk);
      PassEnds(before, Rows(), todo, disk);
      PassStarts(before, todo, disk);
    }

    method ListPending() returns (todo: seq<BatchId>)
      ensures todo == Ascending(Pending(Rows())) && Elements(todo) == Pending(Rows())
      ensures Waiting(Rows(), Rows(), todo, 0)
    {
      todo := Ascending(Pending(Rows()));
      assert forall i :: 0 <= i < |todo| ==> todo[i] in todo && todo[i] in Pending(Rows());
    }

    /** What undo does with one journalled file. */
    method ReplayFile(batch: Batch, back: set<FileId>, id: FileId)
      requires batch.group in groups && id in batch.files && back <= WithRole(batch, Deleted)
      modifies this`files, this`groups
      ensures files == Flag(old(files), back * {id}, false)
      ensures groups == WithMembers(old(groups), batch.group, (WithRole(batch, Survivor) + back) * {id})
    {
      SameFlags(files);
      SameGroups(groups, batch.group);
      if batch.files[id].role == Survivor {
        assert back * {id} == {} && (WithRole(batch, Survivor) + back) * {id} == {id};
        AddMemberIfAbsent(batch.group, id);
      } else if id in back {
        assert back * {id} == {id} && (WithRole(batch, Survivor) + back) * {id} == {id};
        ClearDeleted(id);
        AddMemberIfAbsent(batch.group, id);
      } else {
        assert back * {id} == {} && (WithRole(batch, Survivor) + back) * {id} == {};
      }
    }

    /** Re-add the journalled members and clear the deletion marks of what is back on disk. */
    method Replay(batch: Batch, back: set<FileId>)
      requires batch.group in groups && back <= WithRole(batch, Deleted)
      modifies this`files, this`groups
      ensures files == Flag(old(files), back, false)
      ensures groups == WithMembers(old(groups), batch.group, WithRole(batch, Survivor) + back)
    {
      var named := Ascending(batch.files.Keys);
      ghost var again := WithRole(batch, Survivor) + back;
      ghost var done: set<FileId> := {};
      var k := 0;
      SameFlags(files);
      SameGroups(groups, batch.group);
      assert back * done == {} && again * done == {};
      while k < |named|
        invariant 0 <= k <= |named|
        invariant done == Elements(named[..k])
        invariant files == Flag(old(files), back * done, false)
        invariant groups == WithMembers(old(groups), batch.group, again * done)
      {
        var id := named[k];
        assert id in named;
        FlagMore(old(files), back * done, back * {id}, false);
        WithMore(old(groups), batch.group, again * done, again * {id});
        Distribute(back, done, id);
        Distribute(again, done, id);
        ReplayFile(batch, back, id);
        NextContaining(named, k);
        done := done + {id};
        k := k + 1;
      }
      assert named[..k] == named;
      assert back * done == back && again * done == again;
    }

    method UndoLastDelete(disk: set<string>) returns (outcome: Undone)
      modifies this`files, this`groups, this`batches, this`nextBatch
      ensures Rows() == UndoLast(old(Rows()), disk).0
      ensures outcome == UndoLast(old(Rows()), disk).1
    {
      if |Committed(Rows())| == 0 {
        return NothingToUndo;
      }
      var b := Last(Rows());
      var batch := batches[b];
      var back := Restorable(batch, disk);
      if back == {} {
        return NothingRestorable;
      }
      if batch.group !in groups {
        groups := groups[batch.group := Group(batch.trust, batch.nonTransitive, {})];
      }
      ghost var group := groups[batch.group];
      Replay(batch, back);
      assert group.members + (WithRole(batch, Survivor) + back) == group.members + WithRole(batch, Survivor) + back;
      batches := batches - {b};
      outcome := Restored(batch.group, back);
    }

    /** Take one file out of one group, and drop the group if fewer than two members are left. */
    method UnlinkHere(g: GroupId, f: FileId)
      requires g in groups
      modifies this`groups
      ensures groups == if |old(groups)[g].members - {f}| < 2 then WithoutMembers(old(groups), g, {f}) - {g}
                        else WithoutMembers(old(groups), g, {f})
    {
      RemoveMember(g, f);
      var left := ListMembers(g);
      if |left| < 2 {
        groups := groups - {g};
      }
    }

    /** Take one file out of every group that has it. */
    method UnlinkFromGroups(f: FileId)
      modifies this`groups
      ensures groups == UnlinkFile(old(groups), f)
    {
      ghost var having := set g | g in groups && f in groups[g].members;
      var containing := Ascending(set g | g in groups && f in groups[g].members);
      ghost var done: set<GroupId> := {};
      var k := 0;
      UnlinkNone(groups, f);
      while k < |containing|
        invariant 0 <= k <= |containing|
        invariant done == Elements(containing[..k])
        invariant groups == UnlinkIn(old(groups), f, done)
      {
        var g := containing[k];
        NextContaining(containing, k);
        assert g in having;
        UnlinkOneMore(old(groups), f, done, g);
        UnlinkHere(g, f);
        done := done + {g};
        k := k + 1;
      }
      assert containing[..k] == containing && Elements(containing) == having;
      UnlinkEverywhere(old(groups), f, having);
    }

    /** Active files at or below a path. */
    function ActiveUnder(root: string): set<FileId>
      reads this
    {
      set f | f in files && !files[f].deleted && ListedUnder(files[f].path, root)
    }

    /** Take files out of all their groups, one file after the other. */
    method UnlinkEach(ids: seq<FileId>)
      modifies this`groups
      ensures groups == UnlinkAll(old(groups), Elements(ids))
    {
      ghost var done: set<FileId> := {};
      var k := 0;
      UnlinkNobody(groups);
      while k < |ids|
        invariant 0 <= k <= |ids|
        invariant done == Elements(ids[..k])
        invariant groups == UnlinkAll(old(groups), done)
      {
        UnlinkInTurn(old(groups), done, {ids[k]});
        UnlinkFromGroups(ids[k]);
        assert ids[..k + 1] == ids[..k] + [ids[k]];
        done := done + {ids[k]};
        k := k + 1;
      }
      assert ids[..k] == ids;
    }

    method MarkEach(ids: seq<FileId>)
      modifies this`files
      ensures files == Flag(old(files), Elements(ids), true)
    {
      ghost var done: set<FileId> := {};
      var k := 0;
      SameFlags(files);
      while k < |ids|
        invariant 0 <= k <= |ids|
        invariant done == Elements(ids[..k])
        invariant files == Flag(old(files), done, true)
      {
        FlagMore(old(files), done, {ids[k]}, true);
        MarkDeleted(ids[k]);
        assert ids[..k + 1] == ids[..k] + [ids[k]];
        done := done + {ids[k]};
        k := k + 1;
      }
      assert ids[..k] == ids;
    }

    method MarkForRegroup(ids: seq<FileId>, now: int)
      modifies this`regroup
      ensures regroup == Marked(old(regroup), Elements(ids), now)
    {
      ghost var done: set<FileId> := {};
      var k := 0;
      while k < |ids|
        invariant 0 <= k <= |ids|
        invariant done == Elements(ids[..k])
        invariant regroup == Marked(old(regroup), done, now)
      {
        regroup := regroup[ids[k] := now];
        assert ids[..k + 1] == ids[..k] + [ids[k]];
        done := done + {ids[k]};
        k := k + 1;
      }
      assert ids[..k] == ids;
    }

    /** A removed file or folder: every active file listed under it is marked deleted and leaves its groups. */
    method PurgeFile(path: string, now: int)
      modifies this`files, this`groups, this`regroup
      ensures Rows() == old(Rows()).(
                files := Flag(old(files), old(ActiveUnder(path)), true),
                groups := UnlinkAll(old(groups), old(ActiveUnder(path))))
      ensures regroup == Marked(old(regroup), old(ActiveUnder(path)), now)
    {
      var doomed := Ascending(ActiveUnder(path));
      assert Elements(doomed) == ActiveUnder(path);
      MarkEach(doomed);
      MarkForRegroup(doomed, now);
      UnlinkEach(doomed);
    }

    method TearDown(id: FileId, now: int)
      modifies this`groups, this`fingerprints, this`hashed, this`regroup
      ensures groups == UnlinkFile(old(groups), id)
      ensures fingerprints == old(fingerprints) - {id} && hashed == old(hashed) - {id}
      ensures regroup == Marked(old(regroup), {id}, now)
    {
      UnlinkFromGroups(id);
      fingerprints := fingerprints - {id};
      hashed := hashed - {id};
      regroup := regroup[id := now];
    }

    /** A forced rescan: each named file leaves its groups and loses fingerprint and hash before it is indexed again. */
    method ForceRescanTeardown(changes: seq<TaskQueue.Change>, now: int) returns (tornDown: nat)
      requires PathsDistinct(files)
      modifies this`groups, this`fingerprints, this`hashed, this`regroup
      ensures var torn := Forced(files, changes);
              && groups == UnlinkAll(old(groups), torn)
              && fingerprints == old(fingerprints) - torn && hashed == old(hashed) - torn
              && regroup == Marked(old(regroup), torn, now)
      ensures tornDown == ForcedCount(files, changes)
    {
      hide Forced, ForcedCount, Marked, UnlinkAll, PathsDistinct;
      ghost var torn: set<FileId> := {};
      tornDown := 0;
      var k := 0;
      UnlinkNobody(groups);
      NothingForced(files, regroup, now);
      assert changes[..0] == [];
      while k < |changes|
        invariant 0 <= k <= |changes|
        invariant torn == Forced(files, changes[..k]) && tornDown == ForcedCount(files, changes[..k])
        invariant groups == UnlinkAll(old(groups), torn)
        invariant fingerprints == old(fingerprints) - torn && hashed == old(hashed) - torn
        invariant regroup == Marked(old(regroup), torn, now)
      {
        var found := FindByPath(changes[k].path);
        ForcedOneMore(files, changes, k, found);
        if changes[k].kind == TaskQueue.ForceUpsert && found.Some? {
          UnlinkInTurn(old(groups), torn, {found.value});
          MarkedInTurn(old(regroup), torn, {found.value}, now);
          TearDown(found.value, now);
          torn := torn + {found.value};
          tornDown := tornDown + 1;
        }
        k := k + 1;
      }
      assert changes[..k] == changes;
    }

    method FindByPath(path: string) returns (found: Option<FileId>)
      ensures found.None? ==> forall f :: f in files ==> files[f].path != path
      ensures found.Some? ==> found.value in files && files[found.value].path == path
    {
      var here := Ascending(set f | f in files && files[f].path == path);
      if |here| == 0 {
        forall f | f in files
          ensures files[f].path != path
        {
          assert f !in here;
        }
        return None;
      }
      assert here[0] in here;
      return Some(here[0]);
    }
  }

  /** The path column is unique. */
  ghost predicate PathsDistinct(files: map<FileId, File>) {
    forall f, g :: f in files && g in files && files[f].path == files[g].path ==> f == g
  }

  function Marked(regroup: map<FileId, int>, ids: set<FileId>, now: int): map<FileId, int> {
    regroup + map f | f in ids :: now
  }

  /** The files a forced rescan names. */
  function Forced(files: map<FileId, File>, changes: seq<TaskQueue.Change>): set<FileId> {
    set f | f in files && TaskQueue.Change(files[f].path, TaskQueue.ForceUpsert) in changes
  }

  /** How many of the changes are forced and name a file row. */
  ghost function ForcedCount(files: map<FileId, File>, changes: seq<TaskQueue.Change>): nat
    decreases |changes|
  {
    if changes == [] then 0
    else
      var n := |changes| - 1;
      ForcedCount(files, changes[..n])
      + if changes[n].kind == TaskQueue.ForceUpsert && exists f :: f in files && files[f].path == changes[n].path then 1 else 0
  }

  lemma NothingForced(files: map<FileId, File>, regroup: map<FileId, int>, now: int)
    ensures Forced(files, []) == {} && ForcedCount(files, []) == 0 && Marked(regroup, {}, now) == regroup
  {
  }

  lemma MarkedInTurn(regroup: map<FileId, int>, a: set<FileId>, b: set<FileId>, now: int)
    ensures Marked(Marked(regroup, a, now), b, now) == Marked(regroup, a + b, now)
  {
  }

  lemma ForcedOneMore(files: map<FileId, File>, changes: seq<TaskQueue.Change>, k: nat, found: Option<FileId>)
    requires k < |changes| && PathsDistinct(files)
    requires found.None? ==> forall f :: f in files ==> files[f].path != changes[k].path
    requires found.Some? ==> found.value in files && files[found.value].path == changes[k].path
    ensures var hit := changes[k].kind == TaskQueue.ForceUpsert && found.Some?;
            && Forced(files, changes[..k + 1]) == Forced(files, changes[..k]) + (if hit then {found.value} else {})
            && ForcedCount(files, changes[..k + 1]) == ForcedCount(files, changes[..k]) + if hit then 1 else 0
  {
    var c := changes[k];
    assert changes[..k + 1] == changes[..k] + [c] && changes[..k + 1][..k] == changes[..k];
    forall f | f in files
      ensures f in Forced(files, changes[..k + 1]) <==>
              f in Forced(files, changes[..k]) || (c.kind == TaskQueue.ForceUpsert && found == Some(f))
    {
      var forced := TaskQueue.Change(files[f].path, TaskQueue.ForceUpsert);
      assert forced in changes[..k + 1] <==> forced in changes[..k] || forced == c;
      assert forced == c <==> c.kind == TaskQueue.ForceUpsert && files[f].path == c.path;
      assert found.Some? ==> (files[f].path == c.path <==> f == found.value);
      assert found.None? ==> files[f].path != c.path;
    }
    var upTo := changes[..k + 1];
    assert upTo[k] == c;
    if found.Some? {
      var f: FileId := found.value;
      assert f in files && files[f].path == upTo[k].path;
    }
  }

  datatype DeleteReply =
    | Refused(reject: Reject)
    | NothingRemoved
    | Gone(ids: seq<FileId>)

  /** The request handler: one index and one disk. */
  class DaemonBridge {
    const db: IndexDb
    var disk: Disk

    constructor (db: IndexDb, disk: Disk)
      ensures this.db == db && this.disk == disk
    {
      this.db, this.disk := db, disk;
    }

    /** Try to remove every target; failures are skipped and the rest goes on. */
    method RemoveTargets(targets: seq<Target>, fault: FileId -> Fault, windows: bool) returns (removed: seq<FileId>)
      modifies this`disk
      ensures (disk, removed) == AfterTargets(old(disk), targets, fault, windows, |targets|)
    {
      removed := [];
      var k := 0;
      while k < |targets|
        invariant 0 <= k <= |targets|
        invariant (disk, removed) == AfterTargets(old(disk), targets, fault, windows, k)
      {
        var t := targets[k];
        k := k + 1;
        if Unsupported(t.path, windows) {
          continue;
        }
        if fault(t.id) == MetadataFault {
          continue;
        }
        if t.path in disk {
          if disk[t.path] != Meta(t.size, t.mtime) {
            continue;
          }
          if fault(t.id) == RemoveFault {
            continue;
          }
          disk := disk - {t.path};
        } else {
          assert disk - {t.path} == disk;
        }
        removed := removed + [t.id];
      }
    }

    method ListTargets(ids: seq<FileId>) returns (targets: seq<Target>)
      requires forall i :: 0 <= i < |ids| ==> ids[i] in db.files
      ensures |targets| == |ids|
      ensures forall i :: 0 <= i < |ids| ==>
                targets[i] == Target(ids[i], db.files[ids[i]].path, db.files[ids[i]].size, db.files[ids[i]].mtime)
    {
      targets := [];
      var k := 0;
      while k < |ids|
        invariant 0 <= k <= |ids| && |targets| == k
        invariant forall i :: 0 <= i < k ==>
                    targets[i] == Target(ids[i], db.files[ids[i]].path, db.files[ids[i]].size, db.files[ids[i]].mtime)
      {
        if ids[k] in db.files {
          var record := db.files[ids[k]];
          targets := targets + [Target(ids[k], record.path, record.size, record.mtime)];
        }
        k := k + 1;
      }
    }

    /** Journal, remove from disk, and close the batch one way or the other. */
    method CarryOut(g: GroupId, ids: seq<FileId>, fault: FileId -> Fault, windows: bool) returns (removed: seq<FileId>)
      requires Consistent(db.Rows()) && g in db.groups && Elements(ids) < db.groups[g].members
      modifies this, db`files, db`groups, db`batches, db`nextBatch
      ensures removed == [] ==> SameRows(db.Rows(), old(db.Rows())) && disk == old(disk)
      ensures removed != [] ==>
                (var d := UndoStack.Deletion(g, Elements(ids), Elements(removed));
                 UndoStack.CanDelete(old(db.Rows()), d) && db.Rows() == UndoStack.Delete(old(db.Rows()), d))
      ensures forall p :: p in old(disk) && p !in disk ==>
                exists f :: f in removed && f in old(db.files) && old(db.files)[f].path == p
    {
      hide AfterTargets, Finalize;
      var group := db.groups[g];
      forall i | 0 <= i < |ids|
        ensures ids[i] in db.files
      {
        assert ids[i] in Elements(ids) && group.members <= db.files.Keys;
      }
      var targets := ListTargets(ids);
      var pending := seq(|targets|, i requires 0 <= i < |targets| => (targets[i].id, targets[i].path));
      NamedTargets(db.files, ids, pending);
      var b := db.RecordPending(g, group.trust, group.nonTransitive, pending);
      removed := RemoveTargets(targets, fault, windows);
      RemovedArePlanned(old(disk), targets, fault, windows, |targets|);
      RemovedIds(ids, targets, removed);
      if removed == [] {
        assert db.batches - {b} == old(db.batches);
        db.RemoveBatch(b);
      } else {
        assert removed[0] in Elements(removed);
        db.FinalizeDelete(b, removed);
      }
    }

    /**
     * A delete request. Refusals and failures change no row; a delete that removed something ends
     * exactly in the committed delete of what left the disk.
     */
    method DeleteFiles(
      g: GroupId, best: Option<FileId>, selected: seq<FileId>, confirmBest: bool,
      fault: FileId -> Fault, windows: bool) returns (reply: DeleteReply)
      requires Consistent(db.Rows())
      modifies this, db`files, db`groups, db`batches, db`nextBatch
      ensures reply.Refused? ==> db.Rows() == old(db.Rows()) && disk == old(disk)
      ensures reply.Refused? <==>
                (selected == [] || Foreign(old(Members(db.Rows(), g)), selected)
                 || Elements(selected) == old(Members(db.Rows(), g))
                 || (best.Some? && best.value in selected && !confirmBest))
      ensures reply == NothingRemoved ==> SameRows(db.Rows(), old(db.Rows())) && disk == old(disk)
      ensures reply.Gone? ==>
                (var d := UndoStack.Deletion(g, Elements(selected), Elements(reply.ids));
                 UndoStack.CanDelete(old(db.Rows()), d) && db.Rows() == UndoStack.Delete(old(db.Rows()), d))
      ensures reply.Gone? ==> forall p :: p in old(disk) && p !in disk ==>
                exists f :: f in reply.ids && f in old(db.files) && old(db.files)[f].path == p
    {
      var members := db.ListMembers(g);
      var plan := PlanDeletion(members, best, selected, confirmBest);
      if plan.Rejected? {
        match plan.reject {
          case NoneSelected => assert plan == Rejected(NoneSelected);
          case UnknownMember => assert plan == Rejected(UnknownMember);
          case DeleteAll => assert plan == Rejected(DeleteAll);
          case BestUnconfirmed => assert plan == Rejected(BestUnconfirmed);
        }
        return Refused(plan.reject);
      }
      if g !in db.groups {
        return Refused(UnknownMember);
      }
      var removed := CarryOut(g, plan.ids, fault, windows);
      if removed == [] {
        return NothingRemoved;
      }
      reply := Gone(removed);
    }
  }

  lemma RemovedIds(ids: seq<FileId>, targets: seq<Target>, removed: seq<FileId>)
    requires |targets| == |ids| && forall i :: 0 <= i < |ids| ==> targets[i].id == ids[i]
    requires forall f :: f in removed ==> exists i :: 0 <= i < |targets| && targets[i].id == f
    ensures Elements(removed) <= Elements(ids)
  {
    forall f | f in removed
      ensures f in Elements(ids)
    {
      var i :| 0 <= i < |targets| && targets[i].id == f;
      assert ids[i] == f;
    }
  }

  lemma {:induction false} RemovedArePlanned(disk: Disk, targets: seq<Target>, fault: FileId -> Fault, windows: bool, k: nat)
    requires k <= |targets|
    ensures var (d, removed) := AfterTargets(disk, targets, fault, windows, k);
            && (forall f :: f in removed ==> exists i :: 0 <= i < k && targets[i].id == f)
            && (removed == [] ==> d == disk)
            && (forall p :: p in disk && p !in d ==> exists i :: 0 <= i < k && targets[i].path == p && targets[i].id in removed)
  {
    if k > 0 {
      RemovedArePlanned(disk, targets, fault, windows, k - 1);
      var t := targets[k - 1];
      var (d, removed) := AfterTargets(disk, targets, fault, windows, k - 1);
      var (d', removed') := AfterTargets(disk, targets, fault, windows, k);
      assert forall f :: f in removed ==> f in removed';
      forall p | p in disk && p !in d'
        ensures exists i :: 0 <= i < k && targets[i].path == p && targets[i].id in removed'
      {
        if p !in d {
          var i :| 0 <= i < k - 1 && targets[i].path == p && targets[i].id in removed;
        } else {
          assert targets[k - 1].path == p && targets[k - 1].id in removed';
        }
      }
      forall f | f in removed'
        ensures exists i :: 0 <= i < k && targets[i].id == f
      {
        if f in removed {
          var i :| 0 <= i < k - 1 && targets[i].id == f;
        } else {
          assert targets[k - 1].id == f;
        }
      }
    }
  }

  lemma {:induction false} NamedTargets(files: map<FileId, File>, ids: seq<FileId>, pending: seq<(FileId, string)>)
    requires |pending| == |ids|
    requires forall i :: 0 <= i < |ids| ==> ids[i] in files && pending[i] == (ids[i], files[ids[i]].path)
    ensures Named(pending) == UndoStack.Targets(files, Elements(ids))
  {
    if ids != [] {
      var n := |ids| - 1;
      NamedTargets(files, ids[..n], pending[..n]);
      assert ids == ids[..n] + [ids[n]];
      assert Elements(ids) == Elements(ids[..n]) + {ids[n]};
    }
  }

  // ---- one step of the loops ----------------------------------------------------------------

  function Named(targets: seq<(FileId, string)>): map<FileId, string> {
    if targets == [] then map[]
    else Named(targets[..|targets| - 1])[targets[|targets| - 1].0 := targets[|targets| - 1].1]
  }

  function WithoutMembers(groups: map<GroupId, Group>, g: GroupId, ids: set<FileId>): map<GroupId, Group> {
    if g in groups then groups[g := groups[g].(members := groups[g].members - ids)] else groups
  }

  /** Removing the member rows, then the group if fewer than two are left, is taking them out. */
  lemma TakenOutInSteps(db: Db, g: GroupId, ids: set<FileId>)
    ensures var less := WithoutMembers(db.groups, g, ids);
            && Members(db.(groups := less), g) == Members(db, g) - ids
            && TakeOut(db.groups, g, ids) == if |Members(db, g) - ids| < 2 then less - {g} else less
  {
    var less := WithoutMembers(db.groups, g, ids);
    if g in db.groups {
      assert less - {g} == db.groups - {g};
    } else {
      assert less - {g} == db.groups;
    }
  }

  function WithMembers(groups: map<GroupId, Group>, g: GroupId, ids: set<FileId>): map<GroupId, Group> {
    if g in groups then groups[g := groups[g].(members := groups[g].members + ids)] else groups
  }

  function MixedRows(files: map<FileId, File>, rows: map<FileId, Entry>, absent: set<FileId>, survivors: set<FileId>): map<FileId, Entry>
    requires absent <= rows.Keys
  {
    map f | f in absent + survivors && (f in absent || f in files)
      :: if f in absent then Entry(rows[f].path, Deleted) else Entry(files[f].path, Survivor)
  }

  lemma SameFlags(files: map<FileId, File>)
    ensures Flag(files, {}, true) == files && Flag(files, {}, false) == files
  {
  }

  lemma SameGroups(groups: map<GroupId, Group>, g: GroupId)
    ensures WithoutMembers(groups, g, {}) == groups && WithMembers(groups, g, {}) == groups
  {
    if g in groups {
      assert groups[g].members - {} == groups[g].members && groups[g].members + {} == groups[g].members;
      assert groups[g := groups[g]] == groups;
    }
  }

  lemma FlagMore(files: map<FileId, File>, a: set<FileId>, b: set<FileId>, deleted: bool)
    ensures Flag(Flag(files, a, deleted), b, deleted) == Flag(files, a + b, deleted)
  {
  }

  lemma WithoutMore(groups: map<GroupId, Group>, g: GroupId, a: set<FileId>, b: set<FileId>)
    ensures WithoutMembers(WithoutMembers(groups, g, a), g, b) == WithoutMembers(groups, g, a + b)
  {
    if g in groups {
      assert groups[g].members - a - b == groups[g].members - (a + b);
    }
  }

  lemma WithMore(groups: map<GroupId, Group>, g: GroupId, a: set<FileId>, b: set<FileId>)
    ensures WithMembers(WithMembers(groups, g, a), g, b) == WithMembers(groups, g, a + b)
  {
    if g in groups {
      assert groups[g].members + a + b == groups[g].members + (a + b);
    }
  }

  lemma Distribute(s: set<FileId>, done: set<FileId>, id: FileId)
    ensures s * (done + {id}) == s * done + s * {id}
  {
  }

  lemma FinalOneMore(files: map<FileId, File>, members: set<FileId>, removed: set<FileId>, id: FileId)
    ensures var r := FinalRows(files, members, removed);
            FinalRows(files, members + {id}, removed)
            == if id in files then r[id := Entry(files[id].path, if id in removed then Deleted else Survivor)] else r
  {
  }

  lemma MixedOneMore(files: map<FileId, File>, rows: map<FileId, Entry>, absent: set<FileId>, survivors: set<FileId>, id: FileId)
    requires absent <= rows.Keys && id !in absent
    ensures var r := MixedRows(files, rows, absent, survivors);
            MixedRows(files, rows, absent, survivors + {id})
            == if id in files then r[id := Entry(files[id].path, Survivor)] else r
  {
  }

  /** Marking files deleted does not change the paths the journal copies. */
  lemma MixedIsReconciled(db: Db, files: map<FileId, File>, batch: Batch, absent: set<FileId>, survivors: set<FileId>)
    requires absent <= batch.files.Keys
    requires files == Flag(db.files, absent, true) && survivors == Members(db, batch.group) - absent
    ensures MixedRows(files, batch.files, absent, survivors) == ReconciledRows(db, batch, absent)
  {
  }

  function UnlinkIn(groups: map<GroupId, Group>, f: FileId, some: set<GroupId>): map<GroupId, Group> {
    map g | g in groups && (g in some ==> |groups[g].members - {f}| >= 2)
      :: if g in some then groups[g].(members := groups[g].members - {f}) else groups[g]
  }

  lemma AbsentMeans(batch: Batch, disk: set<string>)
    ensures Absent(batch, disk) <= batch.files.Keys
    ensures forall f :: f in batch.files ==>
              (f in Absent(batch, disk) <==> batch.files[f].role == Deleted && batch.files[f].path !in disk)
  {
  }

  lemma CollectOneMore(ids: seq<int>, all: set<int>, done: set<int>, id: int)
    requires Elements(ids) == all * done
    ensures Elements(if id in all then ids + [id] else ids) == all * (done + {id})
  {
    assert all * (done + {id}) == if id in all then all * done + {id} else all * done;
    assert Elements(ids + [id]) == Elements(ids) + {id};
  }

  lemma NextContaining(containing: seq<GroupId>, k: nat)
    requires k < |containing| && forall i, j :: 0 <= i < j < |containing| ==> containing[i] < containing[j]
    ensures containing[k] in containing && containing[k] !in Elements(containing[..k])
    ensures Elements(containing[..k + 1]) == Elements(containing[..k]) + {containing[k]}
  {
  }

  lemma UnlinkNone(groups: map<GroupId, Group>, f: FileId)
    ensures UnlinkIn(groups, f, {}) == groups
  {
  }

  lemma UnlinkOneMore(groups: map<GroupId, Group>, f: FileId, some: set<GroupId>, g: GroupId)
    requires g in groups && g !in some
    ensures var less := WithoutMembers(UnlinkIn(groups, f, some), g, {f});
            && g in UnlinkIn(groups, f, some) && UnlinkIn(groups, f, some)[g] == groups[g]
            && g in less && less[g].members == groups[g].members - {f}
            && UnlinkIn(groups, f, some + {g}) == if |groups[g].members - {f}| < 2 then less - {g} else less
  {
    var before := UnlinkIn(groups, f, some);
    assert g in before && before[g] == groups[g];
    var less := before[g := groups[g].(members := groups[g].members - {f})];
    var want := if |groups[g].members - {f}| < 2 then less - {g} else less;
    var r := UnlinkIn(groups, f, some + {g});
    forall h
      ensures h in r <==> h in want
      ensures h in r ==> r[h] == want[h]
    {
      if h != g {
        assert h in r <==> h in before;
      }
    }
  }

  /** The batches of `todo` from the k-th on are still as they were when the list was read. */
  ghost predicate Waiting(before: Db, now: Db, todo: seq<BatchId>, k: nat) {
    && (forall i, j :: 0 <= i < j < |todo| ==> todo[i] != todo[j])
    && forall i :: k <= i < |todo| ==>
         todo[i] in before.batches && todo[i] in now.batches && now.batches[todo[i]] == before.batches[todo[i]]
  }

  function ToFinalize(db: Db, some: set<BatchId>, disk: set<string>): set<BatchId> {
    set b | b in some && HadAbsent(db, b, disk)
  }

  /** What the rest of a pass makes of the rows. */
  ghost function Remaining(before: Db, now: Db, todo: seq<BatchId>, k: nat, disk: set<string>): Db
    requires k <= |todo| && Waiting(before, now, todo, k)
  {
    ReconcileList(now, todo[k..], disk)
  }

  predicate HadAbsent(db: Db, b: BatchId, disk: set<string>) {
    b in db.batches && Absent(db.batches[b], disk) != {}
  }

  /** How many of the first k batches had a target that was gone. */
  function Closed(db: Db, todo: seq<BatchId>, k: nat, disk: set<string>): nat
    requires k <= |todo|
  {
    if k == 0 then 0 else Closed(db, todo, k - 1, disk) + if HadAbsent(db, todo[k - 1], disk) then 1 else 0
  }

  lemma PassStarts(db: Db, todo: seq<BatchId>, disk: set<string>)
    requires todo == Ascending(Pending(db)) && Waiting(db, db, todo, 0)
    ensures Remaining(db, db, todo, 0, disk) == ReconcilePending(db, disk)
  {
    assert todo[0..] == todo;
  }

  lemma PassEnds(before: Db, now: Db, todo: seq<BatchId>, disk: set<string>)
    requires Waiting(before, now, todo, |todo|) && Elements(todo) == Pending(before)
    ensures Remaining(before, now, todo, |todo|, disk) == now
    ensures Closed(before, todo, |todo|, disk) == |ToFinalize(before, Pending(before), disk)|
  {
    assert todo[..|todo|] == todo && todo[|todo|..] == [];
    CountAll(before, todo, |todo|, disk);
  }

  lemma PassOne(before: Db, now: Db, todo: seq<BatchId>, k: nat, disk: set<string>)
    requires k < |todo| && Waiting(before, now, todo, k)
    ensures Waiting(before, Journal.ReconcileBatch(now, todo[k], disk), todo, k + 1)
    ensures Remaining(before, now, todo, k, disk) == Remaining(before, Journal.ReconcileBatch(now, todo[k], disk), todo, k + 1, disk)
  {
    assert todo[k..][1..] == todo[k + 1..];
  }

  lemma {:induction false} CountAll(db: Db, todo: seq<BatchId>, k: nat, disk: set<string>)
    requires k <= |todo| && forall i, j :: 0 <= i < j < |todo| ==> todo[i] != todo[j]
    ensures Closed(db, todo, k, disk) == |ToFinalize(db, Elements(todo[..k]), disk)|
  {
    if k == 0 {
      assert Elements(todo[..0]) == {};
      assert ToFinalize(db, {}, disk) == {};
    } else {
      CountAll(db, todo, k - 1, disk);
      CountOne(db, Elements(todo[..k - 1]), todo[k - 1], disk);
      assert Elements(todo[..k]) == Elements(todo[..k - 1]) + {todo[k - 1]};
    }
  }

  lemma CountOne(db: Db, some: set<BatchId>, b: BatchId, disk: set<string>)
    requires b !in some
    ensures |ToFinalize(db, some + {b}, disk)| == |ToFinalize(db, some, disk)| + if HadAbsent(db, b, disk) then 1 else 0
  {
    assert ToFinalize(db, some + {b}, disk) == ToFinalize(db, some, disk) + if HadAbsent(db, b, disk) then {b} else {};
  }

  lemma OneGroupEverywhere(members: set<FileId>, f: FileId)
    ensures f in members ==> (Kept(members, {f}) <==> |members - {f}| >= 2)
    ensures f !in members ==> Kept(members, {f}) && members - {f} == members
  {
  }

  lemma UnlinkEverywhere(groups: map<GroupId, Group>, f: FileId, having: set<GroupId>)
    requires having == set g | g in groups && f in groups[g].members
    ensures UnlinkIn(groups, f, having) == UnlinkFile(groups, f)
  {
    hide Kept;
    var a, b := UnlinkIn(groups, f, having), UnlinkFile(groups, f);
    forall g | g in groups
      ensures g in a <==> g in b
      ensures g in a ==> a[g] == b[g]
    {
      OneGroupEverywhere(groups[g].members, f);
    }
  }
}

/** No stored duplicate group ever has fewer than two members, over every run of its writers. */
module GroupSize {
  import opened Common
  import opened DeletePlan
  import opened Journal
  import UndoStack

  ghost predicate BigGroups(groups: map<GroupId, Group>) {
    forall g :: g in groups ==> |groups[g].members| >= 2
  }

  // ---- the writers one by one ---------------------------------------------------------------

  lemma TakeOutKeepsSize(groups: map<GroupId, Group>, g: GroupId, ids: set<FileId>)
    requires BigGroups(groups)
    ensures BigGroups(TakeOut(groups, g, ids))
  {
  }

  lemma OneGroupUnlinked(members: set<FileId>, ids: set<FileId>)
    ensures members !! ids ==> members - ids == members
    ensures members - ids !! ids
  {
  }

  lemma UnlinkKeepsSize(groups: map<GroupId, Group>, ids: set<FileId>)
    requires BigGroups(groups)
    ensures var r := UnlinkAll(groups, ids);
            && BigGroups(r)
            && (forall g :: g in r ==> r[g].members !! ids)
            && (forall g :: g in groups && groups[g].members !! ids ==> g in r && r[g] == groups[g])
  {
    var r := UnlinkAll(groups, ids);
    forall g | g in groups
      ensures groups[g].members !! ids ==> g in r && r[g] == groups[g]
      ensures g in r ==> |r[g].members| >= 2 && r[g].members !! ids
    {
      OneGroupUnlinked(groups[g].members, ids);
    }
  }

  /**
   * Undo keeps group sizes exactly when the group still exists or the journal names two files
   * that come back: a batch without survivors and one restorable file makes a group of one.
   */
  lemma UndoKeepsSize(db: Db, disk: set<string>)
    requires BigGroups(db.groups) && |Committed(db)| > 0
    requires Restorable(db.batches[Last(db)], disk) != {}
    ensures var batch := db.batches[Last(db)];
            BigGroups(UndoLast(db, disk).0.groups)
            <==> batch.group in db.groups || |WithRole(batch, Survivor) + Restorable(batch, disk)| >= 2
  {
    var batch := db.batches[Last(db)];
    var back := Restorable(batch, disk);
    var r := UndoLast(db, disk).0;
    if batch.group in db.groups {
      SubsetSize(db.groups[batch.group].members, r.groups[batch.group].members);
    } else {
      assert {} + WithRole(batch, Survivor) + back == WithRole(batch, Survivor) + back;
      assert r.groups[batch.group].members == WithRole(batch, Survivor) + back;
    }
  }

  // ---- every run ----------------------------------------------------------------------------

  datatype Event =
    | Begin(group: GroupId, trust: Trust, nonTransitive: bool, targets: map<FileId, string>)   // batch recorded as pending
    | Finish(batch: BatchId, removed: set<FileId>)   // closing transaction of that delete
    | Abandon(batch: BatchId)                        // nothing could be removed from disk
    | Reconcile(batch: BatchId, disk: set<string>)   // startup, after a crash
    | Undo(disk: set<string>)
    | Unlink(files: set<FileId>)                     // purge, teardown or changed content
    | Regroup(groups: map<GroupId, Group>)           // a matcher pass: clears a trust class and writes new groups

  /** What the code can do at all, whoever else is at work: matcher passes write groups of two or more. */
  ghost predicate Possible(db: Db, e: Event) {
    match e
    case Finish(b, _) => b in Pending(db)
    case Abandon(b) => b in Pending(db)
    case Reconcile(b, _) => b in Pending(db)
    case Regroup(groups) => BigGroups(groups)
    case _ => true
  }

  function Step(db: Db, e: Event): Db
    requires Possible(db, e)
  {
    match e
    case Begin(g, trust, nonTransitive, targets) => RecordPending(db, g, trust, nonTransitive, targets)
    case Finish(b, removed) => Finalize(db, b, removed)
    case Abandon(b) => RemoveBatch(db, b)
    case Reconcile(b, disk) => ReconcileBatch(db, b, disk)
    case Undo(disk) => UndoLast(db, disk).0
    case Unlink(ids) => db.(groups := UnlinkAll(db.groups, ids))
    case Regroup(groups) => db.(groups := groups)
  }

  ghost predicate AllPossible(db: Db, es: seq<Event>)
    decreases |es|
  {
    es == [] || (Possible(db, es[0]) && AllPossible(Step(db, es[0]), es[1..]))
  }

  function Run(db: Db, es: seq<Event>): Db
    requires AllPossible(db, es)
    decreases |es|
  {
    if es == [] then db else Run(Step(db, es[0]), es[1..])
  }

  /** What an undo can check before it writes: the group is there, or two files come back to it. */
  ghost predicate UndoGuard(db: Db, disk: set<string>) {
    |Committed(db)| > 0 && Restorable(db.batches[Last(db)], disk) != {} ==>
      var batch := db.batches[Last(db)];
      batch.group in db.groups || |WithRole(batch, Survivor) + Restorable(batch, disk)| >= 2
  }

  ghost predicate UndosGuarded(db: Db, es: seq<Event>)
    requires AllPossible(db, es)
    decreases |es|
  {
    es == [] || ((es[0].Undo? ==> UndoGuard(db, es[0].disk)) && UndosGuarded(Step(db, es[0]), es[1..]))
  }

  /** No state of the run, the last one included, has a small group. */
  ghost predicate BigThroughout(db: Db, es: seq<Event>)
    requires AllPossible(db, es)
    decreases |es|
  {
    BigGroups(db.groups) && (es == [] || BigThroughout(Step(db, es[0]), es[1..]))
  }

  /** Undo is the only writer that can make a group small, and its guard is exact. */
  lemma StepKeepsSize(db: Db, e: Event)
    requires BigGroups(db.groups) && Possible(db, e)
    ensures BigGroups(Step(db, e).groups) <==> (e.Undo? ==> UndoGuard(db, e.disk))
  {
    match e
    case Finish(b, removed) => TakeOutKeepsSize(db.groups, db.batches[b].group, removed);
    case Reconcile(b, disk) => TakeOutKeepsSize(db.groups, db.batches[b].group, Absent(db.batches[b], disk));
    case Undo(disk) =>
      if |Committed(db)| > 0 && Restorable(db.batches[Last(db)], disk) != {} {
        UndoKeepsSize(db, disk);
      }
    case Unlink(ids) => UnlinkKeepsSize(db.groups, ids);
    case _ =>
  }

  /**
   * Over every run of deletes that may overlap, crashes, reconciliation, undos, purges, teardowns
   * and matcher passes: no group is ever small if and only if every undo met its guard.
   */
  lemma {:induction false} BigIffUndosGuarded(db: Db, es: seq<Event>)
    requires BigGroups(db.groups) && AllPossible(db, es)
    ensures BigThroughout(db, es) <==> UndosGuarded(db, es)
    decreases |es|
  {
    if es != [] {
      StepKeepsSize(db, es[0]);
      if BigGroups(Step(db, es[0]).groups) {
        BigIffUndosGuarded(Step(db, es[0]), es[1..]);
      }
    }
  }

  // ---- a discipline under which every guard is met ------------------------------------------

  ghost predicate BusyGroup(db: Db, g: GroupId) {
    exists b :: b in db.batches && !db.batches[b].committed && db.batches[b].group == g
  }

  /** Deletes on one group do not overlap, and no other writer touches the members of a busy group. */
  ghost predicate Allowed(db: Db, e: Event) {
    && Possible(db, e)
    && match e
       case Begin(g, _, _, targets) => g in db.groups && targets.Keys < db.groups[g].members && !BusyGroup(db, g)
       case Finish(b, removed) => removed <= db.batches[b].files.Keys
       case Unlink(ids) => forall g :: g in db.groups && !(db.groups[g].members !! ids) ==> !BusyGroup(db, g)
       case Regroup(groups) =>
         && (forall g :: g in groups ==> groups[g].members <= db.files.Keys)
         && (forall g :: BusyGroup(db, g) && g in db.groups ==> g in groups && groups[g] == db.groups[g])
       case _ => true
  }

  ghost predicate PendingOk(db: Db, batch: Batch) {
    && batch.group in db.groups
    && batch.files.Keys < db.groups[batch.group].members
    && forall f :: f in batch.files ==> batch.files[f].role == Deleted
  }

  /** A journal that can be replayed names a survivor. */
  ghost predicate HasSurvivor(batch: Batch) {
    (exists f :: f in batch.files && batch.files[f].role == Deleted) ==>
      exists f :: f in batch.files && batch.files[f].role == Survivor
  }

  ghost predicate Inv(db: Db) {
    && Consistent(db)
    && BigGroups(db.groups)
    && (forall b :: b in db.batches && !db.batches[b].committed ==> PendingOk(db, db.batches[b]))
    && (forall b, c :: b in Pending(db) && c in Pending(db) && db.batches[b].group == db.batches[c].group ==> b == c)
    && (forall b :: b in db.batches && db.batches[b].committed ==> HasSurvivor(db.batches[b]))
    && (forall b :: b in db.batches ==> db.batches[b].files.Keys <= db.files.Keys)
  }

  lemma BeginKeepsInv(db: Db, e: Event)
    requires Inv(db) && Allowed(db, e) && e.Begin?
    ensures Inv(Step(db, e))
  {
    var batch := Step(db, e).batches[db.nextBatch];
    assert batch.files.Keys == e.targets.Keys;
    assert e.targets.Keys <= db.groups[e.group].members <= db.files.Keys;
    forall b | b in db.batches && !db.batches[b].committed
      ensures db.batches[b].group != e.group
    {
    }
  }

  lemma SparedSurvives(batch: Batch, removed: set<FileId>)
    requires removed < batch.files.Keys
    requires forall f :: f in batch.files ==> batch.files[f].role == (if f in removed then Deleted else Survivor)
    ensures HasSurvivor(batch)
  {
    SubsetSize(removed, batch.files.Keys);
    assert batch.files.Keys == removed + (batch.files.Keys - removed);
    var s := AnElement(batch.files.Keys - removed);
    assert batch.files[s].role == Survivor;
  }

  lemma OthersStayPending(db: Db, db': Db, g: GroupId, removed: set<FileId>, batch: Batch)
    requires db'.groups == TakeOut(db.groups, g, removed) && batch.group != g && PendingOk(db, batch)
    ensures PendingOk(db', batch)
  {
  }

  /** Both ways to close a batch leave the other pending batches and their groups alone. */
  lemma CloseKeepsInv(db: Db, b: BatchId, removed: set<FileId>, db': Db, rows: map<FileId, Entry>, dropped: bool)
    requires Inv(db) && b in Pending(db) && removed <= db.batches[b].files.Keys
    requires db' == db.(files := Flag(db.files, removed, true),
                        groups := TakeOut(db.groups, db.batches[b].group, removed),
                        batches := db.batches[b := Commit(db.batches[b], dropped, rows)])
    requires rows.Keys == Members(db, db.batches[b].group)
    requires forall f :: f in rows ==> rows[f].role == (if f in removed then Deleted else Survivor)
    ensures Inv(db')
  {
    TakeOutKeepsSize(db.groups, db.batches[b].group, removed);
    assert PendingOk(db, db.batches[b]);
    SparedSurvives(db'.batches[b], removed);
    hide HasSurvivor, BigGroups, PendingOk;
    forall c | c in db'.batches && !db'.batches[c].committed
      ensures PendingOk(db', db'.batches[c])
    {
      OthersStayPending(db, db', db.batches[b].group, removed, db.batches[c]);
    }
  }

  lemma UndoKeepsPending(db: Db, disk: set<string>)
    requires Inv(db) && |Committed(db)| > 0 && Restorable(db.batches[Last(db)], disk) != {}
    ensures var db' := UndoLast(db, disk).0;
            forall c :: c in db'.batches && !db'.batches[c].committed ==> PendingOk(db', db'.batches[c])
  {
    var db' := UndoLast(db, disk).0;
    forall c | c in db'.batches && !db'.batches[c].committed
      ensures PendingOk(db', db'.batches[c])
    {
      assert PendingOk(db, db.batches[c]);
      var g := db.batches[c].group;
      assert db.groups[g].members <= db'.groups[g].members;
    }
  }

  /** A survivor and a file that comes back are two. */
  lemma SurvivorMeetsGuard(db: Db, disk: set<string>)
    requires forall b :: b in db.batches && db.batches[b].committed ==> HasSurvivor(db.batches[b])
    ensures UndoGuard(db, disk)
  {
    if |Committed(db)| > 0 && Restorable(db.batches[Last(db)], disk) != {} {
      var batch := db.batches[Last(db)];
      var back := Restorable(batch, disk);
      NonEmpty(back);
      var f := AnElement(back);
      var s :| s in batch.files && batch.files[s].role == Survivor;
      assert f != s && s in WithRole(batch, Survivor);
      TwoElements(WithRole(batch, Survivor) + back, s, f);
    }
  }

  lemma UndoKeepsRows(db: Db, disk: set<string>)
    requires Consistent(db) && forall b :: b in db.batches ==> db.batches[b].files.Keys <= db.files.Keys
    ensures var db' := UndoLast(db, disk).0;
            Consistent(db') && db'.files.Keys == db.files.Keys && forall b :: b in db'.batches ==> b in db.batches && db'.batches[b] == db.batches[b]
  {
  }

  lemma UndoKeepsInv(db: Db, disk: set<string>)
    requires Inv(db)
    ensures Inv(UndoLast(db, disk).0)
  {
    hide UndoBatch, HasSurvivor, BigGroups, PendingOk, Consistent, UndoGuard;
    SurvivorMeetsGuard(db, disk);
    StepKeepsSize(db, Undo(disk));
    UndoKeepsRows(db, disk);
    if |Committed(db)| > 0 && Restorable(db.batches[Last(db)], disk) != {} {
      UndoKeepsPending(db, disk);
    }
  }

  lemma AbandonKeepsInv(db: Db, b: BatchId)
    requires Inv(db) && b in Pending(db)
    ensures Inv(RemoveBatch(db, b))
  {
    var db' := RemoveBatch(db, b);
    forall c | c in db'.batches && !db'.batches[c].committed
      ensures PendingOk(db', db'.batches[c])
    {
      assert PendingOk(db, db.batches[c]);
    }
  }

  lemma UnlinkKeepsInv(db: Db, ids: set<FileId>)
    requires Inv(db) && Allowed(db, Unlink(ids))
    ensures Inv(Step(db, Unlink(ids)))
  {
    var db' := Step(db, Unlink(ids));
    UnlinkKeepsSize(db.groups, ids);
    forall b | b in db'.batches && !db'.batches[b].committed
      ensures PendingOk(db', db'.batches[b])
    {
      assert PendingOk(db, db.batches[b]) && BusyGroup(db, db.batches[b].group);
    }
  }

  lemma RegroupKeepsInv(db: Db, groups: map<GroupId, Group>)
    requires Inv(db) && Allowed(db, Regroup(groups))
    ensures Inv(Step(db, Regroup(groups)))
  {
    var db' := Step(db, Regroup(groups));
    forall b | b in db'.batches && !db'.batches[b].committed
      ensures PendingOk(db', db'.batches[b])
    {
      assert PendingOk(db, db.batches[b]) && BusyGroup(db, db.batches[b].group);
    }
  }

  lemma StepKeepsInv(db: Db, e: Event)
    requires Inv(db) && Allowed(db, e)
    ensures Inv(Step(db, e))
  {
    match e
    case Begin(_, _, _, _) => BeginKeepsInv(db, e);
    case Finish(b, removed) =>
      var g := db.batches[b].group;
      CloseKeepsInv(db, b, removed, Step(db, e), FinalRows(db.files, Members(db, g), removed), |Members(db, g) - removed| < 2);
    case Abandon(b) => AbandonKeepsInv(db, b);
    case Reconcile(b, disk) =>
      var batch := db.batches[b];
      var absent := Absent(batch, disk);
      if absent == {} {
        AbandonKeepsInv(db, b);
      } else {
        assert absent <= batch.files.Keys;
        CloseKeepsInv(db, b, absent, Step(db, e), ReconciledRows(db, batch, absent), |Members(db, batch.group) - absent| < 2);
      }
    case Undo(disk) => UndoKeepsInv(db, disk);
    case Unlink(ids) => UnlinkKeepsInv(db, ids);
    case Regroup(groups) => RegroupKeepsInv(db, groups);
  }

  ghost predicate AllAllowed(db: Db, es: seq<Event>)
    decreases |es|
  {
    es == [] || (Allowed(db, es[0]) && AllAllowed(Step(db, es[0]), es[1..]))
  }

  /** Under that discipline no undo ever meets a journal without survivors, and groups stay big. */
  lemma {:induction false} GroupsStayBig(db: Db, es: seq<Event>)
    requires Inv(db) && AllAllowed(db, es)
    ensures AllPossible(db, es) && Inv(Run(db, es)) && BigThroughout(db, es) && UndosGuarded(db, es)
    decreases |es|
  {
    if es != [] {
      StepKeepsInv(db, es[0]);
      StepKeepsSize(db, es[0]);
      GroupsStayBig(Step(db, es[0]), es[1..]);
    }
  }

  /** In particular from a fresh index, where nothing is grouped and nothing was deleted. */
  lemma BigFromTheStart(files: map<FileId, File>, es: seq<Event>)
    requires AllAllowed(Db(files, map[], map[], 1), es)
    ensures AllPossible(Db(files, map[], map[], 1), es) && BigThroughout(Db(files, map[], map[], 1), es)
  {
    assert Inv(Db(files, map[], map[], 1));
    GroupsStayBig(Db(files, map[], map[], 1), es);
  }

  // ---- why the groups must not be disturbed while a delete runs -----------------------------

  /** A delete of all members but one, with the remaining one purged before the closing transaction. */
  function Disturbance(db: Db, g: GroupId, targets: set<FileId>, other: FileId): seq<Event>
    requires g in db.groups
  {
    [Begin(g, db.groups[g].trust, db.groups[g].nonTransitive, UndoStack.Targets(db.files, targets)),
     Unlink({other}), Finish(db.nextBatch, targets)]
  }

  lemma DisturbanceIsPossible(db: Db, g: GroupId, targets: set<FileId>, other: FileId)
    requires Consistent(db) && g in db.groups
    ensures var es := Disturbance(db, g, targets, other);
            && AllPossible(db, es)
            && Run(db, es) == Finalize(Step(Step(db, es[0]), es[1]), db.nextBatch, targets)
  {
    var es := Disturbance(db, g, targets, other);
    var begun := Step(db, es[0]);
    var purged := Step(begun, es[1]);
    assert es[1..][1..] == [es[2]] && [es[2]][1..] == [];
    assert AllPossible(Step(purged, es[2]), []);
    assert AllPossible(purged, [es[2]]) && Run(purged, [es[2]]) == Step(purged, es[2]);
    assert AllPossible(begun, es[1..]) && Run(begun, es[1..]) == Step(purged, es[2]);
  }

  /** The purge in the middle is what the discipline rules out. */
  lemma DisturbanceIsNotAllowed(db: Db, g: GroupId, targets: set<FileId>, other: FileId)
    requires Consistent(db) && g in db.groups && other in db.groups[g].members
    ensures var es := Disturbance(db, g, targets, other);
            !Allowed(Step(db, es[0]), es[1]) && !AllAllowed(db, es)
  {
    var es := Disturbance(db, g, targets, other);
    var begun := Step(db, es[0]);
    assert begun.batches[db.nextBatch].group == g && !begun.batches[db.nextBatch].committed;
    assert BusyGroup(begun, g);
    assert other in begun.groups[g].members && !(begun.groups[g].members !! {other});
    assert es[1..][0] == es[1];
  }

  lemma ClosedOverAll(db: Db, b: BatchId, removed: set<FileId>)
    requires BigGroups(db.groups) && b in db.batches && forall x :: x in db.batches ==> x <= b
    requires var g := db.batches[b].group; g in db.groups && db.groups[g].members == removed
    ensures var closed := Finalize(db, b, removed);
            && BigGroups(closed.groups) && db.batches[b].group !in closed.groups
            && |Committed(closed)| > 0 && Last(closed) == b
            && closed.batches[b].group == db.batches[b].group
            && closed.batches[b].files == map f | f in removed && f in db.files :: Entry(db.files[f].path, Deleted)
  {
    var closed := Finalize(db, b, removed);
    assert removed - removed == {};
    TakeOutKeepsSize(db.groups, db.batches[b].group, removed);
    assert b in Committed(closed);
    SubsetSize({b}, Committed(closed));
  }

  /** It leaves a committed batch without survivors ... */
  lemma DisturbedJournal(db: Db, g: GroupId, targets: set<FileId>, other: FileId)
    requires Inv(db) && g in db.groups
    requires db.groups[g].members == targets + {other} && other !in targets && |targets| >= 2
    ensures var es := Disturbance(db, g, targets, other);
            && AllPossible(db, es)
            && var closed := Run(db, es);
            && BigGroups(closed.groups) && g !in closed.groups
            && |Committed(closed)| > 0 && Last(closed) == db.nextBatch
            && closed.batches[db.nextBatch].group == g
            && closed.batches[db.nextBatch].files == map f | f in targets && f in db.files :: Entry(db.files[f].path, Deleted)
  {
    DisturbanceIsPossible(db, g, targets, other);
    var es := Disturbance(db, g, targets, other);
    var purged := Step(Step(db, es[0]), es[1]);
    UnlinkKeepsSize(db.groups, {other});
    assert db.groups[g].members - {other} == targets;
    ClosedOverAll(purged, db.nextBatch, targets);
  }

  /** ... so that undoing it with a single file back on disk creates a group of one. */
  lemma UndoneGroupOfOne(db: Db, g: GroupId, targets: set<FileId>, other: FileId, one: FileId, disk: set<string>)
    requires Inv(db) && g in db.groups
    requires db.groups[g].members == targets + {other} && other !in targets && |targets| >= 2
    requires one in targets && forall f :: f in targets ==> (db.files[f].path in disk <==> f == one)
    ensures var es := Disturbance(db, g, targets, other);
            && AllPossible(db, es)
            && !UndoGuard(Run(db, es), disk)
            && var r := UndoLast(Run(db, es), disk).0;
            g in r.groups && r.groups[g].members == {one} && !BigGroups(r.groups)
  {
    DisturbedJournal(db, g, targets, other);
    var closed := Run(db, Disturbance(db, g, targets, other));
    var batch := closed.batches[db.nextBatch];
    assert targets <= db.groups[g].members <= db.files.Keys;
    assert WithRole(batch, Survivor) == {};
    forall f
      ensures f in Restorable(batch, disk) <==> f in {one}
    {
    }
    assert Restorable(batch, disk) == {one};
    assert {} + WithRole(batch, Survivor) + {one} == {one};
    UndoKeepsSize(closed, disk);
  }

  // ---- a group dissolved while a delete runs ------------------------------------------------

  /**
   * When a matcher pass clears the group before the closing transaction, that transaction finds
   * no members to journal: the batch is committed empty, and every undo from then on stops at it.
   */
  lemma DissolvedGroupBlocksUndo(db: Db, b: BatchId, removed: set<FileId>, disk: set<string>, n: nat)
    requires b in Pending(db) && db.batches[b].group !in db.groups
    requires forall x :: x in Committed(db) ==> x < b
    ensures var closed := Finalize(db, b, removed);
            && closed.batches[b].files == map[]
            && UndoStack.UndoTimes(closed, disk, n) == closed
  {
    var closed := Finalize(db, b, removed);
    assert b in Committed(closed);
    SubsetSize({b}, Committed(closed));
    assert Restorable(closed.batches[b], disk) == {};
    forall x | x in Committed(closed)
      ensures x <= b
    {
      assert x != b ==> x in Committed(db);
    }
    assert Last(closed) == b;
    UndoStack.BlockedUndo(closed, disk);
  }
}

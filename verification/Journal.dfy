/**
 * The part of the index database that deleting, undoing and reconciling touch, and one function
 * for each of their transactions. A transaction commits as a whole or not at all, so a crash can
 * only fall between two of these functions.
 */
module Journal {
  import opened Common
  import opened DeletePlan

  type GroupId = int
  type BatchId = int

  datatype Trust = Exact | VeryLikely | Possible
  datatype File = File(path: string, size: int, mtime: int, deleted: bool)
  datatype Group = Group(trust: Trust, nonTransitive: bool, members: set<FileId>)
  datatype Role = Deleted | Survivor
  datatype Entry = Entry(path: string, role: Role)
  datatype Batch = Batch(
    group: GroupId, trust: Trust, nonTransitive: bool,
    dropped: bool, committed: bool, files: map<FileId, Entry>)

  /** `nextBatch` is the AUTOINCREMENT counter: ids are never used twice. */
  datatype Db = Db(
    files: map<FileId, File>, groups: map<GroupId, Group>,
    batches: map<BatchId, Batch>, nextBatch: BatchId)

  /** Equal up to the id counter, which no operation reads back. */
  ghost predicate SameRows(a: Db, b: Db) {
    a.files == b.files && a.groups == b.groups && a.batches == b.batches
  }

  /** Members are rows of `files` (a foreign key), and fresh batch ids are unused. */
  ghost predicate Consistent(db: Db) {
    && (forall g :: g in db.groups ==> db.groups[g].members <= db.files.Keys)
    && (forall b :: b in db.batches ==> b < db.nextBatch)
  }

  function Members(db: Db, g: GroupId): set<FileId> {
    if g in db.groups then db.groups[g].members else {}
  }

  function Flag(files: map<FileId, File>, ids: set<FileId>, deleted: bool): (r: map<FileId, File>)
    ensures r.Keys == files.Keys
  {
    map f | f in files :: if f in ids then files[f].(deleted := deleted) else files[f]
  }

  /** Take members out of one group; a group left with fewer than two goes, and its rows with it. */
  function TakeOut(groups: map<GroupId, Group>, g: GroupId, ids: set<FileId>): map<GroupId, Group> {
    if g !in groups then groups
    else if |groups[g].members - ids| < 2 then groups - {g}
    else groups[g := groups[g].(members := groups[g].members - ids)]
  }

  /** A group stays when nobody leaves it, or when two members are left. */
  predicate Kept(members: set<FileId>, ids: set<FileId>) {
    members !! ids || |members - ids| >= 2
  }

  /** Take files out of every group that has them: purge, teardown and changed content do this. */
  function UnlinkAll(groups: map<GroupId, Group>, ids: set<FileId>): map<GroupId, Group> {
    map g | g in groups && Kept(groups[g].members, ids) :: groups[g].(members := groups[g].members - ids)
  }

  function UnlinkFile(groups: map<GroupId, Group>, f: FileId): map<GroupId, Group> {
    UnlinkAll(groups, {f})
  }

  lemma KeptMeans(m: set<FileId>, ids: set<FileId>)
    ensures Kept(m, ids) <==> m - ids == m || |m - ids| >= 2
  {
    if m - ids == m {
      assert forall f :: f in m ==> f in m - ids;
    }
  }

  lemma TwoLeavings(m: set<FileId>, a: set<FileId>, b: set<FileId>)
    ensures m - a - b == m - (a + b)
    ensures m - a - b <= m - a <= m
  {
  }

  lemma KeptInTurn(m: set<FileId>, a: set<FileId>, b: set<FileId>)
    ensures m - a - b == m - (a + b)
    ensures Kept(m, a) && Kept(m - a, b) <==> Kept(m, a + b)
  {
    TwoLeavings(m, a, b);
    KeptMeans(m, a);
    KeptMeans(m - a, b);
    KeptMeans(m, a + b);
    SubsetSize(m - a - b, m - a);
  }

  /** The order in which files leave does not matter. */
  lemma UnlinkInTurn(groups: map<GroupId, Group>, a: set<FileId>, b: set<FileId>)
    ensures UnlinkAll(UnlinkAll(groups, a), b) == UnlinkAll(groups, a + b)
  {
    forall g | g in groups
      ensures Kept(groups[g].members, a) && Kept(groups[g].members - a, b) <==> Kept(groups[g].members, a + b)
      ensures groups[g].members - a - b == groups[g].members - (a + b)
    {
      KeptInTurn(groups[g].members, a, b);
    }
  }

  lemma UnlinkNobody(groups: map<GroupId, Group>)
    ensures UnlinkAll(groups, {}) == groups
  {
    forall g | g in groups
      ensures Kept(groups[g].members, {}) && groups[g].members - {} == groups[g].members
    {
      assert groups[g].members !! {};
    }
  }

  function Pending(db: Db): set<BatchId> {
    set b | b in db.batches && !db.batches[b].committed
  }

  function Committed(db: Db): set<BatchId> {
    set b | b in db.batches && db.batches[b].committed
  }

  function WithRole(batch: Batch, role: Role): set<FileId> {
    set f | f in batch.files && batch.files[f].role == role
  }

  // ---- transactions of a delete -------------------------------------------------------------

  function RecordPending(db: Db, g: GroupId, trust: Trust, nonTransitive: bool, targets: map<FileId, string>): Db {
    var rows := map f | f in targets :: Entry(targets[f], Deleted);
    db.(batches := db.batches[db.nextBatch := Batch(g, trust, nonTransitive, false, false, rows)],
        nextBatch := db.nextBatch + 1)
  }

  function RemoveBatch(db: Db, b: BatchId): Db {
    db.(batches := db.batches - {b})
  }

  function Commit(batch: Batch, dropped: bool, files: map<FileId, Entry>): Batch {
    batch.(dropped := dropped, committed := true, files := files)
  }

  /** The journal rows a finished delete leaves: every member, with the role it ended up in. */
  function FinalRows(files: map<FileId, File>, members: set<FileId>, removed: set<FileId>): map<FileId, Entry> {
    map f | f in members && f in files :: Entry(files[f].path, if f in removed then Deleted else Survivor)
  }

  /** The closing transaction of a delete that removed `removed` from disk. */
  function Finalize(db: Db, b: BatchId, removed: set<FileId>): Db
    requires b in db.batches
  {
    var g := db.batches[b].group;
    var dropped := |Members(db, g) - removed| < 2;
    db.(files := Flag(db.files, removed, true),
        groups := TakeOut(db.groups, g, removed),
        batches := db.batches[b := Commit(db.batches[b], dropped, FinalRows(db.files, Members(db, g), removed))])
  }

  // ---- transactions of startup reconciliation and undo --------------------------------------

  /** The recorded targets that are no longer on disk. */
  function Absent(batch: Batch, disk: set<string>): set<FileId> {
    set f | f in batch.files && batch.files[f].role == Deleted && batch.files[f].path !in disk
  }

  function Restorable(batch: Batch, disk: set<string>): set<FileId> {
    set f | f in batch.files && batch.files[f].role == Deleted && batch.files[f].path in disk
  }

  /** The journal rows reconciliation writes: the targets it found gone, then whoever is left. */
  function ReconciledRows(db: Db, batch: Batch, absent: set<FileId>): map<FileId, Entry>
    requires absent <= batch.files.Keys
  {
    map f | f in absent + (Members(db, batch.group) - absent) && (f in absent || f in db.files)
      :: if f in absent then Entry(batch.files[f].path, Deleted) else Entry(db.files[f].path, Survivor)
  }

  /** Startup reconciliation of one interrupted batch. */
  function ReconcileBatch(db: Db, b: BatchId, disk: set<string>): Db
    requires b in db.batches
  {
    var batch := db.batches[b];
    var absent := Absent(batch, disk);
    if absent == {} then RemoveBatch(db, b)
    else
      var survivors := Members(db, batch.group) - absent;
      db.(files := Flag(db.files, absent, true),
          groups := TakeOut(db.groups, batch.group, absent),
          batches := db.batches[b := Commit(batch, |survivors| < 2, ReconciledRows(db, batch, absent))])
  }

  datatype Undone = NothingToUndo | NothingRestorable | Restored(group: GroupId, files: set<FileId>)

  /** Replay one committed batch; only files that are back on disk return. */
  function UndoBatch(db: Db, b: BatchId, disk: set<string>): Db
    requires b in db.batches
  {
    var batch := db.batches[b];
    var back := Restorable(batch, disk);
    var group := if batch.group in db.groups then db.groups[batch.group]
                 else Group(batch.trust, batch.nonTransitive, {});
    db.(files := Flag(db.files, back, false),
        groups := db.groups[batch.group := group.(members := group.members + WithRole(batch, Survivor) + back)],
        batches := db.batches - {b})
  }

  function Last(db: Db): (b: BatchId)
    requires |Committed(db)| > 0
    ensures b in Committed(db) && forall x :: x in Committed(db) ==> x <= b
  {
    Greatest(Committed(db))
  }

  function Greatest(s: set<int>): (m: int)
    requires |s| > 0
    ensures m in s && forall x :: x in s ==> x <= m
  {
    var up := Ascending(s);
    assert |up| > 0 by {
      var x := AnElement(s);
      assert x in up;
    }
    assert forall x :: x in s ==> exists i :: 0 <= i < |up| && up[i] == x;
    up[|up| - 1]
  }

  function UndoLast(db: Db, disk: set<string>): (Db, Undone) {
    if |Committed(db)| == 0 then (db, NothingToUndo)
    else
      var b := Last(db);
      var back := Restorable(db.batches[b], disk);
      if back == {} then (db, NothingRestorable)
      else (UndoBatch(db, b, disk), Restored(db.batches[b].group, back))
  }

  // ---- whole-startup reconciliation ---------------------------------------------------------

  /** One pass over a list of pending batches read beforehand. */
  function ReconcileList(db: Db, todo: seq<BatchId>, disk: set<string>): Db
    requires forall i :: 0 <= i < |todo| ==> todo[i] in db.batches
    requires forall i, j :: 0 <= i < j < |todo| ==> todo[i] != todo[j]
    decreases |todo|
  {
    if todo == [] then db
    else
      var rest := todo[1..];
      assert forall i :: 0 <= i < |rest| ==> rest[i] == todo[i + 1];
      ReconcileList(ReconcileBatch(db, todo[0], disk), rest, disk)
  }

  function ReconcilePending(db: Db, disk: set<string>): Db {
    var todo := Ascending(Pending(db));
    assert forall i :: 0 <= i < |todo| ==> todo[i] in todo && todo[i] in Pending(db);
    ReconcileList(db, todo, disk)
  }
}

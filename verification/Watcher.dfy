/** Putting changes into the queue: one waiting or running task per path and sort of change, one upsert of either sort per path. */
module Watcher {
  import opened Common
  import opened TaskQueue

  /** A change on its way into the queue, with the size the file had; the payload does not hold the size. */
  datatype Incoming = Incoming(change: Change, size: int)

  datatype Table = Table(rows: Rows, nextId: TaskId)

  predicate IsActive(t: Task) {
    t.state == Pending || t.state == Running
  }

  predicate UpsertClass(k: ChangeKind) {
    k == Upsert || k == ForceUpsert
  }

  predicate IsFor(t: Task, kind: string, c: Change) {
    IsActive(t) && t.kind == kind && t.change == Some(c)
  }

  ghost predicate ChangeQueued(rows: Rows, kind: string, c: Change) {
    exists id :: id in rows && IsFor(rows[id], kind, c)
  }

  function NewTask(c: Change, kind: string, priority: int, now: int, size: int): Task {
    Task(kind, Pending, priority, Some(c), 0, now, None, None, size)
  }

  ghost predicate IsNewTask(t: Task, kind: string, priority: int, now: int) {
    t.change.Some? && t == NewTask(t.change.value, kind, priority, now, t.size)
  }

  ghost predicate IdsBelow(rows: Rows, nextId: TaskId) {
    forall id :: id in rows ==> id < nextId
  }

  // ---- what one change does -----------------------------------------------------------------

  predicate FailedBefore(rows: Rows, c: Incoming) {
    exists id :: id in rows && rows[id].state == Failed && rows[id].change == Some(c.change) && rows[id].size == c.size
  }

  /** There is such a task; or it is an upsert that a forced one stands for, or that failed on the same size. */
  ghost predicate Settled(rows: Rows, kind: string, c: Incoming) {
    || ChangeQueued(rows, kind, c.change)
    || (c.change.kind == Upsert && (ChangeQueued(rows, kind, Change(c.change.path, ForceUpsert)) || FailedBefore(rows, c)))
  }

  /** A forced upsert takes the place of the plain ones, running ones included. */
  function Displaced(rows: Rows, kind: string, c: Change): set<TaskId> {
    if c.kind == ForceUpsert then set id | id in rows && IsFor(rows[id], kind, Change(c.path, Upsert)) else {}
  }

  ghost function EnqueueOne(t: Table, c: Incoming, kind: string, priority: int, now: int): Table {
    if Settled(t.rows, kind, c) then t
    else Table((t.rows - Displaced(t.rows, kind, c.change))[t.nextId := NewTask(c.change, kind, priority, now, c.size)], t.nextId + 1)
  }

  ghost function EnqueueAll(t: Table, batch: seq<Incoming>, kind: string, priority: int, now: int): Table
    decreases |batch|
  {
    if batch == [] then t
    else EnqueueOne(EnqueueAll(t, batch[..|batch| - 1], kind, priority, now), batch[|batch| - 1], kind, priority, now)
  }

  // ---- the code -----------------------------------------------------------------------------

  /** The active tasks with a readable payload, decoded once per batch and kept up to date. */
  function ActiveTasks(rows: Rows, kind: string): map<TaskId, Change> {
    map id | id in rows && IsActive(rows[id]) && rows[id].kind == kind && rows[id].change.Some? :: rows[id].change.value
  }

  predicate Exists(active: map<TaskId, Change>, c: Change) {
    exists id :: id in active && active[id] == c
  }

  lemma ExistsMeansQueued(rows: Rows, kind: string, c: Change)
    ensures Exists(ActiveTasks(rows, kind), c) <==> ChangeQueued(rows, kind, c)
  {
    var active := ActiveTasks(rows, kind);
    if id :| id in rows && IsFor(rows[id], kind, c) {
      assert id in active && active[id] == c;
    }
    if id :| id in active && active[id] == c {
      assert IsFor(rows[id], kind, c);
    }
  }

  method DeleteAll(queue: Queue, ids: set<TaskId>)
    modifies queue`rows
    ensures queue.rows == old(queue.rows) - ids
  {
    var list := Ascending(ids);
    ghost var done: set<TaskId> := {};
    var k := 0;
    while k < |list|
      invariant 0 <= k <= |list| && forall id :: id in done <==> id in list[..k]
      invariant queue.rows == old(queue.rows) - done
    {
      assert list[..k + 1] == list[..k] + [list[k]];
      queue.Delete(list[k]);
      done := done + {list[k]};
      k := k + 1;
    }
    assert list[..k] == list;
    assert forall id :: id in done <==> id in ids;
  }

  /** Skip, or make room: nothing is deleted unless the incoming change goes in. */
  method ReconcileUpsertClass(queue: Queue, active: map<TaskId, Change>, c: Change, ghost kind: string)
    returns (skip: bool, left: map<TaskId, Change>)
    requires active == ActiveTasks(queue.rows, kind) && UpsertClass(c.kind)
    modifies queue`rows
    ensures skip <==> ChangeQueued(old(queue.rows), kind, Change(c.path, ForceUpsert))
                      || (c.kind == Upsert && ChangeQueued(old(queue.rows), kind, c))
    ensures queue.rows == if skip then old(queue.rows) else old(queue.rows) - Displaced(old(queue.rows), kind, c)
    ensures left == ActiveTasks(queue.rows, kind)
  {
    ExistsMeansQueued(queue.rows, kind, Change(c.path, ForceUpsert));
    ExistsMeansQueued(queue.rows, kind, c);
    skip := Exists(active, Change(c.path, ForceUpsert)) || (c.kind == Upsert && Exists(active, c));
    left := active;
    if !skip && c.kind == ForceUpsert {
      var plain := set id | id in active && active[id] == Change(c.path, Upsert);
      assert forall id :: id in plain <==> id in Displaced(queue.rows, kind, c);
      DeleteAll(queue, plain);
      left := active - plain;
    }
  }

  method EnqueueChange(queue: Queue, active: map<TaskId, Change>, c: Incoming, kind: string, priority: int, now: int)
    returns (left: map<TaskId, Change>)
    requires active == ActiveTasks(queue.rows, kind)
    modifies queue
    ensures Table(queue.rows, queue.nextId) == EnqueueOne(Table(old(queue.rows), old(queue.nextId)), c, kind, priority, now)
    ensures left == ActiveTasks(queue.rows, kind)
  {
    left := active;
    assert c.change == Change(c.change.path, c.change.kind);
    ExistsMeansQueued(queue.rows, kind, c.change);
    if Exists(active, c.change) {
      return;
    }
    if UpsertClass(c.change.kind) {
      var skip;
      skip, left := ReconcileUpsertClass(queue, active, c.change, kind);
      if skip {
        return;
      }
    }
    assert queue.rows == old(queue.rows) - Displaced(old(queue.rows), kind, c.change);
    if c.change.kind == Upsert && FailedBefore(queue.rows, c) {
      return;
    }
    assert c.change.kind == Upsert ==> queue.rows == old(queue.rows);
    assert !Settled(old(queue.rows), kind, c);
    var id := queue.Enqueue(kind, priority, Some(c.change), now, c.size);
    left := left[id := c.change];
  }

  /** enqueue_changes_into: the whole batch within one transaction. */
  method EnqueueChanges(queue: Queue, batch: seq<Incoming>, kind: string, priority: int, now: int) returns (inserted: int)
    modifies queue
    ensures Table(queue.rows, queue.nextId) == EnqueueAll(Table(old(queue.rows), old(queue.nextId)), batch, kind, priority, now)
    ensures inserted == queue.nextId - old(queue.nextId)
  {
    hide EnqueueOne, ActiveTasks;
    ghost var t := Table(queue.rows, queue.nextId);
    var first := queue.nextId;
    var active := ActiveTasks(queue.rows, kind);
    var k := 0;
    while k < |batch|
      invariant 0 <= k <= |batch| && active == ActiveTasks(queue.rows, kind)
      invariant Table(queue.rows, queue.nextId) == EnqueueAll(t, batch[..k], kind, priority, now)
    {
      active := EnqueueChange(queue, active, batch[k], kind, priority, now);
      assert batch[..k + 1][..k] == batch[..k];
      k := k + 1;
    }
    assert batch[..k] == batch;
    inserted := queue.nextId - first;
  }

  // ---- batches without upserts --------------------------------------------------------------

  /** Exactly the wanted changes that had no active task got one, each a single one. */
  ghost predicate Queued(rows: Rows, nextId: TaskId, wanted: set<Change>, kind: string, priority: int, now: int, rows': Rows, nextId': TaskId) {
    && nextId <= nextId'
    && (forall id :: id in rows' <==> id in rows || nextId <= id < nextId')
    && (forall id :: id in rows ==> id < nextId && rows'[id] == rows[id])
    && (forall id :: nextId <= id < nextId' ==>
          && IsNewTask(rows'[id], kind, priority, now) && rows'[id].change.value in wanted
          && !ChangeQueued(rows, kind, rows'[id].change.value))
    && (forall i, j :: nextId <= i < j < nextId' ==> rows'[i].change != rows'[j].change)
    && (forall c :: c in wanted ==> ChangeQueued(rows', kind, c))
  }

  ghost function AllOf(changes: seq<Change>): (all: set<Change>)
    ensures forall c :: c in all <==> c in changes
  {
    set c | c in changes
  }

  lemma AllButLast(changes: seq<Change>)
    requires changes != []
    ensures AllOf(changes) == AllOf(changes[..|changes| - 1]) + {changes[|changes| - 1]}
  {
    var n := |changes| - 1;
    assert changes == changes[..n] + [changes[n]];
  }

  function Plain(changes: seq<Change>): (batch: seq<Incoming>)
    ensures |batch| == |changes| && forall k :: 0 <= k < |changes| ==> batch[k] == Incoming(changes[k], 0)
  {
    seq(|changes|, k requires 0 <= k < |changes| => Incoming(changes[k], 0))
  }

  /** Without upserts in it, a batch only adds: a task for every change that had none. */
  lemma {:induction false} PlainChangesQueued(t: Table, changes: seq<Change>, kind: string, priority: int, now: int)
    requires IdsBelow(t.rows, t.nextId) && forall k :: 0 <= k < |changes| ==> !UpsertClass(changes[k].kind)
    ensures var r := EnqueueAll(t, Plain(changes), kind, priority, now);
            Queued(t.rows, t.nextId, AllOf(changes), kind, priority, now, r.rows, r.nextId)
    decreases |changes|
  {
    if changes == [] {
      NothingQueued(t, kind, priority, now);
    } else {
      hide Queued, EnqueueOne, EnqueueAll, IdsBelow, Plain, AllOf;
      var less, c := changes[..|changes| - 1], changes[|changes| - 1];
      PlainLast(t, changes, kind, priority, now);
      PlainChangesQueued(t, less, kind, priority, now);
      AllButLast(changes);
      OnePlainQueued(t.rows, t.nextId, AllOf(less), kind, priority, now, EnqueueAll(t, Plain(less), kind, priority, now), c);
    }
  }

  lemma NothingQueued(t: Table, kind: string, priority: int, now: int)
    requires IdsBelow(t.rows, t.nextId)
    ensures EnqueueAll(t, Plain([]), kind, priority, now) == t
    ensures Queued(t.rows, t.nextId, AllOf([]), kind, priority, now, t.rows, t.nextId)
  {
  }

  lemma PlainLast(t: Table, changes: seq<Change>, kind: string, priority: int, now: int)
    requires changes != []
    ensures var n := |changes| - 1;
            EnqueueAll(t, Plain(changes), kind, priority, now)
            == EnqueueOne(EnqueueAll(t, Plain(changes[..n]), kind, priority, now), Incoming(changes[n], 0), kind, priority, now)
  {
    hide EnqueueOne;
    assert Plain(changes)[..|changes| - 1] == Plain(changes[..|changes| - 1]);
  }

  lemma OnePlainQueued(rows0: Rows, first: TaskId, done: set<Change>, kind: string, priority: int, now: int, t: Table, c: Change)
    requires Queued(rows0, first, done, kind, priority, now, t.rows, t.nextId) && !UpsertClass(c.kind)
    ensures var r := EnqueueOne(t, Incoming(c, 0), kind, priority, now);
            Queued(rows0, first, done + {c}, kind, priority, now, r.rows, r.nextId)
  {
    if !ChangeQueued(t.rows, kind, c) {
      OneMoreQueued(rows0, first, done, kind, priority, now, t.rows, t.nextId, c);
      assert t.rows - {} == t.rows;
      hide Queued;
    }
  }

  lemma QueuedInBoth(rows: Rows, rows': Rows, kind: string, c: Change)
    requires forall id :: id in rows && IsActive(rows[id]) && rows[id].change == Some(c) ==> id in rows' && rows'[id] == rows[id]
    ensures ChangeQueued(rows, kind, c) ==> ChangeQueued(rows', kind, c)
  {
    if id :| id in rows && IsFor(rows[id], kind, c) {
      assert IsFor(rows'[id], kind, c);
    }
  }

  lemma OneMoreQueued(rows0: Rows, first: TaskId, done: set<Change>, kind: string, priority: int, now: int, rows: Rows, next: TaskId, c: Change)
    requires Queued(rows0, first, done, kind, priority, now, rows, next) && !ChangeQueued(rows, kind, c)
    ensures var rows' := rows[next := NewTask(c, kind, priority, now, 0)];
            Queued(rows0, first, done + {c}, kind, priority, now, rows', next + 1)
  {
    var rows' := rows[next := NewTask(c, kind, priority, now, 0)];
    assert next !in rows;
    assert IsFor(rows'[next], kind, c);
    forall d | d in done
      ensures ChangeQueued(rows', kind, d)
    {
      QueuedInBoth(rows, rows', kind, d);
    }
    QueuedInBoth(rows0, rows, kind, c);
    forall i | first <= i < next
      ensures rows'[i].change != rows'[next].change
    {
      assert !IsFor(rows[i], kind, c);
    }
  }

  // ---- upserts against each other -----------------------------------------------------------

  /** At most one active upsert of either sort for a path: two decodes of one file are never due. */
  ghost predicate OneUpsertPerPath(rows: Rows, kind: string) {
    forall i, j, c, d ::
      (i in rows && j in rows && IsFor(rows[i], kind, c) && IsFor(rows[j], kind, d)
       && UpsertClass(c.kind) && UpsertClass(d.kind) && c.path == d.path) ==> i == j
  }

  /** What goes in beside another upsert of its path takes that one's place. */
  lemma TakesItsPlace(rows: Rows, kind: string, c: Incoming, id: TaskId, d: Change)
    requires !Settled(rows, kind, c) && id in rows && IsFor(rows[id], kind, d)
    requires UpsertClass(c.change.kind) && UpsertClass(d.kind) && d.path == c.change.path
    ensures id in Displaced(rows, kind, c.change)
  {
    assert d == Change(c.change.path, d.kind) && c.change == Change(d.path, c.change.kind);
  }

  lemma OneKeepsOneUpsert(t: Table, c: Incoming, kind: string, priority: int, now: int)
    requires OneUpsertPerPath(t.rows, kind)
    ensures OneUpsertPerPath(EnqueueOne(t, c, kind, priority, now).rows, kind)
  {
    if !Settled(t.rows, kind, c) {
      var r := EnqueueOne(t, c, kind, priority, now);
      hide Settled, Displaced;
      forall i, j, a, b | i in r.rows && j in r.rows && IsFor(r.rows[i], kind, a) && IsFor(r.rows[j], kind, b)
        && UpsertClass(a.kind) && UpsertClass(b.kind) && a.path == b.path
        ensures i == j
      {
        if i == t.nextId && j != t.nextId {
          TakesItsPlace(t.rows, kind, c, j, b);
        } else if i != t.nextId && j == t.nextId {
          TakesItsPlace(t.rows, kind, c, i, a);
        }
      }
    }
  }

  /** Every batch keeps that, whatever it holds and in whatever order. */
  lemma {:induction false} BatchKeepsOneUpsert(t: Table, batch: seq<Incoming>, kind: string, priority: int, now: int)
    requires OneUpsertPerPath(t.rows, kind)
    ensures OneUpsertPerPath(EnqueueAll(t, batch, kind, priority, now).rows, kind)
    decreases |batch|
  {
    if batch != [] {
      var n := |batch| - 1;
      BatchKeepsOneUpsert(t, batch[..n], kind, priority, now);
      OneKeepsOneUpsert(EnqueueAll(t, batch[..n], kind, priority, now), batch[n], kind, priority, now);
    }
  }

  lemma StaysSettled(t: Table, c: Incoming, kind: string, priority: int, now: int, d: Incoming)
    requires IdsBelow(t.rows, t.nextId) && Settled(t.rows, kind, d)
    ensures Settled(EnqueueOne(t, c, kind, priority, now).rows, kind, d)
  {
    var r := EnqueueOne(t, c, kind, priority, now);
    if r != t {
      assert t.nextId !in t.rows && IsFor(r.rows[t.nextId], kind, c.change);
      if id :| id in t.rows && IsFor(t.rows[id], kind, d.change) {
        assert id in r.rows ==> IsFor(r.rows[id], kind, d.change);
      } else if ChangeQueued(t.rows, kind, Change(d.change.path, ForceUpsert)) {
        var id :| id in t.rows && IsFor(t.rows[id], kind, Change(d.change.path, ForceUpsert));
        assert id in r.rows && IsFor(r.rows[id], kind, Change(d.change.path, ForceUpsert));
      } else {
        var id :| id in t.rows && t.rows[id].state == Failed && t.rows[id].change == Some(d.change) && t.rows[id].size == d.size;
        assert id in r.rows && r.rows[id] == t.rows[id];
      }
    }
  }

  lemma OneSettles(t: Table, c: Incoming, kind: string, priority: int, now: int)
    requires IdsBelow(t.rows, t.nextId)
    ensures var r := EnqueueOne(t, c, kind, priority, now);
            IdsBelow(r.rows, r.nextId) && t.nextId <= r.nextId && Settled(r.rows, kind, c)
  {
    var r := EnqueueOne(t, c, kind, priority, now);
    if r != t {
      assert IsFor(r.rows[t.nextId], kind, c.change);
    }
  }

  /**
   * After a batch every change of it is settled: it has its task, or it is a plain upsert and a
   * forced one stands for it, or it failed on that very size. What was settled before still is.
   */
  lemma {:induction false} BatchSettles(t: Table, batch: seq<Incoming>, kind: string, priority: int, now: int, c: Incoming)
    requires IdsBelow(t.rows, t.nextId) && (c in batch || Settled(t.rows, kind, c))
    ensures Settled(EnqueueAll(t, batch, kind, priority, now).rows, kind, c)
    decreases |batch|
  {
    if batch != [] {
      var n := |batch| - 1;
      var before := EnqueueAll(t, batch[..n], kind, priority, now);
      OnlyBatchIsNew(t, batch[..n], kind, priority, now);
      assert batch == batch[..n] + [batch[n]];
      if c in batch[..n] || Settled(t.rows, kind, c) {
        BatchSettles(t, batch[..n], kind, priority, now, c);
        StaysSettled(before, batch[n], kind, priority, now, c);
      } else {
        OneSettles(before, batch[n], kind, priority, now);
      }
    }
  }

  /** The rows a batch leaves are old ones, unchanged, or waiting ones for its changes. */
  lemma {:induction false} OnlyBatchIsNew(t: Table, batch: seq<Incoming>, kind: string, priority: int, now: int)
    requires IdsBelow(t.rows, t.nextId)
    ensures var r := EnqueueAll(t, batch, kind, priority, now);
            && IdsBelow(r.rows, r.nextId) && t.nextId <= r.nextId
            && forall id :: id in r.rows ==>
                 if id < t.nextId then id in t.rows && r.rows[id] == t.rows[id]
                 else IsNewTask(r.rows[id], kind, priority, now) && Incoming(r.rows[id].change.value, r.rows[id].size) in batch
    decreases |batch|
  {
    if batch != [] {
      var n := |batch| - 1;
      OnlyBatchIsNew(t, batch[..n], kind, priority, now);
      assert batch == batch[..n] + [batch[n]];
    }
  }

  /** An active plain upsert whose path gets its first forced one from the batch. */
  ghost predicate Superseded(rows: Rows, kind: string, batch: seq<Incoming>, id: TaskId) {
    && id in rows && rows[id].change.Some? && IsFor(rows[id], kind, Change(rows[id].change.value.path, Upsert))
    && !ChangeQueued(rows, kind, Change(rows[id].change.value.path, ForceUpsert))
    && exists c :: c in batch && c.change == Change(rows[id].change.value.path, ForceUpsert)
  }

  /** Exactly the plain upserts that a forced one of the batch stands for are taken out; a forced one never is. */
  lemma {:induction false} BatchTakesOutExactly(t: Table, batch: seq<Incoming>, kind: string, priority: int, now: int, id: TaskId)
    requires IdsBelow(t.rows, t.nextId) && id in t.rows
    ensures id !in EnqueueAll(t, batch, kind, priority, now).rows <==> Superseded(t.rows, kind, batch, id)
    decreases |batch|
  {
    if batch != [] {
      var n := |batch| - 1;
      var less, c := batch[..n], batch[n];
      var before := EnqueueAll(t, less, kind, priority, now);
      assert batch == less + [c];
      BatchTakesOutExactly(t, less, kind, priority, now, id);
      OnlyBatchIsNew(t, less, kind, priority, now);
      if id in before.rows && t.rows[id].change.Some? {
        var forced := Change(t.rows[id].change.value.path, ForceUpsert);
        ForcedBefore(t, less, kind, priority, now, forced);
        hide EnqueueAll;
        LastTakesOut(before, c, kind, priority, now, id, forced);
      }
    }
  }

  lemma ForcedBefore(t: Table, batch: seq<Incoming>, kind: string, priority: int, now: int, forced: Change)
    requires IdsBelow(t.rows, t.nextId) && forced.kind == ForceUpsert
    ensures ChangeQueued(EnqueueAll(t, batch, kind, priority, now).rows, kind, forced)
            <==> ChangeQueued(t.rows, kind, forced) || exists c :: c in batch && c.change == forced
  {
    var r := EnqueueAll(t, batch, kind, priority, now);
    OnlyBatchIsNew(t, batch, kind, priority, now);
    if c :| c in batch && c.change == forced {
      BatchSettles(t, batch, kind, priority, now, c);
    } else if ChangeQueued(t.rows, kind, forced) {
      BatchSettles(t, batch, kind, priority, now, Incoming(forced, 0));
    }
    if ChangeQueued(r.rows, kind, forced) && !ChangeQueued(t.rows, kind, forced) {
      var id :| id in r.rows && IsFor(r.rows[id], kind, forced);
      assert id >= t.nextId;
      assert Incoming(forced, r.rows[id].size) in batch;
    }
  }

  lemma LastTakesOut(t: Table, c: Incoming, kind: string, priority: int, now: int, id: TaskId, forced: Change)
    requires id in t.rows && id < t.nextId && t.rows[id].change.Some? && forced == Change(t.rows[id].change.value.path, ForceUpsert)
    ensures id !in EnqueueOne(t, c, kind, priority, now).rows <==>
            IsFor(t.rows[id], kind, Change(forced.path, Upsert)) && c.change == forced && !ChangeQueued(t.rows, kind, forced)
  {
  }
}

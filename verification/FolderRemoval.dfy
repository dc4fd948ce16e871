/**
 * Taking a folder out of the library while tasks for files in it are queued or running: one
 * transaction queues a Remove for every listed file and withdraws the other tasks, and a decode
 * that finishes afterwards finds its task gone and stores nothing.
 */
module FolderRemoval {
  import opened Common
  import opened Paths
  import opened TaskQueue
  import opened Watcher

  predicate IsRemoveOf(t: Task, path: string) {
    t.change == Some(Change(path, Remove))
  }

  /** What the transaction deletes: failed tasks of any sort, waiting and running ones unless they are Removes. */
  predicate Doomed(t: Task, roots: seq<string>) {
    && t.change.Some? && UnderAny(t.change.value.path, roots)
    && (t.state == Failed || (IsActive(t) && t.change.value.kind != Remove))
  }

  ghost predicate RemoveQueued(rows: Rows, kind: string, path: string) {
    ChangeQueued(rows, kind, Change(path, Remove))
  }

  ghost predicate IsNewRemove(t: Task, kind: string, now: int) {
    IsNewTask(t, kind, 0, now) && t.change.value.kind == Remove
  }

  /** The queue after the transaction, whatever order the new ids were given out in. */
  ghost predicate Hidden(rows: Rows, nextId: TaskId, active: set<string>, roots: seq<string>, kind: string, now: int,
      rows': Rows, nextId': TaskId)
  {
    && nextId <= nextId'
    && (forall id :: id in rows' <==> (id in rows && !Doomed(rows[id], roots)) || nextId <= id < nextId')
    && (forall id :: id in rows' && id < nextId ==> rows'[id] == rows[id])
    && (forall id :: nextId <= id < nextId' ==>
          && IsNewRemove(rows'[id], kind, now)
          && rows'[id].change.value.path in active && ListedUnderAny(rows'[id].change.value.path, roots)
          && !RemoveQueued(rows, kind, rows'[id].change.value.path))
    && (forall i, j :: nextId <= i < j < nextId' ==> rows'[i].change != rows'[j].change)
    && (forall p :: p in active && ListedUnderAny(p, roots) ==> RemoveQueued(rows', kind, p))
  }

  class FolderHider {
    const queue: Queue
    var files: seq<string>    // the paths of active file rows, in id order

    constructor (queue: Queue, files: seq<string>)
      ensures this.queue == queue && this.files == files
    {
      this.queue, this.files := queue, files;
    }

    method ListRemoves(roots: seq<string>) returns (changes: seq<Change>)
      ensures forall c :: c in changes <==> c.kind == Remove && c.path in files && ListedUnderAny(c.path, roots)
    {
      changes := [];
      var r := 0;
      while r < |roots|
        invariant 0 <= r <= |roots|
        invariant forall c :: c in changes <==>
                    c.kind == Remove && c.path in files && exists k :: 0 <= k < r && ListedUnder(c.path, roots[k])
      {
        var f := 0;
        while f < |files|
          invariant 0 <= f <= |files|
          invariant forall c :: c in changes <==>
                      && c.kind == Remove
                      && ((c.path in files && exists k :: 0 <= k < r && ListedUnder(c.path, roots[k]))
                          || (c.path in files[..f] && ListedUnder(c.path, roots[r])))
        {
          assert files[..f + 1] == files[..f] + [files[f]];
          if ListedUnder(files[f], roots[r]) {
            changes := changes + [Change(files[f], Remove)];
          }
          f := f + 1;
        }
        assert files[..f] == files;
        r := r + 1;
      }
    }

    /** The hide transaction of hide_removed_folders. */
    method Hide(roots: seq<string>, kind: string, now: int)
      requires IdsBelow(queue.rows, queue.nextId)
      modifies queue
      ensures Hidden(old(queue.rows), old(queue.nextId), (set p | p in files), roots, kind, now, queue.rows, queue.nextId)
    {
      hide Doomed, Hidden, EnqueueAll, Queued, UnderAny, ListedUnderAny;
      ghost var rows0, first := queue.rows, queue.nextId;
      var changes := ListRemoves(roots);
      var failed := queue.ListByState(Failed);
      var pending := queue.ListByState(Pending);
      var running := queue.ListByState(Running);
      var doomed: set<TaskId> := set id | id in failed && Doomed(queue.rows[id], roots);
      var pendingToCancel := set id | id in pending && Doomed(queue.rows[id], roots);
      var runningToCancel := set id | id in running && Doomed(queue.rows[id], roots);
      var inserted := EnqueueChanges(queue, Plain(changes), kind, 0, now);
      PlainChangesQueued(Table(rows0, first), changes, kind, 0, now);
      ghost var rows1 := queue.rows;
      QueuedKeepsOld(rows0, first, AllOf(changes), kind, now, rows1, queue.nextId);
      DeleteAll(queue, doomed);
      DeletePending(pendingToCancel);
      DeleteAll(queue, runningToCancel);
      DoomedAreGone(rows0, rows1, queue.rows, doomed, pendingToCancel, runningToCancel, roots);
      QueuedThenHidden(rows0, first, AllOf(changes), (set p | p in files), roots, kind, now, rows1, queue.rows, queue.nextId);
    }

    method DeletePending(ids: set<TaskId>)
      modifies queue`rows
      ensures forall id :: id in queue.rows <==> id in old(queue.rows) && !(id in ids && old(queue.rows)[id].state == Pending)
      ensures forall id :: id in queue.rows ==> queue.rows[id] == old(queue.rows)[id]
    {
      var list := Ascending(ids);
      ghost var done: set<TaskId> := {};
      var k := 0;
      while k < |list|
        invariant 0 <= k <= |list| && forall id :: id in done <==> id in list[..k]
        invariant forall id :: id in queue.rows <==> id in old(queue.rows) && !(id in done && old(queue.rows)[id].state == Pending)
        invariant forall id :: id in queue.rows ==> queue.rows[id] == old(queue.rows)[id]
      {
        assert list[..k + 1] == list[..k] + [list[k]];
        var deleted := queue.DeleteIfPending(list[k]);
        done := done + {list[k]};
        k := k + 1;
      }
      assert list[..k] == list;
      assert forall id :: id in done <==> id in ids;
    }
  }

  lemma QueuedKeepsOld(rows0: Rows, first: TaskId, wanted: set<Change>, kind: string, now: int, rows1: Rows, next: TaskId)
    requires Queued(rows0, first, wanted, kind, 0, now, rows1, next)
    ensures forall id :: id in rows0 ==> id in rows1 && rows1[id] == rows0[id]
  {
  }

  /** The three lists of ids are together the doomed rows. */
  lemma DoomedAreGone(rows0: Rows, rows1: Rows, rows2: Rows, a: set<TaskId>, b: set<TaskId>, c: set<TaskId>, roots: seq<string>)
    requires forall id :: id in rows0 ==> id in rows1 && rows1[id] == rows0[id]
    requires forall id :: id in a <==> id in rows0 && rows0[id].state == Failed && Doomed(rows0[id], roots)
    requires forall id :: id in b <==> id in rows0 && rows0[id].state == Pending && Doomed(rows0[id], roots)
    requires forall id :: id in c <==> id in rows0 && rows0[id].state == Running && Doomed(rows0[id], roots)
    requires forall id :: id in rows2 <==> id in rows1 && id !in a && id !in c && !(id in b && rows1[id].state == Pending)
    ensures forall id :: id in rows2 <==> id in rows1 && !(id in rows0 && Doomed(rows0[id], roots))
  {
    forall id | id in rows0 && Doomed(rows0[id], roots)
      ensures rows0[id].state == Failed || rows0[id].state == Pending || rows0[id].state == Running
    {
    }
  }

  lemma RemovesSpared(rows0: Rows, rows1: Rows, rows2: Rows, roots: seq<string>, p: string)
    requires forall id :: id in rows0 ==> id in rows1 && rows1[id] == rows0[id]
    requires forall id :: id in rows2 <==> id in rows1 && !(id in rows0 && Doomed(rows0[id], roots))
    requires forall id :: id in rows2 ==> rows2[id] == rows1[id]
    ensures forall id :: id in rows1 && IsActive(rows1[id]) && IsRemoveOf(rows1[id], p) ==> id in rows2 && rows2[id] == rows1[id]
  {
  }

  lemma NewOnesAreRemoves(rows0: Rows, first: TaskId, wanted: set<Change>, active: set<string>, roots: seq<string>, kind: string, now: int,
      rows1: Rows, next: TaskId, id: TaskId)
    requires Queued(rows0, first, wanted, kind, 0, now, rows1, next) && first <= id < next
    requires forall c :: c in wanted <==> c.kind == Remove && c.path in active && ListedUnderAny(c.path, roots)
    ensures id !in rows0 && id in rows1 && IsNewRemove(rows1[id], kind, now)
    ensures rows1[id].change.value.path in active && ListedUnderAny(rows1[id].change.value.path, roots)
    ensures !RemoveQueued(rows0, kind, rows1[id].change.value.path)
  {
    assert IsNewTask(rows1[id], kind, 0, now);
    var c := rows1[id].change.value;
    assert c in wanted && c == Change(c.path, Remove);
  }

  lemma QueuedThenHidden(rows0: Rows, first: TaskId, wanted: set<Change>, active: set<string>, roots: seq<string>, kind: string, now: int,
      rows1: Rows, rows2: Rows, next: TaskId)
    requires Queued(rows0, first, wanted, kind, 0, now, rows1, next)
    requires forall c :: c in wanted <==> c.kind == Remove && c.path in active && ListedUnderAny(c.path, roots)
    requires forall id :: id in rows2 <==> id in rows1 && !(id in rows0 && Doomed(rows0[id], roots))
    requires forall id :: id in rows2 ==> rows2[id] == rows1[id]
    ensures Hidden(rows0, first, active, roots, kind, now, rows2, next)
  {
    forall p | p in active && ListedUnderAny(p, roots)
      ensures RemoveQueued(rows2, kind, p)
    {
      assert Change(p, Remove) in wanted;
      RemovesSpared(rows0, rows1, rows2, roots, p);
      QueuedInBoth(rows1, rows2, kind, Change(p, Remove));
    }
    forall id | first <= id < next
      ensures id in rows2 && rows2[id] == rows1[id] && IsNewRemove(rows2[id], kind, now)
      ensures rows2[id].change.value.path in active && ListedUnderAny(rows2[id].change.value.path, roots)
      ensures !RemoveQueued(rows0, kind, rows2[id].change.value.path)
    {
      NewOnesAreRemoves(rows0, first, wanted, active, roots, kind, now, rows1, next, id);
    }
    assert forall id :: id in rows2 && id < first ==> id in rows1 && rows1[id] == rows0[id];
  }

  /** A Remove that was not queued before has been queued under a new id. */
  lemma WitnessIsNew(rows: Rows, nextId: TaskId, rows': Rows, kind: string, p: string) returns (id: TaskId)
    requires forall x :: x in rows' && x < nextId ==> x in rows && rows'[x] == rows[x]
    requires RemoveQueued(rows', kind, p) && !RemoveQueued(rows, kind, p)
    ensures id >= nextId && id in rows' && IsActive(rows'[id]) && IsRemoveOf(rows'[id], p)
  {
    id :| id in rows' && IsActive(rows'[id]) && rows'[id].kind == kind && rows'[id].change == Some(Change(p, Remove));
  }

  /** A listed file outside the roots, below a folder that differs from one of them in capitals only. */
  ghost predicate Respelled(active: set<string>, roots: seq<string>, p: string) {
    p in active && !UnderAny(p, roots) && exists k :: 0 <= k < |roots| && UnderRespelled(p, roots[k])
  }

  lemma ListedOutside(active: set<string>, roots: seq<string>, p: string)
    ensures Respelled(active, roots, p) <==> p in active && ListedUnderAny(p, roots) && !UnderAny(p, roots)
  {
    forall k | 0 <= k < |roots|
      ensures ListedUnder(p, roots[k]) <==> UnderRoot(p, roots[k]) || UnderRespelled(p, roots[k])
    {
      ListedIsUnderOrRespelled(p, roots[k]);
    }
  }

  lemma NewOnesOutside(rows: Rows, nextId: TaskId, active: set<string>, roots: seq<string>, kind: string, now: int,
      rows': Rows, nextId': TaskId, id: TaskId)
    requires Hidden(rows, nextId, active, roots, kind, now, rows', nextId') && nextId <= id < nextId'
    ensures id in rows' && rows'[id].change.Some?
    ensures !UnderAny(rows'[id].change.value.path, roots) ==>
              var p := rows'[id].change.value.path; Respelled(active, roots, p) && !RemoveQueued(rows, kind, p)
  {
    hide UnderAny, ListedUnderAny, Respelled, RemoveQueued;
    assert IsNewRemove(rows'[id], kind, now);
    ListedOutside(active, roots, rows'[id].change.value.path);
  }

  ghost predicate NewOutside(rows': Rows, roots: seq<string>, id: TaskId) {
    id in rows' && rows'[id].change.Some? && !UnderAny(rows'[id].change.value.path, roots)
  }

  lemma RespelledIsQueued(rows: Rows, nextId: TaskId, active: set<string>, roots: seq<string>, kind: string, now: int,
      rows': Rows, nextId': TaskId, p: string)
    requires IdsBelow(rows, nextId) && Hidden(rows, nextId, active, roots, kind, now, rows', nextId')
    ensures Respelled(active, roots, p) && !RemoveQueued(rows, kind, p) ==>
              exists id :: nextId <= id < nextId' && NewOutside(rows', roots, id)
  {
    hide UnderAny, ListedUnderAny, Respelled, Doomed, IsNewRemove;
    if Respelled(active, roots, p) && !RemoveQueued(rows, kind, p) {
      ListedOutside(active, roots, p);
      var id := WitnessIsNew(rows, nextId, rows', kind, p);
      assert NewOutside(rows', roots, id);
    }
  }

  /**
   * Taking folders out queues a Remove for a file outside them if and only if such a file lies
   * under a folder whose name differs from theirs in ASCII case only and has no Remove queued yet.
   */
  lemma ReachesOutsideIff(rows: Rows, nextId: TaskId, active: set<string>, roots: seq<string>, kind: string, now: int,
      rows': Rows, nextId': TaskId)
    requires IdsBelow(rows, nextId) && Hidden(rows, nextId, active, roots, kind, now, rows', nextId')
    ensures (exists id :: nextId <= id < nextId' && NewOutside(rows', roots, id))
            <==> exists p :: Respelled(active, roots, p) && !RemoveQueued(rows, kind, p)
  {
    hide Hidden, UnderAny, Respelled, RemoveQueued;
    if id :| nextId <= id < nextId' && NewOutside(rows', roots, id) {
      NewOnesOutside(rows, nextId, active, roots, kind, now, rows', nextId', id);
    }
    if p :| Respelled(active, roots, p) && !RemoveQueued(rows, kind, p) {
      RespelledIsQueued(rows, nextId, active, roots, kind, now, rows', nextId', p);
    }
  }

  /** Two folders side by side on a disk that tells them apart: taking out one queues a Remove for the file of the other. */
  lemma NeighbourIsTakenOut(kind: string, now: int, rows: Rows, nextId: TaskId)
    requires Hidden(map[], 1, {"/Videos/a", "/videos/b"}, ["/Videos"], kind, now, rows, nextId)
    ensures !UnderRoot("/videos/b", "/Videos") && RemoveQueued(rows, kind, "/videos/b")
  {
    var root, p := "/Videos", "/videos/b";
    assert TrimEnd(root) == root;
    assert p[1] != root[1];
    assert p[..7] == "/videos" && Lower(p[..7]) == Lower(root);
    assert ListedUnder(p, ["/Videos"][0]);
  }
}

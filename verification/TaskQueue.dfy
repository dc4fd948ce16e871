/** The persistent task queue: its rows, the statements on them, and how one claimed task is settled. */
module TaskQueue {
  import opened Common
  import opened Paths

  type TaskId = int
  datatype TaskState = Pending | Running | Done | Failed
  datatype ChangeKind = Upsert | Remove | Densify | ForceUpsert | PartialFingerprint
  datatype Change = Change(path: string, kind: ChangeKind)

  /** `change` is the decoded payload; None stands for a missing or an unreadable one. */
  datatype Task = Task(kind: string, state: TaskState, priority: int, change: Option<Change>,
                       attempts: int, enqueuedAt: int, startedAt: Option<int>, finishedAt: Option<int>, size: int)
  type Rows = map<TaskId, Task>

  const PARTIAL_PRIORITY: int := -200

  // ---- which task is next -------------------------------------------------------------------

  datatype Filter = AnyPriority | AtPriority(p: int) | AbovePriority(p: int)

  predicate Admits(f: Filter, priority: int) {
    match f
    case AnyPriority => true
    case AtPriority(p) => priority == p
    case AbovePriority(p) => priority > p
  }

  predicate Eligible(t: Task, f: Filter, kind: string, now: int) {
    t.state == Pending && t.kind == kind && t.enqueuedAt <= now && Admits(f, t.priority)
  }

  /** Highest priority first, then the longest waiting, then the lowest id. */
  predicate Precedes(a: Task, x: TaskId, b: Task, y: TaskId) {
    a.priority > b.priority
    || (a.priority == b.priority && (a.enqueuedAt < b.enqueuedAt || (a.enqueuedAt == b.enqueuedAt && x <= y)))
  }

  ghost predicate IsNext(rows: Rows, f: Filter, kind: string, now: int, id: TaskId) {
    && id in rows && Eligible(rows[id], f, kind, now)
    && forall j :: j in rows && Eligible(rows[j], f, kind, now) ==> Precedes(rows[id], id, rows[j], j)
  }

  ghost predicate NothingDue(rows: Rows, f: Filter, kind: string, now: int) {
    forall j :: j in rows ==> !Eligible(rows[j], f, kind, now)
  }

  /** The row a claim leaves, and hands to its worker. */
  function Claimed(t: Task, now: int): Task {
    t.(state := Running, startedAt := Some(now), attempts := t.attempts + 1)
  }

  function RequeueRow(t: Task, enqueuedAt: int, attempts: int): Task {
    t.(state := Pending, startedAt := None, enqueuedAt := enqueuedAt, attempts := attempts)
  }

  // ---- what the handler said, and what is made of it ----------------------------------------

  datatype Error = Busy(reason: string) | Cancelled | Database(message: string) | OtherError(message: string)
  datatype Answer = Ok | Err(error: Error)

  const SEQ_READ_GATE_BUSY_REASON := "sequential-read gate at capacity (concurrent full-file reads in flight)"
  const PARTIAL_GATE_BUSY_REASON := "partial-clip decode gate at capacity (concurrent partials in flight)"
  const BASE_DECODE_GATE_BUSY_REASON := "base-index decode gate at capacity (concurrent base decodes in flight)"
  const DB_LOCK_BUSY_REASON := "sqlite write contention"

  predicate Contains(text: string, part: string) {
    exists i | 0 <= i <= |text| :: part <= text[i..]
  }

  function NormalizeDbLock(answer: Answer): Answer {
    if answer.Err? && answer.error.Database?
       && (Contains(answer.error.message, "is locked") || Contains(answer.error.message, "is busy"))
    then Err(Busy(DB_LOCK_BUSY_REASON))
    else answer
  }

  function BusyBackoffSecs(reason: string): (secs: int)
    ensures 1 <= secs <= 30
  {
    if reason == SEQ_READ_GATE_BUSY_REASON then 1
    else if reason == PARTIAL_GATE_BUSY_REASON || reason == BASE_DECODE_GATE_BUSY_REASON then 3
    else if reason == DB_LOCK_BUSY_REASON then 2
    else 30
  }

  /** An error that ends the task: everything but busy, cancelled and write contention. */
  predicate FatalAnswer(answer: Answer) {
    var a := NormalizeDbLock(answer);
    a.Err? && !a.error.Busy? && !a.error.Cancelled?
  }

  datatype Verdict =
    | Succeeded
    | FailedFatally
    | Unreadable           // no payload, or not a change
    | Dropped              // under a removed root before the handler ran
    | DroppedInFlight      // cancelled, and under a removed root
    | Interrupted          // cancelled by a pause or a shutdown
    | BusyUntil(at: int)

  predicate IsStale(change: Option<Change>, removed: seq<string>) {
    change.Some? && change.value.kind != Remove && UnderAny(change.value.path, removed)
  }

  /** Decided before the handler runs; the sequential loop leaves unreadable payloads to the handler. */
  function BeforeHandler(change: Option<Change>, removed: seq<string>, sequential: bool): Option<Verdict> {
    if change.None? then (if sequential then None else Some(Unreadable))
    else if IsStale(change, removed) then Some(Dropped)
    else None
  }

  function AfterHandler(change: Option<Change>, answer: Answer, now: int, removed: seq<string>): Verdict {
    match NormalizeDbLock(answer)
    case Ok => Succeeded
    case Err(Busy(reason)) => BusyUntil(now + BusyBackoffSecs(reason))
    case Err(Cancelled) =>
      if change.Some? && UnderAny(change.value.path, removed) then DroppedInFlight else Interrupted
    case Err(_) => FailedFatally
  }

  /** The row after the verdict is written; `task` is the copy the worker got when it claimed it. */
  function Settled(row: Task, task: Task, verdict: Verdict, now: int): Task {
    match verdict
    case Succeeded | Dropped | DroppedInFlight => row.(state := Done, finishedAt := Some(now))
    case FailedFatally | Unreadable => row.(state := Failed, finishedAt := Some(now))
    case Interrupted => RequeueRow(row, now, task.attempts - 1)
    case BusyUntil(at) => RequeueRow(row, at, task.attempts - 1)
  }

  /** An UPDATE by id changes nothing when the row has been deleted meanwhile. */
  function Settle(rows: Rows, id: TaskId, task: Task, verdict: Verdict, now: int): Rows {
    if id in rows then rows[id := Settled(rows[id], task, verdict, now)] else rows
  }

  /** Decided before the handler if it can be, else by its answer. */
  function VerdictOf(change: Option<Change>, removedBefore: seq<string>, sequential: bool,
      answer: Answer, now: int, removedAfter: seq<string>): Verdict
  {
    var early := BeforeHandler(change, removedBefore, sequential);
    if early.Some? then early.value else AfterHandler(change, answer, now, removedAfter)
  }

  /** How many tasks in a row the daemon found busy, per id. */
  function BusyCounts(counts: map<TaskId, nat>, id: TaskId, verdict: Verdict): map<TaskId, nat> {
    match verdict
    case BusyUntil(_) => counts[id := (if id in counts then counts[id] else 0) + 1]
    case Dropped | Unreadable => counts
    case _ => counts - {id}
  }

  // ---- start-up -----------------------------------------------------------------------------

  /** One row after recovery: interrupted work is pending again, and nothing waits for the future. */
  function RecoveredRow(t: Task, now: int): Task {
    var u := if t.state == Running then t.(state := Pending, startedAt := None) else t;
    if u.state == Pending && u.enqueuedAt > now then u.(enqueuedAt := now) else u
  }

  function Recovered(rows: Rows, now: int): (r: Rows)
    ensures r.Keys == rows.Keys
    ensures forall id :: id in r ==> r[id] == RecoveredRow(rows[id], now)
    ensures forall id :: id in r ==> r[id].state != Running && (r[id].state == Pending ==> r[id].enqueuedAt <= now)
  {
    map id | id in rows :: RecoveredRow(rows[id], now)
  }

  // ---- the table ----------------------------------------------------------------------------

  class Queue {
    var rows: Rows
    var nextId: TaskId

    constructor ()
      ensures rows == map[] && nextId == 1
    {
      rows, nextId := map[], 1;
    }

    /** AUTOINCREMENT: an id is never given out twice, deleted or not. */
    method Enqueue(kind: string, priority: int, change: Option<Change>, enqueuedAt: int, size: int) returns (id: TaskId)
      modifies this
      ensures id == old(nextId) && nextId == id + 1
      ensures rows == old(rows)[id := Task(kind, Pending, priority, change, 0, enqueuedAt, None, None, size)]
    {
      id := nextId;
      nextId := nextId + 1;
      rows := rows[id := Task(kind, Pending, priority, change, 0, enqueuedAt, None, None, size)];
    }

    /** The row the claiming statement's sub-select picks. */
    method Select(f: Filter, kind: string, now: int) returns (best: Option<TaskId>)
      ensures best.None? <==> NothingDue(rows, f, kind, now)
      ensures best.Some? ==> IsNext(rows, f, kind, now, best.value)
    {
      hide Precedes, Eligible;
      var ids := Ascending(rows.Keys);
      best := None;
      var k := 0;
      while k < |ids|
        invariant 0 <= k <= |ids|
        invariant best.None? ==> forall i :: 0 <= i < k ==> !Eligible(rows[ids[i]], f, kind, now)
        invariant best.Some? ==>
                    && best.value in rows && Eligible(rows[best.value], f, kind, now)
                    && forall i :: 0 <= i < k && Eligible(rows[ids[i]], f, kind, now) ==>
                         Precedes(rows[best.value], best.value, rows[ids[i]], ids[i])
      {
        var id := ids[k];
        if Eligible(rows[id], f, kind, now) {
          if best.None? {
            PrecedesItself(rows[id], id);
            best := Some(id);
          } else if !Precedes(rows[best.value], best.value, rows[id], id) {
            BetterBest(rows, best.value, id);
            best := Some(id);
          }
        }
        k := k + 1;
      }
      forall j | j in rows && Eligible(rows[j], f, kind, now)
        ensures best.Some? && Precedes(rows[best.value], best.value, rows[j], j)
      {
        assert j in ids;
      }
    }

    /** dequeue_next, dequeue_next_at_priority and dequeue_next_above_priority: one statement each. */
    method Dequeue(f: Filter, kind: string, now: int) returns (id: TaskId, claimed: Option<Task>)
      modifies this`rows
      ensures claimed.None? <==> NothingDue(old(rows), f, kind, now)
      ensures claimed.None? ==> rows == old(rows)
      ensures claimed.Some? ==>
                && IsNext(old(rows), f, kind, now, id)
                && claimed.value == Claimed(old(rows)[id], now)
                && rows == old(rows)[id := claimed.value]
    {
      var best := Select(f, kind, now);
      if best.None? {
        return 0, None;
      }
      id := best.value;
      claimed := Some(Claimed(rows[id], now));
      rows := rows[id := claimed.value];
    }

    method MarkDone(id: TaskId, now: int)
      modifies this`rows
      ensures rows == if id in old(rows) then old(rows)[id := old(rows)[id].(state := Done, finishedAt := Some(now))]
                      else old(rows)
    {
      if id in rows {
        rows := rows[id := rows[id].(state := Done, finishedAt := Some(now))];
      }
    }

    method MarkFailed(id: TaskId, now: int)
      modifies this`rows
      ensures rows == if id in old(rows) then old(rows)[id := old(rows)[id].(state := Failed, finishedAt := Some(now))]
                      else old(rows)
    {
      if id in rows {
        rows := rows[id := rows[id].(state := Failed, finishedAt := Some(now))];
      }
    }

    method RequeueBusyTask(id: TaskId, enqueuedAt: int, attempts: int)
      modifies this`rows
      ensures rows == if id in old(rows) then old(rows)[id := RequeueRow(old(rows)[id], enqueuedAt, attempts)]
                      else old(rows)
    {
      if id in rows {
        rows := rows[id := RequeueRow(rows[id], enqueuedAt, attempts)];
      }
    }

    method Delete(id: TaskId)
      modifies this`rows
      ensures rows == old(rows) - {id}
    {
      rows := rows - {id};
    }

    method DeleteIfPending(id: TaskId) returns (deleted: bool)
      modifies this`rows
      ensures deleted <==> id in old(rows) && old(rows)[id].state == Pending
      ensures rows == if deleted then old(rows) - {id} else old(rows)
    {
      deleted := id in rows && rows[id].state == Pending;
      if deleted {
        rows := rows - {id};
      }
    }

    method ListByState(state: TaskState) returns (ids: seq<TaskId>)
      ensures forall id :: id in ids <==> id in rows && rows[id].state == state
      ensures forall i, j :: 0 <= i < j < |ids| ==> ids[i] < ids[j]
    {
      ids := Ascending(set id | id in rows && rows[id].state == state);
    }

    method RequeueRunning()
      modifies this`rows
      ensures rows.Keys == old(rows).Keys
      ensures forall id :: id in rows ==>
                rows[id] == if old(rows)[id].state == Running then old(rows)[id].(state := Pending, startedAt := None) else old(rows)[id]
    {
      rows := map id | id in rows :: if rows[id].state == Running then rows[id].(state := Pending, startedAt := None) else rows[id];
    }

    method ResetFutureEnqueued(now: int)
      modifies this`rows
      ensures rows.Keys == old(rows).Keys
      ensures forall id :: id in rows ==>
                rows[id] == if old(rows)[id].state == Pending && old(rows)[id].enqueuedAt > now
                            then old(rows)[id].(enqueuedAt := now) else old(rows)[id]
    {
      rows := map id | id in rows ::
        if rows[id].state == Pending && rows[id].enqueuedAt > now then rows[id].(enqueuedAt := now) else rows[id];
    }

    /** requeue_running, then reset_future_enqueued_pending. */
    method Recover(now: int)
      modifies this`rows
      ensures rows == Recovered(old(rows), now)
    {
      RequeueRunning();
      ResetFutureEnqueued(now);
      assert forall id :: id in rows ==> rows[id] == RecoveredRow(old(rows)[id], now);
      assert rows == Recovered(old(rows), now);
    }
  }

  // ---- one pass of the sequential loop, one iteration of a worker ------------------------------

  datatype Outcome = TaskDone | TaskFailed
  datatype StepResult = StepResult(id: TaskId, outcome: Outcome)

  /** The filter sequence a claim goes through. */
  ghost predicate NextUnder(rows: Rows, partialFirst: bool, rest: Filter, kind: string, now: int, id: TaskId) {
    if partialFirst && !NothingDue(rows, AtPriority(PARTIAL_PRIORITY), kind, now)
    then IsNext(rows, AtPriority(PARTIAL_PRIORITY), kind, now, id)
    else IsNext(rows, rest, kind, now, id)
  }

  class Daemon {
    const queue: Queue
    const kind: string
    var busyCounts: map<TaskId, nat>

    constructor (queue: Queue, kind: string)
      ensures this.queue == queue && this.kind == kind && busyCounts == map[]
    {
      this.queue, this.kind, this.busyCounts := queue, kind, map[];
    }

    method Claim(partialFirst: bool, rest: Filter, now: int) returns (id: TaskId, claimed: Option<Task>)
      modifies queue`rows
      ensures claimed.None? ==> queue.rows == old(queue.rows) && NothingDue(queue.rows, rest, kind, now)
      ensures claimed.Some? ==>
                && NextUnder(old(queue.rows), partialFirst, rest, kind, now, id)
                && claimed.value == Claimed(old(queue.rows)[id], now)
                && queue.rows == old(queue.rows)[id := claimed.value]
    {
      claimed := None;
      id := 0;
      if partialFirst {
        id, claimed := queue.Dequeue(AtPriority(PARTIAL_PRIORITY), kind, now);
      }
      if claimed.None? {
        id, claimed := queue.Dequeue(rest, kind, now);
      }
    }

    /** The handler has answered: write what follows for the task. Both loops share these cases. */
    method Conclude(id: TaskId, task: Task, now: int, answer: Answer, removed: seq<string>) returns (verdict: Verdict)
      modifies this`busyCounts, queue`rows
      ensures verdict == AfterHandler(task.change, answer, now, removed)
      ensures queue.rows == Settle(old(queue.rows), id, task, verdict, now)
      ensures busyCounts == BusyCounts(old(busyCounts), id, verdict)
    {
      match NormalizeDbLock(answer) {
        case Ok =>
          queue.MarkDone(id, now);
          busyCounts := busyCounts - {id};
          verdict := Succeeded;
        case Err(Busy(reason)) =>
          queue.RequeueBusyTask(id, now + BusyBackoffSecs(reason), task.attempts - 1);
          busyCounts := busyCounts[id := (if id in busyCounts then busyCounts[id] else 0) + 1];
          verdict := BusyUntil(now + BusyBackoffSecs(reason));
        case Err(Cancelled) =>
          busyCounts := busyCounts - {id};
          if task.change.Some? && UnderAny(task.change.value.path, removed) {
            queue.MarkDone(id, now);
            verdict := DroppedInFlight;
          } else {
            queue.RequeueBusyTask(id, now, task.attempts - 1);
            verdict := Interrupted;
          }
        case Err(_) =>
          queue.MarkFailed(id, now);
          busyCounts := busyCounts - {id};
          verdict := FailedFatally;
      }
    }

    /**
     * step_inner. When the handler runs, it answers `answer` and leaves the table as `meanwhile`,
     * with whatever it and other connections did to it; `removedBefore` and `removedAfter` are
     * the removed roots at the two moments they are looked at.
     */
    method StepInner(now: int, preferPartial: bool, removedBefore: seq<string>,
        answer: Answer, meanwhile: Rows, removedAfter: seq<string>)
      returns (result: Option<StepResult>, ghost id: TaskId, ghost task: Option<Task>)
      modifies this`busyCounts, queue`rows
      ensures task.None? ==>
                result == None && queue.rows == old(queue.rows) && busyCounts == old(busyCounts)
                && NothingDue(queue.rows, AnyPriority, kind, now)
      ensures task.Some? ==>
                && NextUnder(old(queue.rows), preferPartial, AnyPriority, kind, now, id)
                && task.value == Claimed(old(queue.rows)[id], now)
                && task.value.enqueuedAt <= now
      ensures task.Some? ==>
                var verdict := VerdictOf(task.value.change, removedBefore, true, answer, now, removedAfter);
                var left := if BeforeHandler(task.value.change, removedBefore, true).Some? then old(queue.rows)[id := task.value] else meanwhile;
                && queue.rows == Settle(left, id, task.value, verdict, now)
                && busyCounts == BusyCounts(old(busyCounts), id, verdict)
                && (result == Some(StepResult(id, TaskDone)) <==> verdict == Succeeded)
                && (result == Some(StepResult(id, TaskFailed)) <==> verdict == FailedFatally)
                && (result.Some? ==> verdict == Succeeded || verdict == FailedFatally)
    {
      result := None;
      var taskId, claimed := Claim(preferPartial, AnyPriority, now);
      id, task := taskId, claimed;
      if claimed.None? {
        return;
      }
      var t := claimed.value;
      // A claim only takes tasks that are due: the branch for a future-dated one is never entered.
      assert t.enqueuedAt <= now;
      if IsStale(t.change, removedBefore) {
        queue.MarkDone(taskId, now);
        return;
      }
      queue.rows := meanwhile;
      var verdict := Conclude(taskId, t, now, answer, removedAfter);
      match verdict {
        case Succeeded => result := Some(StepResult(taskId, TaskDone));
        case FailedFatally => result := Some(StepResult(taskId, TaskFailed));
        case _ =>
      }
    }

    method Recover(now: int)
      modifies queue`rows
      ensures queue.rows == Recovered(old(queue.rows), now)
    {
      queue.Recover(now);
    }

    /**
     * One pass of the loop while indexing is paused: waiting tasks under removed roots are settled,
     * Removes by their handler, the others at once. `removed` says which roots are removed when a
     * task's turn comes. A pass that settles none ends the clean-up.
     */
    method PausedPass(now: int, cleanupPending: bool, removed: TaskId -> seq<string>, answers: TaskId -> Answer)
      returns (drained: nat, stillPending: bool)
      modifies queue`rows
      ensures cleanupPending ==> queue.rows == DrainedRows(old(queue.rows), removed, answers, now)
      ensures cleanupPending ==> drained == |DrainedIds(old(queue.rows), removed, answers)|
      ensures !cleanupPending ==> queue.rows == old(queue.rows) && drained == 0
      ensures stillPending <==> cleanupPending && DrainedIds(old(queue.rows), removed, answers) != {}
    {
      hide DrainedAmong, MarkAll;
      drained := 0;
      if !cleanupPending {
        return 0, false;
      }
      ghost var before := queue.rows;
      var pending := queue.ListByState(Pending);
      ghost var done: set<TaskId> := {};
      var k := 0;
      NoneMarked(before, removed, answers, now);
      forall i | 0 <= i < |pending|
        ensures pending[i] in before && before[pending[i]].state == Pending
      {
        assert pending[i] in pending;
      }
      while k < |pending|
        invariant 0 <= k <= |pending| && drained == |done|
        invariant done == DrainedAmong(before, removed, answers, pending[..k])
        invariant queue.rows == MarkAll(before, done, now)
      {
        var id := pending[k];
        OneMoreMarked(before, removed, answers, now, pending, k, done);
        var settled := SettlePaused(id, now, removed(id), answers(id));
        if settled {
          drained := drained + 1;
          done := done + {id};
        }
        k := k + 1;
      }
      assert pending[..k] == pending;
      AllDrained(before, removed, answers, now, pending);
      stillPending := drained > 0;
    }

    /** One waiting task of a paused pass. */
    method SettlePaused(id: TaskId, now: int, removed: seq<string>, answer: Answer) returns (settled: bool)
      requires id in queue.rows && queue.rows[id].state == Pending
      modifies queue`rows
      ensures settled <==> Drains(old(queue.rows)[id], removed, answer)
      ensures queue.rows == if settled then old(queue.rows)[id := MarkedDone(old(queue.rows)[id], now)] else old(queue.rows)
    {
      settled := false;
      var change := queue.rows[id].change;
      if change.Some? && UnderAny(change.value.path, removed) {
        if change.value.kind == Remove {
          if answer == Ok {
            queue.MarkDone(id, now);
            settled := true;
          }
        } else {
          queue.MarkDone(id, now);
          settled := true;
        }
      }
    }
  }

  function MarkedDone(t: Task, now: int): Task {
    t.(state := Done, finishedAt := Some(now))
  }

  /** Settled by a paused pass in which the handler gives these answers. */
  predicate Drains(t: Task, removed: seq<string>, answer: Answer) {
    && t.state == Pending && t.change.Some? && UnderAny(t.change.value.path, removed)
    && (t.change.value.kind == Remove ==> answer == Ok)
  }

  function DrainedIds(rows: Rows, removed: TaskId -> seq<string>, answers: TaskId -> Answer): set<TaskId> {
    set id | id in rows && Drains(rows[id], removed(id), answers(id))
  }

  function DrainedRows(rows: Rows, removed: TaskId -> seq<string>, answers: TaskId -> Answer, now: int): Rows {
    map id | id in rows :: if Drains(rows[id], removed(id), answers(id)) then MarkedDone(rows[id], now) else rows[id]
  }

  ghost function DrainedAmong(rows: Rows, removed: TaskId -> seq<string>, answers: TaskId -> Answer, ids: seq<TaskId>): (done: set<TaskId>)
    requires forall i :: 0 <= i < |ids| ==> ids[i] in rows
  {
    set i | 0 <= i < |ids| && Drains(rows[ids[i]], removed(ids[i]), answers(ids[i])) :: ids[i]
  }

  ghost function MarkAll(rows: Rows, done: set<TaskId>, now: int): Rows {
    map id | id in rows :: if id in done then MarkedDone(rows[id], now) else rows[id]
  }

  lemma NoneMarked(rows: Rows, removed: TaskId -> seq<string>, answers: TaskId -> Answer, now: int)
    ensures DrainedAmong(rows, removed, answers, []) == {} && MarkAll(rows, {}, now) == rows
  {
  }

  lemma OneMoreMarked(rows: Rows, removed: TaskId -> seq<string>, answers: TaskId -> Answer, now: int, ids: seq<TaskId>, k: nat, done: set<TaskId>)
    requires k < |ids| && (forall i :: 0 <= i < |ids| ==> ids[i] in rows) && (forall i, j :: 0 <= i < j < |ids| ==> ids[i] < ids[j])
    requires done == DrainedAmong(rows, removed, answers, ids[..k])
    ensures ids[k] !in done && ids[k] in MarkAll(rows, done, now) && MarkAll(rows, done, now)[ids[k]] == rows[ids[k]]
    ensures DrainedAmong(rows, removed, answers, ids[..k + 1])
         == if Drains(rows[ids[k]], removed(ids[k]), answers(ids[k])) then done + {ids[k]} else done
    ensures MarkAll(rows, done + {ids[k]}, now) == MarkAll(rows, done, now)[ids[k] := MarkedDone(rows[ids[k]], now)]
  {
    var more := DrainedAmong(rows, removed, answers, ids[..k + 1]);
    forall id
      ensures id in more <==> id in done || (id == ids[k] && Drains(rows[id], removed(id), answers(id)))
    {
      if id in done {
        var i :| 0 <= i < k && ids[i] == id && Drains(rows[ids[..k][i]], removed(ids[..k][i]), answers(ids[..k][i]));
        assert ids[..k + 1][i] == id;
      }
      if id == ids[k] && Drains(rows[id], removed(id), answers(id)) {
        assert ids[..k + 1][k] == id;
      }
      if id in more {
        var i :| 0 <= i < k + 1 && ids[i] == id && Drains(rows[ids[..k + 1][i]], removed(ids[..k + 1][i]), answers(ids[..k + 1][i]));
        assert i < k ==> ids[..k][i] == id;
      }
    }
    var a, b := MarkAll(rows, done + {ids[k]}, now), MarkAll(rows, done, now)[ids[k] := MarkedDone(rows[ids[k]], now)];
    assert a.Keys == b.Keys;
    assert forall id :: id in a ==> a[id] == b[id];
  }

  lemma AllDrained(rows: Rows, removed: TaskId -> seq<string>, answers: TaskId -> Answer, now: int, pending: seq<TaskId>)
    requires forall i :: 0 <= i < |pending| ==> pending[i] in rows
    requires forall id :: id in pending <==> id in rows && rows[id].state == Pending
    ensures DrainedAmong(rows, removed, answers, pending) == DrainedIds(rows, removed, answers)
    ensures MarkAll(rows, DrainedIds(rows, removed, answers), now) == DrainedRows(rows, removed, answers, now)
  {
    var among, all := DrainedAmong(rows, removed, answers, pending), DrainedIds(rows, removed, answers);
    forall id
      ensures id in among <==> id in all
    {
      if id in all {
        assert id in pending;
        var i :| 0 <= i < |pending| && pending[i] == id;
        assert pending[i] in among;
      }
    }
    var a, b := MarkAll(rows, all, now), DrainedRows(rows, removed, answers, now);
    assert a.Keys == b.Keys;
    assert forall id :: id in a ==> a[id] == b[id];
  }

  /**
   * After a paused pass the waiting tasks that lay under removed roots at their turn are exactly the
   * Removes whose handler did not succeed, and a second pass with the same roots and answers settles
   * nothing more.
   */
  lemma PausedPassSettles(rows: Rows, removed: TaskId -> seq<string>, answers: TaskId -> Answer, now: int, id: TaskId)
    requires id in rows
    ensures var r := DrainedRows(rows, removed, answers, now);
            && DrainedIds(r, removed, answers) == {}
            && (id in r && r[id].state == Pending && r[id].change.Some? && UnderAny(r[id].change.value.path, removed(id))
                <==> id in rows && rows[id].state == Pending && IsRemoveUnder(rows[id].change, removed(id)) && answers(id) != Ok)
  {
    var r := DrainedRows(rows, removed, answers, now);
    forall x | x in r
      ensures !Drains(r[x], removed(x), answers(x))
    {
      assert r[x] == if Drains(rows[x], removed(x), answers(x)) then MarkedDone(rows[x], now) else rows[x];
    }
  }

  predicate IsRemoveUnder(change: Option<Change>, removed: seq<string>) {
    change.Some? && change.value.kind == Remove && UnderAny(change.value.path, removed)
  }

  /** What a verdict does to a worker's own count of claims, and whether the worker goes on. */
  function LocalDoneAfter(localDone: nat, verdict: Verdict): nat {
    if verdict.BusyUntil? && localDone > 0 then localDone - 1 else localDone
  }

  predicate Counts(verdict: Verdict) {
    verdict in {Succeeded, FailedFatally, Unreadable}
  }

  predicate EndsWorker(verdict: Verdict) {
    verdict in {DroppedInFlight, Interrupted}
  }

  datatype Iteration = Idle | Continues | Exits

  /** One thread of a burst; the counters are shared, here as this thread moves them. */
  class ParallelWorker {
    const daemon: Daemon
    var localDone: nat
    var processed: nat
    var failed: nat

    constructor (daemon: Daemon)
      ensures this.daemon == daemon && localDone == 0 && processed == 0 && failed == 0
    {
      this.daemon, localDone, processed, failed := daemon, 0, 0, 0;
    }

    /**
     * One turn of the worker loop once it has passed its exit conditions, from the claim to the
     * settled task. With the partial gate closed it leaves partial tasks alone.
     */
    method Turn(now: int, gateOpen: bool, removedBefore: seq<string>,
        answer: Answer, meanwhile: Rows, removedAfter: seq<string>)
      returns (went: Iteration, ghost id: TaskId, ghost task: Option<Task>)
      modifies this, daemon`busyCounts, daemon.queue`rows
      ensures went == Idle <==> task.None?
      ensures task.None? ==>
                && daemon.queue.rows == old(daemon.queue.rows) && daemon.busyCounts == old(daemon.busyCounts)
                && localDone == old(localDone) && processed == old(processed) && failed == old(failed)
      ensures task.Some? ==>
                && NextUnder(old(daemon.queue.rows), gateOpen && old(localDone) % CADENCE == 0,
                             if gateOpen then AnyPriority else AbovePriority(PARTIAL_PRIORITY), daemon.kind, now, id)
                && task.value == Claimed(old(daemon.queue.rows)[id], now)
      ensures task.Some? ==>
                var verdict := VerdictOf(task.value.change, removedBefore, false, answer, now, removedAfter);
                var left := if BeforeHandler(task.value.change, removedBefore, false).Some? then old(daemon.queue.rows)[id := task.value] else meanwhile;
                && daemon.queue.rows == Settle(left, id, task.value, verdict, now)
                && daemon.busyCounts == BusyCounts(old(daemon.busyCounts), id, verdict)
                && localDone == LocalDoneAfter(old(localDone) + 1, verdict)
                && processed + failed == old(processed) + old(failed) + (if Counts(verdict) then 1 else 0)
                && (processed > old(processed) <==> verdict == Succeeded)
                && (went == Exits <==> EndsWorker(verdict))
    {
      went := Idle;
      var taskId, claimed := daemon.Claim(gateOpen && localDone % CADENCE == 0,
        if gateOpen then AnyPriority else AbovePriority(PARTIAL_PRIORITY), now);
      id, task := taskId, claimed;
      if claimed.None? {
        return;
      }
      localDone := localDone + 1;
      var verdict := Work(taskId, claimed.value, now, removedBefore, answer, meanwhile, removedAfter);
      went := if EndsWorker(verdict) then Exits else Continues;
    }

    /** From the claimed task to the settled one. */
    method Work(id: TaskId, task: Task, now: int, removedBefore: seq<string>,
        answer: Answer, meanwhile: Rows, removedAfter: seq<string>)
      returns (verdict: Verdict)
      requires localDone > 0
      modifies this, daemon`busyCounts, daemon.queue`rows
      ensures verdict == VerdictOf(task.change, removedBefore, false, answer, now, removedAfter)
      ensures var left := if BeforeHandler(task.change, removedBefore, false).Some? then old(daemon.queue.rows) else meanwhile;
              daemon.queue.rows == Settle(left, id, task, verdict, now)
      ensures daemon.busyCounts == BusyCounts(old(daemon.busyCounts), id, verdict)
      ensures localDone == LocalDoneAfter(old(localDone), verdict)
      ensures processed == old(processed) + (if verdict == Succeeded then 1 else 0)
      ensures failed == old(failed) + (if verdict == FailedFatally || verdict == Unreadable then 1 else 0)
    {
      if task.change.None? {
        daemon.queue.MarkFailed(id, now);
        failed := failed + 1;
        return Unreadable;
      }
      if task.change.value.kind != Remove && UnderAny(task.change.value.path, removedBefore) {
        daemon.queue.MarkDone(id, now);
        return Dropped;
      }
      daemon.queue.rows := meanwhile;
      verdict := daemon.Conclude(id, task, now, answer, removedAfter);
      match verdict {
        case Succeeded => processed := processed + 1;
        case FailedFatally => failed := failed + 1;
        case BusyUntil(_) => localDone := localDone - 1;
        case _ =>
      }
    }
  }

  const CADENCE: nat := 8

  /** A row that is not after the best one is before it, and so before all that the best one precedes. */
  lemma PrecedesItself(t: Task, id: TaskId)
    ensures Precedes(t, id, t, id)
  {
  }

  lemma BetterBest(rows: Rows, best: TaskId, id: TaskId)
    requires best in rows && id in rows && !Precedes(rows[best], best, rows[id], id)
    ensures Precedes(rows[id], id, rows[best], best)
    ensures forall j :: j in rows && Precedes(rows[best], best, rows[j], j) ==> Precedes(rows[id], id, rows[j], j)
    ensures Precedes(rows[id], id, rows[id], id)
  {
  }

  /** The order on due tasks leaves no tie: which row a claim takes is determined. */
  lemma NextIsUnique(rows: Rows, f: Filter, kind: string, now: int, a: TaskId, b: TaskId)
    requires IsNext(rows, f, kind, now, a) && IsNext(rows, f, kind, now, b)
    ensures a == b
  {
    assert Precedes(rows[a], a, rows[b], b) && Precedes(rows[b], b, rows[a], a);
  }
}

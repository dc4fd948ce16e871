/**
 * Partial fingerprints: which files the backfill asks for, what one run of such a task makes of
 * its file, and why the loop of draining and backfilling stops.
 */
module Backfill {
  import opened Common
  import opened Paths
  import opened TaskQueue
  import opened Watcher

  const PARTIAL_RETRY_BUDGET: nat := 2
  const PARTIAL_MAX_DURATION_MS: nat := 4 * 60 * 60 * 1000

  const UNSUPPORTED_CODEC := "unsupported-codec"
  const DECODE_FAILED := "decode-failed"
  const DURATION_CAP := "duration-cap"
  const UNPROBEABLE := "unprobeable"
  const NO_SCENES := "no-scenes"
  const EXACT_FULL_DUP := "exact-full-dup"
  const RETRY_EXHAUSTED := "retry-exhausted"

  datatype Marker = Marker(reason: string, size: int, mtime: int)

  /** A row of fingerprints, as far as partial clips go. */
  datatype Print = Print(blob: bool, skip: Option<Marker>)

  /**
   * A file row, by its path. `onDisk` is the file itself, `exact` membership of a confirmed
   * duplicate group, `slowCodec` a known codec outside the fast path.
   */
  datatype File = File(active: bool, onDisk: bool, size: int, mtime: int, hash: Option<int>,
                       slowCodec: bool, durationMs: Option<nat>, exact: bool)
  type Files = map<string, File>
  type Prints = map<string, Print>

  // ---- what the backfill asks for -----------------------------------------------------------

  predicate Answered(prints: Prints, path: string) {
    && path in prints
    && (prints[path].blob || (prints[path].skip.Some? && prints[path].skip.value.reason != EXACT_FULL_DUP))
  }

  predicate Wanted(files: Files, prints: Prints, path: string) {
    path in files && files[path].active && !files[path].exact && !Answered(prints, path)
  }

  // ---- one run ------------------------------------------------------------------------------

  datatype Failure =
    | DecodeError(timeout: bool)
    | UnsupportedError(nonFastPath: bool)
    | ParseError
    | CancelledError
    | BusyError
    | LockedError        // a database error for a locked or busy database
    | OtherFailure

  datatype Decoded = Built | Unprobeable | NoScenes | Undecoded(failure: Failure, retried: bool)

  /** What a run meets: the file locked by a writer, the gate, and what the decode came to. */
  datatype Conditions = Conditions(locked: bool, gateFree: bool, decoded: Decoded)

  /** How the task ends: done, put back to wait, or a FAILED row. */
  datatype Ending = RunEnds | RunWaits | RunFails

  function SkipReason(f: Failure, retried: bool): Option<string> {
    match f
    case DecodeError(timeout) => if timeout then None else Some(DECODE_FAILED)
    case UnsupportedError(nonFastPath) => if nonFastPath then Some(UNSUPPORTED_CODEC) else None
    case ParseError => if retried then Some(DECODE_FAILED) else None
    case _ => None
  }

  function SkipReasonOrBudget(f: Failure, retried: bool, failedRows: nat): Option<string> {
    var reason := SkipReason(f, retried);
    if reason.Some? then reason
    else if failedRows >= PARTIAL_RETRY_BUDGET then Some(RETRY_EXHAUSTED)
    else None
  }

  /** The worker puts these back into the queue; everything else it records as FAILED. */
  predicate Passing(f: Failure) {
    f.CancelledError? || f.BusyError? || f.LockedError?
  }

  function MarkerFor(file: File, reason: string): Marker {
    Marker(reason, file.size, file.mtime)
  }

  predicate ValidMarker(file: File, skip: Option<Marker>) {
    && skip.Some? && skip.value.reason != EXACT_FULL_DUP
    && skip.value.size == file.size && skip.value.mtime == file.mtime
  }

  /** UPDATE ... WHERE file_id: nothing happens without a row. */
  function SetSkip(prints: Prints, path: string, m: Marker): Prints {
    if path in prints then prints[path := prints[path].(skip := Some(m))] else prints
  }

  function ClearAndMark(prints: Prints, path: string, m: Marker): Prints {
    if path in prints then prints[path := Print(false, Some(m))] else prints
  }

  predicate SameContent(files: Files, path: string, other: string)
    requires path in files
  {
    if files[path].hash.None? then other == path
    else other in files && files[other].active && files[other].hash == files[path].hash
  }

  /** A blob is stored for every active file with the same content. */
  function StoreBlob(files: Files, prints: Prints, path: string): (r: Prints)
    requires path in files
    ensures r.Keys == prints.Keys
    ensures forall q :: q in r ==> r[q] == if SameContent(files, path, q) then Print(true, None) else prints[q]
  {
    map q | q in prints :: if SameContent(files, path, q) then Print(true, None) else prints[q]
  }

  /** One run of a partial-fingerprint task, with `failedRows` FAILED rows of the same payload in the queue. */
  function PartialRun(files: Files, prints: Prints, path: string, failedRows: nat, c: Conditions): (Prints, Ending) {
    if path !in files || !files[path].active || !files[path].onDisk then (prints, RunEnds)
    else if c.locked then (prints, RunWaits)
    else
      var file := files[path];
      if path in prints && ValidMarker(file, prints[path].skip) then (prints, RunEnds)
      else if file.slowCodec then (SetSkip(prints, path, MarkerFor(file, UNSUPPORTED_CODEC)), RunEnds)
      else if file.exact then (SetSkip(prints, path, MarkerFor(file, EXACT_FULL_DUP)), RunEnds)
      else if file.durationMs.Some? && file.durationMs.value > PARTIAL_MAX_DURATION_MS then
        (SetSkip(prints, path, MarkerFor(file, DURATION_CAP)), RunEnds)
      else if !c.gateFree then (prints, RunWaits)
      else match c.decoded
        case Built => (StoreBlob(files, prints, path), RunEnds)
        case Unprobeable => (SetSkip(prints, path, MarkerFor(file, UNPROBEABLE)), RunEnds)
        case NoScenes => (SetSkip(prints, path, MarkerFor(file, NO_SCENES)), RunEnds)
        case Undecoded(f, retried) =>
          if f.CancelledError? then (prints, RunWaits)
          else
            var reason := SkipReasonOrBudget(f, retried, failedRows);
            if reason.None? then (prints, if Passing(f) then RunWaits else RunFails)
            else if f == UnsupportedError(true) then (ClearAndMark(prints, path, MarkerFor(file, reason.value)), RunEnds)
            else (SetSkip(prints, path, MarkerFor(file, reason.value)), RunEnds)
  }

  function FailedRows(rows: Rows, kind: string, path: string): set<TaskId> {
    set id | id in rows && rows[id].state == Failed && rows[id].kind == kind
             && rows[id].change == Some(Change(path, PartialFingerprint))
  }

  class PartialIndexer {
    const queue: Queue
    const kind: string
    const files: Files
    const order: seq<string>     // the paths, in id order
    var prints: Prints

    constructor (queue: Queue, kind: string, files: Files, order: seq<string>, prints: Prints)
      requires forall p :: p in order <==> p in files
      ensures this.queue == queue && this.kind == kind && this.files == files && this.order == order && this.prints == prints
    {
      this.queue, this.kind, this.files, this.order, this.prints := queue, kind, files, order, prints;
    }

    method CountFailed(path: string) returns (n: nat)
      ensures n == |FailedRows(queue.rows, kind, path)|
    {
      var ids := queue.ListByState(Failed);
      n := 0;
      var k := 0;
      ghost var seen: set<TaskId> := {};
      while k < |ids|
        invariant 0 <= k <= |ids| && n == |seen|
        invariant forall id :: id in seen <==> id in ids[..k] && id in FailedRows(queue.rows, kind, path)
      {
        assert ids[..k + 1] == ids[..k] + [ids[k]];
        assert ids[k] in ids && forall i :: 0 <= i < k ==> ids[i] < ids[k];
        assert ids[k] !in ids[..k];
        if queue.rows[ids[k]].kind == kind && queue.rows[ids[k]].change == Some(Change(path, PartialFingerprint)) {
          n := n + 1;
          seen := seen + {ids[k]};
        }
        k := k + 1;
      }
      assert ids[..k] == ids;
      forall id ensures id in seen <==> id in FailedRows(queue.rows, kind, path) {
        if id in FailedRows(queue.rows, kind, path) {
          assert id in ids;
        }
      }
      assert seen == FailedRows(queue.rows, kind, path);
    }

    method SetPartialSkip(path: string, reason: string)
      requires path in files
      modifies this`prints
      ensures prints == SetSkip(old(prints), path, MarkerFor(files[path], reason))
    {
      if path in prints {
        prints := prints[path := prints[path].(skip := Some(MarkerFor(files[path], reason)))];
      }
    }

    method SetPartialForContent(path: string)
      requires path in files && files[path].active && (forall p :: p in order <==> p in files)
      modifies this`prints
      ensures prints == StoreBlob(files, old(prints), path)
    {
      ghost var before := prints;
      if files[path].hash.None? {
        if path in prints {
          prints := prints[path := Print(true, None)];
        }
        return;
      }
      var k := 0;
      while k < |order|
        invariant 0 <= k <= |order|
        invariant prints.Keys == before.Keys
        invariant forall q :: q in prints ==>
                    prints[q] == if SameContent(files, path, q) && q in order[..k] then Print(true, None) else before[q]
      {
        var q := order[k];
        assert order[..k + 1] == order[..k] + [q];
        if files[q].active && files[q].hash == files[path].hash && q in prints {
          prints := prints[q := Print(true, None)];
        }
        k := k + 1;
      }
      assert order[..k] == order;
    }

    /** partial_fingerprint_file, and what the worker loop makes of its answer. */
    method PartialFingerprintFile(path: string, c: Conditions) returns (ending: Ending)
      requires forall p :: p in order <==> p in files
      modifies this`prints
      ensures (prints, ending) == PartialRun(files, old(prints), path, |FailedRows(queue.rows, kind, path)|, c)
    {
      if path !in files || !files[path].active || !files[path].onDisk {
        return RunEnds;
      }
      if c.locked {
        return RunWaits;
      }
      var file := files[path];
      if path in prints && ValidMarker(file, prints[path].skip) {
        return RunEnds;
      }
      if file.slowCodec {
        SetPartialSkip(path, UNSUPPORTED_CODEC);
        return RunEnds;
      }
      if file.exact {
        SetPartialSkip(path, EXACT_FULL_DUP);
        return RunEnds;
      }
      if file.durationMs.Some? && file.durationMs.value > PARTIAL_MAX_DURATION_MS {
        SetPartialSkip(path, DURATION_CAP);
        return RunEnds;
      }
      if !c.gateFree {
        return RunWaits;
      }
      match c.decoded {
        case Built =>
          SetPartialForContent(path);
          return RunEnds;
        case Unprobeable =>
          SetPartialSkip(path, UNPROBEABLE);
          return RunEnds;
        case NoScenes =>
          SetPartialSkip(path, NO_SCENES);
          return RunEnds;
        case Undecoded(f, retried) =>
          if f.CancelledError? {
            return RunWaits;
          }
          var reason := SkipReason(f, retried);
          if reason.None? {
            var failed := CountFailed(path);
            if failed >= PARTIAL_RETRY_BUDGET {
              reason := Some(RETRY_EXHAUSTED);
            }
          }
          if reason.None? {
            return if Passing(f) then RunWaits else RunFails;
          }
          if f == UnsupportedError(true) {
            if path in prints {
              prints := prints[path := Print(false, Some(MarkerFor(file, reason.value)))];
            }
          } else {
            SetPartialSkip(path, reason.value);
          }
          return RunEnds;
      }
    }

    /** enqueue_partial_backfill: a task for exactly the wanted files that have none waiting or running. */
    method EnqueuePartialBackfill(now: int)
      requires IdsBelow(queue.rows, queue.nextId) && (forall p :: p in order <==> p in files)
      modifies queue
      ensures Queued(old(queue.rows), old(queue.nextId),
                     (set p | p in files && Wanted(files, prints, p) :: Change(p, PartialFingerprint)),
                     kind, PARTIAL_PRIORITY, now, queue.rows, queue.nextId)
    {
      var missing: seq<Change> := [];
      var k := 0;
      while k < |order|
        invariant 0 <= k <= |order|
        invariant forall c :: c in missing <==> c.kind == PartialFingerprint && c.path in order[..k] && Wanted(files, prints, c.path)
      {
        var p := order[k];
        assert order[..k + 1] == order[..k] + [p];
        if files[p].active && !Answered(prints, p) && !files[p].exact {
          missing := missing + [Change(p, PartialFingerprint)];
        }
        k := k + 1;
      }
      assert order[..k] == order;
      ghost var wanted := set p | p in files && Wanted(files, prints, p) :: Change(p, PartialFingerprint);
      assert AllOf(missing) == wanted by {
        forall c ensures c in missing <==> c in wanted {
          if c in missing {
            assert c == Change(c.path, PartialFingerprint);
          }
        }
      }
      ghost var before := Table(queue.rows, queue.nextId);
      var inserted := EnqueueChanges(queue, Plain(missing), kind, PARTIAL_PRIORITY, now);
      PlainChangesQueued(before, missing, kind, PARTIAL_PRIORITY, now);
    }
  }

  // ---- the loop of draining and backfilling ---------------------------------------------------

  /**
   * `failed` counts FAILED rows of a path's partial task; `queued` holds the paths that have one
   * waiting or running; `removed` are the folders taken out.
   */
  datatype State = State(prints: Prints, failed: map<string, nat>, queued: set<string>, removed: seq<string>)

  /**
   * Files stay as they are on disk and in the file table. A run is one step: it stands before any
   * change of the removed folders that its writing precedes, and after one that cancels it.
   */
  datatype Event = Ask | Attempt(path: string, c: Conditions) | TakeOut(removed: seq<string>)

  function FailedCount(s: State, p: string): nat {
    if p in s.failed then s.failed[p] else 0
  }

  predicate Enabled(s: State, e: Event) {
    e.Attempt? ==> e.path in s.queued
  }

  /** Below a removed folder the task is marked done without a look at the file. */
  predicate Drops(s: State, e: Event, p: string) {
    e.Attempt? && e.path == p && UnderAny(p, s.removed)
  }

  function AttemptStep(files: Files, s: State, p: string, c: Conditions): State {
    if UnderAny(p, s.removed) then s.(queued := s.queued - {p})
    else
      var (prints, ending) := PartialRun(files, s.prints, p, FailedCount(s, p), c);
      match ending
      case RunEnds => s.(prints := prints, queued := s.queued - {p})
      case RunWaits => s.(prints := prints)
      case RunFails => s.(prints := prints, queued := s.queued - {p}, failed := s.failed[p := FailedCount(s, p) + 1])
  }

  function Next(files: Files, s: State, e: Event): State
    requires Enabled(s, e)
  {
    match e
    case Ask => s.(queued := s.queued + set p | p in files && Wanted(files, s.prints, p))
    case Attempt(p, c) => AttemptStep(files, s, p, c)
    case TakeOut(removed) => s.(removed := removed)
  }

  ghost predicate AllEnabled(files: Files, s: State, es: seq<Event>)
    decreases |es|
  {
    es == [] || (Enabled(s, es[0]) && AllEnabled(files, Next(files, s, es[0]), es[1..]))
  }

  function After(files: Files, s: State, es: seq<Event>): State
    requires AllEnabled(files, s, es)
    decreases |es|
  {
    if es == [] then s else After(files, Next(files, s, es[0]), es[1..])
  }

  /** The file's task is dropped somewhere on the way. */
  ghost predicate DroppedIn(files: Files, s: State, es: seq<Event>, p: string)
    requires AllEnabled(files, s, es)
    decreases |es|
  {
    es != [] && (Drops(s, es[0], p) || DroppedIn(files, Next(files, s, es[0]), es[1..], p))
  }

  /** Runs a file can still need: the failures its budget leaves, and one more that settles it. */
  function Weight(files: Files, s: State, p: string): nat {
    if Wanted(files, s.prints, p) then 1 + (PARTIAL_RETRY_BUDGET - Min(FailedCount(s, p), PARTIAL_RETRY_BUDGET)) else 0
  }

  /** The file is there and has a fingerprint row to put the answer in. */
  predicate Answerable(files: Files, s: State, p: string) {
    p in files && files[p].onDisk && p in s.prints
  }

  predicate Ends(files: Files, s: State, e: Event, p: string) {
    && e.Attempt? && e.path == p && !UnderAny(p, s.removed)
    && PartialRun(files, s.prints, p, FailedCount(s, p), e.c).1 != RunWaits
  }

  lemma RunKeepsRows(files: Files, prints: Prints, p: string, failedRows: nat, c: Conditions)
    ensures PartialRun(files, prints, p, failedRows, c).0.Keys == prints.Keys
  {
  }

  /** A run answers its own file or fails within the budget, and takes no answer away from any file that still wants none. */
  lemma RunAnswers(files: Files, prints: Prints, p: string, failedRows: nat, c: Conditions)
    requires Wanted(files, prints, p) && files[p].onDisk && p in prints
    ensures var (after, ending) := PartialRun(files, prints, p, failedRows, c);
            && (ending == RunEnds ==> !Wanted(files, after, p))
            && (ending == RunFails ==> failedRows < PARTIAL_RETRY_BUDGET && after == prints)
            && (ending == RunWaits ==> after == prints)
  {
    assert SameContent(files, p, p);
  }

  lemma RunTakesNothing(files: Files, prints: Prints, p: string, failedRows: nat, c: Conditions, q: string)
    requires !Wanted(files, prints, q)
    ensures !Wanted(files, PartialRun(files, prints, p, failedRows, c).0, q)
  {
  }

  lemma StepWeight(files: Files, s: State, e: Event, p: string)
    requires Enabled(s, e)
    ensures Next(files, s, e).prints.Keys == s.prints.Keys
    ensures Weight(files, Next(files, s, e), p) <= Weight(files, s, p)
    ensures Ends(files, s, e, p) && Answerable(files, s, p) && Weight(files, s, p) > 0 ==>
              Weight(files, Next(files, s, e), p) < Weight(files, s, p)
    ensures p in s.queued && p !in Next(files, s, e).queued ==> Ends(files, s, e, p) || Drops(s, e, p)
    ensures FailedCount(Next(files, s, e), p) <= Max(FailedCount(s, p), PARTIAL_RETRY_BUDGET)
  {
    if e.Attempt? {
      hide UnderAny;
      var n := FailedCount(s, e.path);
      RunKeepsRows(files, s.prints, e.path, n, e.c);
      FailsWithinBudget(files, s.prints, e.path, n, e.c);
      if !Wanted(files, s.prints, p) {
        RunTakesNothing(files, s.prints, e.path, n, e.c, p);
      } else if e.path == p && Answerable(files, s, p) {
        RunAnswers(files, s.prints, p, n, e.c);
      }
    }
  }

  lemma FailsWithinBudget(files: Files, prints: Prints, p: string, failedRows: nat, c: Conditions)
    ensures PartialRun(files, prints, p, failedRows, c).1 == RunFails ==> failedRows < PARTIAL_RETRY_BUDGET
  {
  }

  /** How many runs of the file's task ended while it was wanted. */
  function EndedRuns(files: Files, s: State, es: seq<Event>, p: string): nat
    requires AllEnabled(files, s, es)
    decreases |es|
  {
    if es == [] then 0
    else (if Ends(files, s, es[0], p) && Wanted(files, s.prints, p) then 1 else 0) + EndedRuns(files, Next(files, s, es[0]), es[1..], p)
  }

  /**
   * Over any run of attempts, drops and backfills: the ended runs of a wanted file and the weight
   * it has left are within the weight it had, and it never gets more FAILED rows than the budget.
   * A wanted file whose task is gone has had an ended run, or its task was dropped.
   */
  lemma {:induction false} RunsBounded(files: Files, s: State, es: seq<Event>, p: string)
    requires AllEnabled(files, s, es) && Answerable(files, s, p)
    ensures EndedRuns(files, s, es, p) + Weight(files, After(files, s, es), p) <= Weight(files, s, p) <= PARTIAL_RETRY_BUDGET + 1
    ensures FailedCount(After(files, s, es), p) <= Max(FailedCount(s, p), PARTIAL_RETRY_BUDGET)
    ensures Answerable(files, After(files, s, es), p)
    ensures p in s.queued && p !in After(files, s, es).queued && Wanted(files, After(files, s, es).prints, p) ==>
              EndedRuns(files, s, es, p) > 0 || DroppedIn(files, s, es, p)
    decreases |es|
  {
    if es != [] {
      hide PartialRun, UnderAny, Wanted, Answered;
      StepWeight(files, s, es[0], p);
      RunsBounded(files, Next(files, s, es[0]), es[1..], p);
      if p in s.queued && p !in Next(files, s, es[0]).queued {
        StillWanted(files, Next(files, s, es[0]), es[1..], p);
      }
    }
  }

  lemma {:induction false} StillWanted(files: Files, s: State, es: seq<Event>, p: string)
    requires AllEnabled(files, s, es)
    ensures Weight(files, After(files, s, es), p) <= Weight(files, s, p)
    decreases |es|
  {
    if es != [] {
      StepWeight(files, s, es[0], p);
      StillWanted(files, Next(files, s, es[0]), es[1..], p);
    }
  }

  // ---- whole cycles -------------------------------------------------------------------------

  /** A backfill when the queue is drained, then runs in any order until it is drained again. */
  ghost predicate IsCycle(files: Files, s: State, es: seq<Event>) {
    && AllEnabled(files, s, es) && es != [] && es[0] == Ask
    && After(files, s, es).queued == {}
  }

  ghost predicate AreCycles(files: Files, s: State, cycles: seq<seq<Event>>)
    decreases |cycles|
  {
    cycles == [] || (IsCycle(files, s, cycles[0]) && AreCycles(files, After(files, s, cycles[0]), cycles[1..]))
  }

  function AfterCycles(files: Files, s: State, cycles: seq<seq<Event>>): State
    requires AreCycles(files, s, cycles)
    decreases |cycles|
  {
    if cycles == [] then s else AfterCycles(files, After(files, s, cycles[0]), cycles[1..])
  }

  /** Each cycle takes at least one off the weight of every file it finds wanted, unless it drops the file's task. */
  lemma CycleTakesOne(files: Files, s: State, es: seq<Event>, p: string)
    requires IsCycle(files, s, es) && Answerable(files, s, p)
    ensures Weight(files, After(files, s, es), p) <= Weight(files, s, p)
    ensures Weight(files, After(files, s, es), p) == 0 || Weight(files, After(files, s, es), p) < Weight(files, s, p)
            || DroppedIn(files, s, es, p)
  {
    var t := Next(files, s, Ask);
    RunsBounded(files, t, es[1..], p);
    StepWeight(files, s, Ask, p);
    StillWanted(files, t, es[1..], p);
  }

  /** The cycles that do not drop the file's task. */
  ghost function Undropped(files: Files, s: State, cycles: seq<seq<Event>>, p: string): nat
    requires AreCycles(files, s, cycles)
    decreases |cycles|
  {
    if cycles == [] then 0
    else (if DroppedIn(files, s, cycles[0], p) then 0 else 1) + Undropped(files, After(files, s, cycles[0]), cycles[1..], p)
  }

  /** Whatever folders are taken out and added again: the weight goes down with every cycle that does not drop the task. */
  lemma {:induction false} CyclesTakeOneEach(files: Files, s: State, cycles: seq<seq<Event>>, p: string)
    requires AreCycles(files, s, cycles) && Answerable(files, s, p)
    ensures Weight(files, AfterCycles(files, s, cycles), p) <= Max(Weight(files, s, p) - Undropped(files, s, cycles, p), 0)
    decreases |cycles|
  {
    if cycles != [] {
      hide IsCycle, Weight, DroppedIn, After;
      var t := After(files, s, cycles[0]);
      CycleTakesOne(files, s, cycles[0], p);
      StaysAnswerable(files, s, cycles[0], p);
      CyclesTakeOneEach(files, t, cycles[1..], p);
    }
  }

  lemma StaysAnswerable(files: Files, s: State, es: seq<Event>, p: string)
    requires IsCycle(files, s, es) && Answerable(files, s, p)
    ensures Answerable(files, After(files, s, es), p)
  {
    RunsBounded(files, s, es, p);
  }

  // ---- with the removed folders left alone --------------------------------------------------

  ghost predicate RootsStay(es: seq<Event>) {
    forall i :: 0 <= i < |es| ==> !es[i].TakeOut?
  }

  ghost predicate RootsStayAll(cycles: seq<seq<Event>>) {
    forall i :: 0 <= i < |cycles| ==> RootsStay(cycles[i])
  }

  /** A task of the file gets to run: the file is on disk and below no removed folder. */
  predicate Runnable(files: Files, s: State, p: string) {
    p in files && files[p].onDisk && !UnderAny(p, s.removed)
  }

  /** A run that decodes its file and stores what it built. */
  predicate BuildsBlob(files: Files, prints: Prints, q: string, c: Conditions) {
    && q in files && files[q].active && files[q].onDisk && !c.locked && c.gateFree && c.decoded.Built?
    && !(q in prints && ValidMarker(files[q], prints[q].skip))
    && !files[q].slowCodec && !files[q].exact
    && (files[q].durationMs.Some? ==> files[q].durationMs.value <= PARTIAL_MAX_DURATION_MS)
  }

  /** The run of another file with the same content stores the blob for this one too. */
  predicate Serves(files: Files, s: State, e: Event, p: string) {
    && e.Attempt? && e.path != p && !UnderAny(e.path, s.removed) && p in s.prints
    && BuildsBlob(files, s.prints, e.path, e.c) && SameContent(files, e.path, p)
  }

  ghost predicate ServedIn(files: Files, s: State, es: seq<Event>, p: string)
    requires AllEnabled(files, s, es)
    decreases |es|
  {
    es != [] && (Serves(files, s, es[0], p) || ServedIn(files, Next(files, s, es[0]), es[1..], p))
  }

  ghost predicate ServedInSome(files: Files, s: State, cycles: seq<seq<Event>>, p: string)
    requires AreCycles(files, s, cycles)
    decreases |cycles|
  {
    cycles != []
    && (ServedIn(files, s, cycles[0], p) || ServedInSome(files, After(files, s, cycles[0]), cycles[1..], p))
  }

  lemma StepKeepsRoots(files: Files, s: State, e: Event)
    requires Enabled(s, e) && !e.TakeOut?
    ensures Next(files, s, e).removed == s.removed
  {
  }

  lemma {:induction false} KeepsRoots(files: Files, s: State, es: seq<Event>)
    requires AllEnabled(files, s, es) && RootsStay(es)
    ensures After(files, s, es).removed == s.removed
    decreases |es|
  {
    if es != [] {
      hide Next;
      StepKeepsRoots(files, s, es[0]);
      KeepsRoots(files, Next(files, s, es[0]), es[1..]);
    }
  }

  lemma {:induction false} NotDropped(files: Files, s: State, es: seq<Event>, p: string)
    requires AllEnabled(files, s, es) && RootsStay(es) && !UnderAny(p, s.removed)
    ensures !DroppedIn(files, s, es, p)
    decreases |es|
  {
    if es != [] {
      hide Next;
      StepKeepsRoots(files, s, es[0]);
      NotDropped(files, Next(files, s, es[0]), es[1..], p);
    }
  }

  lemma {:induction false} NeverDropped(files: Files, s: State, cycles: seq<seq<Event>>, p: string)
    requires AreCycles(files, s, cycles) && RootsStayAll(cycles) && !UnderAny(p, s.removed)
    ensures Undropped(files, s, cycles, p) == |cycles|
    decreases |cycles|
  {
    if cycles != [] {
      hide After;
      NotDropped(files, s, cycles[0], p);
      KeepsRoots(files, s, cycles[0]);
      assert forall i :: 0 <= i < |cycles[1..]| ==> cycles[1..][i] == cycles[i + 1];
      NeverDropped(files, After(files, s, cycles[0]), cycles[1..], p);
    }
  }

  /** A file whose own task does nothing stays wanted until another run stores the blob for it. */
  lemma UnrunnableStep(files: Files, s: State, e: Event, p: string)
    requires Enabled(s, e) && Wanted(files, s.prints, p) && !Runnable(files, s, p)
    ensures Wanted(files, Next(files, s, e).prints, p) <==> !Serves(files, s, e, p)
  {
    hide UnderAny;
    if e.Attempt? && e.path != p {
      UnrunnableAttempt(files, s.prints, e.path, FailedCount(s, e.path), e.c, p);
    }
  }

  lemma UnrunnableAttempt(files: Files, prints: Prints, q: string, failedRows: nat, c: Conditions, p: string)
    requires Wanted(files, prints, p) && q != p
    ensures Wanted(files, PartialRun(files, prints, q, failedRows, c).0, p)
            <==> !(p in prints && BuildsBlob(files, prints, q, c) && SameContent(files, q, p))
  {
  }

  lemma {:induction false} UnrunnableRun(files: Files, s: State, es: seq<Event>, p: string)
    requires AllEnabled(files, s, es) && RootsStay(es) && Wanted(files, s.prints, p) && !Runnable(files, s, p)
    ensures !Wanted(files, After(files, s, es).prints, p) <==> ServedIn(files, s, es, p)
    decreases |es|
  {
    if es != [] {
      hide Next, Serves, Wanted, Runnable;
      var t := Next(files, s, es[0]);
      UnrunnableStep(files, s, es[0], p);
      StaysUnrunnable(files, s, es[0], p);
      if Wanted(files, t.prints, p) {
        UnrunnableRun(files, t, es[1..], p);
      } else {
        AnswerStays(files, t, es[1..], p);
      }
    }
  }

  lemma StaysUnrunnable(files: Files, s: State, e: Event, p: string)
    requires Enabled(s, e) && !e.TakeOut?
    ensures Runnable(files, Next(files, s, e), p) <==> Runnable(files, s, p)
  {
    StepKeepsRoots(files, s, e);
  }

  lemma AnswerStays(files: Files, s: State, es: seq<Event>, p: string)
    requires AllEnabled(files, s, es) && !Wanted(files, s.prints, p)
    ensures !Wanted(files, After(files, s, es).prints, p)
  {
    StillWanted(files, s, es, p);
  }

  lemma {:induction false} UnrunnableCycles(files: Files, s: State, cycles: seq<seq<Event>>, p: string)
    requires AreCycles(files, s, cycles) && RootsStayAll(cycles) && Wanted(files, s.prints, p) && !Runnable(files, s, p)
    ensures !Wanted(files, AfterCycles(files, s, cycles).prints, p) <==> ServedInSome(files, s, cycles, p)
    decreases |cycles|
  {
    if cycles != [] {
      hide After, ServedIn, Wanted;
      var t := After(files, s, cycles[0]);
      UnrunnableRun(files, s, cycles[0], p);
      KeepsRoots(files, s, cycles[0]);
      assert forall i :: 0 <= i < |cycles[1..]| ==> cycles[1..][i] == cycles[i + 1];
      if Wanted(files, t.prints, p) {
        UnrunnableCycles(files, t, cycles[1..], p);
      } else {
        AnswersStay(files, t, cycles[1..], p);
      }
    }
  }

  lemma {:induction false} RowlessStays(files: Files, s: State, es: seq<Event>, p: string)
    requires AllEnabled(files, s, es) && Wanted(files, s.prints, p) && p !in s.prints
    ensures Wanted(files, After(files, s, es).prints, p) && p !in After(files, s, es).prints
    decreases |es|
  {
    if es != [] {
      StepWeight(files, s, es[0], p);
      RowlessStays(files, Next(files, s, es[0]), es[1..], p);
    }
  }

  lemma {:induction false} RowlessStaysOverCycles(files: Files, s: State, cycles: seq<seq<Event>>, p: string)
    requires AreCycles(files, s, cycles) && Wanted(files, s.prints, p) && p !in s.prints
    ensures Wanted(files, AfterCycles(files, s, cycles).prints, p)
    decreases |cycles|
  {
    if cycles != [] {
      RowlessStays(files, s, cycles[0], p);
      RowlessStaysOverCycles(files, After(files, s, cycles[0]), cycles[1..], p);
    }
  }

  /**
   * While the removed folders stay as they are, a wanted file is answered after one cycle more
   * than the budget, whatever the runs meet, if and only if it has a fingerprint row and is on
   * disk below no removed folder, or a run of another file with its content stored the blob.
   */
  lemma LoopConverges(files: Files, s: State, cycles: seq<seq<Event>>, p: string)
    requires AreCycles(files, s, cycles) && RootsStayAll(cycles) && |cycles| > PARTIAL_RETRY_BUDGET
    requires Wanted(files, s.prints, p)
    ensures !Wanted(files, AfterCycles(files, s, cycles).prints, p) <==>
            p in s.prints && (Runnable(files, s, p) || ServedInSome(files, s, cycles, p))
  {
    if p !in s.prints {
      RowlessStaysOverCycles(files, s, cycles, p);
    } else if Runnable(files, s, p) {
      CyclesTakeOneEach(files, s, cycles, p);
      NeverDropped(files, s, cycles, p);
    } else {
      UnrunnableCycles(files, s, cycles, p);
    }
  }

  // ---- what can be said beforehand ----------------------------------------------------------

  /** Every task can be brought to its end without a blob stored for anybody. */
  lemma DrainWithoutBlobs(files: Files, s: State) returns (es: seq<Event>)
    ensures AllEnabled(files, s, es) && RootsStay(es) && After(files, s, es).queued == {}
    ensures forall q :: !ServedIn(files, s, es, q)
    decreases |s.queued|
  {
    if s.queued == {} {
      return [];
    }
    var q :| q in s.queued;
    var e := Attempt(q, Conditions(false, true, Unprobeable));
    var t := Next(files, s, e);
    assert t.queued == s.queued - {q};
    hide Next, Serves;
    var rest := DrainWithoutBlobs(files, t);
    es := PutBefore(files, s, e, rest);
    forall x
      ensures !ServedIn(files, s, es, x)
    {
      NotServedBy(files, s, e, x);
    }
  }

  lemma PutBefore(files: Files, s: State, e: Event, rest: seq<Event>) returns (es: seq<Event>)
    requires Enabled(s, e) && AllEnabled(files, Next(files, s, e), rest) && !e.TakeOut? && RootsStay(rest)
    ensures es != [] && es[0] == e && es[1..] == rest && RootsStay(es)
    ensures AllEnabled(files, s, es) && After(files, s, es) == After(files, Next(files, s, e), rest)
  {
    hide Next;
    es := [e] + rest;
    assert es[1..] == rest;
  }

  lemma NotServedBy(files: Files, s: State, e: Event, x: string)
    requires e.Ask? || (e.Attempt? && e.c.decoded == Unprobeable)
    ensures !Serves(files, s, e, x)
  {
  }

  lemma CycleWithoutBlobs(files: Files, s: State) returns (es: seq<Event>)
    ensures IsCycle(files, s, es) && RootsStay(es)
    ensures forall q :: !ServedIn(files, s, es, q)
  {
    hide Next, Serves;
    var rest := DrainWithoutBlobs(files, Next(files, s, Ask));
    es := PutBefore(files, s, Ask, rest);
    forall x
      ensures !ServedIn(files, s, es, x)
    {
      NotServedBy(files, s, Ask, x);
    }
  }

  lemma CyclesWithoutBlobs(files: Files, s: State, n: nat) returns (cycles: seq<seq<Event>>)
    ensures |cycles| == n && AreCycles(files, s, cycles) && RootsStayAll(cycles)
    ensures forall q :: !ServedInSome(files, s, cycles, q)
    decreases n
  {
    if n == 0 {
      return [];
    }
    hide IsCycle, After, ServedIn, RootsStay;
    var first := CycleWithoutBlobs(files, s);
    KeepsCycle(files, s, first);
    var rest := CyclesWithoutBlobs(files, After(files, s, first), n - 1);
    cycles := [first] + rest;
    assert cycles[1..] == rest;
  }

  lemma KeepsCycle(files: Files, s: State, es: seq<Event>)
    requires IsCycle(files, s, es)
    ensures AllEnabled(files, s, es)
  {
  }

  /** Whatever happens in the next n cycles, short of folders taken out or added, the file is answered after them. */
  ghost predicate SureToBeAnswered(files: Files, s: State, n: nat, p: string) {
    forall cycles :: AreCycles(files, s, cycles) && RootsStayAll(cycles) && |cycles| == n ==>
      !Wanted(files, AfterCycles(files, s, cycles).prints, p)
  }

  /**
   * Which wanted files are sure to be answered can be told beforehand: exactly those that have a
   * fingerprint row and are on disk below no removed folder.
   */
  lemma SureToBeAnsweredIff(files: Files, s: State, n: nat, p: string)
    requires Wanted(files, s.prints, p) && n > PARTIAL_RETRY_BUDGET
    ensures SureToBeAnswered(files, s, n, p) <==> p in s.prints && Runnable(files, s, p)
  {
    hide AfterCycles, AreCycles, Wanted, Runnable;
    forall cycles | AreCycles(files, s, cycles) && RootsStayAll(cycles) && |cycles| == n
      ensures p in s.prints && Runnable(files, s, p) ==> !Wanted(files, AfterCycles(files, s, cycles).prints, p)
    {
      LoopConverges(files, s, cycles, p);
    }
    var quiet := CyclesWithoutBlobs(files, s, n);
    LoopConverges(files, s, quiet, p);
  }

  /** The next backfill after those cycles queues nothing if and only if each file wanted before them was answered in this way. */
  lemma NothingLeftToAsk(files: Files, s: State, cycles: seq<seq<Event>>)
    requires AreCycles(files, s, cycles) && RootsStayAll(cycles) && |cycles| > PARTIAL_RETRY_BUDGET
    ensures Next(files, AfterCycles(files, s, cycles), Ask) == AfterCycles(files, s, cycles) <==>
            forall p :: Wanted(files, s.prints, p) ==>
              p in s.prints && (Runnable(files, s, p) || ServedInSome(files, s, cycles, p))
  {
    hide AfterCycles, AreCycles, Wanted, Runnable, ServedInSome, RootsStayAll;
    var t := AfterCycles(files, s, cycles);
    CyclesDrain(files, s, cycles);
    WantedAreListed(files, t.prints);
    WantedAreListed(files, s.prints);
    forall p
      ensures !Wanted(files, t.prints, p) <==>
              (Wanted(files, s.prints, p) ==> p in s.prints && (Runnable(files, s, p) || ServedInSome(files, s, cycles, p)))
    {
      if Wanted(files, s.prints, p) {
        LoopConverges(files, s, cycles, p);
      } else {
        AnswersStay(files, s, cycles, p);
      }
    }
    var wanted := set p | p in files && Wanted(files, t.prints, p);
    assert Next(files, t, Ask) == t.(queued := {} + wanted);
    assert wanted == {} <==> forall p :: !Wanted(files, t.prints, p) by {
      assert forall p :: Wanted(files, t.prints, p) ==> p in wanted;
    }
    assert {} + wanted == wanted;
  }

  lemma WantedAreListed(files: Files, prints: Prints)
    ensures forall p :: Wanted(files, prints, p) ==> p in files
  {
  }

  lemma {:induction false} CyclesDrain(files: Files, s: State, cycles: seq<seq<Event>>)
    requires AreCycles(files, s, cycles) && cycles != []
    ensures AfterCycles(files, s, cycles).queued == {}
    decreases |cycles|
  {
    hide After;
    if |cycles| > 1 {
      CyclesDrain(files, After(files, s, cycles[0]), cycles[1..]);
    }
  }

  // ---- files asked for again and again --------------------------------------------------------

  lemma {:induction false} BackWhereItWas(files: Files, s: State, cycle: seq<Event>, n: nat)
    requires IsCycle(files, s, cycle) && After(files, s, cycle) == s
    ensures var cycles := seq(n, _ => cycle);
            AreCycles(files, s, cycles) && AfterCycles(files, s, cycles) == s
  {
    if n > 0 {
      hide IsCycle, After;
      BackWhereItWas(files, s, cycle, n - 1);
      var cycles := seq(n, _ => cycle);
      assert cycles[0] == cycle && cycles[1..] == seq(n - 1, _ => cycle);
    }
  }

  /** A backfill and one run, in two steps. */
  lemma TwoSteps(files: Files, s: State, run: Event)
    requires Enabled(Next(files, s, Ask), run)
    requires Next(files, Next(files, s, Ask), run) == s && s.queued == {}
    ensures IsCycle(files, s, [Ask, run]) && After(files, s, [Ask, run]) == s
  {
    var asked, es := Next(files, s, Ask), [Ask, run];
    hide Next;
    assert es[1..] == [run] && [run][1..] == [];
    assert AllEnabled(files, s, []) && After(files, s, []) == s;
    assert AllEnabled(files, asked, [run]) && After(files, asked, [run]) == s;
  }

  const WELL: Conditions := Conditions(false, true, Built)

  // A file without a fingerprint row.
  const ROWLESS: Files := map["a" := File(true, true, 1, 1, Some(7), false, None, false)]
  const NO_ROWS: State := State(map[], map[], {}, [])

  /** However well its runs go, after any number of cycles the backfill asks for it once more. */
  lemma AskedForEver(n: nat)
    ensures var cycles := seq(n, _ => [Ask, Attempt("a", WELL)]);
            && AreCycles(ROWLESS, NO_ROWS, cycles)
            && Next(ROWLESS, AfterCycles(ROWLESS, NO_ROWS, cycles), Ask).queued == {"a"}
  {
    var asked := Next(ROWLESS, NO_ROWS, Ask);
    assert asked.queued == {"a"};
    assert Next(ROWLESS, asked, Attempt("a", WELL)) == NO_ROWS;
    TwoSteps(ROWLESS, NO_ROWS, Attempt("a", WELL));
    BackWhereItWas(ROWLESS, NO_ROWS, [Ask, Attempt("a", WELL)], n);
  }

  // A file with its row, in a folder that was taken out: deleted before, put back and undone after.
  const HIDDEN: Files := map["/v/a" := File(true, true, 1, 1, Some(7), false, None, false)]
  const TAKEN_OUT: State := State(map["/v/a" := Print(false, None)], map[], {}, ["/v"])

  /** Its task is dropped in every cycle, and the backfill asks for it once more. */
  lemma DroppedForEver(n: nat)
    ensures var cycles := seq(n, _ => [Ask, Attempt("/v/a", WELL)]);
            && AreCycles(HIDDEN, TAKEN_OUT, cycles)
            && Next(HIDDEN, AfterCycles(HIDDEN, TAKEN_OUT, cycles), Ask).queued == {"/v/a"}
  {
    assert TrimEnd("/v") == "/v" && UnderRoot("/v/a", TAKEN_OUT.removed[0]);
    var asked := Next(HIDDEN, TAKEN_OUT, Ask);
    assert asked.queued == {"/v/a"};
    assert Next(HIDDEN, asked, Attempt("/v/a", WELL)) == TAKEN_OUT;
    TwoSteps(HIDDEN, TAKEN_OUT, Attempt("/v/a", WELL));
    BackWhereItWas(HIDDEN, TAKEN_OUT, [Ask, Attempt("/v/a", WELL)], n);
  }

  lemma {:induction false} AnswersStay(files: Files, s: State, cycles: seq<seq<Event>>, p: string)
    requires AreCycles(files, s, cycles) && !Wanted(files, s.prints, p)
    ensures !Wanted(files, AfterCycles(files, s, cycles).prints, p)
    decreases |cycles|
  {
    if cycles != [] {
      StillWanted(files, s, cycles[0], p);
      AnswersStay(files, After(files, s, cycles[0]), cycles[1..], p);
    }
  }

  /** A stored blob, or a marker that is valid for the file as it is. */
  predicate WellAnswered(files: Files, prints: Prints, p: string) {
    p in files && p in prints && (prints[p].blob || ValidMarker(files[p], prints[p].skip))
  }

  lemma RunAnswersWell(files: Files, prints: Prints, q: string, failedRows: nat, c: Conditions, p: string)
    requires Wanted(files, prints, p) || WellAnswered(files, prints, p)
    ensures var after := PartialRun(files, prints, q, failedRows, c).0;
            Wanted(files, after, p) || WellAnswered(files, after, p)
  {
  }

  /** What ends the asking is a stored blob or a valid marker, never a stale one. */
  lemma {:induction false} AnsweredWell(files: Files, s: State, es: seq<Event>, p: string)
    requires AllEnabled(files, s, es) && (Wanted(files, s.prints, p) || WellAnswered(files, s.prints, p))
    ensures Wanted(files, After(files, s, es).prints, p) || WellAnswered(files, After(files, s, es).prints, p)
    decreases |es|
  {
    if es != [] {
      if es[0].Attempt? {
        RunAnswersWell(files, s.prints, es[0].path, FailedCount(s, es[0].path), es[0].c, p);
      }
      AnsweredWell(files, Next(files, s, es[0]), es[1..], p);
    }
  }
}

/**
 * Runs of the queue's tasks around one folder removal. A run is a worker that holds a task; its
 * effect on the file table is one transaction: a decode stores its file if its task still exists,
 * an unchanged file or a copy of a known one is stored without a look at the task, and a Remove
 * takes every file below its path out. The row is settled some time later.
 */
module InFlightIndexing {
  import opened Common
  import opened Paths
  import opened TaskQueue
  import opened Watcher
  import opened FolderRemoval

  /** `passed`: the effect transaction has been committed or refused; only settling the row is left. */
  datatype Run = Run(change: Change, passed: bool)

  datatype State = State(rows: Rows, nextId: TaskId, runs: map<TaskId, Run>, active: set<string>)

  datatype Event =
    | Enqueue(task: Task)
    | Claim(id: TaskId, now: int)
    | Effect(id: TaskId)                                // the run's transaction: decode or Remove
    | StoreUnchecked(id: TaskId)                        // the same for an unchanged file or a twin copy
    | Finish(id: TaskId, now: int)                      // marked done; a Remove only after its transaction
    | Fail(id: TaskId, now: int)                        // marked failed; a Remove does not fail
    | PutBack(id: TaskId, at: int, attempts: int)       // busy or paused, before its effect
    | Delete(id: TaskId)                                // withdrawn; waiting and running Removes never are
    | Activate(path: string)                            // an undo
    | Deactivate(path: string)
    | Hide(roots: seq<string>, kind: string, now: int, rows: Rows, nextId: TaskId)
    | Restart(now: int)                                 // crash and recovery

  predicate Stores(c: Change) {
    c.kind == Upsert || c.kind == ForceUpsert
  }

  ghost predicate Enabled(s: State, e: Event) {
    match e
    case Enqueue(t) => t.state == Pending
    case Claim(id, _) => id in s.rows && s.rows[id].state == Pending && id !in s.runs
    case Effect(id) => id in s.runs && !s.runs[id].passed
    case StoreUnchecked(id) => id in s.runs && !s.runs[id].passed && Stores(s.runs[id].change)
    case Finish(id, _) => id in s.runs && (s.runs[id].passed || s.runs[id].change.kind != Remove)
    case Fail(id, _) => id in s.runs && s.runs[id].change.kind != Remove
    case PutBack(id, _, _) => id in s.runs && !s.runs[id].passed
    case Delete(id) => id in s.rows && !(IsActive(s.rows[id]) && s.rows[id].change.Some? && s.rows[id].change.value.kind == Remove)
    case Activate(_) => true
    case Deactivate(_) => true
    case Hide(roots, kind, now, rows, nextId) => Hidden(s.rows, s.nextId, s.active, roots, kind, now, rows, nextId)
    case Restart(_) => true
  }

  function ClaimStep(s: State, id: TaskId, now: int): State
    requires id in s.rows
  {
    if s.rows[id].change.None? then s.(rows := s.rows[id := s.rows[id].(state := Failed, finishedAt := Some(now))])
    else s.(rows := s.rows[id := Claimed(s.rows[id], now)], runs := s.runs[id := Run(s.rows[id].change.value, false)])
  }

  function Outside(active: set<string>, path: string): set<string> {
    set p | p in active && !ListedUnder(p, path)
  }

  function EffectStep(s: State, id: TaskId): State
    requires id in s.runs
  {
    var c := s.runs[id].change;
    var t := s.(runs := s.runs[id := Run(c, true)]);
    if c.kind == Remove then t.(active := Outside(s.active, c.path))
    else if Stores(c) && id in s.rows then t.(active := s.active + {c.path})
    else t
  }

  function Next(s: State, e: Event): State
    requires Enabled(s, e)
  {
    match e
    case Enqueue(t) => s.(rows := s.rows[s.nextId := t], nextId := s.nextId + 1)
    case Claim(id, now) => ClaimStep(s, id, now)
    case Effect(id) => EffectStep(s, id)
    case StoreUnchecked(id) =>
      s.(runs := s.runs[id := Run(s.runs[id].change, true)], active := s.active + {s.runs[id].change.path})
    case Finish(id, now) =>
      s.(runs := s.runs - {id},
         rows := if id in s.rows then s.rows[id := s.rows[id].(state := Done, finishedAt := Some(now))] else s.rows)
    case Fail(id, now) =>
      s.(runs := s.runs - {id},
         rows := if id in s.rows then s.rows[id := s.rows[id].(state := Failed, finishedAt := Some(now))] else s.rows)
    case PutBack(id, at, attempts) =>
      s.(runs := s.runs - {id},
         rows := if id in s.rows then s.rows[id := RequeueRow(s.rows[id], at, attempts)] else s.rows)
    case Delete(id) => s.(rows := s.rows - {id})
    case Activate(p) => s.(active := s.active + {p})
    case Deactivate(p) => s.(active := s.active - {p})
    case Hide(_, _, _, rows, nextId) => s.(rows := rows, nextId := nextId)
    case Restart(now) => s.(rows := Recovered(s.rows, now), runs := map[])
  }

  const INITIAL: State := State(map[], 1, map[], {})

  /** A run's row is RUNNING unless it was withdrawn, and a Remove's row never is. */
  ghost predicate Inv(s: State) {
    && (forall id :: id in s.rows ==> id < s.nextId)
    && (forall id :: id in s.runs ==> id < s.nextId)
    && (forall id :: id in s.runs && id in s.rows ==> s.rows[id].state == Running && s.rows[id].change == Some(s.runs[id].change))
    && (forall id :: id in s.runs && s.runs[id].change.kind == Remove ==> id in s.rows)
    && (forall id :: id in s.rows && s.rows[id].state == Running ==> id in s.runs)
  }

  lemma RowsEventKeepsInv(s: State, e: Event)
    requires Inv(s) && Enabled(s, e) && (e.Enqueue? || e.Claim? || e.Delete? || e.Restart? || e.Hide?)
    ensures Inv(Next(s, e))
  {
    match e
    case Enqueue(_) =>
    case Claim(_, _) =>
    case Delete(_) =>
    case Restart(now) =>
      assert forall id :: id in s.rows ==> Recovered(s.rows, now)[id].state != Running;
    case Hide(roots, kind, now, rows, nextId) =>
      forall id | id in s.runs && s.runs[id].change.kind == Remove
        ensures id in rows
      {
        assert id in s.rows && s.rows[id].state == Running && !Doomed(s.rows[id], roots);
      }
      forall id | id in rows && id < s.nextId
        ensures id in s.rows && rows[id] == s.rows[id]
      {
      }
      forall id | s.nextId <= id < nextId
        ensures id in rows && rows[id].state == Pending && id !in s.runs
      {
        assert IsNewRemove(rows[id], kind, now);
      }
  }

  lemma RunEventKeepsInv(s: State, e: Event)
    requires Inv(s) && Enabled(s, e) && !(e.Enqueue? || e.Claim? || e.Delete? || e.Restart? || e.Hide?)
    ensures Inv(Next(s, e))
  {
  }

  lemma StepKeepsInv(s: State, e: Event)
    requires Inv(s) && Enabled(s, e)
    ensures Inv(Next(s, e))
  {
    if e.Enqueue? || e.Claim? || e.Delete? || e.Restart? || e.Hide? {
      RowsEventKeepsInv(s, e);
    } else {
      RunEventKeepsInv(s, e);
    }
  }

  ghost predicate AllEnabled(s: State, es: seq<Event>)
    decreases |es|
  {
    es == [] || (Enabled(s, es[0]) && AllEnabled(Next(s, es[0]), es[1..]))
  }

  function After(s: State, es: seq<Event>): State
    requires AllEnabled(s, es)
    decreases |es|
  {
    if es == [] then s else After(Next(s, es[0]), es[1..])
  }

  lemma {:induction false} RunKeepsInv(s: State, es: seq<Event>)
    requires Inv(s) && AllEnabled(s, es)
    ensures Inv(After(s, es))
    decreases |es|
  {
    if es != [] {
      StepKeepsInv(s, es[0]);
      RunKeepsInv(Next(s, es[0]), es[1..]);
    }
  }

  // ---- what covers a listed file ------------------------------------------------------------

  /** A Remove that has still to run for this path or a folder above it. */
  ghost predicate Covers(s: State, id: TaskId, p: string) {
    && id in s.rows && IsActive(s.rows[id])
    && s.rows[id].change.Some? && s.rows[id].change.value.kind == Remove && ListedUnder(p, s.rows[id].change.value.path)
    && (id in s.runs ==> !s.runs[id].passed)
  }

  ghost predicate Covered(s: State, p: string) {
    exists id :: Covers(s, id, p)
  }

  ghost predicate Missed(s: State, p: string) {
    p in s.active && !Covered(s, p)
  }

  predicate Drained(s: State) {
    s.runs == map[] && forall id | id in s.rows :: !IsActive(s.rows[id])
  }

  /** No task that could store a file under the roots is left among the ids below `from`. */
  ghost predicate Withdrawn(s: State, roots: seq<string>, from: TaskId) {
    forall id :: id in s.rows && id < from && IsActive(s.rows[id]) && s.rows[id].change.Some? && UnderAny(s.rows[id].change.value.path, roots) ==>
      s.rows[id].change.value.kind == Remove
  }

  /** Nothing new puts a file under the roots: no undo, and no task queued since. */
  ghost predicate NothingNewUnder(s: State, e: Event, roots: seq<string>, from: TaskId) {
    && (e.Activate? ==> !UnderAny(e.path, roots))
    && ((e.Effect? || e.StoreUnchecked?) && e.id >= from && e.id in s.runs && Stores(s.runs[e.id].change) ==> !UnderAny(s.runs[e.id].change.path, roots))
  }

  ghost predicate AllNothingNew(s: State, es: seq<Event>, roots: seq<string>, from: TaskId)
    requires AllEnabled(s, es)
    decreases |es|
  {
    es == [] || (NothingNewUnder(s, es[0], roots, from) && AllNothingNew(Next(s, es[0]), es[1..], roots, from))
  }

  lemma StaysWithdrawn(s: State, e: Event, roots: seq<string>, from: TaskId)
    requires Inv(s) && Enabled(s, e) && Withdrawn(s, roots, from) && from <= s.nextId
    ensures Withdrawn(Next(s, e), roots, from) && from <= Next(s, e).nextId
  {
    match e
    case Restart(now) =>
      var r := Recovered(s.rows, now);
      forall id | id in r
        ensures IsActive(r[id]) == IsActive(s.rows[id]) && r[id].change == s.rows[id].change
      {
        assert r[id] == RecoveredRow(s.rows[id], now);
      }
    case Hide(_, _, _, rows, _) =>
      assert forall id :: id in rows && id < s.nextId ==> id in s.rows && rows[id] == s.rows[id];
    case _ =>
  }

  /** A run stores the file without a look at its task. */
  predicate StoresUnchecked(s: State, e: Event, p: string) {
    e.StoreUnchecked? && e.id in s.runs && s.runs[e.id].change.path == p
  }

  /** A file under the roots does not come back through a decode that was running when they were hidden. */
  lemma NoComeback(s: State, e: Event, roots: seq<string>, from: TaskId, p: string)
    requires Inv(s) && Enabled(s, e) && Withdrawn(s, roots, from) && NothingNewUnder(s, e, roots, from)
    requires UnderAny(p, roots) && p !in s.active && !StoresUnchecked(s, e, p)
    ensures p !in Next(s, e).active
  {
    if e.Effect? {
      assert e.id in s.runs;
    }
  }

  /** What covers a file keeps covering it until the file is gone. */
  lemma CoverHolds(s: State, e: Event, id: TaskId, p: string)
    requires Inv(s) && Enabled(s, e) && Covers(s, id, p)
    ensures Covers(Next(s, e), id, p) || p !in Next(s, e).active
  {
    match e
    case Restart(now) => assert Recovered(s.rows, now)[id] == RecoveredRow(s.rows[id], now);
    case Hide(roots, _, _, rows, _) =>
      assert !Doomed(s.rows[id], roots) && id in rows && rows[id] == s.rows[id];
    case Effect(x) =>
      if x == id {
        assert s.rows[id].change == Some(s.runs[id].change);
      }
    case _ =>
  }

  lemma MissedOnlyShrinks(s: State, e: Event, roots: seq<string>, from: TaskId, p: string)
    requires Inv(s) && Enabled(s, e) && Withdrawn(s, roots, from) && NothingNewUnder(s, e, roots, from)
    requires UnderAny(p, roots) && Missed(Next(s, e), p) && !(StoresUnchecked(s, e, p) && !Covered(s, p))
    ensures Missed(s, p)
  {
    if Covered(s, p) {
      var id :| Covers(s, id, p);
      CoverHolds(s, e, id, p);
    } else if p !in s.active {
      NoComeback(s, e, roots, from, p);
    }
  }

  /** Somewhere on the way the file is stored unchecked while no Remove for it is to come. */
  ghost predicate StoredUncovered(s: State, es: seq<Event>, p: string)
    requires AllEnabled(s, es)
    decreases |es|
  {
    es != [] && ((StoresUnchecked(s, es[0], p) && !Covered(s, p)) || StoredUncovered(Next(s, es[0]), es[1..], p))
  }

  lemma {:induction false} RunsLeaveOnlyMissed(s: State, es: seq<Event>, roots: seq<string>, from: TaskId, p: string)
    requires Inv(s) && AllEnabled(s, es) && Withdrawn(s, roots, from) && from <= s.nextId && AllNothingNew(s, es, roots, from)
    requires UnderAny(p, roots) && Drained(After(s, es)) && p in After(s, es).active
    ensures Missed(s, p) || StoredUncovered(s, es, p)
    decreases |es|
  {
    if es == [] {
      assert forall id :: !Covers(s, id, p);
    } else {
      StepKeepsInv(s, es[0]);
      StaysWithdrawn(s, es[0], roots, from);
      RunsLeaveOnlyMissed(Next(s, es[0]), es[1..], roots, from, p);
      if !StoredUncovered(s, es, p) {
        MissedOnlyShrinks(s, es[0], roots, from, p);
      }
    }
  }

  // ---- the removal itself -------------------------------------------------------------------

  lemma HideWithdraws(s: State, e: Event)
    requires Inv(s) && Enabled(s, e) && e.Hide?
    ensures Withdrawn(Next(s, e), e.roots, Next(s, e).nextId)
  {
    var t := Next(s, e);
    forall id | id in t.rows && IsActive(t.rows[id]) && t.rows[id].change.Some? && UnderAny(t.rows[id].change.value.path, e.roots)
      ensures t.rows[id].change.value.kind == Remove
    {
      if id < s.nextId {
        assert id in s.rows && t.rows[id] == s.rows[id] && !Doomed(s.rows[id], e.roots);
      } else {
        assert IsNewRemove(t.rows[id], e.kind, e.now);
      }
    }
  }

  predicate IsActiveRemoveOver(t: Task, p: string) {
    IsActive(t) && t.change.Some? && t.change.value.kind == Remove && ListedUnder(p, t.change.value.path)
  }

  /** Every Remove for this path or a folder above it is running and past its transaction, and one is exactly for it. */
  ghost predicate OnlyPassedRemoves(s: State, kind: string, p: string) {
    && RemoveQueued(s.rows, kind, p)
    && (forall id :: id in s.rows && IsActiveRemoveOver(s.rows[id], p) ==> id in s.runs && s.runs[id].passed)
  }

  /** A new Remove is for a listed file, and files have nothing below them: it covers only its own. */
  lemma NewRemoveCoversItsOwn(s: State, e: Event, id: TaskId, p: string)
    requires Inv(s) && Enabled(s, e) && e.Hide? && s.nextId <= id < e.nextId
    requires forall q :: q in s.active && ListedUnder(p, q) ==> q == p
    ensures !IsRemoveOf(e.rows[id], p) ==> !Covers(Next(s, e), id, p)
    ensures IsRemoveOf(e.rows[id], p) ==> !RemoveQueued(s.rows, e.kind, p)
  {
    assert IsNewRemove(e.rows[id], e.kind, e.now);
  }

  lemma HiddenKeepsOld(s: State, e: Event)
    requires Inv(s) && Enabled(s, e) && e.Hide?
    ensures forall id :: id in e.rows && id < s.nextId ==> id in s.rows && e.rows[id] == s.rows[id]
  {
  }

  lemma NotQueuedIsCovered(s: State, e: Event, p: string)
    requires Inv(s) && Enabled(s, e) && e.Hide?
    requires UnderAny(p, e.roots) && p in s.active && TrimEnd(p) == p && !RemoveQueued(s.rows, e.kind, p)
    ensures Covered(Next(s, e), p)
  {
    HiddenKeepsOld(s, e);
    var id := WitnessIsNew(s.rows, s.nextId, e.rows, e.kind, p);
    assert id !in s.runs;
    UnderAnyIsListed(p, e.roots);
    assert ListedUnder(p, p);
    assert Covers(Next(s, e), id, p);
  }

  /**
   * Which listed files a removal misses, read off the moment before it: those whose only Removes
   * are running ones that have already been through the file table. (Stored paths end in no slash.)
   */
  lemma MissedByHide(s: State, e: Event, p: string)
    requires Inv(s) && Enabled(s, e) && e.Hide?
    requires UnderAny(p, e.roots) && p in s.active && TrimEnd(p) == p
    requires forall q :: q in s.active && ListedUnder(p, q) ==> q == p
    ensures Missed(Next(s, e), p) <==> OnlyPassedRemoves(s, e.kind, p)
  {
    var t := Next(s, e);
    if OnlyPassedRemoves(s, e.kind, p) {
      forall id | id in t.rows
        ensures !Covers(t, id, p)
      {
        if id < s.nextId {
          assert t.rows[id] == s.rows[id];
        } else {
          NewRemoveCoversItsOwn(s, e, id, p);
        }
      }
    } else if !RemoveQueued(s.rows, e.kind, p) {
      NotQueuedIsCovered(s, e, p);
    } else {
      var id :| id in s.rows && IsActiveRemoveOver(s.rows[id], p) && !(id in s.runs && s.runs[id].passed);
      assert !Doomed(s.rows[id], e.roots) && id in t.rows && t.rows[id] == s.rows[id];
      assert Covers(t, id, p);
    }
  }

  /**
   * The removal, any run of workers, crashes and further removals after it, and a queue drained in
   * the end: a file under the removed roots is still listed only if the removal missed it, or a
   * run stored it without a look at its task when no Remove for it was to come. A run that was in
   * the middle of a decode has either stored its file before, and then a Remove covers it, or
   * finds its task gone.
   */
  lemma NothingLeftUnderTheRoots(before: seq<Event>, e: Event, after: seq<Event>, p: string)
    requires AllEnabled(INITIAL, before) && e.Hide? && Enabled(After(INITIAL, before), e)
    requires AllEnabled(Next(After(INITIAL, before), e), after)
    requires AllNothingNew(Next(After(INITIAL, before), e), after, e.roots, e.nextId)
    requires Drained(After(Next(After(INITIAL, before), e), after))
    requires UnderAny(p, e.roots) && p in After(Next(After(INITIAL, before), e), after).active
    requires TrimEnd(p) == p && forall q :: q in After(INITIAL, before).active && ListedUnder(p, q) ==> q == p
    ensures (p in After(INITIAL, before).active && OnlyPassedRemoves(After(INITIAL, before), e.kind, p))
            || StoredUncovered(Next(After(INITIAL, before), e), after, p)
  {
    var s := After(INITIAL, before);
    RunKeepsInv(INITIAL, before);
    StepKeepsInv(s, e);
    HideWithdraws(s, e);
    RunsLeaveOnlyMissed(Next(s, e), after, e.roots, e.nextId, p);
    if !StoredUncovered(Next(s, e), after, p) {
      MissedByHide(s, e, p);
    }
  }

  /** A decode under the roots that was running when they were hidden never stores, whenever it ends. */
  lemma LateStoreIsRefused(s: State, e: Event, after: seq<Event>, id: TaskId)
    requires Inv(s) && Enabled(s, e) && e.Hide? && AllEnabled(Next(s, e), after)
    requires id in s.runs && Stores(s.runs[id].change) && UnderAny(s.runs[id].change.path, e.roots)
    ensures var t := After(Next(s, e), after);
            id in t.runs && t.runs[id] == s.runs[id] && !t.runs[id].passed ==>
              Enabled(t, Effect(id)) && Next(t, Effect(id)).active == t.active
  {
    StepKeepsInv(s, e);
    HideWithdraws(s, e);
    KeepsWithdrawn(Next(s, e), after, e.roots, e.nextId);
    RunKeepsInv(Next(s, e), after);
  }

  lemma {:induction false} KeepsWithdrawn(s: State, es: seq<Event>, roots: seq<string>, from: TaskId)
    requires Inv(s) && AllEnabled(s, es) && Withdrawn(s, roots, from) && from <= s.nextId
    ensures Withdrawn(After(s, es), roots, from)
    decreases |es|
  {
    if es != [] {
      StepKeepsInv(s, es[0]);
      StaysWithdrawn(s, es[0], roots, from);
      KeepsWithdrawn(Next(s, es[0]), es[1..], roots, from);
    }
  }

  // ---- the other half: what is missed stays -----------------------------------------------------

  /** No new tasks, no crash, and nobody else touches the file table. */
  predicate OnlyWorkers(e: Event) {
    e.Claim? || e.Effect? || e.StoreUnchecked? || e.Finish? || e.Fail? || e.PutBack?
  }

  lemma MissedStays(s: State, e: Event, p: string)
    requires Inv(s) && Enabled(s, e) && OnlyWorkers(e) && Missed(s, p)
    ensures Missed(Next(s, e), p)
  {
    var t := Next(s, e);
    if e.Effect? && s.runs[e.id].change.kind == Remove && ListedUnder(p, s.runs[e.id].change.path) {
      assert Covers(s, e.id, p);
      assert false;
    }
    forall id
      ensures !Covers(t, id, p)
    {
      assert !Covers(s, id, p);
    }
  }

  lemma {:induction false} RunsKeepMissed(s: State, es: seq<Event>, p: string)
    requires Inv(s) && AllEnabled(s, es) && (forall e :: e in es ==> OnlyWorkers(e)) && Missed(s, p)
    ensures p in After(s, es).active
    decreases |es|
  {
    if es != [] {
      assert es[0] in es;
      StepKeepsInv(s, es[0]);
      MissedStays(s, es[0], p);
      assert forall e :: e in es[1..] ==> e in es;
      RunsKeepMissed(Next(s, es[0]), es[1..], p);
    }
  }

  /** What is stored while nothing covers it is missed from then on. */
  lemma StoredIsMissed(s: State, e: Event, p: string)
    requires Inv(s) && Enabled(s, e) && StoresUnchecked(s, e, p) && !Covered(s, p)
    ensures Missed(Next(s, e), p)
  {
    forall id
      ensures !Covers(Next(s, e), id, p)
    {
      assert !Covers(s, id, p);
    }
  }

  lemma {:induction false} RunsKeepStored(s: State, es: seq<Event>, p: string)
    requires Inv(s) && AllEnabled(s, es) && (forall e :: e in es ==> OnlyWorkers(e)) && StoredUncovered(s, es, p)
    ensures p in After(s, es).active
    decreases |es|
  {
    assert es[0] in es;
    StepKeepsInv(s, es[0]);
    assert forall e :: e in es[1..] ==> e in es;
    if StoresUnchecked(s, es[0], p) && !Covered(s, p) {
      StoredIsMissed(s, es[0], p);
      RunsKeepMissed(Next(s, es[0]), es[1..], p);
    } else {
      RunsKeepStored(Next(s, es[0]), es[1..], p);
    }
  }

  lemma {:induction false} WorkersAddNothingNew(s: State, es: seq<Event>, roots: seq<string>, from: TaskId)
    requires Inv(s) && AllEnabled(s, es) && (forall e :: e in es ==> OnlyWorkers(e)) && s.nextId <= from
    ensures AllNothingNew(s, es, roots, from)
    decreases |es|
  {
    if es != [] {
      assert es[0] in es;
      StepKeepsInv(s, es[0]);
      assert forall e :: e in es[1..] ==> e in es;
      WorkersAddNothingNew(Next(s, es[0]), es[1..], roots, from);
    }
  }

  /**
   * When the workers just drain what the removal left behind, the files under the roots that are
   * still listed are exactly the listed ones whose only Removes were past their transaction, and
   * those that a run stored without a look at its task when no Remove for them was to come.
   */
  lemma LeftExactlyWhatWasMissed(s: State, e: Event, drain: seq<Event>, p: string)
    requires Inv(s) && Enabled(s, e) && e.Hide? && AllEnabled(Next(s, e), drain)
    requires (forall d :: d in drain ==> OnlyWorkers(d)) && Drained(After(Next(s, e), drain))
    requires UnderAny(p, e.roots) && TrimEnd(p) == p && (forall q :: q in s.active && ListedUnder(p, q) ==> q == p)
    ensures p in After(Next(s, e), drain).active <==>
            (p in s.active && OnlyPassedRemoves(s, e.kind, p)) || StoredUncovered(Next(s, e), drain, p)
  {
    var t := Next(s, e);
    StepKeepsInv(s, e);
    HideWithdraws(s, e);
    WorkersAddNothingNew(t, drain, e.roots, e.nextId);
    if p in After(t, drain).active {
      RunsLeaveOnlyMissed(t, drain, e.roots, e.nextId, p);
      if !StoredUncovered(t, drain, p) {
        MissedByHide(s, e, p);
      }
    } else if p in s.active && OnlyPassedRemoves(s, e.kind, p) {
      MissedByHide(s, e, p);
      RunsKeepMissed(t, drain, p);
    } else if StoredUncovered(t, drain, p) {
      RunsKeepStored(t, drain, p);
    }
  }

  // ---- which files can be left, told beforehand -----------------------------------------------

  /** An upsert of the file is running and has not written anything yet. */
  ghost predicate StoreUnderWay(s: State, p: string) {
    exists id :: id in s.runs && !s.runs[id].passed && Stores(s.runs[id].change) && s.runs[id].change.path == p
  }

  /** Below the roots no run begins any more: who can still store was running when they were hidden. */
  lemma StoreWasUnderWay(s: State, e: Event, roots: seq<string>, from: TaskId, p: string)
    requires Inv(s) && Enabled(s, e) && OnlyWorkers(e) && Withdrawn(s, roots, from) && from == s.nextId && UnderAny(p, roots)
    requires StoreUnderWay(Next(s, e), p)
    ensures StoreUnderWay(s, p)
  {
    var t := Next(s, e);
    var id :| id in t.runs && !t.runs[id].passed && Stores(t.runs[id].change) && t.runs[id].change.path == p;
    assert !(e.Claim? && e.id == id);
    assert id in s.runs && s.runs[id] == t.runs[id];
  }

  lemma {:induction false} StoredWasUnderWay(s: State, es: seq<Event>, roots: seq<string>, from: TaskId, p: string)
    requires Inv(s) && AllEnabled(s, es) && (forall e :: e in es ==> OnlyWorkers(e))
    requires Withdrawn(s, roots, from) && from == s.nextId && UnderAny(p, roots)
    requires StoredUncovered(s, es, p)
    ensures StoreUnderWay(s, p)
    decreases |es|
  {
    if !StoresUnchecked(s, es[0], p) || Covered(s, p) {
      assert es[0] in es;
      StepKeepsInv(s, es[0]);
      StaysWithdrawn(s, es[0], roots, from);
      assert forall e :: e in es[1..] ==> e in es;
      StoredWasUnderWay(Next(s, es[0]), es[1..], roots, from, p);
      StoreWasUnderWay(s, es[0], roots, from, p);
    }
  }

  /** The tasks with something left to do. */
  ghost function Open(s: State): set<TaskId> {
    (set id | id in s.rows && IsActive(s.rows[id])) + s.runs.Keys
  }

  lemma {:induction false} AllThen(s: State, a: seq<Event>, b: seq<Event>)
    requires AllEnabled(s, a) && AllEnabled(After(s, a), b)
    ensures AllEnabled(s, a + b) && After(s, a + b) == After(After(s, a), b)
    decreases |a|
  {
    if a == [] {
      assert [] + b == b;
    } else {
      hide Enabled, Next;
      assert (a + b)[0] == a[0] && (a + b)[1..] == a[1..] + b;
      AllThen(Next(s, a[0]), a[1..], b);
    }
  }

  /** The run's transaction leaves the tasks and the other runs alone. */
  lemma PassRun(s: State, e: Event, id: TaskId)
    requires Inv(s) && id in s.runs && !s.runs[id].passed && e in {Effect(id), StoreUnchecked(id)} && Enabled(s, e)
    ensures var t := Next(s, e);
            Inv(t) && t.rows == s.rows && t.runs == s.runs[id := Run(s.runs[id].change, true)] && Open(t) == Open(s)
  {
    StepKeepsInv(s, e);
    assert Next(s, e).runs.Keys == s.runs.Keys;
  }

  /** A run is brought to its end. */
  lemma EndRun(s: State, id: TaskId) returns (es: seq<Event>)
    requires Inv(s) && id in s.runs
    ensures AllEnabled(s, es) && (forall e :: e in es ==> OnlyWorkers(e))
    ensures Inv(After(s, es)) && After(s, es).runs == s.runs - {id} && Open(After(s, es)) == Open(s) - {id}
  {
    if s.runs[id].passed {
      FinishRun(s, id);
      assert Enabled(s, Finish(id, 0));
      hide Inv, Enabled, Next, Open;
      FirstThen(s, Finish(id, 0), []);
      return [Finish(id, 0)] + [];
    }
    var t := Next(s, Effect(id));
    PassRun(s, Effect(id), id);
    FinishRun(t, id);
    assert Enabled(t, Finish(id, 0));
    hide Inv, Enabled, Next, Open;
    assert t.runs - {id} == s.runs - {id};
    FirstThen(t, Finish(id, 0), []);
    FirstThen(s, Effect(id), [Finish(id, 0)] + []);
    es := [Effect(id)] + ([Finish(id, 0)] + []);
  }

  lemma FinishRun(s: State, id: TaskId)
    requires Inv(s) && id in s.runs && s.runs[id].passed
    ensures var t := Next(s, Finish(id, 0));
            Inv(t) && t.runs == s.runs - {id} && Open(t) == Open(s) - {id}
  {
    StepKeepsInv(s, Finish(id, 0));
  }

  /** A waiting task is claimed: it has a run then, or it was unreadable and has failed. */
  lemma ClaimOne(s: State, id: TaskId)
    requires Inv(s) && id in Open(s) && id !in s.runs
    ensures Enabled(s, Claim(id, 0))
    ensures var t := Next(s, Claim(id, 0));
            Inv(t) && if id in t.runs then t.runs - {id} == s.runs && Open(t) == Open(s) else t.runs == s.runs && Open(t) == Open(s) - {id}
  {
    assert id in s.rows && IsActive(s.rows[id]) && s.rows[id].state == Pending;
    StepKeepsInv(s, Claim(id, 0));
  }

  lemma SettleOne(s: State, id: TaskId) returns (es: seq<Event>)
    requires Inv(s) && id in Open(s)
    ensures AllEnabled(s, es) && (forall e :: e in es ==> OnlyWorkers(e))
    ensures Inv(After(s, es)) && After(s, es).runs == s.runs - {id} && Open(After(s, es)) == Open(s) - {id}
  {
    if id in s.runs {
      es := EndRun(s, id);
    } else {
      ClaimOne(s, id);
      var t := Next(s, Claim(id, 0));
      hide Inv, Enabled, Next, Open;
      var rest: seq<Event> := [];
      assert AllEnabled(t, []) && After(t, []) == t;
      if id in t.runs {
        rest := EndRun(t, id);
      }
      FirstThen(s, Claim(id, 0), rest);
      es := [Claim(id, 0)] + rest;
    }
  }

  /** The workers can settle every task but one, and leave that one's run where it is. */
  lemma SettleOthers(s: State, keep: set<TaskId>) returns (es: seq<Event>)
    requires Inv(s)
    ensures AllEnabled(s, es) && (forall e :: e in es ==> OnlyWorkers(e))
    ensures Inv(After(s, es)) && Open(After(s, es)) == Open(s) * keep
    ensures forall id :: id in keep && id in s.runs ==> id in After(s, es).runs && After(s, es).runs[id] == s.runs[id]
    decreases |Open(s) - keep|
  {
    hide Inv, Enabled, Next, Open, OnlyWorkers;
    if Open(s) - keep == {} {
      assert Open(s) == Open(s) * keep;
      return [];
    }
    NonEmpty(Open(s) - keep);
    var id := AnElement(Open(s) - keep);
    var first := SettleOne(s, id);
    var t := After(s, first);
    assert Open(t) - keep == Open(s) - keep - {id};
    var rest := SettleOthers(t, keep);
    assert Open(t) * keep == Open(s) * keep;
    AllThen(s, first, rest);
    es := first + rest;
  }

  lemma NothingOpen(s: State)
    ensures Open(s) == {} <==> Drained(s)
  {
    if Drained(s) {
      assert forall id :: id !in Open(s);
    } else if s.runs == map[] {
      var id :| id in s.rows && IsActive(s.rows[id]);
      assert id in Open(s);
    } else {
      assert s.runs.Keys == {} ==> s.runs == map[];
      NonEmpty(s.runs.Keys);
      var id := AnElement(s.runs.Keys);
      assert id in Open(s);
    }
  }

  /** A way for the workers to drain the queue that leaves the file listed. */
  ghost predicate CanBeLeft(s: State, p: string) {
    exists drain :: AllEnabled(s, drain) && (forall d :: d in drain ==> OnlyWorkers(d))
                    && Drained(After(s, drain)) && p in After(s, drain).active
  }

  lemma MissedCanBeLeft(s: State, p: string)
    requires Inv(s) && Missed(s, p)
    ensures CanBeLeft(s, p)
  {
    var drain := SettleOthers(s, {});
    NothingOpen(After(s, drain));
    RunsKeepMissed(s, drain, p);
  }

  /** All other tasks are settled first; then the run stores the file, and nobody is left to take it out. */
  lemma UnderWayCanBeLeft(s: State, roots: seq<string>, p: string, id: TaskId)
    requires Inv(s) && Withdrawn(s, roots, s.nextId) && UnderAny(p, roots)
    requires id in s.runs && !s.runs[id].passed && Stores(s.runs[id].change) && s.runs[id].change.path == p
    ensures CanBeLeft(s, p)
  {
    var others := SettleOthers(s, {id});
    var t := After(s, others);
    assert id in t.runs && t.runs[id] == s.runs[id];
    var u := Next(t, StoreUnchecked(id));
    PassRun(t, StoreUnchecked(id), id);
    FinishRun(u, id);
    var v := Next(u, Finish(id, 0));
    assert Enabled(u, Finish(id, 0)) && p in v.active;
    hide Inv, Enabled, Next, Open;
    assert Open(v) == Open(s) * {id} - {id} == {};
    NothingOpen(v);
    FirstThen(u, Finish(id, 0), []);
    FirstThen(t, StoreUnchecked(id), [Finish(id, 0)] + []);
    var last := [StoreUnchecked(id)] + ([Finish(id, 0)] + []);
    AllThen(s, others, last);
    assert p in After(s, others + last).active;
  }

  /**
   * Which files under the roots the workers may leave listed can be told from the moment before
   * the removal: exactly the listed ones whose only Removes are past their transaction, and those
   * with an upsert that is running and has not written yet.
   */
  lemma CanBeLeftIff(s: State, e: Event, p: string)
    requires Inv(s) && Enabled(s, e) && e.Hide?
    requires UnderAny(p, e.roots) && TrimEnd(p) == p && (forall q :: q in s.active && ListedUnder(p, q) ==> q == p)
    ensures CanBeLeft(Next(s, e), p) <==> (p in s.active && OnlyPassedRemoves(s, e.kind, p)) || StoreUnderWay(s, p)
  {
    var t := Next(s, e);
    StepKeepsInv(s, e);
    HideWithdraws(s, e);
    assert t.runs == s.runs && t.active == s.active && t.nextId == e.nextId;
    if p in s.active && OnlyPassedRemoves(s, e.kind, p) {
      MissedByHide(s, e, p);
      MissedCanBeLeft(t, p);
    }
    if StoreUnderWay(s, p) {
      var id :| id in s.runs && !s.runs[id].passed && Stores(s.runs[id].change) && s.runs[id].change.path == p;
      UnderWayCanBeLeft(t, e.roots, p, id);
    }
    if CanBeLeft(t, p) {
      var drain :| AllEnabled(t, drain) && (forall d :: d in drain ==> OnlyWorkers(d))
                   && Drained(After(t, drain)) && p in After(t, drain).active;
      LeftExactlyWhatWasMissed(s, e, drain, p);
      if StoredUncovered(t, drain, p) {
        StoredWasUnderWay(t, drain, e.roots, e.nextId, p);
      }
    }
  }

  // ---- two ways to be left --------------------------------------------------------------------

  lemma FirstThen(s: State, e: Event, es: seq<Event>)
    requires Enabled(s, e) && AllEnabled(Next(s, e), es)
    ensures AllEnabled(s, [e] + es) && After(s, [e] + es) == After(Next(s, e), es)
  {
    assert ([e] + es)[1..] == es;
  }

  lemma SixEvents(s: State, a: Event, b: Event, c: Event, d: Event, e: Event, f: Event)
    requires Enabled(s, a) && Enabled(Next(s, a), b)
    requires Enabled(Next(Next(s, a), b), c) && Enabled(Next(Next(Next(s, a), b), c), d)
    requires var t := Next(Next(Next(Next(s, a), b), c), d); Enabled(t, e) && Enabled(Next(t, e), f)
    ensures var es := [a] + ([b] + ([c] + ([d] + ([e] + ([f] + [])))));
            AllEnabled(s, es) && After(s, es) == Next(Next(Next(Next(Next(Next(s, a), b), c), d), e), f)
  {
    var s1 := Next(s, a);
    var s2 := Next(s1, b);
    var s3 := Next(s2, c);
    var s4 := Next(s3, d);
    var s5 := Next(s4, e);
    FirstThen(s5, f, []);
    FirstThen(s4, e, [f] + []);
    FirstThen(s3, d, [e] + ([f] + []));
    FirstThen(s2, c, [d] + ([e] + ([f] + [])));
    FirstThen(s1, b, [c] + ([d] + ([e] + ([f] + []))));
    FirstThen(s, a, [b] + ([c] + ([d] + ([e] + ([f] + [])))));
  }

  /** An upsert and a Remove of one file, both running; the Remove goes through first, then the decode stores. */
  lemma StoredBehindItsRemove(p: string, a: Task, b: Task) returns (before: seq<Event>)
    requires a == NewTask(Change(p, Upsert), a.kind, 0, 0, a.size) && b == NewTask(Change(p, Remove), b.kind, 0, 0, b.size)
    ensures AllEnabled(INITIAL, before)
    ensures var s := After(INITIAL, before);
            && s.rows == map[1 := Claimed(a, 0), 2 := Claimed(b, 0)] && s.nextId == 3 && s.active == {p}
            && s.runs == map[1 := Run(Change(p, Upsert), true), 2 := Run(Change(p, Remove), true)]
  {
    var e1, e2, e3, e4, e5, e6 := Enqueue(a), Claim(1, 0), Enqueue(b), Claim(2, 0), Effect(2), Effect(1);
    SixEvents(INITIAL, e1, e2, e3, e4, e5, e6);
    before := [e1] + ([e2] + ([e3] + ([e4] + ([e5] + ([e6] + [])))));
  }

  /** Settling both runs drains the queue and leaves the file. */
  lemma BothSettle(t: State, p: string, b: Task) returns (drain: seq<Event>)
    requires t.rows == map[2 := Claimed(b, 0)] && t.active == {p}
    requires t.runs == map[1 := Run(Change(p, Upsert), true), 2 := Run(Change(p, Remove), true)]
    ensures AllEnabled(t, drain) && (forall d :: d in drain ==> OnlyWorkers(d))
    ensures Drained(After(t, drain)) && After(t, drain).active == {p}
  {
    var f1, f2 := Finish(2, 0), Finish(1, 0);
    FirstThen(Next(t, f1), f2, []);
    FirstThen(t, f1, [f2] + []);
    drain := [f1] + ([f2] + []);
    assert Next(Next(t, f1), f2).runs == map[];
  }

  /**
   * How a file is missed. While it is being decoded it disappears, and its Remove goes through the
   * file table before the decode stores the file. If the folder is taken out before that Remove is
   * marked done, it counts as the file's Remove, and no other one follows.
   */
  lemma AFileIsMissed(p: string, root: string, kind: string) returns (before: seq<Event>, e: Event, drain: seq<Event>)
    requires UnderRoot(p, root)
    ensures AllEnabled(INITIAL, before) && e.Hide? && e.roots == [root] && Enabled(After(INITIAL, before), e)
    ensures AllEnabled(Next(After(INITIAL, before), e), drain) && (forall d :: d in drain ==> OnlyWorkers(d))
    ensures var t := After(Next(After(INITIAL, before), e), drain);
            Drained(t) && p in t.active
  {
    var a, b := NewTask(Change(p, Upsert), kind, 0, 0, 0), NewTask(Change(p, Remove), kind, 0, 0, 0);
    before := StoredBehindItsRemove(p, a, b);
    e := Hide([root], kind, 0, map[2 := Claimed(b, 0)], 3);
    HideFindsARemove(p, root, kind, After(INITIAL, before), a, b);
    drain := BothSettle(Next(After(INITIAL, before), e), p, b);
  }

  lemma HideFindsARemove(p: string, root: string, kind: string, s: State, a: Task, b: Task)
    requires UnderRoot(p, root) && a == NewTask(Change(p, Upsert), kind, 0, 0, 0) && b == NewTask(Change(p, Remove), kind, 0, 0, 0)
    requires s.rows == map[1 := Claimed(a, 0), 2 := Claimed(b, 0)] && s.nextId == 3 && s.active == {p}
    ensures Enabled(s, Hide([root], kind, 0, map[2 := Claimed(b, 0)], 3))
  {
    assert UnderRoot(p, [root][0]);
    assert Doomed(s.rows[1], [root]) && !Doomed(s.rows[2], [root]);
    var rows := map[2 := Claimed(b, 0)];
    assert IsActive(rows[2]) && rows[2].kind == kind && IsRemoveOf(rows[2], p);
    assert RemoveQueued(rows, kind, p);
  }

  /**
   * The other way. A deleted file is back and its upsert has been claimed. The folder is taken
   * out: the file is not listed, so no Remove is queued, and the upsert's task is withdrawn. But
   * the file turns out unchanged, and its row becomes active again without a look at the task.
   */
  lemma AnUncheckedStoreIsLeft(p: string, root: string, kind: string) returns (before: seq<Event>, e: Event, drain: seq<Event>)
    requires UnderRoot(p, root)
    ensures AllEnabled(INITIAL, before) && p !in After(INITIAL, before).active
    ensures e.Hide? && e.roots == [root] && Enabled(After(INITIAL, before), e)
    ensures AllEnabled(Next(After(INITIAL, before), e), drain) && (forall d :: d in drain ==> OnlyWorkers(d))
    ensures var t := After(Next(After(INITIAL, before), e), drain);
            Drained(t) && p in t.active
  {
    var a := NewTask(Change(p, Upsert), kind, 0, 0, 0);
    var s1 := Next(INITIAL, Enqueue(a));
    var s2 := Next(s1, Claim(1, 0));
    FirstThen(s1, Claim(1, 0), []);
    FirstThen(INITIAL, Enqueue(a), [Claim(1, 0)] + []);
    before := [Enqueue(a)] + ([Claim(1, 0)] + []);
    assert s2.rows == map[1 := Claimed(a, 0)] && s2.active == {} && s2.runs == map[1 := Run(Change(p, Upsert), false)];
    e := Hide([root], kind, 0, map[], 2);
    assert UnderRoot(p, [root][0]) && Doomed(s2.rows[1], [root]);
    var t := Next(s2, e);
    var u := Next(t, StoreUnchecked(1));
    FirstThen(u, Finish(1, 0), []);
    FirstThen(t, StoreUnchecked(1), [Finish(1, 0)] + []);
    drain := [StoreUnchecked(1)] + ([Finish(1, 0)] + []);
    assert Next(u, Finish(1, 0)).runs == map[];
  }
}

/**
 * Register, deregister, mark and clear from any number of threads, one lock step at a time.
 * Memory is sequentially consistent; the two mutexes are explicit, so deadlock can be discussed.
 */
module Cancellation {
  import opened Common
  import opened Paths
  import opened Throttle

  type Tid = nat

  /** Where a thread is. Between two steps of its own any other thread may run. */
  datatype Pc =
    | Idle
    | RegisterStart(path: string, token: Token)      // wants active_decodes
    | RegisterOuter(path: string, token: Token)      // holds active_decodes, wants removed_roots
    | RegisterCheck(path: string, token: Token)      // holds both
    | RegisterPush(path: string, token: Token)       // holds active_decodes
    | Decoding(token: Token)                         // owns a registration
    | DropStart(token: Token)                        // wants active_decodes
    | DropRetain(token: Token)                       // holds active_decodes
    | MarkStart(roots: seq<string>)                  // wants removed_roots
    | MarkExtend(roots: seq<string>)                 // holds removed_roots
    | MarkBetween(roots: seq<string>)                // between its two critical sections
    | MarkFire(roots: seq<string>, next: nat)        // holds active_decodes, next entry to look at
    | ClearStart(added: string)                      // wants removed_roots
    | ClearRetain(added: string)                     // holds removed_roots

  /** `everMarked` and `pathOf` only record history. */
  datatype State = State(
    pcs: map<Tid, Pc>,
    activeLock: Option<Tid>, removedLock: Option<Tid>,
    removed: seq<string>, active: seq<Decode>, fired: set<Token>, nextToken: Token,
    everMarked: set<string>, pathOf: map<Token, string>)

  datatype Call =
    | CallRegister(path: string)
    | CallMark(roots: seq<string>)
    | CallClear(added: string)
    | CallDrop

  datatype Event = Begin(t: Tid, call: Call) | Advance(t: Tid)

  predicate HoldsActive(pc: Pc) {
    pc.RegisterOuter? || pc.RegisterCheck? || pc.RegisterPush? || pc.DropRetain? || pc.MarkFire?
  }

  predicate HoldsRemoved(pc: Pc) {
    pc.RegisterCheck? || pc.MarkExtend? || pc.ClearRetain?
  }

  predicate WantsActive(pc: Pc) {
    pc.RegisterStart? || pc.DropStart? || pc.MarkBetween?
  }

  predicate WantsRemoved(pc: Pc) {
    pc.RegisterOuter? || pc.MarkStart? || pc.ClearStart?
  }

  predicate CanAdvance(s: State, t: Tid) {
    && t in s.pcs
    && !s.pcs[t].Idle? && !s.pcs[t].Decoding?
    && (WantsActive(s.pcs[t]) ==> s.activeLock == None)
    && (WantsRemoved(s.pcs[t]) ==> s.removedLock == None)
  }

  predicate Enabled(s: State, e: Event) {
    match e
    case Advance(t) => CanAdvance(s, t)
    case Begin(t, CallDrop) => t in s.pcs && s.pcs[t].Decoding?
    case Begin(t, _) => t in s.pcs && s.pcs[t].Idle?
  }

  function At(s: State, t: Tid, pc: Pc): State {
    s.(pcs := s.pcs[t := pc])
  }

  function Next(s: State, e: Event): State
    requires Enabled(s, e)
  {
    match e
    case Begin(t, CallRegister(path)) =>
      At(s, t, RegisterStart(path, s.nextToken)).(nextToken := s.nextToken + 1, pathOf := s.pathOf[s.nextToken := path])
    case Begin(t, CallMark(roots)) => if roots == [] then s else At(s, t, MarkStart(roots))
    case Begin(t, CallClear(added)) => At(s, t, ClearStart(added))
    case Begin(t, CallDrop) => At(s, t, DropStart(s.pcs[t].token))
    case Advance(t) => Moved(s, t)
  }

  function Moved(s: State, t: Tid): State
    requires CanAdvance(s, t)
  {
    match s.pcs[t]
    case RegisterStart(path, token) => At(s, t, RegisterOuter(path, token)).(activeLock := Some(t))
    case RegisterOuter(path, token) => At(s, t, RegisterCheck(path, token)).(removedLock := Some(t))
    case RegisterCheck(path, token) =>
      At(s, t, RegisterPush(path, token)).(
        removedLock := None, fired := if UnderAny(path, s.removed) then s.fired + {token} else s.fired)
    case RegisterPush(path, token) =>
      At(s, t, Decoding(token)).(activeLock := None, active := s.active + [Decode(path, token)])
    case DropStart(token) => At(s, t, DropRetain(token)).(activeLock := Some(t))
    case DropRetain(token) => At(s, t, Idle).(activeLock := None, active := Without(s.active, token))
    case MarkStart(roots) => At(s, t, MarkExtend(roots)).(removedLock := Some(t))
    case MarkExtend(roots) =>
      At(s, t, MarkBetween(roots)).(
        removedLock := None, removed := s.removed + roots, everMarked := s.everMarked + (set r | r in roots))
    case MarkBetween(roots) => At(s, t, MarkFire(roots, 0)).(activeLock := Some(t))
    case MarkFire(roots, n) =>
      if n < |s.active| then
        At(s, t, MarkFire(roots, n + 1)).(
          fired := if UnderAny(s.active[n].path, roots) then s.fired + {s.active[n].token} else s.fired)
      else At(s, t, Idle).(activeLock := None)
    case ClearStart(added) => At(s, t, ClearRetain(added)).(removedLock := Some(t))
    case ClearRetain(added) => At(s, t, Idle).(removedLock := None, removed := Cleared(s.removed, added))
  }

  ghost predicate Init(s: State) {
    && (forall t :: t in s.pcs ==> s.pcs[t].Idle?)
    && s.activeLock == None && s.removedLock == None
    && s.removed == [] && s.active == [] && s.fired == {} && s.everMarked == {} && s.pathOf == map[] && s.nextToken == 0
  }

  // ---- the invariant ------------------------------------------------------------------------

  ghost function ActiveHolders(pcs: map<Tid, Pc>): set<Tid> {
    set t | t in pcs && HoldsActive(pcs[t])
  }

  ghost function RemovedHolders(pcs: map<Tid, Pc>): set<Tid> {
    set t | t in pcs && HoldsRemoved(pcs[t])
  }

  ghost function Holder(lock: Option<Tid>): set<Tid> {
    if lock.Some? then {lock.value} else {}
  }

  /** Each mutex is held by the one thread whose position says so. */
  ghost predicate LocksHeld(s: State) {
    ActiveHolders(s.pcs) == Holder(s.activeLock) && RemovedHolders(s.pcs) == Holder(s.removedLock)
  }

  predicate HasToken(pc: Pc) {
    pc.RegisterStart? || pc.RegisterOuter? || pc.RegisterCheck? || pc.RegisterPush?
    || pc.Decoding? || pc.DropStart? || pc.DropRetain?
  }

  predicate Registered(pc: Pc) {
    pc.Decoding? || pc.DropStart? || pc.DropRetain?
  }

  /** No two threads share a token, and every token knows its path. */
  ghost predicate TokensDistinct(s: State) {
    && (forall t, u :: t in s.pcs && u in s.pcs && t != u && HasToken(s.pcs[t]) && HasToken(s.pcs[u])
          ==> s.pcs[t].token != s.pcs[u].token)
    && (forall t :: t in s.pcs && HasToken(s.pcs[t]) ==> s.pcs[t].token in s.pathOf)
    && (forall k :: k in s.pathOf ==> k < s.nextToken)
    && (forall t :: t in s.pcs && HasToken(s.pcs[t]) && !Registered(s.pcs[t]) ==> s.pathOf[s.pcs[t].token] == s.pcs[t].path)
  }

  ghost predicate HasOwner(pcs: map<Tid, Pc>, token: Token) {
    exists t :: t in pcs && Registered(pcs[t]) && pcs[t].token == token
  }

  /** Every listed decode belongs to a thread that has registered it. */
  ghost predicate ListOwned(s: State) {
    && DistinctTokens(s.active)
    && forall d :: d in s.active ==> d.token in s.pathOf && s.pathOf[d.token] == d.path && HasOwner(s.pcs, d.token)
  }

  ghost predicate Listed(active: seq<Decode>, token: Token) {
    exists d :: d in active && d.token == token
  }

  /** Every thread with a registration has its decode in the list. */
  ghost predicate OwnersListed(s: State) {
    forall t :: t in s.pcs && Registered(s.pcs[t]) ==> Listed(s.active, s.pcs[t].token)
  }

  /** Thread `t` marked `root` and has not yet looked at position `i` of the running decodes. */
  ghost predicate WillFire(s: State, t: Tid, root: string, i: nat) {
    t in s.pcs && match s.pcs[t]
      case MarkBetween(roots) => root in roots
      case MarkFire(roots, next) => root in roots && next <= i
      case _ => false
  }

  /** A running decode under a removed root is cancelled, or its marker is still on its way. */
  ghost predicate NoneLost(s: State) {
    forall i, root :: 0 <= i < |s.active| && root in s.removed && UnderRoot(s.active[i].path, root) ==>
      s.active[i].token in s.fired || exists t :: WillFire(s, t, root, i)
  }

  /** The same for a decode that has been checked but is not in the list yet. */
  ghost predicate NoneLostAtPush(s: State) {
    forall t, root :: t in s.pcs && s.pcs[t].RegisterPush? && root in s.removed && UnderRoot(s.pcs[t].path, root) ==>
      s.pcs[t].token in s.fired || exists m :: WillFire(s, m, root, |s.active|)
  }

  /** Roots come from marks, and tokens fire only for a marked root above the decode. */
  ghost predicate OnlyMarked(s: State) {
    && (forall root :: root in s.removed ==> root in s.everMarked)
    && (forall t, root :: t in s.pcs && (s.pcs[t].MarkBetween? || s.pcs[t].MarkFire?) && root in s.pcs[t].roots ==> root in s.everMarked)
    && (forall k :: k in s.fired ==> k in s.pathOf && exists root :: root in s.everMarked && UnderRoot(s.pathOf[k], root))
  }

  ghost predicate Inv(s: State) {
    && LocksHeld(s) && TokensDistinct(s) && ListOwned(s) && OwnersListed(s)
    && NoneLost(s) && NoneLostAtPush(s) && OnlyMarked(s)
  }

  lemma HoldersAfter(pcs: map<Tid, Pc>, t: Tid, pc: Pc)
    ensures ActiveHolders(pcs[t := pc]) == if HoldsActive(pc) then ActiveHolders(pcs) + {t} else ActiveHolders(pcs) - {t}
    ensures RemovedHolders(pcs[t := pc]) == if HoldsRemoved(pc) then RemovedHolders(pcs) + {t} else RemovedHolders(pcs) - {t}
  {
  }

  /** What one step does to a mutex, given who held it before and who holds it after. */
  ghost predicate LockMoves(before: Option<Tid>, had: bool, after: Option<Tid>, has: bool, t: Tid) {
    && (has && !had ==> before == None)
    && after == if has == had then before else if has then Some(t) else None
  }

  lemma ActiveMoves(s: State, t: Tid)
    requires CanAdvance(s, t)
    ensures LockMoves(s.activeLock, HoldsActive(s.pcs[t]), Moved(s, t).activeLock, HoldsActive(Moved(s, t).pcs[t]), t)
  {
    hide UnderAny, Without, Cleared;
  }

  lemma RemovedMoves(s: State, t: Tid)
    requires CanAdvance(s, t)
    ensures LockMoves(s.removedLock, HoldsRemoved(s.pcs[t]), Moved(s, t).removedLock, HoldsRemoved(Moved(s, t).pcs[t]), t)
  {
    hide UnderAny, Without, Cleared;
  }

  /** A step takes a mutex only when it is free, and gives it up by leaving. */
  lemma LocksMove(s: State, e: Event)
    requires Enabled(s, e)
    ensures LockMoves(s.activeLock, HoldsActive(s.pcs[e.t]), Next(s, e).activeLock, HoldsActive(Next(s, e).pcs[e.t]), e.t)
    ensures LockMoves(s.removedLock, HoldsRemoved(s.pcs[e.t]), Next(s, e).removedLock, HoldsRemoved(Next(s, e).pcs[e.t]), e.t)
  {
    hide Moved;
    if e.Advance? {
      ActiveMoves(s, e.t);
      RemovedMoves(s, e.t);
    }
  }

  lemma LocksKept(s: State, e: Event)
    requires LocksHeld(s) && Enabled(s, e)
    ensures LocksHeld(Next(s, e))
  {
    hide Next;
    LocksMove(s, e);
    OnlyOneMoves(s, e);
    assert e.t in ActiveHolders(s.pcs) <==> HoldsActive(s.pcs[e.t]);
    assert e.t in RemovedHolders(s.pcs) <==> HoldsRemoved(s.pcs[e.t]);
    HoldersAfter(s.pcs, e.t, Next(s, e).pcs[e.t]);
    assert Next(s, e).pcs == s.pcs[e.t := Next(s, e).pcs[e.t]];
  }

  lemma TokenOnRegister(s: State, t: Tid, path: string)
    requires TokensDistinct(s) && t in s.pcs && s.pcs[t].Idle?
    ensures TokensDistinct(Next(s, Begin(t, CallRegister(path))))
  {
    assert forall u :: u in s.pcs && HasToken(s.pcs[u]) ==> s.pcs[u].token < s.nextToken;
  }

  lemma TokensKept(s: State, e: Event)
    requires TokensDistinct(s) && Enabled(s, e)
    ensures TokensDistinct(Next(s, e))
  {
    if e.Begin? && e.call.CallRegister? {
      TokenOnRegister(s, e.t, e.call.path);
    } else {
      hide TokensDistinct, UnderAny, Without, Cleared;
      var s' := Next(s, e);
      var pc, pc' := s.pcs[e.t], s'.pcs[e.t];
      assert s'.pcs == s.pcs[e.t := pc'] && s'.pathOf == s.pathOf && s'.nextToken == s.nextToken;
      assert HasToken(pc') ==> HasToken(pc) && pc'.token == pc.token;
      assert HasToken(pc') && !Registered(pc') ==> !Registered(pc) && pc'.path == pc.path;
      TokensUpdated(s, s', e.t, pc');
    }
  }

  lemma TokensUpdated(s: State, s': State, t: Tid, pc: Pc)
    requires TokensDistinct(s) && t in s.pcs
    requires s'.pcs == s.pcs[t := pc] && s'.pathOf == s.pathOf && s'.nextToken == s.nextToken
    requires HasToken(pc) ==> HasToken(s.pcs[t]) && pc.token == s.pcs[t].token
    requires HasToken(pc) && !Registered(pc) ==> !Registered(s.pcs[t]) && pc.path == s.pcs[t].path
    ensures TokensDistinct(s')
  {
  }

  lemma StaysRegistered(s: State, e: Event)
    requires Enabled(s, e) && Registered(s.pcs[e.t]) && !(e.Advance? && s.pcs[e.t].DropRetain?)
    ensures Registered(Next(s, e).pcs[e.t]) && Next(s, e).pcs[e.t].token == s.pcs[e.t].token
  {
  }

  lemma OwnerStays(s: State, e: Event, token: Token)
    requires Enabled(s, e) && HasOwner(s.pcs, token)
    requires !(e.Advance? && s.pcs[e.t].DropRetain? && s.pcs[e.t].token == token)
    ensures HasOwner(Next(s, e).pcs, token)
  {
    hide Next;
    var s' := Next(s, e);
    var t :| t in s.pcs && Registered(s.pcs[t]) && s.pcs[t].token == token;
    OnlyOneMoves(s, e);
    if e.t == t {
      StaysRegistered(s, e);
    }
    assert t in s'.pcs && Registered(s'.pcs[t]) && s'.pcs[t].token == token;
  }

  lemma PushOwned(s: State, t: Tid)
    requires TokensDistinct(s) && ListOwned(s) && CanAdvance(s, t) && s.pcs[t].RegisterPush?
    ensures ListOwned(Moved(s, t))
  {
    var s' := Moved(s, t);
    var d := Decode(s.pcs[t].path, s.pcs[t].token);
    forall i | 0 <= i < |s.active|
      ensures s.active[i].token != d.token
    {
      assert s.active[i] in s.active && HasOwner(s.pcs, s.active[i].token);
    }
    assert HasOwner(s'.pcs, d.token) by {
      assert Registered(s'.pcs[t]);
    }
    forall x | x in s.active
      ensures HasOwner(s'.pcs, x.token)
    {
      OwnerStays(s, Advance(t), x.token);
    }
  }

  lemma DropOwned(s: State, t: Tid)
    requires TokensDistinct(s) && ListOwned(s) && CanAdvance(s, t) && s.pcs[t].DropRetain?
    ensures ListOwned(Moved(s, t))
  {
    WithoutDistinct(s.active, s.pcs[t].token);
    forall x | x in Without(s.active, s.pcs[t].token)
      ensures HasOwner(Moved(s, t).pcs, x.token)
    {
      OwnerStays(s, Advance(t), x.token);
    }
  }

  lemma ListKept(s: State, e: Event)
    requires TokensDistinct(s) && ListOwned(s) && Enabled(s, e)
    ensures ListOwned(Next(s, e))
  {
    if e.Advance? && s.pcs[e.t].RegisterPush? {
      PushOwned(s, e.t);
    } else if e.Advance? && s.pcs[e.t].DropRetain? {
      DropOwned(s, e.t);
    } else {
      assert Next(s, e).active == s.active;
      forall x | x in s.active
        ensures HasOwner(Next(s, e).pcs, x.token)
      {
        OwnerStays(s, e, x.token);
      }
    }
  }

  lemma PushLists(s: State, t: Tid)
    requires OwnersListed(s) && CanAdvance(s, t) && s.pcs[t].RegisterPush?
    ensures OwnersListed(Moved(s, t))
  {
    var s' := Moved(s, t);
    assert Decode(s.pcs[t].path, s.pcs[t].token) in s'.active;
    forall u | u in s'.pcs && Registered(s'.pcs[u])
      ensures Listed(s'.active, s'.pcs[u].token)
    {
      if u != t {
        var d :| d in s.active && d.token == s.pcs[u].token;
        assert d in s'.active;
      }
    }
  }

  lemma DropListed(s: State, t: Tid)
    requires TokensDistinct(s) && OwnersListed(s) && CanAdvance(s, t) && s.pcs[t].DropRetain?
    ensures OwnersListed(Moved(s, t))
  {
    var s' := Moved(s, t);
    forall u | u in s'.pcs && Registered(s'.pcs[u])
      ensures Listed(s'.active, s'.pcs[u].token)
    {
      var d :| d in s.active && d.token == s.pcs[u].token;
      assert d in s'.active;
    }
  }

  /** Pushing is the one way to come to hold a registration. */
  lemma RegisteredBefore(s: State, e: Event)
    requires Enabled(s, e) && !(e.Advance? && s.pcs[e.t].RegisterPush?) && Registered(Next(s, e).pcs[e.t])
    ensures Registered(s.pcs[e.t]) && Next(s, e).pcs[e.t].token == s.pcs[e.t].token
  {
  }

  lemma OwnersKept(s: State, e: Event)
    requires TokensDistinct(s) && OwnersListed(s) && Enabled(s, e)
    ensures OwnersListed(Next(s, e))
  {
    if e.Advance? && s.pcs[e.t].RegisterPush? {
      PushLists(s, e.t);
    } else if e.Advance? && s.pcs[e.t].DropRetain? {
      DropListed(s, e.t);
    } else {
      var s' := Next(s, e);
      assert s'.active == s.active;
      OnlyOneMoves(s, e);
      forall u | u in s'.pcs && Registered(s'.pcs[u])
        ensures Listed(s'.active, s'.pcs[u].token)
      {
        if u == e.t {
          RegisteredBefore(s, e);
        }
      }
    }
  }

  lemma {:induction false} WithoutDistinct(active: seq<Decode>, token: Token)
    requires DistinctTokens(active)
    ensures DistinctTokens(Without(active, token))
  {
    if i: nat :| i < |active| && active[i].token == token {
      WithoutIsOneEntry(active, i);
    } else {
      WithoutStranger(active, token);
    }
  }

  /** What was known of paths and marks stays known. */
  lemma HistoryGrows(s: State, e: Event)
    requires TokensDistinct(s) && Enabled(s, e)
    ensures s.everMarked <= Next(s, e).everMarked
    ensures forall k :: k in s.pathOf ==> k in Next(s, e).pathOf && Next(s, e).pathOf[k] == s.pathOf[k]
  {
  }

  lemma RootsWereMarked(s: State, e: Event)
    requires OnlyMarked(s) && Enabled(s, e)
    ensures var s' := Next(s, e);
            && (forall root :: root in s'.removed ==> root in s'.everMarked)
            && (forall t, root :: t in s'.pcs && (s'.pcs[t].MarkBetween? || s'.pcs[t].MarkFire?) && root in s'.pcs[t].roots ==> root in s'.everMarked)
  {
    hide UnderAny, UnderRoot, Overlaps;
  }

  /** Who fires a token: a decode that registers under a removed root, or a marker that looks at it. */
  lemma NewlyFired(s: State, e: Event, k: Token) returns (path: string, root: string)
    requires OnlyMarked(s) && TokensDistinct(s) && ListOwned(s) && Enabled(s, e)
    requires k in Next(s, e).fired && k !in s.fired
    ensures k in s.pathOf && s.pathOf[k] == path && root in s.everMarked && UnderRoot(path, root)
  {
    assert e.Advance?;
    if s.pcs[e.t].RegisterCheck? {
      path := s.pcs[e.t].path;
      var j :| 0 <= j < |s.removed| && UnderRoot(path, s.removed[j]);
      root := s.removed[j];
      assert root in s.removed;
    } else {
      var d := s.active[s.pcs[e.t].next];
      assert d in s.active;
      path := d.path;
      var roots := s.pcs[e.t].roots;
      var j :| 0 <= j < |roots| && UnderRoot(path, roots[j]);
      root := roots[j];
      assert root in roots;
    }
  }

  lemma OnlyMarkedKept(s: State, e: Event)
    requires OnlyMarked(s) && TokensDistinct(s) && ListOwned(s) && Enabled(s, e)
    ensures OnlyMarked(Next(s, e))
  {
    hide Next, UnderRoot;
    var s' := Next(s, e);
    HistoryGrows(s, e);
    RootsWereMarked(s, e);
    forall k | k in s'.fired
      ensures k in s'.pathOf && exists root :: root in s'.everMarked && UnderRoot(s'.pathOf[k], root)
    {
      if k in s.fired {
        var root :| root in s.everMarked && UnderRoot(s.pathOf[k], root);
        assert root in s'.everMarked && UnderRoot(s'.pathOf[k], root);
      } else {
        var path, root := NewlyFired(s, e, k);
        assert root in s'.everMarked && UnderRoot(s'.pathOf[k], root);
      }
    }
  }

  // ---- no lost cancellation -----------------------------------------------------------------

  /** A marker that is still on its way stays so, or fires the token it was on its way to. */
  lemma MarkerStays(s: State, e: Event, m: Tid, root: string, i: nat)
    requires Enabled(s, e) && WillFire(s, m, root, i)
    requires !(e == Advance(m) && s.pcs[m].MarkFire? && s.pcs[m].next == i)
    requires !(e == Advance(m) && s.pcs[m].MarkFire? && s.pcs[m].next >= |s.active|)
    ensures WillFire(Next(s, e), m, root, i)
  {
  }

  /** Only extending, dropping and pushing change what has to be covered; every other step keeps it. */
  lemma ListedElsewhere(s: State, e: Event, i: nat, root: string)
    requires Inv(s) && Enabled(s, e)
    requires e.Advance? ==> !s.pcs[e.t].DropRetain? && !(s.pcs[e.t].RegisterPush? && i == |s.active|)
    requires i < |Next(s, e).active| && root in s.removed && UnderRoot(Next(s, e).active[i].path, root)
    ensures Next(s, e).active[i].token in Next(s, e).fired || exists t :: WillFire(Next(s, e), t, root, i)
  {
    hide UnderRoot, Without, Cleared, LocksHeld, TokensDistinct, ListOwned, OwnersListed, NoneLostAtPush, OnlyMarked;
    var s' := Next(s, e);
    assert i < |s.active| && s'.active[i] == s.active[i];
    assert s.fired <= s'.fired;
    if s.active[i].token !in s.fired {
      var m :| WillFire(s, m, root, i);
      if e == Advance(m) && s.pcs[m].MarkFire? && s.pcs[m].next == i {
        var j :| 0 <= j < |s.pcs[m].roots| && s.pcs[m].roots[j] == root;
        assert UnderAny(s.active[i].path, s.pcs[m].roots);
      } else {
        MarkerStays(s, e, m, root, i);
      }
    }
  }

  lemma ListedAfterDrop(s: State, t: Tid, i: nat, root: string)
    requires Inv(s) && CanAdvance(s, t) && s.pcs[t].DropRetain?
    requires i < |Moved(s, t).active| && root in s.removed && UnderRoot(Moved(s, t).active[i].path, root)
    ensures Moved(s, t).active[i].token in s.fired || exists m :: WillFire(Moved(s, t), m, root, i)
  {
    var j := OldPosition(s.active, s.pcs[t].token, i);
    if s.active[j].token !in s.fired {
      var m :| WillFire(s, m, root, j);
      assert t in ActiveHolders(s.pcs);
      assert m in ActiveHolders(s.pcs) <==> HoldsActive(s.pcs[m]);
      assert s.pcs[m].MarkBetween?;
      assert WillFire(Moved(s, t), m, root, i);
    }
  }

  lemma ListedAfterPush(s: State, t: Tid, root: string)
    requires Inv(s) && CanAdvance(s, t) && s.pcs[t].RegisterPush?
    requires root in s.removed && UnderRoot(s.pcs[t].path, root)
    ensures s.pcs[t].token in s.fired || exists m :: WillFire(Moved(s, t), m, root, |s.active|)
  {
    if s.pcs[t].token !in s.fired {
      var m :| WillFire(s, m, root, |s.active|);
      assert WillFire(Moved(s, t), m, root, |s.active|);
    }
  }

  lemma ListedKept(s: State, e: Event, i: nat, root: string)
    requires Inv(s) && Enabled(s, e)
    requires i < |Next(s, e).active| && root in Next(s, e).removed && UnderRoot(Next(s, e).active[i].path, root)
    ensures Next(s, e).active[i].token in Next(s, e).fired || exists t :: WillFire(Next(s, e), t, root, i)
  {
    if e.Advance? && s.pcs[e.t].MarkExtend? && root !in s.removed {
      assert root in s.pcs[e.t].roots;
      assert WillFire(Next(s, e), e.t, root, i);
    } else {
      assert root in s.removed;
      if e.Advance? && s.pcs[e.t].DropRetain? {
        ListedAfterDrop(s, e.t, i, root);
      } else if e.Advance? && s.pcs[e.t].RegisterPush? && i == |s.active| {
        ListedAfterPush(s, e.t, root);
      } else {
        ListedElsewhere(s, e, i, root);
      }
    }
  }

  /** Where an entry was before one registration was dropped. */
  lemma OldPosition(active: seq<Decode>, token: Token, i: nat) returns (j: nat)
    requires DistinctTokens(active) && i < |Without(active, token)|
    ensures i <= j < |active| && active[j] == Without(active, token)[i]
  {
    if k: nat :| k < |active| && active[k].token == token {
      WithoutIsOneEntry(active, k);
      j := if i < k then i else i + 1;
    } else {
      WithoutStranger(active, token);
      j := i;
    }
  }

  /** Checking a new decode fires it for every root removed so far. */
  lemma PushedByCheck(s: State, t: Tid, root: string)
    requires CanAdvance(s, t) && s.pcs[t].RegisterCheck? && root in s.removed && UnderRoot(s.pcs[t].path, root)
    ensures s.pcs[t].token in Moved(s, t).fired
  {
    var j :| 0 <= j < |s.removed| && s.removed[j] == root;
    assert UnderAny(s.pcs[t].path, s.removed);
  }

  /** While a thread is about to push, no other thread can be firing or touching the list. */
  lemma PushedElsewhere(s: State, e: Event, t: Tid, root: string)
    requires Inv(s) && Enabled(s, e) && e.t != t
    requires t in s.pcs && s.pcs[t].RegisterPush? && root in s.removed && UnderRoot(s.pcs[t].path, root)
    ensures s.pcs[t].token in Next(s, e).fired || exists m :: WillFire(Next(s, e), m, root, |Next(s, e).active|)
  {
    var s' := Next(s, e);
    assert s.fired <= s'.fired;
    if s.pcs[t].token !in s.fired {
      var m :| WillFire(s, m, root, |s.active|);
      assert t in ActiveHolders(s.pcs);
      assert m in ActiveHolders(s.pcs) <==> HoldsActive(s.pcs[m]);
      assert e.t in ActiveHolders(s.pcs) <==> HoldsActive(s.pcs[e.t]);
      assert s.activeLock == Some(t) && s.pcs[m].MarkBetween?;
      assert s'.active == s.active;
      MarkerStays(s, e, m, root, |s.active|);
    }
  }

  lemma PushedKept(s: State, e: Event, t: Tid, root: string)
    requires Inv(s) && Enabled(s, e)
    requires var s' := Next(s, e);
             t in s'.pcs && s'.pcs[t].RegisterPush? && root in s'.removed && UnderRoot(s'.pcs[t].path, root)
    ensures var s' := Next(s, e);
            s'.pcs[t].token in s'.fired || exists m :: WillFire(s', m, root, |s'.active|)
  {
    if e.Advance? && s.pcs[e.t].MarkExtend? && root !in s.removed {
      PushedByMark(s, e.t, root);
    } else {
      PushPosition(s, e, t);
      assert root in s.removed;
      if e.t == t {
        PushedByCheck(s, t, root);
      } else {
        PushedElsewhere(s, e, t, root);
      }
    }
  }

  lemma MovedMovesOne(s: State, t: Tid)
    requires CanAdvance(s, t)
    ensures Moved(s, t).pcs.Keys == s.pcs.Keys && forall u :: u in s.pcs && u != t ==> Moved(s, t).pcs[u] == s.pcs[u]
  {
  }

  lemma OnlyOneMoves(s: State, e: Event)
    requires Enabled(s, e)
    ensures Next(s, e).pcs.Keys == s.pcs.Keys && forall t :: t in s.pcs && t != e.t ==> Next(s, e).pcs[t] == s.pcs[t]
  {
    hide Moved;
    if e.Advance? {
      MovedMovesOne(s, e.t);
    }
  }

  lemma PushComesFromCheck(s: State, e: Event)
    requires Enabled(s, e) && Next(s, e).pcs[e.t].RegisterPush?
    ensures e == Advance(e.t) && s.pcs[e.t].RegisterCheck?
    ensures Next(s, e).pcs[e.t].path == s.pcs[e.t].path && Next(s, e).pcs[e.t].token == s.pcs[e.t].token
  {
  }

  lemma PushPosition(s: State, e: Event, t: Tid)
    requires Enabled(s, e) && t in Next(s, e).pcs && Next(s, e).pcs[t].RegisterPush?
    ensures t in s.pcs && (s.pcs[t].RegisterCheck? || s.pcs[t].RegisterPush?)
    ensures s.pcs[t].path == Next(s, e).pcs[t].path && s.pcs[t].token == Next(s, e).pcs[t].token
    ensures if e.t == t then e == Advance(t) && s.pcs[t].RegisterCheck? else s.pcs[t].RegisterPush?
  {
    OnlyOneMoves(s, e);
    if e.t == t {
      PushComesFromCheck(s, e);
    }
  }

  lemma PushedByMark(s: State, t: Tid, root: string)
    requires CanAdvance(s, t) && s.pcs[t].MarkExtend? && root in Moved(s, t).removed && root !in s.removed
    ensures WillFire(Moved(s, t), t, root, |s.active|)
  {
  }

  lemma StepKeepsInv(s: State, e: Event)
    requires Inv(s) && Enabled(s, e)
    ensures Inv(Next(s, e))
  {
    LocksKept(s, e);
    TokensKept(s, e);
    ListKept(s, e);
    OwnersKept(s, e);
    OnlyMarkedKept(s, e);
    var s' := Next(s, e);
    forall i, root | 0 <= i < |s'.active| && root in s'.removed && UnderRoot(s'.active[i].path, root)
      ensures s'.active[i].token in s'.fired || exists t :: WillFire(s', t, root, i)
    {
      ListedKept(s, e, i, root);
    }
    forall t, root | t in s'.pcs && s'.pcs[t].RegisterPush? && root in s'.removed && UnderRoot(s'.pcs[t].path, root)
      ensures s'.pcs[t].token in s'.fired || exists m :: WillFire(s', m, root, |s'.active|)
    {
      PushedKept(s, e, t, root);
    }
  }

  ghost predicate AllEnabled(s: State, es: seq<Event>)
    decreases |es|
  {
    es == [] || (Enabled(s, es[0]) && AllEnabled(Next(s, es[0]), es[1..]))
  }

  function Run(s: State, es: seq<Event>): State
    requires AllEnabled(s, es)
    decreases |es|
  {
    if es == [] then s else Run(Next(s, es[0]), es[1..])
  }

  lemma {:induction false} RunKeepsInv(s: State, es: seq<Event>)
    requires Inv(s) && AllEnabled(s, es)
    ensures Inv(Run(s, es))
    decreases |es|
  {
    if es != [] {
      StepKeepsInv(s, es[0]);
      RunKeepsInv(Next(s, es[0]), es[1..]);
    }
  }

  /** Where the decode of a registered thread stands in the list, and that its path is the one it asked for. */
  lemma EntryOf(s: State, t: Tid) returns (i: nat)
    requires Inv(s) && t in s.pcs && Registered(s.pcs[t])
    ensures s.pcs[t].token in s.pathOf
    ensures i < |s.active| && s.active[i] == Decode(s.pathOf[s.pcs[t].token], s.pcs[t].token)
  {
    var d :| d in s.active && d.token == s.pcs[t].token;
    i :| 0 <= i < |s.active| && s.active[i] == d;
  }

  /** Thread `m` marked `root` and has yet to come to the entry with this token. */
  ghost predicate WillReach(s: State, m: Tid, root: string, token: Token) {
    exists i :: 0 <= i < |s.active| && s.active[i].token == token && WillFire(s, m, root, i)
  }

  /**
   * In every interleaving, a thread that decodes a file under a removed root has its token fired,
   * or a thread that marked that very root is still between its two critical sections or has yet
   * to reach its entry.
   */
  lemma NoLostCancellation(s: State, es: seq<Event>, t: Tid, root: string)
    requires Init(s) && AllEnabled(s, es)
    requires t in Run(s, es).pcs && Registered(Run(s, es).pcs[t])
    ensures var r := Run(s, es);
            var token := r.pcs[t].token;
            && token in r.pathOf
            && (root in r.removed && UnderRoot(r.pathOf[token], root) ==>
                  token in r.fired || exists m :: WillReach(r, m, root, token))
  {
    RunKeepsInv(s, es);
    var r := Run(s, es);
    var i := EntryOf(r, t);
    if root in r.removed && UnderRoot(r.active[i].path, root) && r.active[i].token !in r.fired {
      var m :| WillFire(r, m, root, i);
      assert WillReach(r, m, root, r.active[i].token);
    }
  }

  /** Once no marker is at work, every thread that decodes in a removed folder is cancelled. */
  lemma AllCancelledWhenQuiet(s: State, es: seq<Event>)
    requires Init(s) && AllEnabled(s, es)
    requires forall t :: t in Run(s, es).pcs ==> !Run(s, es).pcs[t].MarkBetween? && !Run(s, es).pcs[t].MarkFire?
    ensures var r := Run(s, es);
            forall t :: t in r.pcs && Registered(r.pcs[t]) ==>
              && r.pcs[t].token in r.pathOf
              && (UnderAny(r.pathOf[r.pcs[t].token], r.removed) ==> r.pcs[t].token in r.fired)
  {
    var r := Run(s, es);
    forall t | t in r.pcs && Registered(r.pcs[t])
      ensures r.pcs[t].token in r.pathOf
      ensures UnderAny(r.pathOf[r.pcs[t].token], r.removed) ==> r.pcs[t].token in r.fired
    {
      NoLostCancellation(s, es, t, "");
      var path := r.pathOf[r.pcs[t].token];
      if UnderAny(path, r.removed) {
        var k :| 0 <= k < |r.removed| && UnderRoot(path, r.removed[k]);
        assert r.removed[k] in r.removed;
        NoLostCancellation(s, es, t, r.removed[k]);
        assert forall m, i :: !WillFire(r, m, r.removed[k], i);
      }
    }
  }

  /** Nothing is cancelled without cause: a fired token's decode lies under a root somebody removed. */
  lemma FiredForACause(s: State, es: seq<Event>, k: Token)
    requires Init(s) && AllEnabled(s, es) && k in Run(s, es).fired
    ensures k in Run(s, es).pathOf
    ensures exists root :: root in Run(s, es).everMarked && UnderRoot(Run(s, es).pathOf[k], root)
  {
    RunKeepsInv(s, es);
  }

  lemma EntryDropped(s: State, t: Tid) returns (i: nat)
    requires Inv(s) && CanAdvance(s, t) && s.pcs[t].DropRetain?
    ensures i < |s.active| && s.active[i].token == s.pcs[t].token
    ensures Moved(s, t).active == s.active[..i] + s.active[i + 1..]
  {
    i := EntryOf(s, t);
    WithoutIsOneEntry(s.active, i);
    hide Inv;
  }

  /** Dropping a registration removes exactly the entry of the dropping thread. */
  lemma DropRemovesOwnEntry(s: State, es: seq<Event>, t: Tid)
    requires Init(s) && AllEnabled(s, es)
    requires CanAdvance(Run(s, es), t) && Run(s, es).pcs[t].DropRetain?
    ensures var r := Run(s, es);
            exists i :: 0 <= i < |r.active| && r.active[i].token == r.pcs[t].token
                        && Next(r, Advance(t)).active == r.active[..i] + r.active[i + 1..]
  {
    hide Run, Moved, CanAdvance, Inv, AllEnabled;
    RunKeepsInv(s, es);
    var i := EntryDropped(Run(s, es), t);
  }

  // ---- no deadlock --------------------------------------------------------------------------

  /** Whenever some call is under way, some thread can take a step: the lock order has no cycle. */
  lemma NoDeadlock(s: State, es: seq<Event>)
    requires Init(s) && AllEnabled(s, es)
    requires exists t :: t in Run(s, es).pcs && !Run(s, es).pcs[t].Idle? && !Run(s, es).pcs[t].Decoding?
    ensures exists t :: CanAdvance(Run(s, es), t)
  {
    RunKeepsInv(s, es);
    var r := Run(s, es);
    var t :| t in r.pcs && !r.pcs[t].Idle? && !r.pcs[t].Decoding?;
    assert r.removedLock.Some? ==> r.removedLock.value in RemovedHolders(r.pcs);
    assert r.activeLock.Some? ==> r.activeLock.value in ActiveHolders(r.pcs);
    if r.removedLock.Some? {
      assert CanAdvance(r, r.removedLock.value);
    } else if r.activeLock.Some? {
      assert CanAdvance(r, r.activeLock.value);
    } else {
      assert CanAdvance(r, t);
    }
  }
}

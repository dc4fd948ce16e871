/** The registry of running decodes and of removed folders, as one thread at a time uses it. */
module Throttle {
  import opened Paths

  type Token = nat
  datatype Decode = Decode(path: string, token: Token)

  ghost predicate DistinctTokens(active: seq<Decode>) {
    forall i, j :: 0 <= i < j < |active| ==> active[i].token != active[j].token
  }

  /** The running decodes without one registration. */
  function Without(active: seq<Decode>, token: Token): (r: seq<Decode>)
    ensures forall d :: d in r <==> d in active && d.token != token
    ensures |r| <= |active|
  {
    if active == [] then []
    else
      var n := |active| - 1;
      var r := Without(active[..n], token);
      assert active == active[..n] + [active[n]];
      if active[n].token == token then r else r + [active[n]]
  }

  /** Deregistering removes exactly one entry, the caller's own, and keeps the others in order. */
  lemma {:induction false} WithoutIsOneEntry(active: seq<Decode>, i: nat)
    requires DistinctTokens(active) && i < |active|
    ensures Without(active, active[i].token) == active[..i] + active[i + 1..]
  {
    var n := |active| - 1;
    assert active == active[..n] + [active[n]];
    if i == n {
      WithoutStranger(active[..n], active[n].token);
    } else {
      WithoutIsOneEntry(active[..n], i);
      assert active[..n][..i] == active[..i];
      assert active[..n][i + 1..] + [active[n]] == active[i + 1..];
    }
  }

  lemma {:induction false} WithoutStranger(active: seq<Decode>, token: Token)
    requires forall d :: d in active ==> d.token != token
    ensures Without(active, token) == active
  {
    if active != [] {
      var n := |active| - 1;
      assert active == active[..n] + [active[n]];
      assert active[n] in active;
      WithoutStranger(active[..n], token);
    }
  }

  /** The removed roots that stay when `added` is watched again. */
  function Cleared(removed: seq<string>, added: string): (r: seq<string>)
    ensures forall root :: root in r <==> root in removed && !Overlaps(added, root)
    ensures |r| <= |removed|
  {
    if removed == [] then []
    else
      var n := |removed| - 1;
      var r := Cleared(removed[..n], added);
      assert removed == removed[..n] + [removed[n]];
      if Overlaps(added, removed[n]) then r else r + [removed[n]]
  }

  /** After a folder is added again, nothing in it is reported removed, whatever was removed before. */
  lemma ReaddedIsNotRemoved(removed: seq<string>, added: string, path: string)
    requires UnderRoot(path, added)
    ensures !UnderAny(path, Cleared(removed, added))
  {
    var left := Cleared(removed, added);
    forall k | 0 <= k < |left|
      ensures !UnderRoot(path, left[k])
    {
      assert left[k] in left;
      if UnderRoot(path, left[k]) {
        SharedDescendantOverlaps(path, added, left[k]);
      }
    }
  }

  /** A path stays removed exactly when some removed root above it neither contains nor lies in `added`. */
  lemma StaysRemoved(removed: seq<string>, added: string, path: string)
    ensures UnderAny(path, Cleared(removed, added))
       <==> exists root :: root in removed && UnderRoot(path, root) && !Overlaps(added, root)
  {
    var left := Cleared(removed, added);
    if exists root :: root in removed && UnderRoot(path, root) && !Overlaps(added, root) {
      var root :| root in removed && UnderRoot(path, root) && !Overlaps(added, root);
      assert root in left;
      var k :| 0 <= k < |left| && left[k] == root;
    }
    if UnderAny(path, left) {
      var k :| 0 <= k < |left| && UnderRoot(path, left[k]);
      assert left[k] in left;
    }
  }

  function TokensUnder(active: seq<Decode>, roots: seq<string>): set<Token> {
    set d | d in active && UnderAny(d.path, roots) :: d.token
  }

  class ThrottleControl {
    var removedRoots: seq<string>
    var removedCleanupPending: bool
    var activeDecodes: seq<Decode>
    var fired: set<Token>
    var nextToken: Token

    ghost predicate Valid()
      reads this
    {
      && DistinctTokens(activeDecodes)
      && (forall d :: d in activeDecodes ==> d.token < nextToken)
      && (forall t :: t in fired ==> t < nextToken)
    }

    constructor ()
      ensures Valid() && removedRoots == [] && activeDecodes == [] && fired == {} && !removedCleanupPending
    {
      removedRoots, removedCleanupPending, activeDecodes, fired, nextToken := [], false, [], {}, 0;
    }

    method IsPathRemoved(path: string) returns (removed: bool)
      ensures removed <==> UnderAny(path, removedRoots)
    {
      var k := 0;
      while k < |removedRoots|
        invariant 0 <= k <= |removedRoots|
        invariant forall i :: 0 <= i < k ==> !UnderRoot(path, removedRoots[i])
      {
        if UnderRoot(path, removedRoots[k]) {
          return true;
        }
        k := k + 1;
      }
      return false;
    }

    /** The token of a decode under a removed root is fired before the decode starts. */
    method RegisterDecode(path: string) returns (token: Token)
      requires Valid()
      modifies this`activeDecodes, this`fired, this`nextToken
      ensures Valid()
      ensures token == old(nextToken) && token !in old(fired) && nextToken == token + 1
      ensures activeDecodes == old(activeDecodes) + [Decode(path, token)]
      ensures fired == if UnderAny(path, removedRoots) then old(fired) + {token} else old(fired)
    {
      token := nextToken;
      nextToken := nextToken + 1;
      var removed := IsPathRemoved(path);
      if removed {
        fired := fired + {token};
      }
      activeDecodes := activeDecodes + [Decode(path, token)];
    }

    method DeregisterDecode(token: Token)
      requires Valid()
      modifies this`activeDecodes
      ensures Valid()
      ensures activeDecodes == Without(old(activeDecodes), token)
    {
      var kept: seq<Decode> := [];
      var k := 0;
      while k < |activeDecodes|
        invariant 0 <= k <= |activeDecodes|
        invariant kept == Without(activeDecodes[..k], token)
        invariant DistinctTokens(kept)
      {
        assert activeDecodes[..k + 1][..k] == activeDecodes[..k];
        if activeDecodes[k].token != token {
          forall i | 0 <= i < |kept|
            ensures kept[i].token != activeDecodes[k].token
          {
            assert kept[i] in kept && kept[i] in activeDecodes[..k];
          }
          kept := kept + [activeDecodes[k]];
        }
        k := k + 1;
      }
      assert activeDecodes[..k] == activeDecodes;
      activeDecodes := kept;
    }

    /** Removing folders fires the token of every running decode in them, and no other. */
    method MarkRootsRemoved(roots: seq<string>)
      requires Valid()
      modifies this`removedRoots, this`removedCleanupPending, this`fired
      ensures Valid()
      ensures removedRoots == old(removedRoots) + roots
      ensures removedCleanupPending == (old(removedCleanupPending) || roots != [])
      ensures fired == old(fired) + TokensUnder(activeDecodes, roots)
    {
      if roots == [] {
        return;
      }
      removedRoots := removedRoots + roots;
      removedCleanupPending := true;
      var k := 0;
      while k < |activeDecodes|
        invariant 0 <= k <= |activeDecodes|
        invariant removedRoots == old(removedRoots) + roots && removedCleanupPending
        invariant fired == old(fired) + TokensUnder(activeDecodes[..k], roots)
      {
        var under := exists i :: 0 <= i < |roots| && UnderRoot(activeDecodes[k].path, roots[i]);
        assert activeDecodes[..k + 1] == activeDecodes[..k] + [activeDecodes[k]];
        assert TokensUnder(activeDecodes[..k + 1], roots)
            == TokensUnder(activeDecodes[..k], roots) + if under then {activeDecodes[k].token} else {};
        if under {
          fired := fired + {activeDecodes[k].token};
        }
        k := k + 1;
      }
      assert activeDecodes[..k] == activeDecodes;
    }

    method ClearRemovedRootOverlap(added: string)
      modifies this`removedRoots
      ensures removedRoots == Cleared(old(removedRoots), added)
      ensures forall path :: UnderRoot(path, added) ==> !UnderAny(path, removedRoots)
    {
      var kept: seq<string> := [];
      var k := 0;
      while k < |removedRoots|
        invariant 0 <= k <= |removedRoots|
        invariant kept == Cleared(removedRoots[..k], added)
      {
        assert removedRoots[..k + 1][..k] == removedRoots[..k];
        if !(UnderRoot(added, removedRoots[k]) || UnderRoot(removedRoots[k], added)) {
          kept := kept + [removedRoots[k]];
        }
        k := k + 1;
      }
      assert removedRoots[..k] == removedRoots;
      forall path | UnderRoot(path, added)
        ensures !UnderAny(path, Cleared(removedRoots, added))
      {
        ReaddedIsNotRemoved(removedRoots, added, path);
      }
      removedRoots := kept;
    }
  }
}

/** Slash-separated paths, as the daemon compares them: whole segments, never string prefixes. */
module Paths {

  const SEP: char := '/'

  /** The root without its trailing slashes. */
  function TrimEnd(root: string): (t: string)
    ensures t <= root
    ensures t != "" ==> t[|t| - 1] != SEP
    ensures forall i :: |t| <= i < |root| ==> root[i] == SEP
  {
    if root != "" && root[|root| - 1] == SEP then TrimEnd(root[..|root| - 1]) else root
  }

  /** The path is the root itself or lies below it. */
  predicate UnderRoot(path: string, root: string) {
    var r := TrimEnd(root);
    path == r || (r < path && path[|r|] == SEP)
  }

  predicate UnderAny(path: string, roots: seq<string>) {
    exists k :: 0 <= k < |roots| && UnderRoot(path, roots[k])
  }

  function LowerChar(c: char): char {
    if 'A' <= c <= 'Z' then c - 'A' + 'a' else c
  }

  function Lower(s: string): (r: string)
    ensures |r| == |s| && forall i :: 0 <= i < |s| ==> r[i] == LowerChar(s[i])
  {
    seq(|s|, i requires 0 <= i < |s| => LowerChar(s[i]))
  }

  /** What the index lists for a root: the query compares the root exactly, but what lies below it without regard to ASCII case. */
  predicate ListedUnder(path: string, root: string) {
    var r := TrimEnd(root);
    path == r || (|r| < |path| && Lower(path[..|r|]) == Lower(r) && path[|r|] == SEP)
  }

  predicate ListedUnderAny(path: string, roots: seq<string>) {
    exists k :: 0 <= k < |roots| && ListedUnder(path, roots[k])
  }

  /** Below a folder of the root's length that is spelled with other capitals. */
  predicate UnderRespelled(path: string, root: string) {
    var r := TrimEnd(root);
    |r| < |path| && path[..|r|] != r && Lower(path[..|r|]) == Lower(r) && path[|r|] == SEP
  }

  /** The list has everything under the root, and besides it exactly what lies under its respellings. */
  lemma ListedIsUnderOrRespelled(path: string, root: string)
    ensures ListedUnder(path, root) <==> UnderRoot(path, root) || UnderRespelled(path, root)
  {
    var r := TrimEnd(root);
    if r < path {
      assert path[..|r|] == r;
    }
  }

  lemma UnderAnyIsListed(path: string, roots: seq<string>)
    requires UnderAny(path, roots)
    ensures ListedUnderAny(path, roots)
  {
    var k :| 0 <= k < |roots| && UnderRoot(path, roots[k]);
    ListedIsUnderOrRespelled(path, roots[k]);
  }

  /** The '/'-segments of a path; the empty path has one empty segment. */
  function Segments(s: string): (segs: seq<string>)
    ensures |segs| >= 1
  {
    if s == "" then [""]
    else if s[0] == SEP then [""] + Segments(s[1..])
    else var rest := Segments(s[1..]); [[s[0]] + rest[0]] + rest[1..]
  }

  /** A string is a segment prefix of another when it is equal to it or ends right before a slash of it. */
  lemma {:induction false} SegmentPrefix(r: string, p: string)
    ensures Segments(r) <= Segments(p) <==> (p == r || (r < p && p[|r|] == SEP))
  {
    if r == "" {
      assert Segments(r) == [""];
      if p != "" && p[0] != SEP {
        assert |Segments(p)[0]| > 0;
      }
    } else if p == "" {
      if r[0] == SEP {
        assert |Segments(r)| > 1;
      } else {
        assert |Segments(r)[0]| > 0;
      }
    } else {
      SegmentPrefix(r[1..], p[1..]);
      assert r == [r[0]] + r[1..] && p == [p[0]] + p[1..];
      var sr, sp := Segments(r[1..]), Segments(p[1..]);
      if r[0] == SEP && p[0] == SEP {
        assert Segments(r) <= Segments(p) <==> sr <= sp by {
          assert Segments(r)[1..] == sr && Segments(p)[1..] == sp;
        }
        SameHead(r, p);
      } else if r[0] != SEP && p[0] != SEP {
        assert sr == [sr[0]] + sr[1..] && sp == [sp[0]] + sp[1..];
        assert Segments(r)[0] == [r[0]] + sr[0] && Segments(p)[0] == [p[0]] + sp[0];
        assert Segments(r)[1..] == sr[1..] && Segments(p)[1..] == sp[1..];
        if r[0] == p[0] {
          HeadPrefix(r[0], sr, sp);
          SameHead(r, p);
        } else {
          assert Segments(r)[0][0] != Segments(p)[0][0];
        }
      } else {
        assert Segments(r)[0] != Segments(p)[0];
      }
    }
  }

  lemma SameHead(r: string, p: string)
    requires r != "" && p != "" && r[0] == p[0]
    ensures (p == r || (r < p && p[|r|] == SEP))
       <==> (p[1..] == r[1..] || (r[1..] < p[1..] && p[1..][|r[1..]|] == SEP))
  {
    assert r == [r[0]] + r[1..] && p == [p[0]] + p[1..];
    if r < p {
      assert r[1..] == p[..|r|][1..] == p[1..][..|r| - 1];
    }
    if r[1..] < p[1..] {
      assert p[..|r|] == [p[0]] + p[1..][..|r| - 1];
    }
  }

  lemma HeadPrefix(c: char, sr: seq<string>, sp: seq<string>)
    requires |sr| >= 1 && |sp| >= 1
    ensures [[c] + sr[0]] + sr[1..] <= [[c] + sp[0]] + sp[1..] <==> sr <= sp
  {
    var a, b := [[c] + sr[0]] + sr[1..], [[c] + sp[0]] + sp[1..];
    if a <= b {
      assert a[0] == b[0] && ([c] + sr[0])[1..] == ([c] + sp[0])[1..];
      assert sr[0] == sp[0];
      forall i | 1 <= i < |sr|
        ensures sr[i] == sp[i]
      {
        assert a[i] == b[i];
      }
      assert sr == sp[..|sr|];
    }
    if sr <= sp {
      forall i | 0 <= i < |a|
        ensures a[i] == b[i]
      {
        assert sr[i] == sp[i];
      }
      assert a == b[..|a|];
    }
  }

  /** Containment is exactly "the root's segments are a prefix of the path's segments". */
  lemma UnderRootIsSegmentPrefix(path: string, root: string)
    ensures UnderRoot(path, root) <==> Segments(TrimEnd(root)) <= Segments(path)
  {
    SegmentPrefix(TrimEnd(root), path);
  }

  /** Dropping trailing slashes only shortens the segment list. */
  lemma {:induction false} TrimmedSegments(root: string)
    ensures Segments(TrimEnd(root)) <= Segments(root)
  {
    var t := TrimEnd(root);
    SegmentPrefix(t, root);
    if t != root {
      assert root[|t|] == SEP;
    }
  }

  /** One of the two contains the other: what re-adding `added` takes off the removed list. */
  predicate Overlaps(added: string, root: string) {
    UnderRoot(added, root) || UnderRoot(root, added)
  }

  /** Two folders that contain a common path contain one another: prefixes of one list are comparable. */
  lemma SharedDescendantOverlaps(path: string, added: string, root: string)
    requires UnderRoot(path, added) && UnderRoot(path, root)
    ensures Overlaps(added, root)
  {
    UnderRootIsSegmentPrefix(path, added);
    UnderRootIsSegmentPrefix(path, root);
    TrimmedSegments(added);
    TrimmedSegments(root);
    hide UnderRoot, Segments;
    var a, r, p := Segments(TrimEnd(added)), Segments(TrimEnd(root)), Segments(path);
    if |r| <= |a| {
      assert r == p[..|r|] == p[..|a|][..|r|] == a[..|r|];
      assert r <= a <= Segments(added);
      UnderRootIsSegmentPrefix(added, root);
    } else {
      assert a == p[..|a|] == p[..|r|][..|a|] == r[..|a|];
      assert a <= r <= Segments(root);
      UnderRootIsSegmentPrefix(root, added);
    }
  }
}

/** Small shared vocabulary. */
module Common {

  datatype Option<+T> = None | Some(value: T)

  function Max(a: int, b: int): (m: int)
    ensures m >= a && m >= b && (m == a || m == b)
  {
    if a > b then a else b
  }

  function Min(a: int, b: int): (m: int)
    ensures m <= a && m <= b && (m == a || m == b)
  {
    if a < b then a else b
  }

  lemma AnElement<T>(s: set<T>) returns (x: T)
    requires |s| > 0
    ensures x in s
  {
    x :| x in s;
  }

  lemma NonEmpty<T>(s: set<T>)
    requires s != {}
    ensures |s| > 0
  {
  }

  ghost predicate IsLeast(m: int, s: set<int>) {
    m in s && forall x :: x in s ==> m <= x
  }

  /** The least element of a non-empty set: SQL's `ORDER BY id ASC` takes it first. */
  function Least(s: set<int>): (m: int)
    requires |s| > 0
    ensures IsLeast(m, s)
  {
    LeastExists(s);
    var m :| m in s && forall x :: x in s ==> m <= x;
    m
  }

  lemma {:induction false} LeastExists(s: set<int>)
    requires |s| > 0
    ensures exists m :: IsLeast(m, s)
    decreases |s|
  {
    var a := AnElement(s);
    var rest := s - {a};
    if rest == {} {
      assert s == {a};
      assert IsLeast(a, s);
    } else {
      LeastExists(rest);
      var b :| IsLeast(b, rest);
      var m := if a < b then a else b;
      assert forall x :: x in s ==> x == a || x in rest;
      assert IsLeast(m, s);
    }
  }

  /** The elements in ascending order. */
  function Ascending(s: set<int>): (a: seq<int>)
    ensures forall x :: x in a <==> x in s
    ensures forall i, j :: 0 <= i < j < |a| ==> a[i] < a[j]
    decreases |s|
  {
    if |s| == 0 then []
    else
      var m := Least(s);
      var rest := Ascending(s - {m});
      assert forall x :: x in s <==> x == m || x in rest;
      assert forall k :: 0 <= k < |rest| ==> rest[k] in s - {m} && m < rest[k];
      [m] + rest
  }

  lemma {:induction false} AscendingSize(s: set<int>)
    ensures |Ascending(s)| == |s|
    decreases |s|
  {
    if |s| > 0 {
      AscendingSize(s - {Least(s)});
    }
  }

  lemma SubsetSize<T>(a: set<T>, b: set<T>)
    requires a <= b
    ensures |a| <= |b|
    ensures a < b ==> |a| < |b|
  {
    assert b == a + (b - a);
    if a < b {
      assert b - a != {};
    }
  }

  lemma TwoElements<T>(s: set<T>, x: T, y: T)
    requires x in s && y in s && x != y
    ensures |s| >= 2
  {
    SubsetSize({x, y}, s);
  }
}

/** Merging two polygons along a common side, as merge_2_polys of gameai/homework3/homework3/mycreatepathnetwork.py
    does. */
module Polygon {
  import opened Basics

  /** Coordinates are real numbers; rounding is left out. */
  datatype Point = Point(x: real, y: real)

  type Poly = seq<Point>

  // ----- signed area -----

  /** The term isCW adds up for each side. */
  function Side(u: Point, v: Point): real
  {
    (v.x - u.x) * (v.y + u.y)
  }

  lemma SideReversed(u: Point, v: Point)
    ensures Side(u, v) + Side(v, u) == 0.0
  {
  }

  function PathSum(p: Poly): real
  {
    if |p| < 2 then 0.0 else Side(p[0], p[1]) + PathSum(p[1..])
  }

  /** isCW's sum over all sides, minus twice the signed area. */
  function Area2(p: Poly): real
  {
    if p == [] then 0.0 else PathSum(p + [p[0]])
  }

  lemma {:induction false} PathJoin(p: Poly, q: Poly)
    requires p != [] && q != []
    ensures PathSum(p + q) == PathSum(p + [q[0]]) + PathSum(q)
  {
    if |p| == 1 {
      assert (p + q)[1..] == q && (p + [q[0]])[1..] == [q[0]];
    } else {
      PathJoin(p[1..], q);
      assert (p + q)[1..] == p[1..] + q && (p + [q[0]])[1..] == p[1..] + [q[0]];
    }
  }

  function Rotate(p: Poly, k: nat): Poly
    requires k <= |p|
  {
    p[k..] + p[..k]
  }

  /** It does not matter where the list of vertices starts. */
  lemma RotateArea(p: Poly, k: nat)
    requires k <= |p|
    ensures Area2(Rotate(p, k)) == Area2(p)
  {
    var u, v := p[..k], p[k..];
    assert p == u + v;
    if u == [] {
      assert Rotate(p, k) == p;
    } else if v == [] {
      assert Rotate(p, k) == p;
    } else {
      PathJoin(u, v + [u[0]]);
      PathJoin(v, u + [v[0]]);
      assert p + [p[0]] == u + (v + [u[0]]);
      assert Rotate(p, k) + [v[0]] == v + (u + [v[0]]);
    }
  }

  // ----- merging -----

  function Index(p: Poly, q: Point): (i: nat)
    requires q in p
    ensures i < |p| && p[i] == q && q !in p[..i]
  {
    if p[0] == q then 0 else Index(p[1..], q) + 1
  }

  /** commonPoints' inner loop: one copy of q for each time it occurs. */
  function Matches(q: Point, b: Poly): (m: seq<Point>)
    ensures forall i :: 0 <= i < |m| ==> m[i] == q
    ensures forall r :: r in m <==> r == q && q in b
  {
    if b == [] then [] else (if q == b[0] then [q] else []) + Matches(q, b[1..])
  }

  function Common(a: Poly, b: Poly): (c: seq<Point>)
    ensures forall q :: q in c <==> q in a && q in b
  {
    if a == [] then [] else Matches(a[0], b) + Common(a[1..], b)
  }

  /** The vertices from index i on, cyclically, up to but not including index j. */
  function Arc(p: Poly, i: nat, j: nat): (r: Poly)
    requires i < |p| && j < |p|
    ensures |r| == if i <= j then j - i else |p| - i + j
    ensures forall q :: q in r ==> q in p
  {
    if i <= j then p[i..j] else p[i..] + p[..j]
  }

  predicate Follows(a: Poly, p: Point, q: Point)
    requires p in a
  {
    a[(Index(a, p) + 1) % |a|] == q
  }

  /** Of the two common points in the order commonPoints lists them, the one the other follows in a. */
  function Entry(a: Poly, p: Point, q: Point): (r: (Point, Point))
    requires p in a && q in a
    ensures r == (p, q) || r == (q, p)
  {
    if !Follows(a, p, q) then (q, p) else (p, q)
  }

  /** merge_2_polys. */
  function Merge(a: Poly, b: Poly): Option<Poly>
  {
    var c := Common(a, b);
    if |c| != 2 then None
    else
      var (p, q) := Entry(a, c[0], c[1]);
      Some(Arc(a, Index(a, q), Index(a, p)) + Arc(b, Index(b, p), Index(b, q)))
  }

  lemma {:induction false} MatchesOnce(q: Point, b: Poly)
    requires Distinct(b)
    ensures Matches(q, b) == if q in b then [q] else []
  {
    if b != [] {
      MatchesOnce(q, b[1..]);
      assert q == b[0] ==> q !in b[1..];
    }
  }

  lemma {:induction false} CommonDistinct(a: Poly, b: Poly)
    requires Distinct(a) && Distinct(b)
    ensures Distinct(Common(a, b))
  {
    if a != [] {
      MatchesOnce(a[0], b);
      CommonDistinct(a[1..], b);
      assert a[0] !in Common(a[1..], b);
    }
  }

  /** An arc of all vertices but one ends just before the vertex it starts from: the rest is that one vertex. */
  lemma FullArc(p: Poly, i: nat, j: nat)
    requires i < |p| && j < |p| && |Arc(p, i, j)| == |p| - 1 && |p| >= 2
    ensures Arc(p, i, j) + [p[j]] == Rotate(p, i)
  {
    if i == 0 {
      assert j == |p| - 1;
    } else {
      assert j == i - 1;
      assert p[..i] == p[..j] + [p[j]];
    }
  }

  lemma RotateDistinct(p: Poly, k: nat)
    requires Distinct(p) && k <= |p|
    ensures Distinct(Rotate(p, k)) && forall q :: q in Rotate(p, k) <==> q in p
  {
    assert p == p[..k] + p[k..];
  }

  /** What a merge along one side gives: no vertex twice, all vertices of both, and both areas together. */
  ghost predicate Joins(m: Poly, a: Poly, b: Poly)
  {
    Distinct(m) && (forall r :: r in m <==> r in a || r in b) && Area2(m) == Area2(a) + Area2(b)
  }

  lemma ArcLength(p: Poly, i: nat, j: nat)
    requires i < |p| && j < |p|
    ensures |Arc(p, i, j)| < |p| && (i != j ==> |Arc(p, i, j)| >= 1 && Arc(p, i, j)[0] == p[i])
  {
  }

  /** x then q and y then p are the two polygons, opened at the common side between p and q. */
  lemma JoinArcs(x: Poly, y: Poly, p: Point, q: Point)
    requires x != [] && y != [] && x[0] == q && y[0] == p
    requires Distinct(x + [p]) && Distinct(y + [q])
    requires MeetOnly(x + [p], y + [q], p, q)
    ensures Joins(x + y, x + [p], y + [q])
  {
    PathJoin(x, y + [q]);
    assert (x + y) + [q] == x + (y + [q]);
    PathJoin(x + [p], [q]);
    PathJoin(y + [q], [p]);
    PathPair(p, q);
    SideReversed(p, q);
    PathLast(x + [p], q);
    PathLast(y + [q], p);
    forall i, j | 0 <= i < |x| && 0 <= j < |y|
      ensures x[i] != y[j]
    {
      assert (x + [p])[i] == x[i] && (x + [p])[|x|] == p && x[i] in x + [p];
      assert (y + [q])[j] == y[j] && (y + [q])[|y|] == q && y[j] in y + [q];
    }
    assert Distinct(x) by {
      assert forall i :: 0 <= i < |x| ==> (x + [p])[i] == x[i];
    }
    assert Distinct(y) by {
      assert forall i :: 0 <= i < |y| ==> (y + [q])[i] == y[i];
    }
  }

  lemma PathPair(p: Point, q: Point)
    ensures PathSum([p]) == 0.0 && PathSum([p, q]) == Side(p, q)
  {
    assert [p, q][1..] == [q];
  }

  /** Closing a path adds its last side. */
  lemma {:induction false} PathLast(s: Poly, q: Point)
    requires s != []
    ensures PathSum(s + [q]) == PathSum(s) + Side(s[|s| - 1], q)
  {
    if |s| == 1 {
      assert s == [s[0]] && s + [q] == [s[0], q];
      PathPair(s[0], q);
    } else {
      PathLast(s[1..], q);
      assert (s + [q])[1..] == s[1..] + [q];
    }
  }

  /** The same polygon, walked from another vertex. */
  ghost predicate Unrolls(u: Poly, a: Poly)
  {
    Distinct(u) && (forall r :: r in u <==> r in a) && Area2(u) == Area2(a)
  }

  /** A polygon opened at the side from p to q, walked from q round to p. */
  lemma Opened(a: Poly, p: Point, q: Point) returns (x: Poly)
    requires Distinct(a) && p in a && q in a && p != q && |Arc(a, Index(a, q), Index(a, p))| == |a| - 1
    ensures x == Arc(a, Index(a, q), Index(a, p)) && x != [] && x[0] == q && Unrolls(x + [p], a)
  {
    var i, j := Index(a, q), Index(a, p);
    x := Arc(a, i, j);
    ArcLength(a, i, j);
    FullArc(a, i, j);
    RotateDistinct(a, i);
    RotateArea(a, i);
  }

  lemma ArcsAreFull(a: Poly, b: Poly, p: Point, q: Point)
    requires p in a && q in a && p in b && q in b
    requires |Arc(a, Index(a, q), Index(a, p)) + Arc(b, Index(b, p), Index(b, q))| == |a| + |b| - 2
    ensures |Arc(a, Index(a, q), Index(a, p))| == |a| - 1 && |Arc(b, Index(b, p), Index(b, q))| == |b| - 1
  {
    ArcLength(a, Index(a, q), Index(a, p));
    ArcLength(b, Index(b, p), Index(b, q));
  }

  ghost predicate MeetOnly(u: Poly, v: Poly, p: Point, q: Point)
  {
    forall r :: r in u && r in v ==> r == p || r == q
  }

  lemma OnlyCommon(a: Poly, b: Poly, u: Poly, v: Poly, p: Point, q: Point)
    requires Unrolls(u, a) && Unrolls(v, b)
    requires var c := Common(a, b); |c| == 2 && (c == [p, q] || c == [q, p])
    ensures MeetOnly(u, v, p, q)
  {
    forall r | r in u && r in v
      ensures r == p || r == q
    {
      assert r in Common(a, b);
    }
  }

  lemma JoinsUnrolled(m: Poly, u: Poly, v: Poly, a: Poly, b: Poly)
    requires Joins(m, u, v) && Unrolls(u, a) && Unrolls(v, b)
    ensures Joins(m, a, b)
  {
  }

  /** Where a merge goes over from one polygon to the other. */
  lemma CommonEntry(a: Poly, b: Poly) returns (p: Point, q: Point)
    requires Distinct(a) && Distinct(b) && |Common(a, b)| == 2
    ensures p in a && q in a && p in b && q in b && p != q
    ensures Merge(a, b) == Some(Arc(a, Index(a, q), Index(a, p)) + Arc(b, Index(b, p), Index(b, q)))
    ensures Common(a, b) == [p, q] || Common(a, b) == [q, p]
    ensures (p, q) == Entry(a, Common(a, b)[0], Common(a, b)[1])
  {
    var c := Common(a, b);
    CommonDistinct(a, b);
    assert c[0] in c && c[1] in c;
    var e := Entry(a, c[0], c[1]);
    p, q := e.0, e.1;
  }

  /** A merge of the full length keeps all vertices, uses none twice, and conserves the signed area. */
  lemma MergeConserves(a: Poly, b: Poly)
    requires Distinct(a) && Distinct(b) && Merge(a, b).Some? && |Merge(a, b).value| == |a| + |b| - 2
    ensures Joins(Merge(a, b).value, a, b)
  {
    var p, q := CommonEntry(a, b);
    ArcsAreFull(a, b, p, q);
    var x := Opened(a, p, q);
    var y := Opened(b, q, p);
    OnlyCommon(a, b, x + [p], y + [q], p, q);
    JoinArcs(x, y, p, q);
    JoinsUnrolled(x + y, x + [p], y + [q], a, b);
  }

  lemma NextIndex(j: nat, n: nat)
    requires j < n
    ensures (j + 1) % n == if j + 1 < n then j + 1 else 0
  {
  }

  lemma Successor(a: Poly, p: Point) returns (k: nat)
    requires p in a
    ensures k == if Index(a, p) + 1 < |a| then Index(a, p) + 1 else 0
    ensures forall q :: Follows(a, p, q) <==> a[k] == q
  {
    NextIndex(Index(a, p), |a|);
    k := if Index(a, p) + 1 < |a| then Index(a, p) + 1 else 0;
  }

  lemma ArcIsFullIff(a: Poly, p: Point, q: Point)
    requires Distinct(a) && p in a && q in a && p != q
    ensures |Arc(a, Index(a, q), Index(a, p))| == |a| - 1 <==> Follows(a, p, q)
  {
    var i, j := Index(a, q), Index(a, p);
    var k := Successor(a, p);
    assert a[k] == q <==> k == i;
  }

  /** The guard on the length holds exactly when the two common points are a side of both, run through in opposite
      directions. */
  lemma FullLengthIff(a: Poly, b: Poly)
    requires Distinct(a) && Distinct(b) && |Common(a, b)| == 2
    ensures var (p, q) := Entry(a, Common(a, b)[0], Common(a, b)[1]);
            && p in a && p in b && q in a && q in b
            && (|Merge(a, b).value| == |a| + |b| - 2 <==> Follows(a, p, q) && Follows(b, q, p))
  {
    var p, q := CommonEntry(a, b);
    ArcLength(a, Index(a, q), Index(a, p));
    ArcLength(b, Index(b, p), Index(b, q));
    ArcIsFullIff(a, p, q);
    ArcIsFullIff(b, q, p);
  }

  lemma AThird(d: seq<Point>, p: Point, q: Point) returns (r: Point)
    requires |d| > 2 && Distinct(d)
    ensures r in d && r != p && r != q
  {
    r := if d[0] != p && d[0] != q then d[0] else if d[1] != p && d[1] != q then d[1] else d[2];
  }

  lemma SamePair(c: seq<Point>, d: seq<Point>)
    requires |c| == 2 && Distinct(d) && c[0] != c[1] && forall q :: q in c <==> q in d
    ensures d == [c[0], c[1]] || d == [c[1], c[0]]
  {
    assert c[0] in d && c[1] in d;
    assert d[0] in c && d[1] in c;
    if |d| > 2 {
      var r := AThird(d, c[0], c[1]);
      assert false;
    }
  }

  /** Merging the other way round gives the same polygon from another vertex on. */
  lemma MergeSwapped(a: Poly, b: Poly) returns (k: nat)
    requires Distinct(a) && Distinct(b) && |a| >= 3 && |b| >= 3
    requires Merge(a, b).Some? && |Merge(a, b).value| == |a| + |b| - 2
    ensures k <= |Merge(a, b).value| && Merge(b, a) == Some(Rotate(Merge(a, b).value, k))
  {
    var c := Common(a, b);
    FullLengthIff(a, b);
    CommonDistinct(a, b);
    CommonDistinct(b, a);
    SamePair(c, Common(b, a));
    var (p, q) := Entry(a, c[0], c[1]);
    OneWay(b, q, p);
    var x, y := Arc(a, Index(a, q), Index(a, p)), Arc(b, Index(b, p), Index(b, q));
    k := |x|;
    assert Rotate(x + y, k) == y + x;
  }

  /** In a triangle or a larger polygon neighbours follow each other in one direction only. */
  lemma OneWay(p: Poly, u: Point, v: Point)
    requires Distinct(p) && |p| >= 3 && u in p && v in p && u != v && Follows(p, u, v)
    ensures !Follows(p, v, u)
  {
    var i := Successor(p, u);
    var j := Successor(p, v);
  }

  // ----- which polygons have a side in common -----

  /** Exactly two vertices are common; in a the second comes right after the first, in b the first after the second. */
  ghost predicate SharesSide(a: Poly, b: Poly, p: Point, q: Point)
  {
    && p != q && p in a && q in a && p in b && q in b && (forall r :: r in a && r in b ==> r == p || r == q)
    && Follows(a, p, q) && Follows(b, q, p)
  }

  /** a from q round to p, and b from p round to q. */
  function AroundBoth(a: Poly, b: Poly, p: Point, q: Point): Poly
    requires p in a && q in a && p in b && q in b
  {
    Arc(a, Index(a, q), Index(a, p)) + Arc(b, Index(b, p), Index(b, q))
  }

  lemma TwoCommon(a: Poly, b: Poly, p: Point, q: Point)
    requires Distinct(a) && Distinct(b) && SharesSide(a, b, p, q)
    ensures Common(a, b) == [p, q] || Common(a, b) == [q, p]
  {
    CommonDistinct(a, b);
    SamePair([p, q], Common(a, b));
  }

  /** Two polygons with a common side: the merge is the way round both of them, and it has full length. */
  lemma SideMerges(a: Poly, b: Poly, p: Point, q: Point)
    requires Distinct(a) && Distinct(b) && |a| >= 3 && SharesSide(a, b, p, q)
    ensures Merge(a, b) == Some(AroundBoth(a, b, p, q)) && |Merge(a, b).value| == |a| + |b| - 2
  {
    TwoCommon(a, b, p, q);
    OneWay(a, p, q);
    FullLengthIff(a, b);
  }

  /** And only such polygons have a merge of full length. */
  lemma FullMergeHasSide(a: Poly, b: Poly) returns (p: Point, q: Point)
    requires Distinct(a) && Distinct(b) && Merge(a, b).Some? && |Merge(a, b).value| == |a| + |b| - 2
    ensures SharesSide(a, b, p, q) && Merge(a, b) == Some(AroundBoth(a, b, p, q))
  {
    p, q := CommonEntry(a, b);
    FullLengthIff(a, b);
    assert forall r :: r in a && r in b ==> r in Common(a, b);
  }
}

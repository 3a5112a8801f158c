/** The loops that merge polygons until nothing changes: merge_2_polys, merge_all_polys and build_convex_hulls. */
module PolyMerge {
  import opened Basics
  import opened Polygon

  /** commonPoints of utils.py. */
  method CommonPoints(a: Poly, b: Poly) returns (points: seq<Point>)
    ensures points == Common(a, b)
  {
    points := [];
    var i := 0;
    assert a[0..] == a;
    while i < |a|
      invariant 0 <= i <= |a| && points + Common(a[i..], b) == Common(a, b)
    {
      ghost var before := points;
      assert a[i..][1..] == a[i + 1..];
      var j := 0;
      assert b[0..] == b;
      while j < |b|
        invariant 0 <= j <= |b| && points + Matches(a[i], b[j..]) == before + Matches(a[i], b)
      {
        assert b[j..][1..] == b[j + 1..];
        if a[i] == b[j] {
          points := points + [b[j]];
        }
        j := j + 1;
      }
      assert b[j..] == [] && points == before + Matches(a[i], b);
      i := i + 1;
    }
    assert a[i..] == [];
  }

  method IndexOf(p: Poly, q: Point) returns (i: nat)
    requires q in p
    ensures i == Index(p, q)
  {
    i := 0;
    while p[i] != q
      invariant i < |p| && i <= Index(p, q)
      decreases |p| - i
    {
      IndexPast(p, q, i);
      i := i + 1;
    }
    IndexHere(p, q, i);
  }

  lemma IndexPast(p: Poly, q: Point, i: nat)
    requires q in p && i < |p| && i <= Index(p, q) && p[i] != q
    ensures i + 1 <= Index(p, q) && i + 1 < |p|
  {
  }

  lemma IndexHere(p: Poly, q: Point, i: nat)
    requires q in p && i < |p| && i <= Index(p, q) && p[i] == q
    ensures i == Index(p, q)
  {
  }

  /** One of merge_2_polys' two loops: the vertices from index i until the vertex `stop`. */
  method Collect(p: Poly, i: nat, stop: Point) returns (r: Poly)
    requires Distinct(p) && i < |p| && stop in p
    ensures r == Arc(p, i, Index(p, stop))
  {
    ghost var j := Index(p, stop);
    var k: nat := i;
    r := [];
    while p[k] != stop
      invariant k < |p| && r + Arc(p, k, j) == Arc(p, i, j)
      decreases |Arc(p, k, j)|
    {
      NextIndex(k, |p|);
      var next := (k + 1) % |p|;
      ArcStep(p, k, j, next);
      r := r + [p[k]];
      k := next;
    }
    assert k == j && Arc(p, k, j) == [];
  }

  lemma ArcStep(p: Poly, k: nat, j: nat, next: nat)
    requires k < |p| && j < |p| && k != j && next == if k + 1 < |p| then k + 1 else 0
    ensures Arc(p, k, j) == [p[k]] + Arc(p, next, j)
  {
  }

  /** a from q round to p, then b from p round to q. */
  method OpenAndJoin(a: Poly, b: Poly, p: Point, q: Point) returns (m: Poly)
    requires Distinct(a) && Distinct(b) && p in a && q in a && p in b && q in b
    ensures m == Arc(a, Index(a, q), Index(a, p)) + Arc(b, Index(b, p), Index(b, q))
  {
    var ai := IndexOf(a, q);
    var bi := IndexOf(b, p);
    var x := Collect(a, ai, p);
    var y := Collect(b, bi, q);
    m := x + y;
  }

  method Merge2Polys(a: Poly, b: Poly) returns (m: Option<Poly>)
    requires Distinct(a) && Distinct(b)
    ensures m == Merge(a, b)
  {
    var line := CommonPoints(a, b);
    if |line| != 2 {
      return None;
    }
    var p, q := line[0], line[1];
    assert p in Common(a, b) && q in Common(a, b);
    var at := IndexOf(a, p);
    if a[(at + 1) % |a|] != q {
      p, q := q, p;
    }
    assert (p, q) == Entry(a, line[0], line[1]);
    var joined := OpenAndJoin(a, b, p, q);
    m := Some(joined);
  }

  // ----- sets of polygons -----

  ghost function Total(s: set<Poly>): real
  {
    if s == {} then 0.0 else var p :| p in s; Area2(p) + Total(s - {p})
  }

  lemma {:induction false} TotalWithout(s: set<Poly>, p: Poly)
    requires p in s
    ensures Total(s) == Area2(p) + Total(s - {p})
  {
    var q :| q in s && Total(s) == Area2(q) + Total(s - {q});
    if q != p {
      TotalWithout(s - {q}, p);
      TotalWithout(s - {p}, q);
      assert s - {q} - {p} == s - {p} - {q};
    }
  }

  function SumOf(ps: seq<Poly>): real
  {
    if ps == [] then 0.0 else SumOf(ps[..|ps| - 1]) + Area2(ps[|ps| - 1])
  }

  lemma SumOfNext(ps: seq<Poly>, p: Poly)
    ensures SumOf(ps + [p]) == SumOf(ps) + Area2(p)
  {
    assert (ps + [p])[..|ps|] == ps;
  }

  lemma FewerPolygons(s: set<Poly>, a: Poly, b: Poly, m: Poly)
    requires a in s && b in s && a != b
    ensures |s - {a} - {b} + {m}| < |s|
  {
  }

  lemma TotalAdd(s: set<Poly>, m: Poly)
    ensures Total(s + {m}) == Total(s) + if m in s then 0.0 else Area2(m)
  {
    if m in s {
      assert s + {m} == s;
    } else {
      TotalWithout(s + {m}, m);
      assert s + {m} - {m} == s;
    }
  }

  /** Replacing two polygons by their merge keeps the total, unless the merge is there already: then it is counted once
      instead of twice. */
  lemma ReplaceTotal(s: set<Poly>, a: Poly, b: Poly, m: Poly)
    requires a in s && b in s && a != b && Area2(m) == Area2(a) + Area2(b)
    ensures var rest := s - {a} - {b};
            && Total(rest + {m}) == Total(s) - (if m in rest then Area2(m) else 0.0)
            && |rest + {m}| < |s|
  {
    FewerPolygons(s, a, b, m);
    TotalWithout(s, a);
    TotalWithout(s - {a}, b);
    TotalAdd(s - {a} - {b}, m);
  }

  ghost predicate AllDistinct(ps: set<Poly>)
  {
    forall p :: p in ps ==> Distinct(p)
  }

  function Elements(ps: seq<Poly>): set<Poly>
  {
    set p | p in ps
  }

  /** The candidate for a pair if it passes the tests; `good` stands for those on convexity and obstacles. */
  function Candidate(a: Poly, b: Poly, good: Poly -> bool): Option<Poly>
  {
    var m := Merge(a, b);
    if m.Some? && good(m.value) && |m.value| == |a| + |b| - 2 then m else None
  }

  type Merger = (Poly, Poly) -> Option<Poly>

  function ByTests(good: Poly -> bool): Merger
  {
    (a, b) => Candidate(a, b, good)
  }

  /** All that the theorems on passes use of the candidates. */
  ghost predicate Sound(merge: Merger)
  {
    forall a, b :: Distinct(a) && Distinct(b) && merge(a, b).Some? ==> Joins(merge(a, b).value, a, b)
  }

  lemma TestsAreSound(good: Poly -> bool)
    ensures Sound(ByTests(good))
  {
    forall a, b | Distinct(a) && Distinct(b) && ByTests(good)(a, b).Some?
      ensures Joins(ByTests(good)(a, b).value, a, b)
    {
      MergeConserves(a, b);
    }
  }

  /** One pair in merge_all_polys. */
  predicate Merges(s: set<Poly>, a: Poly, b: Poly, merge: Merger)
  {
    a in s && b in s && merge(a, b).Some?
  }

  function MergePair(s: set<Poly>, a: Poly, b: Poly, merge: Merger): set<Poly>
  {
    if Merges(s, a, b, merge) then s - {a} - {b} + {merge(a, b).value} else s
  }

  /** The pass over all pairs, from the pair (i, j) on in itertools.combinations' order. */
  function MergePass(ps: seq<Poly>, i: nat, j: nat, s: set<Poly>, merge: Merger): set<Poly>
    decreases |ps| - i, |ps| - j
  {
    if i >= |ps| then s
    else if j >= |ps| then MergePass(ps, i + 1, i + 2, s, merge)
    else MergePass(ps, i, j + 1, MergePair(s, ps[i], ps[j], merge), merge)
  }

  lemma PassStep(ps: seq<Poly>, i: nat, j: nat, s: set<Poly>, merge: Merger)
    requires i < |ps| && j < |ps|
    ensures MergePass(ps, i, j, s, merge) == MergePass(ps, i, j + 1, MergePair(s, ps[i], ps[j], merge), merge)
  {
  }

  lemma RowStep(ps: seq<Poly>, i: nat, j: nat, s: set<Poly>, merge: Merger)
    requires i < |ps| <= j
    ensures MergePass(ps, i, j, s, merge) == MergePass(ps, i + 1, i + 2, s, merge)
  {
  }

  /** The merge of one pair, if it was in the set before. */
  function LostPair(s: set<Poly>, a: Poly, b: Poly, merge: Merger): seq<Poly>
  {
    if Merges(s, a, b, merge) && merge(a, b).value in s - {a} - {b} then [merge(a, b).value] else []
  }

  /** The merges of a pass that were in the set before, in order. */
  function LostPass(ps: seq<Poly>, i: nat, j: nat, s: set<Poly>, merge: Merger): seq<Poly>
    decreases |ps| - i, |ps| - j
  {
    if i >= |ps| then []
    else if j >= |ps| then LostPass(ps, i + 1, i + 2, s, merge)
    else LostPair(s, ps[i], ps[j], merge) + LostPass(ps, i, j + 1, MergePair(s, ps[i], ps[j], merge), merge)
  }

  function Vertices(s: set<Poly>): set<Point>
  {
    set p, v | p in s && v in p :: v
  }

  /** What merging keeps: distinct vertices in each polygon, and all vertices. */
  ghost predicate Kept(s0: set<Poly>, s: set<Poly>)
  {
    AllDistinct(s) && Vertices(s) == Vertices(s0) && (s == s0 || |s| < |s0|)
  }

  lemma {:induction false} SumOfJoin(ps: seq<Poly>, qs: seq<Poly>)
    ensures SumOf(ps + qs) == SumOf(ps) + SumOf(qs)
  {
    if qs == [] {
      assert ps + qs == ps;
    } else {
      var init, q := qs[..|qs| - 1], qs[|qs| - 1];
      SumOfJoin(ps, init);
      SumOfNext(ps + init, q);
      assert ps + qs == (ps + init) + [q];
    }
  }

  lemma ReplaceVertices(s: set<Poly>, a: Poly, b: Poly, m: Poly)
    requires a in s && b in s && forall v :: v in m <==> v in a || v in b
    ensures Vertices(s - {a} - {b} + {m}) == Vertices(s)
  {
    var s' := s - {a} - {b} + {m};
    forall v | v in Vertices(s)
      ensures v in Vertices(s')
    {
      var p :| p in s && v in p;
      assert (if p in s' then p else m) in s';
    }
    forall v | v in Vertices(s')
      ensures v in Vertices(s)
    {
      var p :| p in s' && v in p;
      if p == m {
        assert v in a || v in b;
      } else {
        assert p in s;
      }
    }
  }

  lemma SumOfOne(p: Poly)
    ensures SumOf([p]) == Area2(p)
  {
    assert [p][..0] == [];
  }

  lemma PairKeeps(s: set<Poly>, a: Poly, b: Poly, merge: Merger)
    requires a != b && AllDistinct(s) && Sound(merge)
    ensures Kept(s, MergePair(s, a, b, merge))
    ensures Merges(s, a, b, merge) ==> |MergePair(s, a, b, merge)| < |s|
  {
    if Merges(s, a, b, merge) {
      assert Joins(merge(a, b).value, a, b);
      FewerPolygons(s, a, b, merge(a, b).value);
      ReplaceVertices(s, a, b, merge(a, b).value);
    }
  }

  lemma PairArea(s: set<Poly>, a: Poly, b: Poly, merge: Merger)
    requires a != b && AllDistinct(s) && Sound(merge)
    ensures AllDistinct(MergePair(s, a, b, merge))
    ensures Total(MergePair(s, a, b, merge)) == Total(s) - SumOf(LostPair(s, a, b, merge))
  {
    if Merges(s, a, b, merge) {
      assert Joins(merge(a, b).value, a, b);
      ReplaceTotal(s, a, b, merge(a, b).value);
      SumOfOne(merge(a, b).value);
    }
  }

  /** A pass over all pairs keeps every vertex. */
  lemma {:induction false} PassKeeps(ps: seq<Poly>, i: nat, j: nat, s: set<Poly>, merge: Merger)
    requires Distinct(ps) && AllDistinct(s) && Sound(merge) && i < j
    ensures Kept(s, MergePass(ps, i, j, s, merge))
    decreases |ps| - i, |ps| - j
  {
    if i >= |ps| {
    } else if j >= |ps| {
      PassKeeps(ps, i + 1, i + 2, s, merge);
    } else {
      PairKeeps(s, ps[i], ps[j], merge);
      PassKeeps(ps, i, j + 1, MergePair(s, ps[i], ps[j], merge), merge);
    }
  }

  lemma AreaTrans(s0: set<Poly>, s1: set<Poly>, s2: set<Poly>, lost: seq<Poly>, more: seq<Poly>)
    requires Total(s1) == Total(s0) - SumOf(lost) && Total(s2) == Total(s1) - SumOf(more)
    ensures Total(s2) == Total(s0) - SumOf(lost + more)
  {
    SumOfJoin(lost, more);
  }

  ghost predicate LosesArea(s0: set<Poly>, s: set<Poly>, lost: seq<Poly>)
  {
    Total(s) == Total(s0) - SumOf(lost)
  }

  lemma AreaStep(ps: seq<Poly>, i: nat, j: nat, s: set<Poly>, s1: set<Poly>, s2: set<Poly>, lost: seq<Poly>,
      more: seq<Poly>, merge: Merger)
    requires i < j < |ps| && s1 == MergePair(s, ps[i], ps[j], merge) && s2 == MergePass(ps, i, j + 1, s1, merge)
    requires lost == LostPair(s, ps[i], ps[j], merge) && more == LostPass(ps, i, j + 1, s1, merge)
    ensures s2 == MergePass(ps, i, j, s, merge) && lost + more == LostPass(ps, i, j, s, merge)
  {
  }

  /** A pass keeps the total area but for the merges that were in the set before. */
  lemma {:induction false} PassArea(ps: seq<Poly>, i: nat, j: nat, s: set<Poly>, merge: Merger)
    returns (s2: set<Poly>, lost: seq<Poly>)
    requires Distinct(ps) && AllDistinct(s) && Sound(merge) && i < j
    ensures s2 == MergePass(ps, i, j, s, merge) && lost == LostPass(ps, i, j, s, merge)
    ensures LosesArea(s, s2, lost)
    decreases |ps| - i, |ps| - j
  {
    s2, lost := s, [];
    if i < |ps| && j >= |ps| {
      s2, lost := PassArea(ps, i + 1, i + 2, s, merge);
    } else if i < |ps| {
      var s1, first := MergePair(s, ps[i], ps[j], merge), LostPair(s, ps[i], ps[j], merge);
      var more;
      PairArea(s, ps[i], ps[j], merge);
      s2, more := PassArea(ps, i, j + 1, s1, merge);
      AreaStep(ps, i, j, s, s1, s2, first, more, merge);
      AreaTrans(s, s1, s2, first, more);
      lost := first + more;
    }
  }

  /** So the area is conserved by every pass in which no merge was in the set before. */
  lemma PassConservesArea(ps: seq<Poly>, merge: Merger)
    requires Distinct(ps) && AllDistinct(Elements(ps)) && Sound(merge) && LostPass(ps, 0, 1, Elements(ps), merge) == []
    ensures Total(MergePass(ps, 0, 1, Elements(ps), merge)) == Total(Elements(ps))
  {
    var s, lost := PassArea(ps, 0, 1, Elements(ps), merge);
  }

  // ----- which pairs merge -----

  /** a and b have a side in common, and the way round both of them passes the tests. */
  ghost predicate Mergeable(a: Poly, b: Poly, p: Point, q: Point, good: Poly -> bool)
  {
    SharesSide(a, b, p, q) && good(AroundBoth(a, b, p, q))
  }

  ghost predicate AnySide(a: Poly, b: Poly, good: Poly -> bool)
  {
    exists p, q :: Mergeable(a, b, p, q, good)
  }

  lemma CandidateIff(a: Poly, b: Poly, good: Poly -> bool)
    requires Distinct(a) && Distinct(b) && |a| >= 3
    ensures Candidate(a, b, good).Some? <==> AnySide(a, b, good)
    ensures forall p, q :: Mergeable(a, b, p, q, good) ==> Candidate(a, b, good) == Some(AroundBoth(a, b, p, q))
  {
    forall p, q | Mergeable(a, b, p, q, good)
      ensures Candidate(a, b, good) == Some(AroundBoth(a, b, p, q))
    {
      SideMerges(a, b, p, q);
    }
    if Candidate(a, b, good).Some? {
      var p, q := FullMergeHasSide(a, b);
      assert Mergeable(a, b, p, q, good);
    }
  }

  /** Two polygons of the set are replaced by the way round both of them exactly if they have a side in common and it
      passes the tests; all other pairs leave the set as it is. */
  lemma MergePairIff(s: set<Poly>, a: Poly, b: Poly, good: Poly -> bool)
    requires AllDistinct(s) && a in s && b in s && a != b && |a| >= 3
    ensures MergePair(s, a, b, ByTests(good)) != s <==> AnySide(a, b, good)
    ensures forall p, q :: Mergeable(a, b, p, q, good)
                ==> MergePair(s, a, b, ByTests(good)) == s - {a} - {b} + {AroundBoth(a, b, p, q)}
  {
    CandidateIff(a, b, good);
    TestsAreSound(good);
    PairKeeps(s, a, b, ByTests(good));
  }

  /** Every polygon was there before or passes the tests; and none is smaller than a triangle. */
  ghost predicate Tested(s0: set<Poly>, s: set<Poly>, good: Poly -> bool)
  {
    forall p :: p in s ==> |p| >= 3 && (p in s0 || good(p))
  }

  lemma PairTested(s0: set<Poly>, s: set<Poly>, a: Poly, b: Poly, good: Poly -> bool)
    requires Tested(s0, s, good)
    ensures Tested(s0, MergePair(s, a, b, ByTests(good)), good)
  {
  }

  lemma {:induction false} PassTested(ps: seq<Poly>, i: nat, j: nat, s0: set<Poly>, s: set<Poly>, good: Poly -> bool)
    requires Tested(s0, s, good)
    ensures Tested(s0, MergePass(ps, i, j, s, ByTests(good)), good)
    decreases |ps| - i, |ps| - j
  {
    if i >= |ps| {
    } else if j >= |ps| {
      PassTested(ps, i + 1, i + 2, s0, s, good);
    } else {
      PairTested(s0, s, ps[i], ps[j], good);
      PassTested(ps, i, j + 1, s0, MergePair(s, ps[i], ps[j], ByTests(good)), good);
    }
  }

  // ----- passes that change nothing -----

  predicate Idle(ps: seq<Poly>, k: nat, l: nat, s: set<Poly>, merge: Merger)
    requires k < |ps| && l < |ps|
  {
    !Merges(s, ps[k], ps[l], merge)
  }

  /** No pair from (i, j) on merges. */
  ghost predicate NoneMerges(ps: seq<Poly>, i: nat, j: nat, s: set<Poly>, merge: Merger)
  {
    forall k, l :: i <= k < l < |ps| && (k > i || l >= j) ==> Idle(ps, k, l, s, merge)
  }

  lemma NoneMergesStep(ps: seq<Poly>, i: nat, j: nat, s: set<Poly>, merge: Merger)
    requires i < j < |ps|
    ensures NoneMerges(ps, i, j, s, merge) <==> Idle(ps, i, j, s, merge) && NoneMerges(ps, i, j + 1, s, merge)
  {
  }

  lemma NoneMergesRow(ps: seq<Poly>, i: nat, j: nat, s: set<Poly>, merge: Merger)
    requires i < |ps| <= j
    ensures NoneMerges(ps, i, j, s, merge) <==> NoneMerges(ps, i + 1, i + 2, s, merge)
  {
  }

  /** A pass that merges its first pair ends with fewer polygons. */
  lemma PassShrinks(ps: seq<Poly>, i: nat, j: nat, s: set<Poly>, merge: Merger)
    requires Distinct(ps) && AllDistinct(s) && Sound(merge) && i < j < |ps| && !Idle(ps, i, j, s, merge)
    ensures MergePass(ps, i, j, s, merge) != s
  {
    var s1 := MergePair(s, ps[i], ps[j], merge);
    PairKeeps(s, ps[i], ps[j], merge);
    PassKeeps(ps, i, j + 1, s1, merge);
    assert |MergePass(ps, i, j + 1, s1, merge)| < |s|;
  }

  /** A pass leaves the set as it is exactly if no pair merges: every merge leaves fewer polygons. */
  lemma {:induction false} PassIsIdleIff(ps: seq<Poly>, i: nat, j: nat, s: set<Poly>, merge: Merger)
    requires Distinct(ps) && AllDistinct(s) && Sound(merge) && i < j
    ensures MergePass(ps, i, j, s, merge) == s <==> NoneMerges(ps, i, j, s, merge)
    decreases |ps| - i, |ps| - j
  {
    if i >= |ps| {
    } else if j >= |ps| {
      NoneMergesRow(ps, i, j, s, merge);
      PassIsIdleIff(ps, i + 1, i + 2, s, merge);
    } else {
      NoneMergesStep(ps, i, j, s, merge);
      if Idle(ps, i, j, s, merge) {
        PassIsIdleIff(ps, i, j + 1, s, merge);
      } else {
        PassShrinks(ps, i, j, s, merge);
      }
    }
  }

  // ----- the order of the listing -----

  /** The tests do not depend on the vertex a polygon starts from. */
  ghost predicate Cyclic(good: Poly -> bool)
  {
    forall p: Poly, k: nat :: k <= |p| ==> good(Rotate(p, k)) == good(p)
  }

  lemma MergesEitherWay(s: set<Poly>, a: Poly, b: Poly, good: Poly -> bool)
    requires Distinct(a) && Distinct(b) && |a| >= 3 && |b| >= 3 && Cyclic(good) && Merges(s, a, b, ByTests(good))
    ensures Merges(s, b, a, ByTests(good))
  {
    var k := MergeSwapped(a, b);
    assert good(Rotate(Merge(a, b).value, k)) == good(Merge(a, b).value);
  }

  /** With such tests a set that one listing cannot change is not changed in any order. */
  lemma IdleInAnyOrder(ps: seq<Poly>, qs: seq<Poly>, good: Poly -> bool)
    requires Distinct(ps) && Distinct(qs) && Elements(ps) == Elements(qs) && Cyclic(good)
    requires AllDistinct(Elements(ps)) && forall p :: p in ps ==> |p| >= 3
    requires MergePass(ps, 0, 1, Elements(ps), ByTests(good)) == Elements(ps)
    ensures MergePass(qs, 0, 1, Elements(qs), ByTests(good)) == Elements(qs)
  {
    var s, merge := Elements(ps), ByTests(good);
    TestsAreSound(good);
    PassIsIdleIff(ps, 0, 1, s, merge);
    forall k, l | 0 <= k < l < |qs|
      ensures Idle(qs, k, l, s, merge)
    {
      assert qs[k] in Elements(qs) && qs[l] in Elements(qs);
      var i :| 0 <= i < |ps| && ps[i] == qs[k];
      var j :| 0 <= j < |ps| && ps[j] == qs[l];
      assert Idle(ps, if i < j then i else j, if i < j then j else i, s, merge);
      if j < i && Merges(s, qs[k], qs[l], merge) {
        MergesEitherWay(s, qs[k], qs[l], good);
      }
    }
    PassIsIdleIff(qs, 0, 1, s, merge);
  }

  /** No two polygons listed in this order have a side in common that could be merged. */
  ghost predicate NoneLeft(ps: seq<Poly>, good: Poly -> bool)
  {
    forall i, j :: 0 <= i < j < |ps| ==> !AnySide(ps[i], ps[j], good)
  }

  lemma IdleLeavesNone(ps: seq<Poly>, good: Poly -> bool)
    requires Distinct(ps) && AllDistinct(Elements(ps)) && forall p :: p in ps ==> |p| >= 3
    requires MergePass(ps, 0, 1, Elements(ps), ByTests(good)) == Elements(ps)
    ensures NoneLeft(ps, good)
  {
    TestsAreSound(good);
    PassIsIdleIff(ps, 0, 1, Elements(ps), ByTests(good));
    forall i, j | 0 <= i < j < |ps|
      ensures !AnySide(ps[i], ps[j], good)
    {
      assert ps[i] in Elements(ps) && ps[j] in Elements(ps);
      assert Idle(ps, i, j, Elements(ps), ByTests(good));
      CandidateIff(ps[i], ps[j], good);
    }
  }

  // ----- the loops -----

  method TryMerge(a: Poly, b: Poly, polys: set<Poly>, good: Poly -> bool) returns (result: set<Poly>)
    requires Distinct(a) && Distinct(b)
    ensures result == MergePair(polys, a, b, ByTests(good))
  {
    result := polys;
    if a !in polys || b !in polys {
      return;
    }
    var m := Merge2Polys(a, b);
    if m.Some? && good(m.value) && |m.value| == |a| + |b| - 2 {
      result := result - {a};
      result := result - {b};
      result := result + {m.value};
    }
  }

  /** All pairs whose first polygon is number i. */
  method MergeRow(polys: seq<Poly>, i: nat, s: set<Poly>, good: Poly -> bool) returns (result: set<Poly>)
    requires i < |polys| && AllDistinct(Elements(polys))
    ensures MergePass(polys, i + 1, i + 2, result, ByTests(good)) == MergePass(polys, i, i + 1, s, ByTests(good))
  {
    result := s;
    var j := i + 1;
    while j < |polys|
      invariant i < j <= |polys|
      invariant MergePass(polys, i, j, result, ByTests(good)) == MergePass(polys, i, i + 1, s, ByTests(good))
    {
      assert polys[i] in Elements(polys) && polys[j] in Elements(polys);
      PassStep(polys, i, j, result, ByTests(good));
      result := TryMerge(polys[i], polys[j], result, good);
      assert MergePass(polys, i, j + 1, result, ByTests(good)) == MergePass(polys, i, i + 1, s, ByTests(good));
      j := j + 1;
    }
    RowStep(polys, i, j, result, ByTests(good));
  }

  /** merge_all_polys. */
  method MergeAllPolys(polys: seq<Poly>, good: Poly -> bool) returns (result: set<Poly>)
    requires Distinct(polys) && AllDistinct(Elements(polys))
    ensures result == MergePass(polys, 0, 1, Elements(polys), ByTests(good))
    ensures Kept(Elements(polys), result)
    ensures Total(result) == Total(Elements(polys)) - SumOf(LostPass(polys, 0, 1, Elements(polys), ByTests(good)))
  {
    result := Elements(polys);
    var i := 0;
    while i < |polys|
      invariant 0 <= i <= |polys|
      invariant MergePass(polys, i, i + 1, result, ByTests(good))
                == MergePass(polys, 0, 1, Elements(polys), ByTests(good))
    {
      result := MergeRow(polys, i, result, good);
      i := i + 1;
    }
    TestsAreSound(good);
    PassKeeps(polys, 0, 1, Elements(polys), ByTests(good));
    ghost var s, lost := PassArea(polys, 0, 1, Elements(polys), ByTests(good));
  }

  /** list(new_polys), in any order. */
  method ListOf(s: set<Poly>) returns (ps: seq<Poly>)
    ensures Distinct(ps) && Elements(ps) == s && |ps| == |s|
  {
    ps := [];
    var rest := s;
    while rest != {}
      invariant Distinct(ps) && Elements(ps) + rest == s && Elements(ps) !! rest && |ps| + |rest| == |s|
      decreases rest
    {
      var p :| p in rest;
      assert Elements(ps + [p]) == Elements(ps) + {p};
      assert p !in Elements(ps);
      ps, rest := ps + [p], rest - {p};
    }
  }

  // ----- runs of passes -----

  /** Listing number k of the run has the result of a pass over the one before, in any order. */
  ghost predicate PassAt(run: seq<seq<Poly>>, k: nat, merge: Merger)
    requires 0 < k < |run|
  {
    Distinct(run[k]) && Elements(run[k]) == MergePass(run[k - 1], 0, 1, Elements(run[k - 1]), merge)
  }

  /** The listings before each pass and after the last. */
  ghost predicate Passes(run: seq<seq<Poly>>, merge: Merger)
  {
    run != [] && Distinct(run[0]) && forall k :: 0 < k < |run| ==> PassAt(run, k, merge)
  }

  /** The merges of all passes that were in the set before. */
  function LostIn(run: seq<seq<Poly>>, merge: Merger): seq<Poly>
  {
    if |run| <= 1 then []
    else
      var last := run[|run| - 2];
      LostIn(run[..|run| - 1], merge) + LostPass(last, 0, 1, Elements(last), merge)
  }

  /** The last pass of the run changed nothing. */
  ghost predicate Settled(run: seq<seq<Poly>>)
  {
    |run| >= 2 && Elements(run[|run| - 1]) == Elements(run[|run| - 2])
  }

  lemma OneMorePass(run: seq<seq<Poly>>, polys: seq<Poly>, merge: Merger)
    requires Passes(run, merge) && Distinct(polys)
    requires var last := run[|run| - 1]; Elements(polys) == MergePass(last, 0, 1, Elements(last), merge)
    ensures Passes(run + [polys], merge)
  {
    var longer := run + [polys];
    forall k | 0 < k < |longer|
      ensures PassAt(longer, k, merge)
    {
      assert k < |run| ==> PassAt(run, k, merge);
    }
  }

  lemma PassesInit(run: seq<seq<Poly>>, merge: Merger)
    requires Passes(run, merge) && |run| > 1
    ensures Passes(run[..|run| - 1], merge) && PassAt(run, |run| - 1, merge)
  {
    var init := run[..|run| - 1];
    forall k | 0 < k < |init|
      ensures PassAt(init, k, merge)
    {
      assert PassAt(run, k, merge);
    }
  }

  /** Over any number of passes, in any order of listing: the vertices, and the area but for merges that were in the set
      before. */
  lemma {:induction false} RunKeeps(run: seq<seq<Poly>>, merge: Merger)
    requires Passes(run, merge) && AllDistinct(Elements(run[0])) && Sound(merge)
    ensures var first, last := Elements(run[0]), Elements(run[|run| - 1]);
            Kept(first, last) && Total(last) == Total(first) - SumOf(LostIn(run, merge))
  {
    if |run| > 1 {
      var init, ps := run[..|run| - 1], run[|run| - 2];
      PassesInit(run, merge);
      RunKeeps(init, merge);
      assert |run| > 2 ==> PassAt(run, |run| - 2, merge);
      PassKeeps(ps, 0, 1, Elements(ps), merge);
      var s, more := PassArea(ps, 0, 1, Elements(ps), merge);
      AreaTrans(Elements(run[0]), Elements(ps), Elements(run[|run| - 1]), LostIn(init, merge),
                LostPass(ps, 0, 1, Elements(ps), merge));
    }
  }

  lemma {:induction false} RunTested(run: seq<seq<Poly>>, good: Poly -> bool)
    requires Passes(run, ByTests(good)) && forall p :: p in run[0] ==> |p| >= 3
    ensures forall k :: 0 <= k < |run| ==> Tested(Elements(run[0]), Elements(run[k]), good)
  {
    if |run| > 1 {
      var init, ps := run[..|run| - 1], run[|run| - 2];
      PassesInit(run, ByTests(good));
      RunTested(init, good);
      assert init[|init| - 1] == ps;
      PassTested(ps, 0, 1, Elements(run[0]), Elements(ps), good);
      forall k | 0 <= k < |run|
        ensures Tested(Elements(run[0]), Elements(run[k]), good)
      {
        assert k < |init| ==> init[k] == run[k];
      }
    }
  }

  lemma SettledRunLeavesNone(run: seq<seq<Poly>>, good: Poly -> bool)
    requires Passes(run, ByTests(good)) && Settled(run) && AllDistinct(Elements(run[0]))
    requires forall p :: p in run[0] ==> |p| >= 3
    ensures NoneLeft(run[|run| - 2], good) && (Cyclic(good) ==> NoneLeft(run[|run| - 1], good))
    ensures Tested(Elements(run[0]), Elements(run[|run| - 1]), good)
  {
    var ps, qs := run[|run| - 2], run[|run| - 1];
    PassesInit(run, ByTests(good));
    TestsAreSound(good);
    RunTested(run, good);
    RunKeeps(run, ByTests(good));
    assert |run| > 2 ==> PassAt(run, |run| - 2, ByTests(good));
    assert forall p :: p in ps ==> p in Elements(ps);
    IdleLeavesNone(ps, good);
    if Cyclic(good) {
      IdleInAnyOrder(ps, qs, good);
      assert forall p :: p in qs ==> p in Elements(qs);
      IdleLeavesNone(qs, good);
    }
  }

  /** From triangles or larger polygons the run leads to polygons that were there before or pass the tests, and leaves
      no pair that could be merged: in the last listing, and with tests that ignore the first vertex in any order. */
  ghost predicate MergedOut(run: seq<seq<Poly>>, good: Poly -> bool)
  {
    |run| >= 2 && ((forall p :: p in run[0] ==> |p| >= 3)
                   ==> && Tested(Elements(run[0]), Elements(run[|run| - 1]), good) && NoneLeft(run[|run| - 2], good)
                       && (Cyclic(good) ==> NoneLeft(run[|run| - 1], good)))
  }

  lemma SettledRunIsMergedOut(run: seq<seq<Poly>>, good: Poly -> bool)
    requires Passes(run, ByTests(good)) && Settled(run) && AllDistinct(Elements(run[0]))
    ensures MergedOut(run, good)
  {
    if forall p :: p in run[0] ==> |p| >= 3 {
      SettledRunLeavesNone(run, good);
    }
  }

  /** The run so far, from the triangles to the present polygons. */
  ghost predicate Runs(run: seq<seq<Poly>>, triangles: seq<Poly>, polys: seq<Poly>, good: Poly -> bool)
  {
    && Passes(run, ByTests(good)) && run[0] == triangles && run[|run| - 1] == polys
    && Distinct(polys) && AllDistinct(Elements(polys))
  }

  /** One pass, and the polygons listed again; it settles the run if their number is as before. */
  method NextListing(polys: seq<Poly>, good: Poly -> bool, ghost run: seq<seq<Poly>>, ghost triangles: seq<Poly>)
    returns (next: seq<Poly>, ghost longer: seq<seq<Poly>>)
    requires Runs(run, triangles, polys, good)
    ensures Runs(longer, triangles, next, good)
    ensures |next| <= |polys| && (|next| == |polys| ==> Settled(longer))
  {
    var merged := MergeAllPolys(polys, good);
    CountElements(polys);
    next := ListOf(merged);
    OneMorePass(run, next, ByTests(good));
    longer := run + [next];
  }

  /** build_convex_hulls' loop: it ends because a pass that changes the number of polygons lowers it. */
  method MergeUntilStable(triangles: seq<Poly>, good: Poly -> bool)
    returns (polys: seq<Poly>, ghost run: seq<seq<Poly>>)
    requires Distinct(triangles) && AllDistinct(Elements(triangles))
    ensures Passes(run, ByTests(good)) && Settled(run) && run[0] == triangles && run[|run| - 1] == polys
    ensures Kept(Elements(triangles), Elements(polys))
    ensures Total(Elements(polys)) == Total(Elements(triangles)) - SumOf(LostIn(run, ByTests(good)))
    ensures MergedOut(run, good)
  {
    polys, run := triangles, [triangles];
    var changed := true;
    while changed
      invariant Runs(run, triangles, polys, good)
      invariant !changed ==> Settled(run)
      decreases |polys|, changed
    {
      var oldCount := |polys|;
      polys, run := NextListing(polys, good, run, triangles);
      changed := oldCount != |polys|;
    }
    RunEnds(run, triangles, polys, good);
  }

  lemma RunEnds(run: seq<seq<Poly>>, triangles: seq<Poly>, polys: seq<Poly>, good: Poly -> bool)
    requires Runs(run, triangles, polys, good) && Settled(run) && AllDistinct(Elements(triangles))
    ensures Kept(Elements(triangles), Elements(polys)) && MergedOut(run, good)
    ensures Total(Elements(polys)) == Total(Elements(triangles)) - SumOf(LostIn(run, ByTests(good)))
  {
    TestsAreSound(good);
    RunKeeps(run, ByTests(good));
    SettledRunIsMergedOut(run, good);
  }

  lemma {:induction false} CountElements(ps: seq<Poly>)
    requires Distinct(ps)
    ensures |Elements(ps)| == |ps|
  {
    if ps == [] {
    } else {
      CountElements(ps[1..]);
      assert Elements(ps) == {ps[0]} + Elements(ps[1..]);
    }
  }
}

/** The all-pairs shortest path tables that `foox` fills in place
    (gameai/homework6/mycreatepathnetwork.py), and the paths they encode. */
module FloydWarshall {
  import opened Basics
  import opened Graph

  /** A table entry: a length, or the INFINITY of the unconnected pairs. */
  datatype Dist = Finite(r: real) | Infinity {
    function Plus(other: Dist): Dist {
      if Finite? && other.Finite? then Finite(r + other.r) else Infinity
    }

    predicate Less(other: Dist) {
      Finite? && (other.Infinity? || r < other.r)
    }

    ghost predicate AtMost(other: Dist) {
      other.Finite? ==> Finite? && r <= other.r
    }
  }

  type DistTable<!P(==)> = map<(P, P), Dist>
  type NextTable<!P(==)> = map<(P, P), Option<P>>

  /** The tables before the first relaxation. */
  ghost function EdgeDist<P(!new)>(edges: seq<(P, P)>, d: (P, P) -> real, i: P, j: P): Dist
  {
    if i == j then Finite(0.0) else if Adjacent(edges, i, j) then Finite(d(i, j)) else Infinity
  }

  ghost predicate OverNodes<P(!new), V>(nodes: seq<P>, table: map<(P, P), V>)
  {
    forall i, j :: i in nodes && j in nodes <==> (i, j) in table
  }

  /** Every finite entry is the length of some walk. */
  ghost predicate Sound<P(!new)>(nodes: seq<P>, edges: seq<(P, P)>, d: (P, P) -> real, dist: DistTable<P>)
  {
    && OverNodes(nodes, dist)
    && forall i, j :: (i, j) in dist && dist[(i, j)].Finite? ==> HasWalk(edges, d, i, j, dist[(i, j)].r)
  }

  ghost predicate HasWalk<P(!new)>(edges: seq<(P, P)>, d: (P, P) -> real, i: P, j: P, r: real)
  {
    exists w: seq<P> :: WalkBetween(edges, w, i, j) && Length(d, w) == r
  }

  ghost predicate Through<P>(w: seq<P>, via: set<P>)
  {
    forall t :: 0 < t < |w| - 1 ==> w[t] in via
  }

  /** No walk whose inner points all lie in `via` beats the table. */
  ghost predicate Covers<P(!new)>(nodes: seq<P>, edges: seq<(P, P)>, d: (P, P) -> real, dist: DistTable<P>, via: set<P>)
    requires OverNodes(nodes, dist)
  {
    forall i, j, w: seq<P> :: i in nodes && j in nodes && WalkBetween(edges, w, i, j) && Through(w, via)
                              ==> dist[(i, j)].AtMost(Finite(Length(d, w)))
  }

  /** What the recorded intermediate of one pair says. */
  ghost predicate Recorded<P(!new)>(edges: seq<(P, P)>, d: (P, P) -> real, dist: DistTable<P>, i: P, j: P,
      via: Option<P>)
    requires (i, j) in dist
  {
    match via
    case None => dist[(i, j)] == EdgeDist(edges, d, i, j)
    case Some(k) =>
      && (i, k) in dist && (k, j) in dist
      && k != i && k != j
      && dist[(i, j)].Finite?
      && dist[(i, k)].Plus(dist[(k, j)]).AtMost(dist[(i, j)])
  }

  ghost predicate AllRecorded<P(!new)>(nodes: seq<P>, edges: seq<(P, P)>, d: (P, P) -> real, dist: DistTable<P>,
      next: NextTable<P>)
    requires OverNodes(nodes, dist)
  {
    && OverNodes(nodes, next)
    && forall i, j :: i in nodes && j in nodes ==> Recorded(edges, d, dist, i, j, next[(i, j)])
  }

  ghost predicate Tables<P(!new)>(nodes: seq<P>, edges: seq<(P, P)>, d: (P, P) -> real, dist: DistTable<P>,
      next: NextTable<P>)
  {
    Sound(nodes, edges, d, dist) && AllRecorded(nodes, edges, d, dist, next)
  }

  /** A walk through `via + {k}` is no shorter than going to k and on from k by the old table. */
  lemma DetourThrough<P(!new)>(nodes: seq<P>, edges: seq<(P, P)>, d: (P, P) -> real, before: DistTable<P>,
                               via: set<P>, i: P, j: P, k: P, w: seq<P>, t: nat)
    requires IsMetric(d)
    requires OverNodes(nodes, before) && i in nodes && j in nodes && k in nodes
    requires Covers(nodes, edges, d, before, via)
    requires WalkBetween(edges, w, i, j) && Through(w, via + {k})
    requires 0 < t < |w| - 1 && w[t] == k
    ensures before[(i, k)].Plus(before[(k, j)]).AtMost(Finite(Length(d, w)))
  {
    var a, b := FirstAndLast(w, k, t);
    CutLoop(d, w, a, b);
    assert WalkBetween(edges, w[..a + 1], i, k) && Through(w[..a + 1], via);
    assert WalkBetween(edges, w[b..], k, j) && Through(w[b..], via);
  }

  /** Leaving out the stretch between two visits of a point does not lengthen a walk. */
  lemma CutLoop<P(!new)>(d: (P, P) -> real, w: seq<P>, a: nat, b: nat)
    requires IsMetric(d) && a <= b < |w|
    ensures Length(d, w[..a + 1]) + Length(d, w[b..]) <= Length(d, w)
  {
    LengthSplit(d, w, a);
    LengthSplit(d, w[a..], b - a);
    assert w[a..][b - a..] == w[b..];
    StraightLineIsShorter(d, w[a..][..b - a + 1]);
  }

  /** Relaxing through k once per pair, reading entries that may already have been lowered, still covers
      every walk through `via + {k}`. */
  lemma RelaxedCovers<P(!new)>(nodes: seq<P>, edges: seq<(P, P)>, d: (P, P) -> real, before: DistTable<P>,
                               after: DistTable<P>, via: set<P>, k: P)
    requires IsMetric(d)
    requires OverNodes(nodes, before) && OverNodes(nodes, after) && k in nodes
    requires Covers(nodes, edges, d, before, via)
    requires Lowered(nodes, before, after)
    requires forall i :: i in nodes ==> RowRelaxed(nodes, before, after, k, i, nodes)
    ensures Covers(nodes, edges, d, after, via + {k})
  {
    forall i, j, w: seq<P> | i in nodes && j in nodes && WalkBetween(edges, w, i, j) && Through(w, via + {k})
      ensures after[(i, j)].AtMost(Finite(Length(d, w)))
    {
      assert RowRelaxed(nodes, before, after, k, i, nodes);
      if t :| 0 < t < |w| - 1 && w[t] == k {
        DetourThrough(nodes, edges, d, before, via, i, j, k, w, t);
      } else {
        assert Through(w, via);
      }
    }
  }

  ghost predicate Lowered<P(!new)>(nodes: seq<P>, before: DistTable<P>, after: DistTable<P>)
    requires OverNodes(nodes, before) && OverNodes(nodes, after)
  {
    forall i, j :: i in nodes && j in nodes ==> after[(i, j)].AtMost(before[(i, j)])
  }

  /** In row i, the columns `done` have been relaxed through k. */
  ghost predicate RowRelaxed<P(!new)>(nodes: seq<P>, before: DistTable<P>, after: DistTable<P>, k: P, i: P,
      done: seq<P>)
    requires OverNodes(nodes, before) && OverNodes(nodes, after) && k in nodes && i in nodes
  {
    forall j :: j in nodes && j in done ==> after[(i, j)].AtMost(before[(i, k)].Plus(before[(k, j)]))
  }

  lemma FirstAndLast<P>(w: seq<P>, k: P, t: nat) returns (a: nat, b: nat)
    requires 0 < t < |w| - 1 && w[t] == k
    ensures 0 < a <= b < |w| - 1 && w[a] == k == w[b]
    ensures forall s :: 0 < s < a ==> w[s] != k
    ensures forall s :: b < s < |w| - 1 ==> w[s] != k
  {
    a, b := 1, |w| - 2;
    while w[a] != k
      invariant 0 < a <= t
      invariant forall s :: 0 < s < a ==> w[s] != k
      decreases t - a
    {
      a := a + 1;
    }
    while w[b] != k
      invariant t <= b < |w| - 1
      invariant forall s :: b < s < |w| - 1 ==> w[s] != k
      decreases b
    {
      b := b - 1;
    }
  }

  /** The diagonal is 0 throughout. */
  lemma DiagonalIsZero<P(!new)>(nodes: seq<P>, edges: seq<(P, P)>, d: (P, P) -> real, dist: DistTable<P>, via: set<P>,
      i: P)
    requires IsMetric(d)
    requires Sound(nodes, edges, d, dist) && Covers(nodes, edges, d, dist, via) && i in nodes
    ensures dist[(i, i)] == Finite(0.0)
  {
    assert WalkBetween(edges, [i], i, i) && Through([i], via) && Length(d, [i]) == 0.0;
    var w: seq<P> :| WalkBetween(edges, w, i, i) && Length(d, w) == dist[(i, i)].r;
    StraightLineIsShorter(d, w);
  }

  /** One assignment of the innermost loop keeps the tables meaningful. */
  lemma RelaxOne<P(!new)>(nodes: seq<P>, edges: seq<(P, P)>, d: (P, P) -> real, dist: DistTable<P>, next: NextTable<P>,
                          via: set<P>, i: P, j: P, k: P)
    requires IsMetric(d)
    requires Tables(nodes, edges, d, dist, next) && Covers(nodes, edges, d, dist, via)
    requires i in nodes && j in nodes && k in nodes
    requires dist[(i, k)].Plus(dist[(k, j)]).Less(dist[(i, j)])
    ensures var dist' := dist[(i, j) := dist[(i, k)].Plus(dist[(k, j)])];
            Tables(nodes, edges, d, dist', next[(i, j) := Some(k)]) && Covers(nodes, edges, d, dist', via)
  {
    DiagonalIsZero(nodes, edges, d, dist, via, i);
    DiagonalIsZero(nodes, edges, d, dist, via, j);
    var v: seq<P> :| WalkBetween(edges, v, i, k) && Length(d, v) == dist[(i, k)].r;
    var w: seq<P> :| WalkBetween(edges, w, k, j) && Length(d, w) == dist[(k, j)].r;
    JoinWalks(edges, d, v, w, i, k, j);
    var dist' := dist[(i, j) := dist[(i, k)].Plus(dist[(k, j)])];
    var next' := next[(i, j) := Some(k)];
    forall x, y | x in nodes && y in nodes
      ensures Recorded(edges, d, dist', x, y, next'[(x, y)])
    {
      assert Recorded(edges, d, dist, x, y, next[(x, y)]);
    }
  }

  /** The first double loop: 0 on the diagonal and INFINITY elsewhere. */
  method Blank<P(==, !new)>(nodes: seq<P>, ghost d: (P, P) -> real) returns (next: NextTable<P>, dist: DistTable<P>)
    ensures OverNodes(nodes, dist) && OverNodes(nodes, next)
    ensures forall i, j :: i in nodes && j in nodes ==> dist[(i, j)] == EdgeDist([], d, i, j) && next[(i, j)] == None
  {
    next, dist := map[], map[];
    for a := 0 to |nodes|
      invariant forall i, j :: (i, j) in dist <==> i in nodes && j in nodes && (i in nodes[..a] || j in nodes[..a])
      invariant dist.Keys == next.Keys
      invariant forall i, j :: (i, j) in dist ==> dist[(i, j)] == EdgeDist([], d, i, j) && next[(i, j)] == None
    {
      var i := nodes[a];
      for b := 0 to |nodes|
        invariant forall x, y :: (x, y) in dist <==>
            x in nodes && y in nodes
                && (x in nodes[..a] || y in nodes[..a] || (x == i && y in nodes[..b]) || (y == i && x in nodes[..b]))
        invariant dist.Keys == next.Keys
        invariant forall x, y :: (x, y) in dist ==> dist[(x, y)] == EdgeDist([], d, x, y) && next[(x, y)] == None
      {
        var j := nodes[b];
        next := next[(i, j) := None][(j, i) := None];
        if i == j {
          dist := dist[(i, j) := Finite(0.0)][(j, i) := Finite(0.0)];
        } else {
          dist := dist[(i, j) := Infinity][(j, i) := Infinity];
        }
        assert nodes[..b + 1] == nodes[..b] + [j];
      }
      assert nodes[..|nodes|] == nodes && nodes[..a + 1] == nodes[..a] + [i];
    }
    assert nodes[..|nodes|] == nodes;
  }

  /** The second loop: the length of every edge, in both directions. */
  method Initialise<P(==, !new)>(nodes: seq<P>, edges: seq<(P, P)>, d: (P, P) -> real)
    returns (next: NextTable<P>, dist: DistTable<P>)
    requires IsMetric(d)
    requires forall e :: e in edges ==> e.0 in nodes && e.1 in nodes
    ensures OverNodes(nodes, dist) && OverNodes(nodes, next)
    ensures forall i, j :: i in nodes && j in nodes ==> dist[(i, j)] == EdgeDist(edges, d, i, j) && next[(i, j)] == None
  {
    next, dist := Blank(nodes, d);
    for c := 0 to |edges|
      invariant OverNodes(nodes, dist)
      invariant forall i, j :: i in nodes && j in nodes ==> dist[(i, j)] == EdgeDist(edges[..c], d, i, j)
    {
      var (x, y) := edges[c];
      assert edges[c] in edges && PositiveAndSymmetric(d, x, y);
      var length := d(x, y);
      dist := dist[(x, y) := Finite(length)][(y, x) := Finite(length)];
      assert edges[..c + 1] == edges[..c] + [(x, y)];
    }
    assert edges[..|edges|] == edges;
  }

  /** The tables just filled in are right for walks without inner points. */
  lemma InitialTables<P(!new)>(nodes: seq<P>, edges: seq<(P, P)>, d: (P, P) -> real, dist: DistTable<P>,
      next: NextTable<P>)
    requires IsMetric(d)
    requires OverNodes(nodes, dist) && OverNodes(nodes, next)
    requires forall i, j :: i in nodes && j in nodes
                 ==> dist[(i, j)] == EdgeDist(edges, d, i, j) && next[(i, j)] == None
    ensures Tables(nodes, edges, d, dist, next) && Covers(nodes, edges, d, dist, {})
  {
    ghost var nowhere: set<P> := {};
    forall i, j | i in nodes && j in nodes && dist[(i, j)].Finite?
      ensures HasWalk(edges, d, i, j, dist[(i, j)].r)
    {
      var w := if i == j then [i] else [i, j];
      assert i != j ==> w[1..] == [j] && Length(d, w) == d(i, j) + Length(d, w[1..]);
      assert WalkBetween(edges, w, i, j) && Length(d, w) == dist[(i, j)].r;
    }
    forall i, j, w: seq<P> | i in nodes && j in nodes && WalkBetween(edges, w, i, j) && Through(w, nowhere)
      ensures dist[(i, j)].AtMost(Finite(Length(d, w)))
    {
      var second := if |w| == 1 then w[0] else w[1];
      if |w| > 2 {
        assert false;
      }
      StraightLineIsShorter(d, w);
      assert |w| == 2 ==> Adjacent(edges, w[0], w[1]);
    }
  }

  lemma CellRelaxed<P(!new)>(nodes: seq<P>, before: DistTable<P>, was: DistTable<P>, after: DistTable<P>, k: P, i: P,
                             j: P, done: seq<P>)
    requires OverNodes(nodes, before) && OverNodes(nodes, was) && OverNodes(nodes, after)
    requires k in nodes && i in nodes && j in nodes
    requires Lowered(nodes, before, was) && RowRelaxed(nodes, before, was, k, i, done)
    requires after == if was[(i, k)].Plus(was[(k, j)]).Less(was[(i, j)])
                      then was[(i, j) := was[(i, k)].Plus(was[(k, j)])] else was
    ensures Lowered(nodes, before, after) && RowRelaxed(nodes, before, after, k, i, done + [j])
  {
  }

  /** The test and the two assignments inside the three loops. */
  method RelaxCell<P(==, !new)>(nodes: seq<P>, edges: seq<(P, P)>, d: (P, P) -> real, k: P, i: P, j: P,
      ghost via: set<P>, ghost before: DistTable<P>, ghost done: seq<P>, next0: NextTable<P>, dist0: DistTable<P>)
    returns (next: NextTable<P>, dist: DistTable<P>)
    requires IsMetric(d) && k in nodes && i in nodes && j in nodes
    requires Tables(nodes, edges, d, dist0, next0) && Covers(nodes, edges, d, dist0, via)
    requires OverNodes(nodes, before) && Lowered(nodes, before, dist0) && RowRelaxed(nodes, before, dist0, k, i, done)
    ensures Tables(nodes, edges, d, dist, next) && Covers(nodes, edges, d, dist, via)
    ensures Lowered(nodes, before, dist) && RowRelaxed(nodes, before, dist, k, i, done + [j])
  {
    next, dist := next0, dist0;
    if dist[(i, k)].Plus(dist[(k, j)]).Less(dist[(i, j)]) {
      RelaxOne(nodes, edges, d, dist, next, via, i, j, k);
      dist, next := dist[(i, j) := dist[(i, k)].Plus(dist[(k, j)])], next[(i, j) := Some(k)];
    }
    CellRelaxed(nodes, before, dist0, dist, k, i, j, done);
  }

  /** The innermost loop: row i relaxed through k. */
  method RelaxRow<P(==, !new)>(nodes: seq<P>, edges: seq<(P, P)>, d: (P, P) -> real, k: P, i: P, ghost via: set<P>,
                               next0: NextTable<P>, dist0: DistTable<P>)
    returns (next: NextTable<P>, dist: DistTable<P>)
    requires IsMetric(d) && k in nodes && i in nodes
    requires Tables(nodes, edges, d, dist0, next0) && Covers(nodes, edges, d, dist0, via)
    ensures Tables(nodes, edges, d, dist, next) && Covers(nodes, edges, d, dist, via)
    ensures Lowered(nodes, dist0, dist) && RowRelaxed(nodes, dist0, dist, k, i, nodes)
  {
    next, dist := next0, dist0;
    for b := 0 to |nodes|
      invariant Tables(nodes, edges, d, dist, next) && Covers(nodes, edges, d, dist, via)
      invariant Lowered(nodes, dist0, dist) && RowRelaxed(nodes, dist0, dist, k, i, nodes[..b])
    {
      next, dist := RelaxCell(nodes, edges, d, k, i, nodes[b], via, dist0, nodes[..b], next, dist);
      assert nodes[..b + 1] == nodes[..b] + [nodes[b]];
    }
    assert nodes[..|nodes|] == nodes;
  }

  /** The middle loop: all pairs relaxed once through k. */
  method RelaxThrough<P(==, !new)>(nodes: seq<P>, edges: seq<(P, P)>, d: (P, P) -> real, k: P, ghost via: set<P>,
                                   next0: NextTable<P>, dist0: DistTable<P>)
    returns (next: NextTable<P>, dist: DistTable<P>)
    requires IsMetric(d) && k in nodes
    requires Tables(nodes, edges, d, dist0, next0) && Covers(nodes, edges, d, dist0, via)
    ensures Tables(nodes, edges, d, dist, next) && Covers(nodes, edges, d, dist, via + {k})
  {
    next, dist := next0, dist0;
    for a := 0 to |nodes|
      invariant Tables(nodes, edges, d, dist, next) && Covers(nodes, edges, d, dist, via)
      invariant Lowered(nodes, dist0, dist)
      invariant forall i :: i in nodes && i in nodes[..a] ==> RowRelaxed(nodes, dist0, dist, k, i, nodes)
    {
      ghost var was := dist;
      next, dist := RelaxRow(nodes, edges, d, k, nodes[a], via, next, dist);
      LowerFurther(nodes, dist0, was, dist, k, nodes[..a], nodes[a]);
      assert nodes[..a + 1] == nodes[..a] + [nodes[a]];
    }
    assert nodes[..|nodes|] == nodes;
    RelaxedCovers(nodes, edges, d, dist0, dist, via, k);
  }

  lemma LowerFurther<P(!new)>(nodes: seq<P>, before: DistTable<P>, was: DistTable<P>, after: DistTable<P>, k: P,
                              rows: seq<P>, row: P)
    requires OverNodes(nodes, before) && OverNodes(nodes, was) && OverNodes(nodes, after) && k in nodes && row in nodes
    requires Lowered(nodes, before, was) && Lowered(nodes, was, after)
    requires forall i :: i in nodes && i in rows ==> RowRelaxed(nodes, before, was, k, i, nodes)
    requires RowRelaxed(nodes, was, after, k, row, nodes)
    ensures Lowered(nodes, before, after)
    ensures forall i :: i in nodes && i in rows + [row] ==> RowRelaxed(nodes, before, after, k, i, nodes)
  {
    forall i | i in nodes && i in rows + [row]
      ensures RowRelaxed(nodes, before, after, k, i, nodes)
    {
      if i in rows {
        assert RowRelaxed(nodes, before, was, k, i, nodes);
      }
    }
  }

  /** `r` is the length of a shortest walk, or Infinity when there is none. */
  ghost predicate IsDistance<P(!new)>(edges: seq<(P, P)>, d: (P, P) -> real, i: P, j: P, r: Dist)
  {
    && (r.Infinity? <==> !Connected(edges, i, j))
    && (r.Finite? ==> exists w: seq<P> :: IsShortest(edges, d, w, i, j) && Length(d, w) == r.r)
  }

  /** What a recorded intermediate promises once all relaxations are done. */
  ghost predicate SplitsExactly<P(!new)>(edges: seq<(P, P)>, d: (P, P) -> real, dist: DistTable<P>, i: P, j: P,
      via: Option<P>)
    requires (i, j) in dist
  {
    match via
    case None => dist[(i, j)] == EdgeDist(edges, d, i, j)
    case Some(k) =>
      && (i, k) in dist && (k, j) in dist && k != i && k != j
      && dist[(i, k)].Finite? && dist[(k, j)].Finite?
      && dist[(i, j)] == Finite(dist[(i, k)].r + dist[(k, j)].r)
  }

  ghost predicate Solved<P(!new)>(nodes: seq<P>, edges: seq<(P, P)>, d: (P, P) -> real, dist: DistTable<P>,
      next: NextTable<P>)
  {
    && OverNodes(nodes, dist) && OverNodes(nodes, next)
    && (forall i, j :: i in nodes && j in nodes ==> IsDistance(edges, d, i, j, dist[(i, j)]))
    && (forall i, j :: i in nodes && j in nodes ==> SplitsExactly(edges, d, dist, i, j, next[(i, j)]))
  }

  lemma {:induction false} WalkStaysInNodes<P(!new)>(nodes: seq<P>, edges: seq<(P, P)>, w: seq<P>)
    requires forall e :: e in edges ==> e.0 in nodes && e.1 in nodes
    requires IsWalk(edges, w) && w[0] in nodes
    ensures forall t :: 0 <= t < |w| ==> w[t] in nodes
    decreases |w|
  {
    if |w| > 1 {
      assert Adjacent(edges, w[0], w[1]);
      assert w[1] in nodes by {
        var e := if (w[0], w[1]) in edges then (w[0], w[1]) else (w[1], w[0]);
        assert e in edges;
      }
      WalkStaysInNodes(nodes, edges, w[1..]);
      assert forall t :: 0 < t < |w| ==> w[t] == w[1..][t - 1];
    }
  }

  lemma FinalDistance<P(!new)>(nodes: seq<P>, edges: seq<(P, P)>, d: (P, P) -> real, dist: DistTable<P>, via: set<P>,
      i: P, j: P)
    requires forall e :: e in edges ==> e.0 in nodes && e.1 in nodes
    requires Sound(nodes, edges, d, dist) && Covers(nodes, edges, d, dist, via)
    requires forall x :: x in nodes ==> x in via
    requires i in nodes && j in nodes
    ensures IsDistance(edges, d, i, j, dist[(i, j)])
  {
    forall w: seq<P> | WalkBetween(edges, w, i, j)
      ensures dist[(i, j)].AtMost(Finite(Length(d, w)))
    {
      WalkStaysInNodes(nodes, edges, w);
      assert Through(w, via);
    }
    if dist[(i, j)].Finite? {
      var w: seq<P> :| WalkBetween(edges, w, i, j) && Length(d, w) == dist[(i, j)].r;
      assert IsShortest(edges, d, w, i, j);
    }
  }

  /** Distances obey the triangle inequality, so a recorded split cannot be strict. */
  lemma FinalSplit<P(!new)>(nodes: seq<P>, edges: seq<(P, P)>, d: (P, P) -> real, dist: DistTable<P>,
      next: NextTable<P>, i: P, j: P)
    requires Tables(nodes, edges, d, dist, next)
    requires forall x, y :: x in nodes && y in nodes ==> IsDistance(edges, d, x, y, dist[(x, y)])
    requires i in nodes && j in nodes
    ensures SplitsExactly(edges, d, dist, i, j, next[(i, j)])
  {
    assert Recorded(edges, d, dist, i, j, next[(i, j)]);
    if next[(i, j)].Some? {
      var k := next[(i, j)].value;
      var v: seq<P> :| WalkBetween(edges, v, i, k) && Length(d, v) == dist[(i, k)].r;
      var w: seq<P> :| WalkBetween(edges, w, k, j) && Length(d, w) == dist[(k, j)].r;
      JoinWalks(edges, d, v, w, i, k, j);
      assert IsDistance(edges, d, i, j, dist[(i, j)]);
    }
  }

  /** The whole function: every distance is right, and every recorded intermediate splits its pair exactly. */
  method Foox<P(==, !new)>(nodes: seq<P>, edges: seq<(P, P)>, d: (P, P) -> real)
    returns (next: NextTable<P>, dist: DistTable<P>)
    requires IsMetric(d)
    requires forall e :: e in edges ==> e.0 in nodes && e.1 in nodes
    ensures Solved(nodes, edges, d, dist, next)
  {
    next, dist := Initialise(nodes, edges, d);
    InitialTables(nodes, edges, d, dist, next);
    ghost var via: set<P> := {};
    for c := 0 to |nodes|
      invariant Tables(nodes, edges, d, dist, next) && Covers(nodes, edges, d, dist, via)
      invariant forall x :: x in nodes[..c] ==> x in via
    {
      next, dist := RelaxThrough(nodes, edges, d, nodes[c], via, next, dist);
      via := via + {nodes[c]};
      assert nodes[..c + 1] == nodes[..c] + [nodes[c]];
    }
    assert nodes[..|nodes|] == nodes;
    forall i, j | i in nodes && j in nodes
      ensures IsDistance(edges, d, i, j, dist[(i, j)])
    {
      FinalDistance(nodes, edges, d, dist, via, i, j);
    }
    forall i, j | i in nodes && j in nodes
      ensures SplitsExactly(edges, d, dist, i, j, next[(i, j)])
    {
      FinalSplit(nodes, edges, d, dist, next, i, j);
    }
  }

  /** The pairs that are strictly closer than (i, j): the measure of the expansion below. */
  ghost function Closer<P(!new)>(dist: DistTable<P>, i: P, j: P): set<(P, P)>
    requires (i, j) in dist
  {
    set p | p in dist && dist[p].Less(dist[(i, j)])
  }

  lemma SplitIsCloser<P(!new)>(nodes: seq<P>, edges: seq<(P, P)>, d: (P, P) -> real, dist: DistTable<P>,
      next: NextTable<P>, i: P, j: P)
    requires IsMetric(d) && Solved(nodes, edges, d, dist, next)
    requires i in nodes && j in nodes && next[(i, j)].Some?
    ensures var k := next[(i, j)].value;
            && k in nodes && dist[(i, k)].Finite? && dist[(k, j)].Finite?
            && Closer(dist, i, k) < Closer(dist, i, j) && Closer(dist, k, j) < Closer(dist, i, j)
  {
    var k := next[(i, j)].value;
    assert SplitsExactly(edges, d, dist, i, j, Some(k));
    assert IsDistance(edges, d, i, k, dist[(i, k)]) && IsDistance(edges, d, k, j, dist[(k, j)]);
    var v: seq<P> :| IsShortest(edges, d, v, i, k) && Length(d, v) == dist[(i, k)].r;
    var w: seq<P> :| IsShortest(edges, d, w, k, j) && Length(d, w) == dist[(k, j)].r;
    StraightLineIsShorter(d, v);
    StraightLineIsShorter(d, w);
    assert (i, k) in Closer(dist, i, j) && (k, j) in Closer(dist, i, j);
    assert (i, k) !in Closer(dist, i, k) && (k, j) !in Closer(dist, k, j);
  }

  lemma JoinHalves<P(!new)>(nodes: seq<P>, edges: seq<(P, P)>, d: (P, P) -> real, dist: DistTable<P>,
      next: NextTable<P>, v: seq<P>, w: seq<P>, i: P, j: P)
    requires Solved(nodes, edges, d, dist, next)
    requires i in nodes && j in nodes && next[(i, j)].Some?
    requires var k := next[(i, j)].value;
             && k in nodes
             && WalkBetween(edges, v, i, k) && Finite(Length(d, v)) == dist[(i, k)]
             && WalkBetween(edges, w, k, j) && Finite(Length(d, w)) == dist[(k, j)]
    ensures WalkBetween(edges, v + w[1..], i, j) && Finite(Length(d, v + w[1..])) == dist[(i, j)]
  {
    assert SplitsExactly(edges, d, dist, i, j, next[(i, j)]);
    JoinWalks(edges, d, v, w, i, next[(i, j)].value, j);
  }

  /** A pair without an intermediate is joined by an edge, or is a single point. */
  lemma DirectStep<P(!new)>(nodes: seq<P>, edges: seq<(P, P)>, d: (P, P) -> real, dist: DistTable<P>,
      next: NextTable<P>, i: P, j: P)
    requires Solved(nodes, edges, d, dist, next)
    requires i in nodes && j in nodes && dist[(i, j)].Finite? && next[(i, j)].None?
    ensures var w := if i == j then [i] else [i, j];
            WalkBetween(edges, w, i, j) && Finite(Length(d, w)) == dist[(i, j)]
  {
    assert SplitsExactly(edges, d, dist, i, j, next[(i, j)]);
    assert [i, j][1..] == [j] && Length(d, [i, j]) == d(i, j) + Length(d, [i, j][1..]);
  }

  /** Replaces each recorded intermediate by the expansions of its two halves. */
  ghost function ExpandPath<P(!new)>(nodes: seq<P>, edges: seq<(P, P)>, d: (P, P) -> real, dist: DistTable<P>,
      next: NextTable<P>, i: P, j: P): (w: seq<P>)
    requires IsMetric(d) && Solved(nodes, edges, d, dist, next)
    requires i in nodes && j in nodes && dist[(i, j)].Finite?
    ensures WalkBetween(edges, w, i, j) && Finite(Length(d, w)) == dist[(i, j)]
    decreases Closer(dist, i, j)
  {
    if next[(i, j)].None? then
      DirectStep(nodes, edges, d, dist, next, i, j);
      if i == j then [i] else [i, j]
    else
      var k := next[(i, j)].value;
      SplitIsCloser(nodes, edges, d, dist, next, i, j);
      var v := ExpandPath(nodes, edges, d, dist, next, i, k);
      var w := ExpandPath(nodes, edges, d, dist, next, k, j);
      JoinHalves(nodes, edges, d, dist, next, v, w, i, j);
      v + w[1..]
  }

  lemma ExpandedPathIsShortest<P(!new)>(nodes: seq<P>, edges: seq<(P, P)>, d: (P, P) -> real, dist: DistTable<P>,
      next: NextTable<P>, i: P, j: P)
    requires IsMetric(d) && Solved(nodes, edges, d, dist, next)
    requires i in nodes && j in nodes && dist[(i, j)].Finite?
    ensures IsShortest(edges, d, ExpandPath(nodes, edges, d, dist, next, i, j), i, j)
  {
    assert IsDistance(edges, d, i, j, dist[(i, j)]);
  }

  /** Any shortest walk, in particular the one A* returns, has exactly the tabulated length. */
  lemma TableAgreesWithSearch<P(!new)>(nodes: seq<P>, edges: seq<(P, P)>, d: (P, P) -> real, dist: DistTable<P>,
      next: NextTable<P>, path: seq<P>, i: P, j: P)
    requires Solved(nodes, edges, d, dist, next)
    requires i in nodes && j in nodes && IsShortest(edges, d, path, i, j)
    ensures dist[(i, j)] == Finite(Length(d, path))
  {
    assert IsDistance(edges, d, i, j, dist[(i, j)]);
  }
}

/** Undirected networks of points, walks in them and the length of a walk under a metric.
    Shared by the A* and the Floyd-Warshall models. */
module Graph {

  ghost predicate Triangle<P>(d: (P, P) -> real, x: P, y: P, z: P)
  {
    d(x, z) <= d(x, y) + d(y, z)
  }

  ghost predicate PositiveAndSymmetric<P>(d: (P, P) -> real, x: P, y: P)
  {
    d(x, y) >= 0.0 && (d(x, y) == 0.0 <==> x == y) && d(x, y) == d(y, x)
  }

  /** What the planners assume of the straight-line distance. */
  ghost predicate IsMetric<P(!new)>(d: (P, P) -> real)
  {
    && (forall x, y :: PositiveAndSymmetric(d, x, y))
    && (forall x, y, z :: Triangle(d, x, y, z))
  }

  predicate Adjacent<P(==)>(network: seq<(P, P)>, x: P, y: P)
  {
    (x, y) in network || (y, x) in network
  }

  ghost predicate IsWalk<P>(network: seq<(P, P)>, w: seq<P>)
  {
    |w| > 0 && forall i :: 0 <= i < |w| - 1 ==> Adjacent(network, w[i], w[i + 1])
  }

  ghost predicate WalkBetween<P>(network: seq<(P, P)>, w: seq<P>, x: P, y: P)
  {
    IsWalk(network, w) && w[0] == x && w[|w| - 1] == y
  }

  ghost predicate Connected<P(!new)>(network: seq<(P, P)>, x: P, y: P)
  {
    exists w: seq<P> :: WalkBetween(network, w, x, y)
  }

  ghost function Length<P>(d: (P, P) -> real, w: seq<P>): real
  {
    if |w| <= 1 then 0.0 else d(w[0], w[1]) + Length(d, w[1..])
  }

  /** `w` is no longer than any walk with the same ends. */
  ghost predicate IsShortest<P(!new)>(network: seq<(P, P)>, d: (P, P) -> real, w: seq<P>, x: P, y: P)
  {
    && WalkBetween(network, w, x, y)
    && forall v: seq<P> :: WalkBetween(network, v, x, y) ==> Length(d, w) <= Length(d, v)
  }

  lemma {:induction false} LengthSplit<P>(d: (P, P) -> real, w: seq<P>, k: nat)
    requires k < |w|
    ensures Length(d, w) == Length(d, w[..k + 1]) + Length(d, w[k..])
  {
    if k == 0 {
      assert w[0..] == w;
    } else {
      LengthSplit(d, w[1..], k - 1);
      assert w[1..][..k] == w[..k + 1][1..];
      assert w[1..][k - 1..] == w[k..];
    }
  }

  lemma {:induction false} LengthExtend<P>(d: (P, P) -> real, w: seq<P>, y: P)
    requires |w| > 0
    ensures Length(d, w + [y]) == Length(d, w) + d(w[|w| - 1], y)
  {
    LengthSplit(d, w + [y], |w| - 1);
    assert (w + [y])[..|w|] == w;
    assert (w + [y])[|w| - 1..] == [w[|w| - 1], y];
    assert [w[|w| - 1], y][1..] == [y];
  }

  /** The triangle inequality along a whole walk. */
  lemma {:induction false} StraightLineIsShorter<P(!new)>(d: (P, P) -> real, w: seq<P>)
    requires IsMetric(d) && |w| > 0
    ensures 0.0 <= d(w[0], w[|w| - 1]) <= Length(d, w)
    ensures w[0] != w[|w| - 1] ==> 0.0 < Length(d, w)
    decreases |w|
  {
    assert PositiveAndSymmetric(d, w[0], w[|w| - 1]);
    if |w| > 1 {
      StraightLineIsShorter(d, w[1..]);
      assert Triangle(d, w[0], w[1], w[|w| - 1]);
    }
  }

  /** Two walks that meet join into one. */
  lemma JoinWalks<P>(network: seq<(P, P)>, d: (P, P) -> real, v: seq<P>, w: seq<P>, x: P, y: P, z: P)
    requires WalkBetween(network, v, x, y) && WalkBetween(network, w, y, z)
    ensures WalkBetween(network, v + w[1..], x, z)
    ensures Length(d, v + w[1..]) == Length(d, v) + Length(d, w)
  {
    var joined := v + w[1..];
    forall i | 0 <= i < |joined| - 1
      ensures Adjacent(network, joined[i], joined[i + 1])
    {
      if i >= |v| - 1 {
        assert joined[i] == w[i - (|v| - 1)] && joined[i + 1] == w[i + 1 - (|v| - 1)];
      }
    }
    LengthSplit(d, joined, |v| - 1);
    assert joined[..|v|] == v;
    assert joined[|v| - 1..] == w;
  }

  /** A walk that starts inside a set and ends outside it leaves the set by some edge. */
  lemma FirstExit<P>(w: seq<P>, inside: set<P>) returns (k: nat)
    requires |w| > 0 && w[0] in inside && w[|w| - 1] !in inside
    ensures 0 < k < |w| && w[k - 1] in inside && w[k] !in inside
  {
    k := 1;
    while w[k] in inside
      invariant 0 < k < |w| && w[k - 1] in inside
      decreases |w| - k
    {
      k := k + 1;
    }
  }
}

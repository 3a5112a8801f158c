/** The A* search of gameai/homework6/astarnavigator.py, over an arbitrary finite network and metric. */
module AStar {
  import opened Basics
  import opened Graph

  /** One item of the priority queue: estimate, heuristic, cost so far, point, and the points before it. */
  datatype Entry<P> = Entry(f: real, h: real, c: real, pt: P, path: seq<P>) {
    function Trail(): seq<P> { path + [pt] }
  }

  ghost predicate EntryOk<P(!new)>(network: seq<(P, P)>, d: (P, P) -> real, init: P, goal: P, visited: set<P>,
      e: Entry<P>)
  {
    && WalkBetween(network, e.Trail(), init, e.pt)
    && e.c == Length(d, e.Trail())
    && e.h == d(e.pt, goal)
    && e.f == e.c + e.h
    && Distinct(e.Trail())
    && (forall x :: x in e.path ==> x in visited)
  }

  /** The queue offers v at a cost no worse than going through u. */
  ghost predicate Offers<P(!new)>(fringe: seq<Entry<P>>, v: P, cost: real)
  {
    exists e :: e in fringe && e.pt == v && e.c <= cost
  }

  ghost predicate Settled<P(!new)>(network: seq<(P, P)>, d: (P, P) -> real, init: P, visited: set<P>,
      best: map<P, real>)
  {
    && visited == best.Keys
    && (forall u, w: seq<P> :: u in visited && WalkBetween(network, w, init, u) ==> best[u] <= Length(d, w))
    && (forall u :: u in visited ==> Connected(network, init, u))
  }

  /** Every edge that leaves the visited set is offered, except those from `u0` to a point of `todo`. */
  ghost predicate Frontier<P(!new)>(network: seq<(P, P)>, d: (P, P) -> real, visited: set<P>, best: map<P, real>,
                                    fringe: seq<Entry<P>>, u0: P, todo: set<P>)
    requires visited == best.Keys
  {
    forall u, v :: u in visited && v !in visited && Adjacent(network, u, v) && !(u == u0 && v in todo)
                   ==> Offers(fringe, v, best[u] + d(u, v))
  }

  /** What the search knows between two pops. */
  ghost predicate SearchInv<P(!new)>(network: seq<(P, P)>, d: (P, P) -> real, init: P, goal: P, visited: set<P>,
                                     best: map<P, real>, fringe: seq<Entry<P>>)
  {
    && Settled(network, d, init, visited, best)
    && Frontier(network, d, visited, best, fringe, init, {})
    && (forall x :: x in fringe ==> EntryOk(network, d, init, goal, visited, x))
    && (init !in visited ==> Offers(fringe, init, 0.0))
  }

  /** Some queued entry lies on the walk `w`, at a cost the walk cannot beat. */
  lemma OfferOnWalk<P(!new)>(network: seq<(P, P)>, d: (P, P) -> real, init: P, goal: P, visited: set<P>,
                             best: map<P, real>, fringe: seq<Entry<P>>, w: seq<P>, y: P)
    returns (k: nat, x: Entry<P>)
    requires SearchInv(network, d, init, goal, visited, best, fringe)
    requires WalkBetween(network, w, init, y) && y !in visited
    ensures k < |w| && x in fringe && x.pt == w[k] && x.c <= Length(d, w[..k + 1])
  {
    if init in visited {
      k := FirstExit(w, visited);
      var u := w[k - 1];
      assert Adjacent(network, u, w[k]);
      assert WalkBetween(network, w[..k], init, u);
      LengthExtend(d, w[..k], w[k]);
      assert w[..k] + [w[k]] == w[..k + 1];
      assert best[u] <= Length(d, w[..k]);
      assert Offers(fringe, w[k], best[u] + d(u, w[k]));
      x :| x in fringe && x.pt == w[k] && x.c <= best[u] + d(u, w[k]);
    } else {
      k := 0;
      x :| x in fringe && x.pt == init && x.c <= 0.0;
    }
  }

  /** The key step: the least estimate in the queue belongs to a cheapest way to reach its point. */
  lemma PoppedIsCheapest<P(!new)>(network: seq<(P, P)>, d: (P, P) -> real, init: P, goal: P, visited: set<P>,
                                  best: map<P, real>, fringe: seq<Entry<P>>, e: Entry<P>, w: seq<P>)
    requires IsMetric(d)
    requires SearchInv(network, d, init, goal, visited, best, fringe)
    requires e in fringe && e.pt !in visited
    requires forall x :: x in fringe ==> e.f <= x.f
    requires WalkBetween(network, w, init, e.pt)
    ensures e.c <= Length(d, w)
  {
    var k, x := OfferOnWalk(network, d, init, goal, visited, best, fringe, w, e.pt);
    LengthSplit(d, w, k);
    StraightLineIsShorter(d, w[k..]);
    assert EntryOk(network, d, init, goal, visited, x);
    assert Triangle(d, w[k], e.pt, goal);
  }

  lemma SettleDistance<P(!new)>(network: seq<(P, P)>, d: (P, P) -> real, init: P, goal: P, visited: set<P>,
                                best: map<P, real>, fringe: seq<Entry<P>>, n: Entry<P>)
    requires IsMetric(d)
    requires SearchInv(network, d, init, goal, visited, best, fringe)
    requires n in fringe && n.pt !in visited
    requires forall x :: x in fringe ==> n.f <= x.f
    ensures Settled(network, d, init, visited + {n.pt}, best[n.pt := n.c])
    ensures IsShortest(network, d, n.Trail(), init, n.pt)
  {
    assert EntryOk(network, d, init, goal, visited, n);
    forall w: seq<P> | WalkBetween(network, w, init, n.pt)
      ensures n.c <= Length(d, w)
    {
      PoppedIsCheapest(network, d, init, goal, visited, best, fringe, n, w);
    }
  }

  lemma SettleFrontier<P(!new)>(network: seq<(P, P)>, d: (P, P) -> real, init: P, goal: P, visited: set<P>,
                                best: map<P, real>, fringe: seq<Entry<P>>, n: Entry<P>, rest: seq<Entry<P>>,
                                neighbours: set<P>)
    requires SearchInv(network, d, init, goal, visited, best, fringe)
    requires n.pt !in visited
    requires multiset(fringe) == multiset(rest) + multiset{n}
    requires forall x :: x in neighbours <==> Adjacent(network, n.pt, x)
    ensures Frontier(network, d, visited + {n.pt}, best[n.pt := n.c], rest, n.pt, neighbours)
    ensures forall x :: x in rest ==> EntryOk(network, d, init, goal, visited + {n.pt}, x)
    ensures init in visited + {n.pt} || Offers(rest, init, 0.0)
  {
    OffersSurvivePop(fringe, rest, n);
    forall x | x in rest ensures EntryOk(network, d, init, goal, visited + {n.pt}, x) {
      assert EntryOk(network, d, init, goal, visited, x);
    }
  }

  lemma SearchStarts<P(!new)>(network: seq<(P, P)>, d: (P, P) -> real, init: P, goal: P, start: Entry<P>)
    requires start == Entry(d(init, goal), d(init, goal), 0.0, init, [])
    ensures SearchInv(network, d, init, goal, {}, map[], [start])
  {
    assert start.Trail() == [init];
    assert Offers([start], init, 0.0);
  }

  /** Popping a point that is already settled changes nothing. */
  lemma SkipSettled<P(!new)>(network: seq<(P, P)>, d: (P, P) -> real, init: P, goal: P, visited: set<P>,
                             best: map<P, real>, fringe: seq<Entry<P>>, n: Entry<P>, rest: seq<Entry<P>>)
    requires SearchInv(network, d, init, goal, visited, best, fringe)
    requires n.pt in visited
    requires multiset(fringe) == multiset(rest) + multiset{n}
    ensures SearchInv(network, d, init, goal, visited, best, rest)
  {
    OffersSurvivePop(fringe, rest, n);
  }

  /** A walk never leaves a set that is closed under edges. */
  lemma {:induction false} WalkStaysInside<P(!new)>(network: seq<(P, P)>, inside: set<P>, w: seq<P>)
    requires forall u, v :: u in inside && Adjacent(network, u, v) ==> v in inside
    requires IsWalk(network, w) && w[0] in inside
    ensures w[|w| - 1] in inside
    decreases |w|
  {
    if |w| > 1 {
      assert Adjacent(network, w[0], w[1]);
      WalkStaysInside(network, inside, w[1..]);
    }
  }

  /** Once the queue is empty, the visited points are exactly those connected to `init`. */
  lemma EmptyQueueIsComponent<P(!new)>(network: seq<(P, P)>, d: (P, P) -> real, init: P, goal: P, visited: set<P>,
                                       best: map<P, real>, p: P)
    requires SearchInv(network, d, init, goal, visited, best, [])
    ensures Connected(network, init, p) <==> p in visited
  {
    if Connected(network, init, p) {
      var w :| WalkBetween(network, w, init, p);
      forall u, v | u in visited && Adjacent(network, u, v) ensures v in visited {
        assert !Offers([], v, best[u] + d(u, v));
      }
      assert !Offers([], init, 0.0);
      WalkStaysInside(network, visited, w);
    }
  }

  // ----- what need not be looked at -----

  ghost predicate Attained<P(!new)>(network: seq<(P, P)>, d: (P, P) -> real, init: P, u: P, cost: real)
  {
    exists w: seq<P> :: WalkBetween(network, w, init, u) && Length(d, w) == cost
  }

  /** No queued estimate is below that of a visited point: its cost and the straight line from it to the goal. */
  ghost predicate Ahead<P(!new)>(network: seq<(P, P)>, d: (P, P) -> real, init: P, goal: P, visited: set<P>,
                                 best: map<P, real>, fringe: seq<Entry<P>>)
    requires visited == best.Keys
  {
    && (forall u :: u in visited ==> Attained(network, d, init, u, best[u]))
    && forall u, x :: u in visited && x in fringe ==> best[u] + d(u, goal) <= x.f
  }

  lemma SettleAhead<P(!new)>(network: seq<(P, P)>, d: (P, P) -> real, init: P, goal: P, visited: set<P>,
                             best: map<P, real>, fringe: seq<Entry<P>>, n: Entry<P>, rest: seq<Entry<P>>)
    requires visited == best.Keys && Ahead(network, d, init, goal, visited, best, fringe)
    requires n in fringe && n.pt !in visited && EntryOk(network, d, init, goal, visited, n)
    requires (forall x :: x in fringe ==> n.f <= x.f) && forall x :: x in rest ==> x in fringe
    ensures Ahead(network, d, init, goal, visited + {n.pt}, best[n.pt := n.c], rest)
    ensures forall u :: u in visited + {n.pt} ==> best[n.pt := n.c][u] + d(u, goal) <= n.f
  {
    assert Attained(network, d, init, n.pt, n.c);
  }

  lemma PutAhead<P(!new)>(network: seq<(P, P)>, d: (P, P) -> real, init: P, goal: P, visited: set<P>,
                          best: map<P, real>, fringe: seq<Entry<P>>, n: Entry<P>, e: Entry<P>)
    requires visited == best.Keys && Ahead(network, d, init, goal, visited, best, fringe)
    requires (forall u :: u in visited ==> best[u] + d(u, goal) <= n.f) && n.f == n.c + d(n.pt, goal)
    requires e.f == n.c + d(n.pt, e.pt) + d(e.pt, goal) && IsMetric(d)
    ensures Ahead(network, d, init, goal, visited, best, fringe + [e])
  {
    assert Triangle(d, n.pt, e.pt, goal);
  }

  /** Closed points are no further from the goal, by a shortest walk to them and then straight on, than the path. */
  ghost predicate WorthClosing<P(!new)>(network: seq<(P, P)>, d: (P, P) -> real, init: P, goal: P, closed: set<P>,
                                        length: real)
  {
    forall u, w: seq<P> :: u in closed && IsShortest(network, d, w, init, u) ==> Length(d, w) + d(u, goal) <= length
  }

  lemma AheadIsWorth<P(!new)>(network: seq<(P, P)>, d: (P, P) -> real, init: P, goal: P, visited: set<P>,
                              best: map<P, real>, fringe: seq<Entry<P>>, n: Entry<P>)
    requires visited == best.Keys && Ahead(network, d, init, goal, visited, best, fringe) && IsMetric(d)
    requires n in fringe && n.pt == goal && EntryOk(network, d, init, goal, visited, n)
    ensures WorthClosing(network, d, init, goal, visited, Length(d, n.Trail()))
  {
    forall u, w: seq<P> | u in visited && IsShortest(network, d, w, init, u)
      ensures Length(d, w) + d(u, goal) <= Length(d, n.Trail())
    {
      assert Attained(network, d, init, u, best[u]);
      var v :| WalkBetween(network, v, init, u) && Length(d, v) == best[u];
      assert PositiveAndSymmetric(d, goal, goal);
    }
  }

  /** `connected[pt]`: the defaultdict answers the empty set for a point without edges. */
  function Neighbours<P(==)>(connected: map<P, set<P>>, pt: P): set<P>
  {
    if pt in connected then connected[pt] else {}
  }

  function AddNeighbour<P(==, !new)>(connected: map<P, set<P>>, x: P, y: P): (r: map<P, set<P>>)
    ensures forall z :: Neighbours(r, z) == if z == x then Neighbours(connected, z) + {y} else Neighbours(connected, z)
  {
    connected[x := Neighbours(connected, x) + {y}]
  }

  method BuildAdjacency<P(==, !new)>(network: seq<(P, P)>) returns (connected: map<P, set<P>>)
    ensures forall x, y :: y in Neighbours(connected, x) <==> Adjacent(network, x, y)
  {
    connected := map[];
    for i := 0 to |network|
      invariant forall x, y :: y in Neighbours(connected, x) <==> Adjacent(network[..i], x, y)
    {
      var (a, b) := network[i];
      connected := AddNeighbour(AddNeighbour(connected, a, b), b, a);
      assert network[..i + 1] == network[..i] + [(a, b)];
    }
    assert network[..|network|] == network;
  }

  /** PriorityQueue.get: removes an entry with the least estimate. */
  method PopMin<P>(fringe: seq<Entry<P>>) returns (least: Entry<P>, rest: seq<Entry<P>>)
    requires fringe != []
    ensures least in fringe && forall x :: x in fringe ==> least.f <= x.f
    ensures multiset(fringe) == multiset(rest) + multiset{least}
  {
    var m := 0;
    for i := 1 to |fringe|
      invariant 0 <= m < i
      invariant forall j :: 0 <= j < i ==> fringe[m].f <= fringe[j].f
    {
      if fringe[i].f < fringe[m].f { m := i; }
    }
    least, rest := fringe[m], fringe[..m] + fringe[m + 1..];
    assert fringe == fringe[..m] + [fringe[m]] + fringe[m + 1..];
  }

  lemma OffersSurvivePop<P(!new)>(fringe: seq<Entry<P>>, rest: seq<Entry<P>>, n: Entry<P>)
    requires multiset(fringe) == multiset(rest) + multiset{n}
    ensures forall v, cost :: v != n.pt && Offers(fringe, v, cost) ==> Offers(rest, v, cost)
    ensures forall x :: x in rest ==> x in fringe
  {
    forall x | x in rest ensures x in fringe {
      assert x in multiset(rest);
      assert x in multiset(fringe);
    }
    forall x | x in fringe && x != n ensures x in rest {
      assert x in multiset(fringe);
    }
  }

  lemma PopShrinks<P>(fringe: seq<Entry<P>>, rest: seq<Entry<P>>, n: Entry<P>)
    requires multiset(fringe) == multiset(rest) + multiset{n}
    ensures |rest| < |fringe|
  {
    assert |multiset(fringe)| == |multiset(rest)| + 1;
  }

  lemma OffersSurvivePut<P(!new)>(fringe: seq<Entry<P>>, e: Entry<P>)
    ensures forall v, cost :: Offers(fringe, v, cost) ==> Offers(fringe + [e], v, cost)
    ensures Offers(fringe + [e], e.pt, e.c)
  {
    assert e in fringe + [e];
    forall v, cost | Offers(fringe, v, cost) ensures Offers(fringe + [e], v, cost) {
      var x :| x in fringe && x.pt == v && x.c <= cost;
      assert x in fringe + [e];
    }
  }

  /** Settles the popped entry and queues every unvisited neighbour of its point. */
  method Expand<P(==, !new)>(init: P, goal: P, network: seq<(P, P)>, d: (P, P) -> real, n: Entry<P>, neighbours: set<P>,
                             old_visited: set<P>, ghost old_best: map<P, real>, ghost old_fringe: seq<Entry<P>>,
                             rest: seq<Entry<P>>)
    returns (visited: set<P>, ghost best: map<P, real>, fringe: seq<Entry<P>>)
    requires IsMetric(d)
    requires SearchInv(network, d, init, goal, old_visited, old_best, old_fringe)
    requires n in old_fringe && n.pt !in old_visited
    requires forall x :: x in old_fringe ==> n.f <= x.f
    requires multiset(old_fringe) == multiset(rest) + multiset{n}
    requires forall x :: x in neighbours <==> Adjacent(network, n.pt, x)
    requires Ahead(network, d, init, goal, old_visited, old_best, old_fringe)
    ensures visited == old_visited + {n.pt} && n.pt in Points(network, init)
    ensures SearchInv(network, d, init, goal, visited, best, fringe)
    ensures Ahead(network, d, init, goal, visited, best, fringe)
  {
    SettleDistance(network, d, init, goal, old_visited, old_best, old_fringe, n);
    SettleFrontier(network, d, init, goal, old_visited, old_best, old_fringe, n, rest, neighbours);
    ReachedIsPoint(network, init, n.Trail(), n.pt);
    OffersSurvivePop(old_fringe, rest, n);
    SettleAhead(network, d, init, goal, old_visited, old_best, old_fringe, n, rest);
    visited, best, fringe := old_visited + {n.pt}, old_best[n.pt := n.c], rest;
    var todo := neighbours - visited;
    while todo != {}
      invariant todo <= neighbours - visited
      invariant Frontier(network, d, visited, best, fringe, n.pt, todo)
      invariant forall x :: x in fringe ==> EntryOk(network, d, init, goal, visited, x)
      invariant init !in visited ==> Offers(fringe, init, 0.0)
      invariant Ahead(network, d, init, goal, visited, best, fringe)
    {
      var child :| child in todo;
      var newC := n.c + d(n.pt, child);
      var newH := d(child, goal);
      var successor := Entry(newC + newH, newH, newC, child, n.path + [n.pt]);
      ExtendEntry(network, d, init, goal, visited, n, successor);
      OffersSurvivePut(fringe, successor);
      PutAhead(network, d, init, goal, visited, best, fringe, n, successor);
      fringe, todo := fringe + [successor], todo - {child};
    }
  }

  lemma ExtendEntry<P(!new)>(network: seq<(P, P)>, d: (P, P) -> real, init: P, goal: P, visited: set<P>,
                             n: Entry<P>, e: Entry<P>)
    requires EntryOk(network, d, init, goal, visited - {n.pt}, n)
    requires n.pt in visited && e.pt !in visited && Adjacent(network, n.pt, e.pt)
    requires e.path == n.Trail()
    requires e.c == n.c + d(n.pt, e.pt) && e.h == d(e.pt, goal) && e.f == e.c + e.h
    ensures EntryOk(network, d, init, goal, visited, e)
  {
    LengthExtend(d, n.Trail(), e.pt);
    forall i | 0 <= i < |e.path| ensures e.path[i] in visited {
      assert i < |n.path| ==> e.path[i] == n.path[i] && n.path[i] in n.path;
    }
    assert forall i :: 0 <= i < |e.path| ==> e.Trail()[i] == n.Trail()[i];
  }

  ghost function Points<P>(network: seq<(P, P)>, init: P): set<P>
  {
    {init} + (set e | e in network :: e.0) + (set e | e in network :: e.1)
  }

  lemma ReachedIsPoint<P(!new)>(network: seq<(P, P)>, init: P, w: seq<P>, y: P)
    requires WalkBetween(network, w, init, y)
    ensures y in Points(network, init)
  {
    if |w| > 1 {
      var x := w[|w| - 2];
      var e := if (x, y) in network then (x, y) else (y, x);
      assert Adjacent(network, x, w[|w| - 2 + 1]);
      assert e in network;
    }
  }

  /** The loop of the search: either it pops `goal`, or it empties the queue. */
  method Search<P(==, !new)>(init: P, goal: P, network: seq<(P, P)>, d: (P, P) -> real, connected: map<P, set<P>>)
    returns (found: bool, n: Entry<P>, visited: set<P>)
    requires IsMetric(d)
    requires forall x, y :: y in Neighbours(connected, x) <==> Adjacent(network, x, y)
    ensures found ==> n.pt == goal && IsShortest(network, d, n.Trail(), init, goal) && Distinct(n.Trail())
    ensures found ==> WorthClosing(network, d, init, goal, visited, Length(d, n.Trail()))
    ensures goal !in visited && forall p :: p in visited ==> Connected(network, init, p)
    ensures !found ==> forall p :: Connected(network, init, p) ==> p in visited
  {
    ghost var best: map<P, real> := map[];
    ghost var points := Points(network, init);
    n := Entry(d(init, goal), d(init, goal), 0.0, init, []);
    found, visited := false, {};
    var fringe := [n];
    SearchStarts(network, d, init, goal, n);
    while fringe != []
      invariant visited <= points && goal !in visited
      invariant SearchInv(network, d, init, goal, visited, best, fringe)
      invariant Ahead(network, d, init, goal, visited, best, fringe)
      decreases points - visited, |fringe|
    {
      var rest;
      n, rest := PopMin(fringe);
      PopShrinks(fringe, rest, n);
      if n.pt in visited {
        SkipSettled(network, d, init, goal, visited, best, fringe, n, rest);
        OffersSurvivePop(fringe, rest, n);
        fringe := rest;
        continue;
      }
      if n.pt == goal {
        SettleDistance(network, d, init, goal, visited, best, fringe, n);
        AheadIsWorth(network, d, init, goal, visited, best, fringe, n);
        return true, n, visited;
      }
      visited, best, fringe :=
        Expand(init, goal, network, d, n, Neighbours(connected, n.pt), visited, best, fringe, rest);
    }
    forall p
      ensures Connected(network, init, p) <==> p in visited
    {
      EmptyQueueIsComponent(network, d, init, goal, visited, best, p);
    }
  }

  /** A non-empty result is a simple, shortest walk from `init` to `goal`, and no point is closed that is further from
      the goal, by a shortest walk and then straight on, than the result is long.  An empty result means that there is
      none, and then the closed list is exactly the part of the network that `init` reaches. */
  method Astar<P(==, !new)>(init: P, goal: P, network: seq<(P, P)>, d: (P, P) -> real)
    returns (path: seq<P>, closed: set<P>)
    requires IsMetric(d)
    ensures path != [] ==> IsShortest(network, d, path, init, goal) && Distinct(path)
    ensures path != [] ==> WorthClosing(network, d, init, goal, closed, Length(d, path))
    ensures path == [] <==> !Connected(network, init, goal)
    ensures goal !in closed && forall p :: p in closed ==> Connected(network, init, p)
    ensures path == [] ==> forall p :: Connected(network, init, p) ==> p in closed
  {
    var connected := BuildAdjacency(network);
    var found, n, visited := Search(init, goal, network, d, connected);
    path := if found then n.path + [goal] else [];
    closed := visited;
  }
}

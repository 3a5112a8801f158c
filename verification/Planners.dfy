/** The two path planners of homework6 on one network. */
module Planners {
  import opened Graph
  import opened AStar
  import opened FloydWarshall

  /** A* finds a path exactly if the table has a distance, and its length is that distance, which is also the length of
      the path the table's intermediates expand to. */
  method PlanBothWays<P(==, !new)>(nodes: seq<P>, edges: seq<(P, P)>, d: (P, P) -> real, init: P, goal: P)
    returns (path: seq<P>, entry: Dist, ghost expanded: seq<P>)
    requires IsMetric(d) && init in nodes && goal in nodes
    requires forall e :: e in edges ==> e.0 in nodes && e.1 in nodes
    ensures path == [] <==> entry.Infinity?
    ensures path != [] ==> IsShortest(edges, d, path, init, goal) && entry == Finite(Length(d, path))
    ensures path != [] ==> IsShortest(edges, d, expanded, init, goal) && Length(d, expanded) == Length(d, path)
  {
    var closed;
    path, closed := Astar(init, goal, edges, d);
    var next, dist := Foox(nodes, edges, d);
    entry, expanded := dist[(init, goal)], [];
    if path != [] {
      TableAgreesWithSearch(nodes, edges, d, dist, next, path, init, goal);
      ExpandedPathIsShortest(nodes, edges, d, dist, next, init, goal);
      expanded := ExpandPath(nodes, edges, d, dist, next, init, goal);
    } else {
      assert IsDistance(edges, d, init, goal, entry);
    }
  }
}

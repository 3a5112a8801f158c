/** Behaviour trees of gameai/homework6 (btnode.py, behaviortree.py) as values: one tick, and what a whole run comes
    to. */
module BtModel {
  import opened Basics

  datatype Kind = Sequence | Selector

  /** A TestNode, or with `timed` a DelayTestNode; or an inner node with the index of the child to run next. */
  datatype Node =
    | Leaf(id: Option<int>, timed: bool, timer: int, first: bool)
    | Inner(kind: Kind, children: seq<Node>, current: nat, first: bool)

  /** What a test leaf reports to its agent. */
  datatype Entry = Entry(id: Option<int>, ret: bool)

  /** What a tick leaves, returns and reports; or the error of looking up a child that is not there. */
  datatype Outcome = Outcome(node: Node, result: Option<bool>, entry: Entry) | Crashed(node: Node)

  /** A test leaf succeeds iff its id is an even integer. */
  predicate Passes(id: Option<int>)
  {
    id.Some? && id.value % 2 == 0
  }

  /** The child result after which a node goes on to its next child. */
  predicate GoesOn(kind: Kind, v: bool)
  {
    v == kind.Sequence?
  }

  /** execute(). */
  function Execute(n: Node): Outcome
  {
    match n
    case Leaf(id, timed, timer, _) =>
      var left := if timed then timer - 1 else timer;
      Outcome(Leaf(id, timed, left, false), if timed && left > 0 then None else Some(Passes(id)), Entry(id, Passes(id)))
    case Inner(kind, children, current, _) =>
      if current >= |children| then Crashed(Inner(kind, children, current, false))
      else
        var o := Execute(children[current]);
        if o.Crashed? then Crashed(Inner(kind, children[current := o.node], current, false))
        else
          var on := o.result.Some? && GoesOn(kind, o.result.value);
          var next := if on then current + 1 else current;
          Outcome(Inner(kind, children[current := o.node], next, false),
                  if on && next < |children| then None else o.result, o.entry)
  }

  /** reset(): indices and entry flags, but not timers. */
  function Reset(n: Node): Node
  {
    match n
    case Leaf(id, timed, timer, _) => Leaf(id, timed, timer, true)
    case Inner(kind, children, _, _) => Inner(kind, ResetAll(children), 0, true)
  }

  function ResetAll(ns: seq<Node>): (r: seq<Node>)
    ensures |r| == |ns| && forall i :: 0 <= i < |ns| ==> r[i] == Reset(ns[i])
  {
    if ns == [] then [] else [Reset(ns[0])] + ResetAll(ns[1..])
  }

  // ----- what the rest of a run comes to -----

  /** The value of the children from the current one on, evaluated left to right and no further than needed; none if
      that comes to a node without a current child. */
  function Value(n: Node): Option<bool>
  {
    match n
    case Leaf(id, _, _, _) => Some(Passes(id))
    case Inner(kind, children, current, _) => ValueFrom(kind, children, current)
  }

  function ValueFrom(kind: Kind, ns: seq<Node>, i: nat): Option<bool>
    decreases ns, |ns| - i
  {
    if i >= |ns| then None
    else if More(kind, ns, i) then ValueFrom(kind, ns, i + 1)
    else Value(ns[i])
  }

  /** Child i leads on to another one. */
  predicate More(kind: Kind, ns: seq<Node>, i: nat)
    requires i < |ns|
    decreases ns, |ns| - i, 0
  {
    var v := Value(ns[i]);
    v.Some? && GoesOn(kind, v.value) && i + 1 < |ns|
  }

  /** Short-circuit evaluation meets no node without a current child. */
  predicate Live(n: Node)
  {
    Value(n).Some?
  }

  /** How many ticks a leaf takes. */
  function Delay(n: Node): nat
    requires n.Leaf?
  {
    if n.timed && n.timer > 1 then n.timer else 1
  }

  function Times(e: Entry, k: nat): (t: seq<Entry>)
    ensures |t| == k
  {
    if k == 0 then [] else [e] + Times(e, k - 1)
  }

  /** The leaf reports of the rest of the run, one for each tick. */
  function Trace(n: Node): seq<Entry>
  {
    match n
    case Leaf(id, _, _, _) => Times(Entry(id, Passes(id)), Delay(n))
    case Inner(kind, children, current, _) => TraceFrom(kind, children, current)
  }

  function TraceFrom(kind: Kind, ns: seq<Node>, i: nat): seq<Entry>
    decreases ns, |ns| - i
  {
    if i >= |ns| then [] else Trace(ns[i]) + if More(kind, ns, i) then TraceFrom(kind, ns, i + 1) else []
  }

  /** The leaves the rest of the run evaluates, each once. */
  function Leaves(n: Node): seq<Entry>
  {
    match n
    case Leaf(id, _, _, _) => [Entry(id, Passes(id))]
    case Inner(kind, children, current, _) => LeavesFrom(kind, children, current)
  }

  function LeavesFrom(kind: Kind, ns: seq<Node>, i: nat): seq<Entry>
    decreases ns, |ns| - i
  {
    if i >= |ns| then [] else Leaves(ns[i]) + if More(kind, ns, i) then LeavesFrom(kind, ns, i + 1) else []
  }

  /** The node at the end of the run, but for indices and entry flags: every evaluated leaf has used its timer up. */
  function Spent(n: Node): Node
  {
    match n
    case Leaf(id, timed, timer, first) => if timed then Leaf(id, timed, timer - Delay(n), first) else n
    case Inner(kind, children, current, first) => Inner(kind, SpentFrom(kind, children, current), current, first)
  }

  function SpentFrom(kind: Kind, ns: seq<Node>, i: nat): (r: seq<Node>)
    ensures |r| == |ns|
    decreases ns, |ns| - i
  {
    if i >= |ns| then ns else (if More(kind, ns, i) then SpentFrom(kind, ns, i + 1) else ns)[i := Spent(ns[i])]
  }

  // ----- whole runs -----

  /** BehaviorTree.update on a running tree: a result resets the tree. */
  function Update(n: Node): Outcome
  {
    var o := Execute(n);
    if o.Outcome? && o.result.Some? then o.(node := Reset(o.node)) else o
  }

  /** The tree the next run starts from. */
  function After(n: Node): Node
  {
    Reset(Spent(n))
  }

  /** A tree no run has started on. */
  predicate Ready(n: Node)
  {
    n.Inner? ==> n.current == 0 && forall i :: 0 <= i < |n.children| ==> Ready(n.children[i])
  }

  /** What the comments promise: a test leaf succeeds iff its id is an even integer, a sequence iff all its children
      succeed, a selector iff some child does; so a sequence without children succeeds and such a selector fails. */
  ghost predicate Documented(n: Node)
  {
    match n
    case Leaf(id, _, _, _) => exists k :: id == Some(2 * k)
    case Inner(Sequence, children, _, _) => forall i :: 0 <= i < |children| ==> Documented(children[i])
    case Inner(Selector, children, _, _) => exists i :: 0 <= i < |children| && Documented(children[i])
  }

  /** Left to right, and no further than needed, evaluation comes to a node without children. */
  ghost predicate MeetsEmpty(n: Node)
  {
    match n
    case Leaf(_, _, _, _) => false
    case Inner(Sequence, ns, _, _) =>
      ns == [] || exists j :: 0 <= j < |ns| && MeetsEmpty(ns[j])
                              && forall k :: 0 <= k < j ==> Documented(ns[k]) && !MeetsEmpty(ns[k])
    case Inner(Selector, ns, _, _) =>
      ns == [] || exists j :: 0 <= j < |ns| && MeetsEmpty(ns[j])
                              && forall k :: 0 <= k < j ==> !Documented(ns[k]) && !MeetsEmpty(ns[k])
  }

  /** k updates: the results and the leaf reports, in order; none if one of them crashes. */
  datatype Progress = Progress(node: Node, results: seq<Option<bool>>, history: seq<Entry>)

  function Updates(n: Node, k: nat): Option<Progress>
    decreases k
  {
    if k == 0 then Some(Progress(n, [], []))
    else
      var o := Update(n);
      if o.Crashed? then None
      else
        var rest := Updates(o.node, k - 1);
        if rest.None? then None
        else Some(Progress(rest.value.node, [o.result] + rest.value.results, [o.entry] + rest.value.history))
  }

  /** k more updates, after these results and reports. */
  function UpdatesAfter(results: seq<Option<bool>>, history: seq<Entry>, n: Node, k: nat): Option<Progress>
  {
    var rest := Updates(n, k);
    if rest.None? then None
    else Some(Progress(rest.value.node, results + rest.value.results, history + rest.value.history))
  }

  lemma UpdatesAfterOne(results: seq<Option<bool>>, history: seq<Entry>, n: Node, k: nat)
    requires k > 0
    ensures var o := Update(n);
            UpdatesAfter(results, history, n, k)
            == if o.Crashed? then None else UpdatesAfter(results + [o.result], history + [o.entry], o.node, k - 1)
  {
    var o := Update(n);
    if o.Outcome? && Updates(o.node, k - 1).Some? {
      var rest := Updates(o.node, k - 1).value;
      assert results + ([o.result] + rest.results) == (results + [o.result]) + rest.results;
      assert history + ([o.entry] + rest.history) == (history + [o.entry]) + rest.history;
    }
  }
}

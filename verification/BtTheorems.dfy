/** Ticking a behaviour tree evaluates it left to right, one leaf report a tick, unless that comes to an empty node. */
module BtTheorems {
  import opened Basics
  import opened BtModel

  // ----- only the children from the current one on matter -----

  predicate AgreeFrom(ns: seq<Node>, ms: seq<Node>, i: nat)
  {
    |ns| == |ms| && forall j :: i <= j < |ns| ==> ns[j] == ms[j]
  }

  lemma {:induction false} SameFrom(kind: Kind, ns: seq<Node>, ms: seq<Node>, i: nat)
    requires AgreeFrom(ns, ms, i)
    ensures ValueFrom(kind, ns, i) == ValueFrom(kind, ms, i)
    ensures TraceFrom(kind, ns, i) == TraceFrom(kind, ms, i)
    ensures LeavesFrom(kind, ns, i) == LeavesFrom(kind, ms, i)
    ensures AgreeFrom(SpentFrom(kind, ns, i), SpentFrom(kind, ms, i), i)
    decreases |ns| - i
  {
    if i < |ns| {
      SameFrom(kind, ns, ms, i + 1);
      assert More(kind, ns, i) <==> More(kind, ms, i);
    }
  }

  lemma {:induction false} SpentKeepsEarlier(kind: Kind, ns: seq<Node>, i: nat, j: nat)
    requires j < i && j < |ns|
    ensures SpentFrom(kind, ns, i)[j] == ns[j]
    decreases |ns| - i
  {
    if i < |ns| {
      SpentKeepsEarlier(kind, ns, i + 1, j);
    }
  }

  /** A run that comes to a value reports at least one leaf. */
  lemma {:induction false} LiveReports(n: Node)
    requires Live(n)
    ensures |Trace(n)| >= 1
  {
    if n.Inner? {
      LiveReports(n.children[n.current]) by {
        LiveFirst(n.kind, n.children, n.current);
      }
    }
  }

  lemma LiveFirst(kind: Kind, ns: seq<Node>, i: nat)
    requires ValueFrom(kind, ns, i).Some?
    ensures i < |ns| && Live(ns[i])
  {
  }

  // ----- one tick -----

  /** Reports the head of the trace; the last tick gives the value, every other leaves the rest of the run to do; with
      no trace left the run crashes. */
  ghost predicate Ticked(n: Node, o: Outcome)
  {
    if Trace(n) == [] then o.Crashed?
    else
      && o.Outcome? && o.entry == Trace(n)[0]
      && (if |Trace(n)| == 1 && Live(n) then o.result == Value(n) && Reset(o.node) == After(n)
          else o.result == None && Remains(n, o.node))
  }

  /** m is what is left to do of n after one tick. */
  ghost predicate Remains(n: Node, m: Node)
  {
    Trace(n) != [] && Value(m) == Value(n) && Trace(m) == Trace(n)[1..] && After(m) == After(n)
  }

  lemma LeafTick(n: Node)
    requires n.Leaf?
    ensures Ticked(n, Execute(n))
  {
  }

  lemma AfterChild(kind: Kind, ns: seq<Node>, ns': seq<Node>, i: nat)
    requires i < |ns| == |ns'| && ns' == ns[i := ns'[i]]
    requires Value(ns'[i]) == Value(ns[i]) && After(ns'[i]) == After(ns[i])
    ensures ResetAll(SpentFrom(kind, ns', i)) == ResetAll(SpentFrom(kind, ns, i))
  {
    var r, r' := SpentFrom(kind, ns, i), SpentFrom(kind, ns', i);
    SameFrom(kind, ns, ns', i + 1);
    forall j | 0 <= j < |ns|
      ensures Reset(r'[j]) == Reset(r[j])
    {
      if j < i {
        SpentKeepsEarlier(kind, ns, i, j);
        SpentKeepsEarlier(kind, ns', i, j);
      }
    }
  }

  lemma AfterNext(kind: Kind, ns: seq<Node>, ns': seq<Node>, i: nat)
    requires i < |ns| == |ns'| && ns' == ns[i := ns'[i]] && More(kind, ns, i) && Reset(ns'[i]) == After(ns[i])
    ensures ResetAll(SpentFrom(kind, ns', i + 1)) == ResetAll(SpentFrom(kind, ns, i))
  {
    var r, r' := SpentFrom(kind, ns, i), SpentFrom(kind, ns', i + 1);
    SameFrom(kind, ns, ns', i + 1);
    forall j | 0 <= j < |ns|
      ensures Reset(r'[j]) == Reset(r[j])
    {
      NextAt(kind, ns, ns', i, j);
    }
  }

  lemma NextAt(kind: Kind, ns: seq<Node>, ns': seq<Node>, i: nat, j: nat)
    requires i < |ns| == |ns'| && ns' == ns[i := ns'[i]] && More(kind, ns, i) && Reset(ns'[i]) == After(ns[i])
    requires j < |ns| && AgreeFrom(SpentFrom(kind, ns, i + 1), SpentFrom(kind, ns', i + 1), i + 1)
    ensures Reset(SpentFrom(kind, ns', i + 1)[j]) == Reset(SpentFrom(kind, ns, i)[j])
  {
    if j <= i {
      SpentKeepsEarlier(kind, ns', i + 1, j);
    }
    if j < i {
      SpentKeepsEarlier(kind, ns, i, j);
    }
  }

  lemma AfterLast(kind: Kind, ns: seq<Node>, ns': seq<Node>, i: nat)
    requires i < |ns| == |ns'| && ns' == ns[i := ns'[i]] && !More(kind, ns, i) && Reset(ns'[i]) == After(ns[i])
    ensures ResetAll(ns') == ResetAll(SpentFrom(kind, ns, i))
  {
    var r := SpentFrom(kind, ns, i);
    forall j | 0 <= j < |ns|
      ensures Reset(ns'[j]) == Reset(r[j])
    {
    }
  }

  lemma BusyRest(kind: Kind, ns: seq<Node>, ns': seq<Node>, i: nat)
    requires i < |ns| == |ns'| && ns' == ns[i := ns'[i]] && Remains(ns[i], ns'[i])
    ensures ValueFrom(kind, ns', i) == ValueFrom(kind, ns, i) && TraceFrom(kind, ns, i) != []
    ensures TraceFrom(kind, ns', i) == TraceFrom(kind, ns, i)[1..] && TraceFrom(kind, ns, i)[0] == Trace(ns[i])[0]
  {
    SameFrom(kind, ns, ns', i + 1);
    assert More(kind, ns', i) <==> More(kind, ns, i);
    TailOfSum(Trace(ns[i]), if More(kind, ns, i) then TraceFrom(kind, ns, i + 1) else []);
  }

  lemma TailOfSum(a: seq<Entry>, b: seq<Entry>)
    requires |a| >= 1
    ensures (a + b)[1..] == a[1..] + b && (a + b)[0] == a[0]
  {
  }

  /** The child has no current child. */
  lemma TickCrash(kind: Kind, ns: seq<Node>, i: nat, first: bool)
    requires i < |ns| && Ticked(ns[i], Execute(ns[i])) && Trace(ns[i]) == []
    ensures Ticked(Inner(kind, ns, i, first), Execute(Inner(kind, ns, i, first)))
  {
    if Live(ns[i]) {
      LiveReports(ns[i]);
    }
    assert TraceFrom(kind, ns, i) == [];
  }

  /** The child is not done yet. */
  lemma TickBusy(kind: Kind, ns: seq<Node>, i: nat, first: bool)
    requires i < |ns| && Ticked(ns[i], Execute(ns[i])) && Trace(ns[i]) != []
    requires !(|Trace(ns[i])| == 1 && Live(ns[i]))
    ensures Ticked(Inner(kind, ns, i, first), Execute(Inner(kind, ns, i, first)))
  {
    var n, ns' := Inner(kind, ns, i, first), ns[i := Execute(ns[i]).node];
    assert Execute(n).node == Inner(kind, ns', i, false);
    BusyRest(kind, ns, ns', i);
    AfterChild(kind, ns, ns', i);
    assert |TraceFrom(kind, ns, i)| == 1 ==> |Trace(ns[i])| == 1 && !Live(ns[i]);
  }

  lemma NextRest(kind: Kind, ns: seq<Node>, ns': seq<Node>, i: nat, first: bool)
    requires i < |ns| == |ns'| && ns' == ns[i := ns'[i]] && More(kind, ns, i) && Reset(ns'[i]) == After(ns[i])
    requires |Trace(ns[i])| == 1
    ensures Remains(Inner(kind, ns, i, first), Inner(kind, ns', i + 1, false))
    ensures TraceFrom(kind, ns, i)[0] == Trace(ns[i])[0]
  {
    SameFrom(kind, ns, ns', i + 1);
    AfterNext(kind, ns, ns', i);
    TailOfSum(Trace(ns[i]), TraceFrom(kind, ns, i + 1));
    assert Trace(ns[i])[1..] == [];
  }

  /** A tree with more to do after this tick. */
  lemma GoesOnTicked(n: Node, o: Outcome)
    requires o.Outcome? && o.result == None && Remains(n, o.node) && o.entry == Trace(n)[0]
    ensures Ticked(n, o)
  {
    if Live(n) {
      LiveReports(o.node);
    }
  }

  /** The child is done, and its value leads on to the next. */
  lemma TickNext(kind: Kind, ns: seq<Node>, i: nat, first: bool)
    requires i < |ns| && Ticked(ns[i], Execute(ns[i])) && |Trace(ns[i])| == 1 && More(kind, ns, i)
    ensures Ticked(Inner(kind, ns, i, first), Execute(Inner(kind, ns, i, first)))
  {
    var n, ns' := Inner(kind, ns, i, first), ns[i := Execute(ns[i]).node];
    NextRest(kind, ns, ns', i, first);
    GoesOnTicked(n, Execute(n));
  }

  /** The child is done and decides the node. */
  lemma TickLast(kind: Kind, ns: seq<Node>, i: nat, first: bool)
    requires i < |ns| && Ticked(ns[i], Execute(ns[i])) && |Trace(ns[i])| == 1 && Live(ns[i]) && !More(kind, ns, i)
    ensures Ticked(Inner(kind, ns, i, first), Execute(Inner(kind, ns, i, first)))
  {
    AfterLast(kind, ns, ns[i := Execute(ns[i]).node], i);
    assert TraceFrom(kind, ns, i) == Trace(ns[i]);
  }

  /** One tick of any tree. */
  lemma {:induction false} Tick(n: Node)
    ensures Ticked(n, Execute(n))
  {
    match n
    case Leaf(_, _, _, _) => LeafTick(n);
    case Inner(kind, ns, i, first) =>
      if i < |ns| {
        Tick(ns[i]);
        if Trace(ns[i]) == [] {
          TickCrash(kind, ns, i, first);
        } else if !(|Trace(ns[i])| == 1 && Live(ns[i])) {
          TickBusy(kind, ns, i, first);
        } else if More(kind, ns, i) {
          TickNext(kind, ns, i, first);
        } else {
          TickLast(kind, ns, i, first);
        }
      } else {
        assert Trace(n) == [];
      }
  }

  // ----- whole runs -----

  function Nones(k: nat): seq<Option<bool>>
  {
    if k == 0 then [] else [None] + Nones(k - 1)
  }

  lemma FirstUpdate(n: Node, k: nat, rest: Progress)
    requires Update(n).Outcome? && Updates(Update(n).node, k) == Some(rest)
    ensures var o := Update(n);
            Updates(n, k + 1) == Some(Progress(rest.node, [o.result] + rest.results, [o.entry] + rest.history))
  {
  }

  lemma LastTick(n: Node)
    requires Live(n) && |Trace(n)| == 1
    ensures Updates(n, 1) == Some(Progress(After(n), [Value(n)], Trace(n)))
  {
    Tick(n);
    var o := Update(n);
    FirstUpdate(n, 0, Progress(o.node, [], []));
    assert [o.entry] + [] == Trace(n) && [o.result] + [] == [Value(n)];
  }

  lemma EarlierTick(n: Node)
    requires |Trace(n)| > 1
    ensures var o := Update(n);
            o.Outcome? && o.result == None && o.entry == Trace(n)[0] && Remains(n, o.node)
  {
    Tick(n);
  }

  lemma OneTickMore(n: Node, end: Node, v: seq<Option<bool>>, t: seq<Entry>, k: nat)
    requires Update(n).Outcome? && Update(n).result == None && k > 0
    requires Updates(Update(n).node, k) == Some(Progress(end, Nones(k - 1) + v, t))
    ensures Updates(n, k + 1) == Some(Progress(end, Nones(k) + v, [Update(n).entry] + t))
  {
    FirstUpdate(n, k, Progress(end, Nones(k - 1) + v, t));
    assert Nones(k) + v == [None] + (Nones(k - 1) + v);
  }

  /** A run returns None on every tick but the last, which returns the value; each tick runs one leaf. */
  lemma {:induction false} WholeRun(n: Node)
    requires Live(n)
    ensures |Trace(n)| >= 1
    ensures Updates(n, |Trace(n)|) == Some(Progress(After(n), Nones(|Trace(n)| - 1) + [Value(n)], Trace(n)))
    decreases |Trace(n)|
  {
    LiveReports(n);
    var t, v := Trace(n), [Value(n)];
    if |t| == 1 {
      LastTick(n);
      assert Nones(0) + v == v;
    } else {
      EarlierTick(n);
      WholeRun(Update(n).node);
      OneTickMore(n, After(n), v, t[1..], |t| - 1);
      assert t == [t[0]] + t[1..];
    }
  }

  /** A run that comes to a node without a current child ticks its leaves without a result, and then crashes. */
  lemma {:induction false} CrashRun(n: Node) returns (m: Node)
    requires !Live(n)
    ensures Updates(n, |Trace(n)|) == Some(Progress(m, Nones(|Trace(n)|), Trace(n)))
    ensures Updates(n, |Trace(n)| + 1) == None
    decreases |Trace(n)|
  {
    Tick(n);
    var o, t := Update(n), Trace(n);
    if t == [] {
      m := n;
    } else {
      m := CrashRun(o.node);
      FirstUpdate(n, |t| - 1, Progress(m, Nones(|t| - 1), t[1..]));
      assert t == [o.entry] + t[1..];
    }
  }

  /** One of the first k updates returns v. */
  predicate Gives(n: Node, k: nat, v: bool)
  {
    Updates(n, k).Some? && Some(v) in Updates(n, k).value.results
  }

  lemma {:induction false} NeverGives(n: Node, k: nat, v: bool)
    requires !Live(n)
    ensures !Gives(n, k, v)
    decreases k
  {
    Tick(n);
    if k > 0 && Trace(n) != [] {
      NeverGives(Update(n).node, k - 1, v);
    }
  }

  /** A run comes to a value if and only if short-circuit evaluation meets no node without a current child. */
  lemma GivesValueIff(n: Node)
    ensures (exists k, v :: Gives(n, k, v)) <==> Live(n)
  {
    if Live(n) {
      WholeRun(n);
      assert Gives(n, |Trace(n)|, Value(n).value);
    } else {
      forall k, v
        ensures !Gives(n, k, v)
      {
        NeverGives(n, k, v);
      }
    }
  }

  // ----- empty nodes -----

  /** The smallest tree on which the code does not do what its comments say. */
  lemma EmptyNodeCrashes(kind: Kind)
    ensures Ready(Inner(kind, [], 0, true)) && !Live(Inner(kind, [], 0, true))
    ensures Updates(Inner(kind, [], 0, true), 1) == None
  {
    var m := CrashRun(Inner(kind, [], 0, true));
  }

  /** An empty node that evaluation does not come to does no harm. */
  lemma UnreachedEmptyNode(id: int, first: bool)
    requires id % 2 == 0
    ensures var n := Inner(Selector, [Leaf(Some(id), false, 1, true), Inner(Sequence, [], 0, true)], 0, first);
            Ready(n) && Value(n) == Some(true) && !MeetsEmpty(n)
  {
    var ns := [Leaf(Some(id), false, 1, true), Inner(Sequence, [], 0, true)];
    assert Value(ns[0]) == Some(true) && !More(Selector, ns, 0);
    assert Ready(ns[0]) && Ready(ns[1]);
    ValueIsDocumented(Inner(Selector, ns, 0, first));
  }

  /** A test leaf succeeds on an even id; it fails on an odd one and on a missing one. */
  lemma LeafSucceedsIff(n: Node)
    requires n.Leaf?
    ensures Value(n) == Some(Documented(n))
    ensures Execute(n).result != Some(!Documented(n)) && Execute(n).entry == Entry(n.id, Documented(n))
  {
    if n.id.Some? && n.id.value % 2 == 0 {
      assert n.id == Some(2 * (n.id.value / 2));
    }
  }

  /** Child k, evaluated, leads on to the next: in a sequence if it succeeds, in a selector if it fails. */
  ghost predicate PassedOver(kind: Kind, n: Node)
  {
    !MeetsEmpty(n) && if kind == Sequence then Documented(n) else !Documented(n)
  }

  ghost predicate MeetsFrom(kind: Kind, ns: seq<Node>, i: nat)
  {
    exists j :: i <= j < |ns| && MeetsEmpty(ns[j]) && forall k :: i <= k < j ==> PassedOver(kind, ns[k])
  }

  ghost predicate DocumentedFrom(kind: Kind, ns: seq<Node>, i: nat)
  {
    if kind == Sequence then forall j :: i <= j < |ns| ==> Documented(ns[j])
    else exists j :: i <= j < |ns| && Documented(ns[j])
  }

  lemma MeetsNext(kind: Kind, ns: seq<Node>, i: nat)
    requires i < |ns|
    ensures MeetsFrom(kind, ns, i) <==> MeetsEmpty(ns[i]) || (PassedOver(kind, ns[i]) && MeetsFrom(kind, ns, i + 1))
  {
    if PassedOver(kind, ns[i]) && MeetsFrom(kind, ns, i + 1) {
      var j :| i + 1 <= j < |ns| && MeetsEmpty(ns[j]) && forall k :: i + 1 <= k < j ==> PassedOver(kind, ns[k]);
      assert forall k :: i <= k < j ==> PassedOver(kind, ns[k]);
    }
  }

  lemma InnerIs(n: Node)
    requires n.Inner?
    ensures MeetsEmpty(n) <==> n.children == [] || MeetsFrom(n.kind, n.children, 0)
    ensures Documented(n) <==> DocumentedFrom(n.kind, n.children, 0)
  {
    if n.children != [] {
      MeetsIs(n);
    }
  }

  lemma MeetsIs(n: Node)
    requires n.Inner? && n.children != []
    ensures MeetsEmpty(n) <==> MeetsFrom(n.kind, n.children, 0)
  {
    var ns := n.children;
    if MeetsEmpty(n) {
      var j :| 0 <= j < |ns| && MeetsEmpty(ns[j]) && forall k :: 0 <= k < j ==> PassedOver(n.kind, ns[k]);
    } else if MeetsFrom(n.kind, ns, 0) {
      var j :| 0 <= j < |ns| && MeetsEmpty(ns[j]) && forall k :: 0 <= k < j ==> PassedOver(n.kind, ns[k]);
      assert forall k :: 0 <= k < j ==> (Documented(ns[k]) <==> n.kind == Sequence) && !MeetsEmpty(ns[k]);
      assert false;
    }
  }

  /** From the start of a run evaluation has a value exactly if it meets no empty node, and then the documented one. */
  lemma {:induction false} ValueIsDocumented(n: Node)
    requires Ready(n)
    ensures Live(n) <==> !MeetsEmpty(n)
    ensures Live(n) ==> Value(n) == Some(Documented(n))
  {
    if n.Leaf? {
      LeafSucceedsIff(n);
    } else {
      InnerIs(n);
      if n.children == [] {
        assert Value(n) == ValueFrom(n.kind, n.children, 0) == None;
      } else {
        ValueFromIsDocumented(n.kind, n.children, 0);
      }
    }
  }

  lemma {:induction false} ValueFromIsDocumented(kind: Kind, ns: seq<Node>, i: nat)
    requires i < |ns| && forall j :: 0 <= j < |ns| ==> Ready(ns[j])
    ensures ValueFrom(kind, ns, i).Some? <==> !MeetsFrom(kind, ns, i)
    ensures ValueFrom(kind, ns, i).Some? ==> ValueFrom(kind, ns, i) == Some(DocumentedFrom(kind, ns, i))
    decreases ns, |ns| - i
  {
    ValueIsDocumented(ns[i]);
    MeetsNext(kind, ns, i);
    if i + 1 < |ns| {
      ValueFromIsDocumented(kind, ns, i + 1);
    }
  }

  /** The code gives the documented value exactly on the trees whose evaluation meets no empty node. */
  lemma DocumentedIff(n: Node)
    requires Ready(n)
    ensures (exists k :: Gives(n, k, Documented(n))) <==> !MeetsEmpty(n)
  {
    GivesValueIff(n);
    ValueIsDocumented(n);
    if Live(n) {
      WholeRun(n);
      assert Gives(n, |Trace(n)|, Documented(n));
    }
  }

  /** And a run gives no other value: None on every tick before. */
  lemma RunGivesDocumented(n: Node)
    requires Ready(n) && !MeetsEmpty(n)
    ensures |Trace(n)| >= 1 && Updates(n, |Trace(n)|).Some?
    ensures Updates(n, |Trace(n)|).value.results == Nones(|Trace(n)| - 1) + [Some(Documented(n))]
  {
    ValueIsDocumented(n);
    WholeRun(n);
  }

  /** A delayed leaf whose timer is set to t ticks gives its result on tick t; any other leaf on the first. */
  lemma LeafTakes(n: Node)
    requires n.Leaf?
    ensures var t := if n.timed && n.timer >= 1 then n.timer else 1;
            Updates(n, t).Some? && Updates(n, t).value.results == Nones(t - 1) + [Some(Documented(n))]
  {
    var t := if n.timed && n.timer >= 1 then n.timer else 1;
    LeafSucceedsIff(n);
    WholeRun(n);
    assert |Trace(n)| == Delay(n) == t;
  }

  predicate NoEmptyNode(n: Node)
  {
    n.Inner? ==> n.children != [] && forall i :: 0 <= i < |n.children| ==> NoEmptyNode(n.children[i])
  }

  /** In particular on every tree without empty nodes. */
  lemma {:induction false} FullTreeMeetsNone(n: Node)
    requires NoEmptyNode(n)
    ensures !MeetsEmpty(n)
  {
    if n.Inner? {
      forall i | 0 <= i < |n.children|
        ensures !MeetsEmpty(n.children[i])
      {
        FullTreeMeetsNone(n.children[i]);
      }
    }
  }

  // ----- entering and resetting -----

  /** A tick enters the nodes on the way to the current leaf, crash or not, and leaves all the others as they are. */
  lemma TickEnters(n: Node)
    ensures !Execute(n).node.first
    ensures n.Inner? ==> Execute(n).node.Inner? && |Execute(n).node.children| == |n.children|
    ensures n.Inner? ==> forall j :: 0 <= j < |n.children| && j != n.current
                             ==> Execute(n).node.children[j] == n.children[j]
    ensures n.Inner? && n.current < |n.children|
            ==> Execute(n).node.children[n.current] == Execute(n.children[n.current]).node
  {
  }

  /** No node has been entered, and every inner node stands at its first child. */
  predicate Fresh(n: Node)
  {
    n.first && (n.Inner? ==> n.current == 0 && forall i :: 0 <= i < |n.children| ==> Fresh(n.children[i]))
  }

  lemma {:induction false} ResetIsFresh(n: Node)
    ensures Fresh(Reset(n)) && Reset(n).Inner? == n.Inner?
    ensures n.Leaf? ==> Reset(n) == Leaf(n.id, n.timed, n.timer, true)
  {
    if n.Inner? {
      forall i | 0 <= i < |n.children|
        ensures Fresh(Reset(n.children[i]))
      {
        ResetIsFresh(n.children[i]);
      }
    }
  }

  // ----- later runs -----

  lemma {:induction false} ReadyAfterReset(n: Node)
    ensures Ready(Reset(n))
  {
    if n.Inner? {
      forall i | 0 <= i < |n.children|
        ensures Ready(Reset(n.children[i]))
      {
        ReadyAfterReset(n.children[i]);
      }
    }
  }

  /** The next run on the same tree: the same value, the same leaves in the same order, now in one tick each. */
  ghost predicate Repeats(n: Node, m: Node)
  {
    Value(m) == Value(n) && Leaves(m) == Leaves(n) && Trace(m) == Leaves(n)
  }

  lemma {:induction false} NextRun(n: Node)
    requires Ready(n)
    ensures Ready(After(n)) && Repeats(n, After(n))
  {
    ReadyAfterReset(Spent(n));
    match n
    case Leaf(id, _, _, _) =>
      assert Times(Entry(id, Passes(id)), 1) == [Entry(id, Passes(id))] by {
        assert Times(Entry(id, Passes(id)), 0) == [];
      }
    case Inner(kind, ns, _, _) =>
      var ms := NextRunFrom(kind, ns, 0);
  }

  ghost predicate RepeatsFrom(kind: Kind, ns: seq<Node>, ms: seq<Node>, i: nat)
  {
    && ValueFrom(kind, ms, i) == ValueFrom(kind, ns, i) && LeavesFrom(kind, ms, i) == LeavesFrom(kind, ns, i)
    && TraceFrom(kind, ms, i) == LeavesFrom(kind, ns, i)
  }

  lemma RepeatsStep(kind: Kind, ns: seq<Node>, ms: seq<Node>, i: nat)
    requires i < |ns| == |ms| && Repeats(ns[i], ms[i]) && (More(kind, ns, i) ==> RepeatsFrom(kind, ns, ms, i + 1))
    ensures RepeatsFrom(kind, ns, ms, i)
  {
    assert More(kind, ms, i) <==> More(kind, ns, i);
  }

  lemma {:induction false} NextRunFrom(kind: Kind, ns: seq<Node>, i: nat) returns (ms: seq<Node>)
    requires forall j :: 0 <= j < |ns| ==> Ready(ns[j])
    ensures ms == ResetAll(SpentFrom(kind, ns, i)) && RepeatsFrom(kind, ns, ms, i)
    decreases ns, |ns| - i
  {
    ms := ResetAll(SpentFrom(kind, ns, i));
    if i < |ns| {
      NextRun(ns[i]);
      assert ms[i] == After(ns[i]);
      if More(kind, ns, i) {
        var later := NextRunFrom(kind, ns, i + 1);
        SameFrom(kind, later, ms, i + 1);
      }
      RepeatsStep(kind, ns, ms, i);
    }
  }

  /** The tree at the start of run r. */
  function Start(n: Node, r: nat): Node
  {
    if r == 0 then n else After(Start(n, r - 1))
  }

  lemma {:induction false} StartRepeats(n: Node, r: nat)
    requires Ready(n) && r >= 1
    ensures Ready(Start(n, r)) && Repeats(n, Start(n, r))
  {
    if r == 1 {
      assert Start(n, 0) == n;
      NextRun(n);
    } else {
      StartRepeats(n, r - 1);
      NextRun(Start(n, r - 1));
    }
  }

  /** From the second run on a tree goes through the leaves it evaluated in the first, one a tick, to the same value:
      reset does not put the timers back. */
  lemma LaterRuns(n: Node, r: nat)
    requires Ready(n) && Live(n) && r >= 1
    ensures |Leaves(n)| >= 1
    ensures Updates(Start(n, r), |Leaves(n)|)
            == Some(Progress(Start(n, r + 1), Nones(|Leaves(n)| - 1) + [Value(n)], Leaves(n)))
  {
    StartRepeats(n, r);
    WholeRun(Start(n, r));
  }
}

/** Behaviour-tree nodes as objects whose indices, timers and flags change in place, and the tree that updates them. */
module BehaviorTree {
  import opened Basics
  import opened BtModel

  /** A node after a call of execute, as an outcome. */
  function Returned(n: Node, done: Option<(Option<bool>, Entry)>): Outcome
  {
    if done.None? then Crashed(n) else Outcome(n, done.value.0, done.value.1)
  }

  class BTNode {
    const kind: Option<Kind>   // None for a test leaf
    const id: Option<int>
    const timed: bool
    const children: seq<BTNode>
    var timer: int
    var current: nat
    var first: bool
    ghost const repr: set<BTNode>
    ghost var views: seq<Node>   // what the children amount to

    ghost function View(): Node
      reads this
    {
      if kind.None? then Leaf(id, timed, timer, first) else Inner(kind.value, views, current, first)
    }

    ghost predicate HasChild(i: nat)
      requires i < |children| == |views|
      reads this, repr
      decreases repr, 0
    {
      var c := children[i];
      c in repr && c.repr < repr && this !in c.repr && c.Valid() && views[i] == c.View()
    }

    ghost predicate Valid()
      reads this, repr
      decreases repr, 1
    {
      && this in repr && |views| == |children|
      && (forall i :: 0 <= i < |children| ==> HasChild(i))
      && (forall i, j :: 0 <= i < j < |children| ==> children[i].repr !! children[j].repr)
    }

    constructor TestLeaf(id: Option<int>, timed: bool, timer: int)
      ensures Valid() && fresh(repr) && View() == Leaf(id, timed, timer, true)
    {
      this.kind, this.id, this.timed, this.timer := None, id, timed, timer;
      children, current, first, views := [], 0, true, [];
      repr := {this};
    }

    constructor Composite(kind: Kind, kids: seq<BTNode>)
      requires forall i :: 0 <= i < |kids| ==> kids[i].Valid()
      requires forall i, j :: 0 <= i < j < |kids| ==> kids[i].repr !! kids[j].repr
      ensures Valid() && View()
              == Inner(kind, seq(|kids|, i requires 0 <= i < |kids| reads kids => kids[i].View()), 0, true)
      ensures repr == {this} + (set i, n | 0 <= i < |kids| && n in kids[i].repr :: n)
    {
      this.kind, this.id, this.timed, this.timer := Some(kind), None, false, 0;
      children, current, first := kids, 0, true;
      views := seq(|kids|, i requires 0 <= i < |kids| reads kids => kids[i].View());
      repr := {this} + (set i, n | 0 <= i < |kids| && n in kids[i].repr :: n);
    }

    /** A child as seen without this node's own fields. */
    ghost predicate Kid(c: BTNode, v: Node)
      reads c, c.repr
    {
      c.Valid() && c.View() == v
    }

    method ExecuteLeaf() returns (ret: Option<bool>, entry: Entry)
      requires Valid() && kind.None?
      modifies this
      ensures Valid() && Outcome(View(), ret, entry) == BtModel.Execute(old(View()))
    {
      first := false;
      entry := Entry(id, Passes(id));
      ret := Some(Passes(id));
      if timed {
        timer := timer - 1;
        if timer > 0 {
          ret := None;
        }
      }
      forall i | 0 <= i < |children|
        ensures HasChild(i)
      {
        assert old(HasChild(i));
      }
    }

    /** What the node says of itself before its child runs. */
    method Enter()
      requires Valid()
      modifies this
      ensures Valid() && views == old(views) && current == old(current) && !first && timer == old(timer)
    {
      first := false;
      forall i | 0 <= i < |children|
        ensures HasChild(i)
      {
        assert old(HasChild(i));
      }
    }

    /** execute(); the entry is what a leaf passes to testCallback.  None: there is no current child to look up. */
    method Execute() returns (done: Option<(Option<bool>, Entry)>)
      requires Valid()
      modifies repr
      ensures Valid() && Returned(View(), done) == BtModel.Execute(old(View()))
      decreases repr, 1
    {
      if kind.None? {
        var ret, entry := ExecuteLeaf();
        return Some((ret, entry));
      }
      Enter();
      if current >= |children| {
        return None;
      }
      done := ExecuteChild();
      if done.Some? && done.value.0.Some? && GoesOn(kind.value, done.value.0.value) {
        GoOn();
        if current < |children| {
          done := Some((None, done.value.1));
        }
      }
    }

    method GoOn()
      requires Valid()
      modifies this
      ensures Valid() && views == old(views) && current == old(current) + 1 && first == old(first)
              && timer == old(timer)
    {
      current := current + 1;
      forall i | 0 <= i < |children|
        ensures HasChild(i)
      {
        assert old(HasChild(i));
      }
    }

    method ExecuteChild() returns (done: Option<(Option<bool>, Entry)>)
      requires Valid() && current < |children|
      modifies repr
      ensures Valid() && current == old(current) && first == old(first) && timer == old(timer)
      ensures var o := BtModel.Execute(old(views)[current]);
              views == old(views)[current := o.node] && Returned(o.node, done) == o
      decreases repr, 0
    {
      ghost var k := current;
      assert HasChild(k);
      var c := children[current];
      done := c.Execute();
      assert Kid(c, c.View());
      views := views[current := c.View()];
      forall i | 0 <= i < |children| && i != k
        ensures HasChild(i)
      {
        assert old(HasChild(i)) && old(Kid(children[i], views[i]));
        assert children[i].repr !! children[k].repr;
        assert Kid(children[i], old(views)[i]);
      }
    }

    method ResetOwn()
      requires Valid()
      modifies this
      ensures Valid() && views == old(views) && current == 0 && first && timer == old(timer)
    {
      current, first := 0, true;
      forall i | 0 <= i < |children|
        ensures HasChild(i)
      {
        assert old(HasChild(i));
      }
    }

    method ResetChild(k: nat)
      requires Valid() && k < |children|
      modifies repr
      ensures Valid() && views == old(views)[k := BtModel.Reset(old(views)[k])]
      ensures current == old(current) && first == old(first) && timer == old(timer)
      decreases repr, 0
    {
      assert HasChild(k);
      var c := children[k];
      c.Reset();
      assert Kid(c, c.View());
      views := views[k := c.View()];
      forall i | 0 <= i < |children| && i != k
        ensures HasChild(i)
      {
        assert old(HasChild(i)) && old(Kid(children[i], views[i]));
        assert children[i].repr !! children[k].repr;
        assert Kid(children[i], old(views)[i]);
      }
    }

    /** reset(). */
    method Reset()
      requires Valid()
      modifies repr
      ensures Valid() && View() == BtModel.Reset(old(View()))
      decreases repr, 1
    {
      ghost var was := views;
      ResetOwn();
      var i := 0;
      while i < |children|
        invariant 0 <= i <= |children| && Valid() && |was| == |children|
        invariant current == 0 && first && timer == old(timer)
        invariant forall j :: 0 <= j < |children| ==> views[j] == if j < i then BtModel.Reset(was[j]) else was[j]
      {
        ResetChild(i);
        i := i + 1;
      }
      assert views == ResetAll(was);
    }
  }

  /** TestBehaviorTree: the agent that keeps its leaves' reports. */
  class TestBehaviorTree {
    var tree: BTNode?
    var running: bool
    var history: seq<Entry>

    constructor ()
      ensures tree == null && !running && history == []
    {
      tree, running, history := null, false, [];
    }

    method SetTree(root: BTNode)
      modifies `tree
      ensures tree == root
    {
      tree := root;
    }

    method Start()
      modifies `running, `history
      ensures running && history == []
    {
      running, history := true, [];
    }

    method Stop()
      modifies `running
      ensures !running
    {
      running := false;
    }

    /** update(): a tree that is not running fails.  None: the error of a lookup, which leaves the tree as it is
        then. */
    method Update() returns (done: Option<Option<bool>>)
      requires tree != null ==> tree.Valid()
      modifies `history, if tree == null then {} else tree.repr
      ensures tree == null || !running ==> done == Some(Some(false)) && history == old(history)
      ensures tree != null && !running ==> tree.Valid() && tree.View() == old(tree.View())
      ensures tree != null && running ==>
                var o := BtModel.Update(old(tree.View()));
                && tree.Valid() && tree.View() == o.node
                && (if o.Crashed? then done == None && history == old(history)
                    else done == Some(o.result) && history == old(history) + [o.entry])
    {
      if !running || tree == null {
        return Some(Some(false));
      }
      var res := tree.Execute();
      if res.None? {
        return None;
      }
      history := history + [res.value.1];
      if res.value.0.Some? {
        tree.Reset();
      }
      return Some(res.value.0);
    }

    /** One of the updates of a run that is to end as `whole`, when `left` are left. */
    method UpdateMore(results: seq<Option<bool>>, ghost left: nat, ghost whole: Option<Progress>)
      returns (results': seq<Option<bool>>, ok: bool)
      requires tree != null && tree.Valid() && running && left > 0
      requires UpdatesAfter(results, history, tree.View(), left) == whole
      modifies `history, if tree == null then {} else tree.repr
      ensures tree != null && tree.Valid()
      ensures if ok then UpdatesAfter(results', history, tree.View(), left - 1) == whole else whole == None
    {
      UpdatesAfterOne(results, history, tree.View(), left);
      var res := Update();
      ok := res.Some?;
      results' := if ok then results + [res.value] else results;
    }

    /** A tree set, started, updated k times and stopped: the results of the updates, unless one of them fails. */
    method Drive(root: BTNode, k: nat) returns (results: seq<Option<bool>>, ok: bool)
      requires root.Valid()
      modifies this, root.repr
      ensures root.Valid() && tree == root
      ensures var run := Updates(old(root.View()), k);
              if ok then run == Some(Progress(root.View(), results, history)) && !running else run == None
    {
      SetTree(root);
      Start();
      ghost var whole := Updates(root.View(), k);
      results, ok := [], true;
      NothingBefore(root.View(), k);
      var i := 0;
      while i < k
        invariant 0 <= i <= k
        invariant tree == root && running
        invariant root.Valid()
        invariant UpdatesAfter(results, history, root.View(), k - i) == whole
      {
        results, ok := UpdateMore(results, k - i, whole);
        if !ok {
          return;
        }
        i := i + 1;
      }
      assert results + [] == results && history + [] == history;
      Stop();
    }
  }

  lemma NothingBefore(n: Node, k: nat)
    ensures UpdatesAfter([], [], n, k) == Updates(n, k)
  {
    if Updates(n, k).Some? {
      var run := Updates(n, k).value;
      assert [] + run.results == run.results && [] + run.history == run.history;
    }
  }
}

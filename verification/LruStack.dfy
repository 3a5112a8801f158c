/** One set of a least-recently-used cache as a recency list, and what its contents mean in terms of the past. */
module LruStack {
  import opened Basics

  /** A resident block: its tag, and whether it was written since it was loaded. */
  datatype Entry = Entry(tag: nat, dirty: bool)

  /** One access to the set. */
  datatype Use = Use(tag: nat, write: bool)

  function TagsOf(list: seq<Entry>): (tags: seq<nat>)
    ensures |tags| == |list|
    ensures forall k :: 0 <= k < |list| ==> tags[k] == list[k].tag
  {
    if list == [] then [] else [list[0].tag] + TagsOf(list[1..])
  }

  predicate Resident(list: seq<Entry>, tag: nat)
  {
    tag in TagsOf(list)
  }

  /** The list without its first entry for the tag. */
  function Drop(list: seq<Entry>, tag: nat): seq<Entry>
  {
    if list == [] then [] else if list[0].tag == tag then list[1..] else [list[0]] + Drop(list[1..], tag)
  }

  function DirtyBit(list: seq<Entry>, tag: nat): bool
  {
    list != [] && if list[0].tag == tag then list[0].dirty else DirtyBit(list[1..], tag)
  }

  /** The set after one access, most recently used first. */
  function Touch(list: seq<Entry>, ways: nat, u: Use): seq<Entry>
    requires ways > 0
  {
    if Resident(list, u.tag) then [Entry(u.tag, DirtyBit(list, u.tag) || u.write)] + Drop(list, u.tag)
    else if |list| < ways then [Entry(u.tag, u.write)] + list
    else [Entry(u.tag, u.write)] + list[..|list| - 1]
  }

  /** The set after a whole trace, from empty. */
  function Contents(trace: seq<Use>, ways: nat): seq<Entry>
    requires ways > 0
  {
    if trace == [] then [] else Touch(Contents(trace[..|trace| - 1], ways), ways, trace[|trace| - 1])
  }

  // ----- the stack: all tags ever used, most recent first -----

  function Remove(s: seq<nat>, t: nat): seq<nat>
  {
    if s == [] then [] else if s[0] == t then s[1..] else [s[0]] + Remove(s[1..], t)
  }

  function Stack(trace: seq<Use>): seq<nat>
  {
    if trace == [] then []
    else
      var t := trace[|trace| - 1].tag;
      [t] + Remove(Stack(trace[..|trace| - 1]), t)
  }

  function Take(s: seq<nat>, n: nat): seq<nat>
  {
    if n < |s| then s[..n] else s
  }

  function SetOf(s: seq<nat>): set<nat>
  {
    set x | x in s
  }

  lemma SetOfConcat(a: seq<nat>, b: seq<nat>)
    ensures SetOf(a + b) == SetOf(a) + SetOf(b)
  {
  }

  lemma {:induction false} RemoveMember(s: seq<nat>, t: nat)
    requires t in s
    ensures |Remove(s, t)| == |s| - 1
  {
    if s[0] != t {
      RemoveMember(s[1..], t);
    }
  }

  lemma {:induction false} RemoveFromLeft(a: seq<nat>, b: seq<nat>, t: nat)
    requires t in a
    ensures Remove(a + b, t) == Remove(a, t) + b
  {
    if a[0] == t {
      assert (a + b)[1..] == a[1..] + b;
    } else {
      RemoveFromLeft(a[1..], b, t);
      assert (a + b)[1..] == a[1..] + b;
    }
  }

  lemma {:induction false} RemoveFromRight(a: seq<nat>, b: seq<nat>, t: nat)
    requires t !in a
    ensures Remove(a + b, t) == a + Remove(b, t)
  {
    if a == [] {
      assert a + b == b;
    } else {
      var h, tail := a[0], a[1..];
      assert h in a;
      forall x | x in tail
        ensures x in a
      {
      }
      RemoveFromRight(tail, b, t);
      assert (a + b)[0] == h && (a + b)[1..] == tail + b;
      assert [h] + (tail + Remove(b, t)) == a + Remove(b, t);
    }
  }

  lemma {:induction false} RemoveDistinct(s: seq<nat>, t: nat)
    requires Distinct(s)
    ensures Distinct(Remove(s, t)) && SetOf(Remove(s, t)) == SetOf(s) - {t}
  {
    if s != [] {
      SetOfConcat([s[0]], s[1..]);
      assert [s[0]] + s[1..] == s && SetOf([s[0]]) == {s[0]} && s[0] !in SetOf(s[1..]);
      if s[0] != t {
        RemoveDistinct(s[1..], t);
        SetOfConcat([s[0]], Remove(s[1..], t));
      }
    }
  }

  lemma {:induction false} StackDistinct(trace: seq<Use>)
    ensures Distinct(Stack(trace)) && SetOf(Stack(trace)) == TagSet(trace)
  {
    if trace != [] {
      var before, u := trace[..|trace| - 1], trace[|trace| - 1];
      StackDistinct(before);
      RemoveDistinct(Stack(before), u.tag);
      assert u.tag !in SetOf(Remove(Stack(before), u.tag));
      SetOfConcat([u.tag], Remove(Stack(before), u.tag));
      TagSetAppend(before, u);
      assert trace == before + [u];
    }
  }

  lemma {:induction false} DropIsRemove(list: seq<Entry>, tag: nat)
    ensures TagsOf(Drop(list, tag)) == Remove(TagsOf(list), tag)
  {
    if list != [] {
      DropIsRemove(list[1..], tag);
      assert TagsOf(list)[1..] == TagsOf(list[1..]);
      if list[0].tag != tag {
        var d := [list[0]] + Drop(list[1..], tag);
        assert d[1..] == Drop(list[1..], tag);
      }
    }
  }

  lemma TagsOfPrefix(list: seq<Entry>, n: nat)
    requires n <= |list|
    ensures TagsOf(list[..n]) == TagsOf(list)[..n]
  {
  }

  lemma TagsOfCons(e: Entry, list: seq<Entry>)
    ensures TagsOf([e] + list) == [e.tag] + TagsOf(list)
  {
  }

  /** Touch, on the tags alone. */
  function TouchTags(tags: seq<nat>, ways: nat, t: nat): seq<nat>
    requires ways > 0
  {
    if t in tags then [t] + Remove(tags, t)
    else if |tags| < ways then [t] + tags
    else [t] + tags[..|tags| - 1]
  }

  lemma TagsOfTouch(list: seq<Entry>, ways: nat, u: Use)
    requires ways > 0
    ensures TagsOf(Touch(list, ways, u)) == TouchTags(TagsOf(list), ways, u.tag)
  {
    if Resident(list, u.tag) {
      DropIsRemove(list, u.tag);
      TagsOfCons(Entry(u.tag, DirtyBit(list, u.tag) || u.write), Drop(list, u.tag));
    } else if |list| < ways {
      TagsOfCons(Entry(u.tag, u.write), list);
    } else {
      TagsOfCons(Entry(u.tag, u.write), list[..|list| - 1]);
      TagsOfPrefix(list, |list| - 1);
    }
  }

  lemma TakeFront(a: seq<nat>, b: seq<nat>, n: nat)
    requires |a| == n || (|a| <= n && b == [])
    ensures Take(a + b, n) == a
  {
    assert b == [] ==> a + b == a;
  }

  lemma TopTouched(top: seq<nat>, rest: seq<nat>, ways: nat, t: nat)
    requires ways > 0 && |top| <= ways && (|top| < ways ==> rest == [])
    ensures TouchTags(top, ways, t) == Take([t] + Remove(top + rest, t), ways)
  {
    if t in top {
      RemoveFromLeft(top, rest, t);
      RemoveMember(top, t);
      var front := [t] + Remove(top, t);
      assert [t] + (Remove(top, t) + rest) == front + rest;
      TakeFront(front, rest, ways);
    } else {
      RemoveFromRight(top, rest, t);
      TopMissed(top, Remove(rest, t), ways, t);
    }
  }

  lemma TopMissed(top: seq<nat>, rest: seq<nat>, ways: nat, t: nat)
    requires ways > 0 && |top| <= ways && t !in top && (|top| < ways ==> rest == [])
    ensures TouchTags(top, ways, t) == Take([t] + (top + rest), ways)
  {
    if |top| < ways {
      assert [t] + (top + rest) == ([t] + top) + [];
      TakeFront([t] + top, [], ways);
    } else {
      var front, tail := [t] + top[..|top| - 1], [top[|top| - 1]] + rest;
      assert [t] + (top + rest) == front + tail;
      TakeFront(front, tail, ways);
    }
  }

  /** Touching the kept part is keeping part of the moved stack. */
  lemma TouchMovesToFront(list: seq<Entry>, stack: seq<nat>, ways: nat, u: Use)
    requires ways > 0 && TagsOf(list) == Take(stack, ways)
    ensures TagsOf(Touch(list, ways, u)) == Take([u.tag] + Remove(stack, u.tag), ways)
  {
    var top := Take(stack, ways);
    assert stack == top + stack[|top|..];
    TagsOfTouch(list, ways, u);
    TopTouched(top, stack[|top|..], ways, u.tag);
  }

  /** The set always holds the most recent `ways` tags of the stack: the simulator refines a recency list. */
  lemma {:induction false} ContentsAreTopOfStack(trace: seq<Use>, ways: nat)
    requires ways > 0
    ensures TagsOf(Contents(trace, ways)) == Take(Stack(trace), ways)
  {
    if trace != [] {
      var before := trace[..|trace| - 1];
      ContentsAreTopOfStack(before, ways);
      TouchMovesToFront(Contents(before, ways), Stack(before), ways, trace[|trace| - 1]);
    }
  }

  // ----- reuse distance -----

  function TagSet(trace: seq<Use>): set<nat>
  {
    set u | u in trace :: u.tag
  }

  lemma TagSetAppend(trace: seq<Use>, u: Use)
    ensures TagSet(trace + [u]) == TagSet(trace) + {u.tag}
  {
    assert u in trace + [u];
    forall x | x in TagSet(trace)
      ensures x in TagSet(trace + [u])
    {
      var v :| v in trace && v.tag == x;
      assert v in trace + [u];
    }
  }

  ghost predicate LastUse(trace: seq<Use>, t: int, tag: nat)
  {
    0 <= t < |trace| && trace[t].tag == tag && forall s :: t < s < |trace| ==> trace[s].tag != tag
  }

  /** The tag was used before, and fewer than `ways` distinct other tags since its last use. */
  ghost predicate Reused(trace: seq<Use>, ways: nat, tag: nat)
  {
    exists t :: LastUse(trace, t, tag) && |TagSet(trace[t + 1..])| < ways
  }

  lemma {:induction false} SetSize(s: seq<nat>)
    requires Distinct(s)
    ensures |SetOf(s)| == |s|
  {
    if s != [] {
      SetSize(s[1..]);
      SetOfConcat([s[0]], s[1..]);
      assert s == [s[0]] + s[1..] && SetOf([s[0]]) == {s[0]};
      assert s[0] !in SetOf(s[1..]);
    }
  }

  /** A tag sits in the stack below exactly the tags used since its last use. */
  lemma {:induction false} StackDepth(trace: seq<Use>, t: nat, tag: nat) returns (above: seq<nat>, below: seq<nat>)
    requires LastUse(trace, t, tag)
    ensures Stack(trace) == above + [tag] + below
    ensures SetOf(above) == TagSet(trace[t + 1..])
    decreases |trace|
  {
    var n := |trace| - 1;
    var before, u := trace[..n], trace[n];
    if t == n {
      above, below := [], Remove(Stack(before), tag);
      assert trace[t + 1..] == [];
    } else {
      assert before[t + 1..] + [u] == trace[t + 1..];
      TagSetAppend(before[t + 1..], u);
      above, below := StackDepth(before, t, tag);
      StackDistinct(before);
      above, below := MoveAround(above, below, tag, u.tag);
    }
  }

  lemma DistinctLeft(a: seq<nat>, b: seq<nat>)
    requires Distinct(a + b)
    ensures Distinct(a)
  {
    assert forall i :: 0 <= i < |a| ==> (a + b)[i] == a[i];
  }

  /** A tag above moves to the top. */
  lemma MoveUp(a: seq<nat>, b: seq<nat>, tag: nat, t: nat) returns (above: seq<nat>)
    requires Distinct(a) && t in a
    ensures [t] + Remove(a + ([tag] + b), t) == above + [tag] + b
    ensures SetOf(above) == SetOf(a) + {t}
  {
    above := [t] + Remove(a, t);
    RemoveFromLeft(a, [tag] + b, t);
    RemoveDistinct(a, t);
    SetOfConcat([t], Remove(a, t));
    assert SetOf([t]) == {t};
    assert [t] + (Remove(a, t) + ([tag] + b)) == above + [tag] + b;
  }

  /** A tag from below, or a new one, comes to the top. */
  lemma BringUp(a: seq<nat>, b: seq<nat>, tag: nat, t: nat) returns (above: seq<nat>, below: seq<nat>)
    requires t !in a && t != tag
    ensures [t] + Remove(a + ([tag] + b), t) == above + [tag] + below
    ensures SetOf(above) == SetOf(a) + {t}
  {
    above, below := [t] + a, Remove(b, t);
    RemoveFromRight(a, [tag] + b, t);
    RemoveFromRight([tag], b, t);
    SetOfConcat([t], a);
    assert SetOf([t]) == {t};
    assert [t] + (a + ([tag] + below)) == above + [tag] + below;
  }

  lemma MoveAround(a: seq<nat>, b: seq<nat>, tag: nat, t: nat) returns (above: seq<nat>, below: seq<nat>)
    requires Distinct(a + [tag] + b) && t != tag
    ensures [t] + Remove(a + [tag] + b, t) == above + [tag] + below
    ensures SetOf(above) == SetOf(a) + {t}
  {
    assert a + [tag] + b == a + ([tag] + b);
    if t in a {
      DistinctLeft(a, [tag] + b);
      above := MoveUp(a, b, tag, t);
      below := b;
    } else {
      above, below := BringUp(a, b, tag, t);
    }
  }

  lemma {:induction false} EveryUseHasALast(trace: seq<Use>, tag: nat) returns (t: nat)
    requires tag in TagSet(trace)
    ensures LastUse(trace, t, tag)
    decreases |trace|
  {
    var n := |trace| - 1;
    if trace[n].tag == tag {
      t := n;
    } else {
      assert trace == trace[..n] + [trace[n]];
      t := EveryUseHasALast(trace[..n], tag);
    }
  }

  lemma InTopIff(s: seq<nat>, above: seq<nat>, below: seq<nat>, tag: nat, ways: nat)
    requires Distinct(s) && s == above + [tag] + below
    ensures tag in Take(s, ways) <==> |above| < ways
  {
    assert s[|above|] == tag;
    if |above| < ways {
      assert Take(s, ways)[|above|] == tag;
    }
  }

  lemma DepthDecides(trace: seq<Use>, ways: nat, t: nat, tag: nat)
    requires ways > 0 && LastUse(trace, t, tag)
    ensures Resident(Contents(trace, ways), tag) <==> |TagSet(trace[t + 1..])| < ways
  {
    ContentsAreTopOfStack(trace, ways);
    StackDistinct(trace);
    var above, below := StackDepth(trace, t, tag);
    InTopIff(Stack(trace), above, below, tag, ways);
    assert above + [tag] + below == above + ([tag] + below);
    DistinctLeft(above, [tag] + below);
    SetSize(above);
  }

  /** The reuse-distance theorem for one set: the next access hits exactly when its tag was used before and fewer
      than `ways` distinct other tags were used since. */
  lemma HitIffReused(trace: seq<Use>, ways: nat, tag: nat)
    requires ways > 0
    ensures Resident(Contents(trace, ways), tag) <==> Reused(trace, ways, tag)
  {
    forall t | LastUse(trace, t, tag)
      ensures tag in TagSet(trace)
      ensures Resident(Contents(trace, ways), tag) <==> |TagSet(trace[t + 1..])| < ways
    {
      assert trace[t] in trace;
      DepthDecides(trace, ways, t, tag);
    }
    if tag in TagSet(trace) {
      var t := EveryUseHasALast(trace, tag);
    } else {
      NeverUsed(trace, ways, tag);
    }
  }

  lemma NeverUsed(trace: seq<Use>, ways: nat, tag: nat)
    requires ways > 0 && tag !in TagSet(trace)
    ensures !Resident(Contents(trace, ways), tag)
  {
    ContentsAreTopOfStack(trace, ways);
    StackDistinct(trace);
    assert tag !in SetOf(Stack(trace));
  }

  /** The inclusion property: a set with more ways holds everything a smaller one holds. */
  lemma MoreWaysHoldMore(trace: seq<Use>, small: nat, large: nat, tag: nat)
    requires 0 < small <= large
    ensures Resident(Contents(trace, small), tag) ==> Resident(Contents(trace, large), tag)
  {
    HitIffReused(trace, small, tag);
    HitIffReused(trace, large, tag);
  }
}

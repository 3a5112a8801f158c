/** What the dirty bit of a resident block records. */
module LruDirty {
  import opened LruStack

  lemma {:induction false} DropKeepsOthers(list: seq<Entry>, other: nat, tag: nat)
    requires other != tag
    ensures Resident(Drop(list, other), tag) <==> Resident(list, tag)
    ensures DirtyBit(Drop(list, other), tag) == DirtyBit(list, tag)
  {
    if list != [] {
      DropKeepsOthers(list[1..], other, tag);
      ResidentCons(list, tag);
      if list[0].tag != other {
        assert Drop(list, other)[1..] == Drop(list[1..], other);
        ResidentCons(Drop(list, other), tag);
      }
    }
  }

  lemma ResidentCons(list: seq<Entry>, tag: nat)
    requires list != []
    ensures Resident(list, tag) <==> list[0].tag == tag || Resident(list[1..], tag)
  {
    assert TagsOf(list) == [list[0].tag] + TagsOf(list[1..]);
  }

  lemma {:induction false} PrefixKeeps(list: seq<Entry>, n: nat, tag: nat)
    requires n <= |list| && Resident(list[..n], tag)
    ensures Resident(list, tag) && DirtyBit(list[..n], tag) == DirtyBit(list, tag)
  {
    if n > 0 {
      ResidentCons(list, tag);
      ResidentCons(list[..n], tag);
      assert list[..n][1..] == list[1..][..n - 1];
      if list[0].tag != tag {
        PrefixKeeps(list[1..], n - 1, tag);
      }
    }
  }

  /** An access to another tag leaves a block that stays resident as it was. */
  lemma TouchOther(list: seq<Entry>, ways: nat, u: Use, tag: nat)
    requires ways > 0 && u.tag != tag && Resident(Touch(list, ways, u), tag)
    ensures Resident(list, tag) && DirtyBit(Touch(list, ways, u), tag) == DirtyBit(list, tag)
  {
    var after := Touch(list, ways, u);
    ResidentCons(after, tag);
    if Resident(list, u.tag) {
      assert after[1..] == Drop(list, u.tag);
      DropKeepsOthers(list, u.tag, tag);
    } else if |list| < ways {
      assert after[1..] == list;
    } else {
      assert after[1..] == list[..|list| - 1];
      PrefixKeeps(list, |list| - 1, tag);
    }
  }

  /** Access k wrote the tag, and the tag has been resident after each access from then on. */
  ghost predicate WrittenAt(trace: seq<Use>, ways: nat, tag: nat, k: nat)
    requires ways > 0
  {
    k < |trace| && Resident(Contents(trace, ways), tag)
    && if k == |trace| - 1 then trace[k] == Use(tag, true) else WrittenAt(trace[..|trace| - 1], ways, tag, k)
  }

  ghost predicate Written(trace: seq<Use>, ways: nat, tag: nat)
    requires ways > 0
  {
    exists k :: WrittenAt(trace, ways, tag, k)
  }

  lemma WrittenNext(trace: seq<Use>, ways: nat, tag: nat)
    requires ways > 0 && trace != [] && Resident(Contents(trace, ways), tag)
    ensures Written(trace, ways, tag)
            <==> trace[|trace| - 1] == Use(tag, true) || Written(trace[..|trace| - 1], ways, tag)
  {
    var init, last := trace[..|trace| - 1], |trace| - 1;
    if trace[last] == Use(tag, true) {
      assert WrittenAt(trace, ways, tag, last);
    }
    if k :| WrittenAt(init, ways, tag, k) {
      assert WrittenAt(trace, ways, tag, k);
    }
    if k :| WrittenAt(trace, ways, tag, k) {
      assert k == last || WrittenAt(init, ways, tag, k);
    }
  }

  lemma WrittenIsResident(trace: seq<Use>, ways: nat, tag: nat)
    requires ways > 0 && Written(trace, ways, tag)
    ensures Resident(Contents(trace, ways), tag)
  {
    var k :| WrittenAt(trace, ways, tag, k);
  }

  /** A resident block is dirty exactly if it was written since it was last brought in. */
  lemma {:induction false} DirtyIffWritten(trace: seq<Use>, ways: nat, tag: nat)
    requires ways > 0 && Resident(Contents(trace, ways), tag)
    ensures DirtyBit(Contents(trace, ways), tag) <==> Written(trace, ways, tag)
  {
    var init, u := trace[..|trace| - 1], trace[|trace| - 1];
    var before := Contents(init, ways);
    WrittenNext(trace, ways, tag);
    if u.tag != tag {
      TouchOther(before, ways, u, tag);
    }
    if Resident(before, tag) {
      DirtyIffWritten(init, ways, tag);
    } else if Written(init, ways, tag) {
      WrittenIsResident(init, ways, tag);
    }
  }
}

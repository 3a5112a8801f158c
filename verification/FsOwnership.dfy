/** Who owns each disk block.  Over every sequence of operations a block is in use exactly when it is reserved or
    named by exactly one non-zero block pointer. */
module FsOwnership {
  import opened FsModel

  /** The places that can name a block, whatever the file size. */
  datatype Owner = DirectOf(f: nat, i: nat) | IndirectOf(f: nat) | SlotOf(f: nat, j: nat)

  predicate IsOwner(st: State, o: Owner)
  {
    o.f < |st.files| && (o.DirectOf? ==> o.i < NDIRECT) && (o.SlotOf? ==> o.j < NINDIRECT)
  }

  /** The block the place names, or 0. */
  function Name(st: State, o: Owner): nat
    requires IsOwner(st, o)
  {
    match o
    case DirectOf(f, i) => st.files[f].direct[i]
    case IndirectOf(f) => st.files[f].indirect
    case SlotOf(f, j) => if st.files[f].indirect == 0 then 0 else GetWord(Peek(st, st.files[f].indirect), j)
  }

  ghost predicate Owned(st: State, b: nat)
  {
    exists o :: IsOwner(st, o) && Name(st, o) == b
  }

  ghost predicate Shape(st: State)
  {
    && |st.blocks| == st.nblocks <= MAXBLOCKS
    && 0 in st.reserved
    && (forall b :: b in st.reserved ==> b < st.nblocks && b !in st.free)
    && (forall b :: b in st.free ==> b < st.nblocks)
  }

  /** Every named block exists, is in use, is not reserved, and is named once; every other block in use is reserved. */
  ghost predicate Ownership(st: State)
  {
    && (forall o :: IsOwner(st, o) && Name(st, o) != 0
            ==> Name(st, o) < st.nblocks && Name(st, o) !in st.free && Name(st, o) !in st.reserved)
    && (forall o, p :: IsOwner(st, o) && IsOwner(st, p) && Name(st, o) == Name(st, p) != 0 ==> o == p)
    && (forall b {:trigger Owned(st, b)} :: 0 <= b < st.nblocks && b !in st.free && b !in st.reserved ==> Owned(st, b))
  }

  /** Indirect slots past the end of the file are empty. */
  ghost predicate NothingPastEnd(st: State)
  {
    forall f, j :: 0 <= f < |st.files| && 0 <= j < NINDIRECT && NBlocks(st.files[f].size) <= NDIRECT + j
                   ==> Name(st, SlotOf(f, j)) == 0
  }

  ghost predicate Inv(st: State)
  {
    Shape(st) && Ownership(st) && NothingPastEnd(st)
  }

  /** The invariant in one sentence per block. */
  lemma ExactOwnership(st: State, b: nat)
    requires Inv(st) && b < st.nblocks
    ensures b !in st.free <==> b in st.reserved || Owned(st, b)
    ensures b in st.reserved && b != 0 ==> !Owned(st, b)
    ensures b != 0 ==> forall o, p :: IsOwner(st, o) && IsOwner(st, p) && Name(st, o) == b && Name(st, p) == b
                         ==> o == p
  {
  }

  // ----- the two ways a name can change -----

  ghost predicate SameFrame(st: State, st': State)
  {
    st'.nblocks == st.nblocks && st'.reserved == st.reserved && |st'.files| == |st.files| && |st'.blocks| == |st.blocks|
  }

  /** Only `o` names a different block. */
  ghost predicate OnlyChanges(st: State, st': State, o: Owner)
  {
    SameFrame(st, st') && forall p :: IsOwner(st, p) && p != o ==> Name(st', p) == Name(st, p)
  }

  lemma Claim(st: State, st': State, o: Owner, b: nat)
    requires Shape(st) && Ownership(st)
    requires IsOwner(st, o) && OnlyChanges(st, st', o) && Name(st, o) == 0 && Name(st', o) == b
    requires b in st.free && st'.free == st.free - {b}
    ensures Shape(st') && Ownership(st')
  {
    forall c | 0 <= c < st'.nblocks && c !in st'.free && c !in st'.reserved
      ensures Owned(st', c)
    {
      if c == b {
        assert IsOwner(st', o);
      } else {
        assert Owned(st, c);
        var p :| IsOwner(st, p) && Name(st, p) == c;
        assert IsOwner(st', p) && Name(st', p) == c;
      }
    }
  }

  lemma Release(st: State, st': State, o: Owner)
    requires Shape(st) && Ownership(st)
    requires IsOwner(st, o) && OnlyChanges(st, st', o) && Name(st, o) != 0 && Name(st', o) == 0
    requires st'.free == st.free + {Name(st, o)}
    ensures Shape(st') && Ownership(st')
  {
    forall c | 0 <= c < st'.nblocks && c !in st'.free && c !in st'.reserved
      ensures Owned(st', c)
    {
      assert Owned(st, c);
      var p :| IsOwner(st, p) && Name(st, p) == c;
      assert IsOwner(st', p) && Name(st', p) == c;
    }
  }

  /** Changes that leave every name alone. */
  lemma NamesUnchanged(st: State, st': State)
    requires Shape(st) && Ownership(st)
    requires SameFrame(st, st') && st'.free == st.free
    requires forall p :: IsOwner(st, p) ==> Name(st', p) == Name(st, p)
    ensures Shape(st') && Ownership(st')
  {
    forall c | 0 <= c < st'.nblocks && c !in st'.free && c !in st'.reserved
      ensures Owned(st', c)
    {
      assert Owned(st, c);
      var p :| IsOwner(st, p) && Name(st, p) == c;
      assert IsOwner(st', p) && Name(st', p) == c;
    }
  }

  // ----- the primitive changes -----

  function OwnerOf(f: nat, s: Slot): Owner
  {
    match s case Direct(i) => DirectOf(f, i) case Indirect(j) => SlotOf(f, j)
  }

  /** The slot can be read: an indirect slot needs the indirect block. */
  ghost predicate Reachable(st: State, f: nat, s: Slot)
  {
    f < |st.files| && ValidSlot(s) && (s.Indirect? ==> st.files[f].indirect != 0)
  }

  /** Rewriting a block that is nobody's indirect block leaves all names alone. */
  lemma PokeKeepsNames(st: State, b: nat, data: Block)
    requires forall g :: 0 <= g < |st.files| ==> st.files[g].indirect == 0 || st.files[g].indirect != b
    ensures forall p :: IsOwner(st, p) ==> Name(Poke(st, b, data), p) == Name(st, p)
  {
    forall p | IsOwner(st, p)
      ensures Name(Poke(st, b, data), p) == Name(st, p)
    {
      assert st.files[p.f].indirect == 0 || st.files[p.f].indirect != b;
    }
  }

  lemma SetSlotChangesOne(st: State, f: nat, s: Slot, v: nat)
    requires Shape(st) && Ownership(st) && Reachable(st, f, s) && v < st.nblocks
    ensures OnlyChanges(st, SetSlot(st, f, s, v), OwnerOf(f, s))
    ensures Name(SetSlot(st, f, s, v), OwnerOf(f, s)) == v
  {
    var st' := SetSlot(st, f, s, v);
    if s.Indirect? {
      var b := st.files[f].indirect;
      assert Name(st, IndirectOf(f)) == b;
      forall p | IsOwner(st, p)
        ensures Name(st', p) == if p == SlotOf(f, s.j) then v else Name(st, p)
      {
        assert Name(st, IndirectOf(p.f)) == st.files[p.f].indirect;
        if p.SlotOf? {
          WordRoundTrip(Peek(st, b), s.j, v, p.j);
        }
      }
    }
  }

  /** Ownership stays exact wherever the slot is; and nothing is past the end of a file exactly if this slot is not. */
  lemma ClaimSlot(st: State, f: nat, s: Slot, b: nat)
    requires Inv(st) && Reachable(st, f, s) && SlotValue(st, f, s) == 0 && b in st.free
    ensures var st' := SetSlot(st.(free := st.free - {b}), f, s, b);
            && Shape(st') && Ownership(st')
            && (Inv(st') <==> s.Direct? || NDIRECT + s.j < NBlocks(st.files[f].size))
  {
    var st1 := st.(free := st.free - {b});
    assert forall p :: IsOwner(st, p) ==> Name(st1, p) == Name(st, p);
    var st2 := SetSlot(st1, f, s, b);
    var o := OwnerOf(f, s);
    SetSlotChangesOneFree(st, st.free - {b}, f, s, b);
    Claim(st, st2, o, b);
    if s.Direct? || NDIRECT + s.j < NBlocks(st.files[f].size) {
      SlotWithinFile(st, st2, o);
    } else {
      assert Name(st2, SlotOf(f, s.j)) == b != 0;
    }
  }

  lemma SlotWithinFile(st: State, st2: State, o: Owner)
    requires NothingPastEnd(st) && IsOwner(st, o) && OnlyChanges(st, st2, o)
    requires forall g :: 0 <= g < |st.files| ==> st2.files[g].size == st.files[g].size
    requires o.SlotOf? ==> NDIRECT + o.j < NBlocks(st.files[o.f].size)
    ensures NothingPastEnd(st2)
  {
    forall g, j | 0 <= g < |st2.files| && 0 <= j < NINDIRECT && NBlocks(st2.files[g].size) <= NDIRECT + j
      ensures Name(st2, SlotOf(g, j)) == 0
    {
      assert Name(st, SlotOf(g, j)) == 0;
    }
  }

  /** The free set plays no part in what SetSlot does. */
  lemma SetSlotChangesOneFree(st: State, free: set<nat>, f: nat, s: Slot, v: nat)
    requires Shape(st) && Ownership(st) && Reachable(st, f, s) && v < st.nblocks
    ensures var st' := SetSlot(st.(free := free), f, s, v);
            && OnlyChanges(st, st', OwnerOf(f, s)) && Name(st', OwnerOf(f, s)) == v
            && st'.free == free
  {
    SetSlotChangesOne(st, f, s, v);
    var st' := SetSlot(st.(free := free), f, s, v);
    assert st' == SetSlot(st, f, s, v).(free := free);
    forall p | IsOwner(st, p)
      ensures Name(st', p) == Name(SetSlot(st, f, s, v), p)
    {
    }
  }

  lemma ReleaseSlot(st: State, f: nat, s: Slot)
    requires Inv(st) && Reachable(st, f, s) && SlotValue(st, f, s) != 0
    ensures Inv(SetSlot(Free(st, SlotValue(st, f, s)), f, s, 0))
  {
    var v := SlotValue(st, f, s);
    var o := OwnerOf(f, s);
    assert Name(st, o) == v;
    SetSlotChangesOneFree(st, st.free + {v}, f, s, 0);
    var st2 := SetSlot(Free(st, v), f, s, 0);
    Release(st, st2, o);
    forall g, j | 0 <= g < |st2.files| && 0 <= j < NINDIRECT && NBlocks(st2.files[g].size) <= NDIRECT + j
      ensures Name(st2, SlotOf(g, j)) == 0
    {
      assert Name(st, SlotOf(g, j)) == 0;
    }
  }

  lemma ClaimIndirect(st: State, f: nat, b: nat)
    requires Inv(st) && f < |st.files| && st.files[f].indirect == 0 && b in st.free
    ensures Inv(Poke(SetIndirect(st.(free := st.free - {b}), f, b), b, ZeroBlock()))
    ensures OnlyChanges(st, Poke(SetIndirect(st.(free := st.free - {b}), f, b), b, ZeroBlock()), IndirectOf(f))
  {
    var st2 := Poke(SetIndirect(st.(free := st.free - {b}), f, b), b, ZeroBlock());
    forall p | IsOwner(st, p) && p != IndirectOf(f)
      ensures Name(st2, p) == Name(st, p)
    {
      assert Name(st, IndirectOf(p.f)) == st.files[p.f].indirect;
    }
    Claim(st, st2, IndirectOf(f), b);
    forall g, j | 0 <= g < |st2.files| && 0 <= j < NINDIRECT && NBlocks(st2.files[g].size) <= NDIRECT + j
      ensures Name(st2, SlotOf(g, j)) == 0
    {
      assert Name(st, SlotOf(g, j)) == 0;
    }
  }

  lemma ReleaseIndirect(st: State, f: nat)
    requires Inv(st) && f < |st.files| && st.files[f].indirect != 0
    requires forall j :: 0 <= j < NINDIRECT ==> Name(st, SlotOf(f, j)) == 0
    ensures Inv(SetIndirect(Free(st, st.files[f].indirect), f, 0))
  {
    var st2 := SetIndirect(Free(st, st.files[f].indirect), f, 0);
    assert Name(st, IndirectOf(f)) == st.files[f].indirect;
    forall p | IsOwner(st, p) && p != IndirectOf(f)
      ensures Name(st2, p) == Name(st, p)
    {
      if p.SlotOf? && p.f == f {
        assert Name(st, SlotOf(f, p.j)) == 0;
      }
    }
    Release(st, st2, IndirectOf(f));
    forall g, j | 0 <= g < |st2.files| && 0 <= j < NINDIRECT && NBlocks(st2.files[g].size) <= NDIRECT + j
      ensures Name(st2, SlotOf(g, j)) == 0
    {
      assert Name(st, SlotOf(g, j)) == 0;
    }
  }
}

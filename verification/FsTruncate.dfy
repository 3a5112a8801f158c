/** file_free_block, file_truncate_blocks and file_set_size. */
module FsTruncate {
  import opened FsModel
  import opened FsOwnership
  import opened FsData

  /** Can file_block_walk reach block c of f without allocating?  Only block 0 when there is no indirect block. */
  predicate Walkable(st: State, f: nat, c: nat)
    requires f < |st.files|
  {
    c == 0 || st.files[f].indirect != 0
  }

  /** Blocks [lo, hi) of f that can be walked to are gone; every other block of every file is as before. */
  ghost predicate Clears(st: State, st': State, f: nat, lo: nat, hi: nat)
  {
    && SameFrame(st, st') && f < |st.files|
    && (forall g :: 0 <= g < |st.files| && g != f ==> st'.files[g] == st.files[g])
    && st'.files[f].size == st.files[f].size && st'.files[f].indirect == st.files[f].indirect
    && (forall g, c :: 0 <= g < |st.files| && 0 <= c
            ==> Lookup(st', g, c) == if g == f && lo <= c < hi && Walkable(st, f, c) then 0 else Lookup(st, g, c))
    && (forall g, c :: 0 <= g < |st.files| && 0 <= c && Lookup(st', g, c) != 0
            ==> Peek(st', Lookup(st, g, c)) == Peek(st, Lookup(st, g, c)))
  }

  lemma ReleaseSlotClears(st: State, f: nat, bno: nat) returns (st': State)
    requires Inv(st) && f < |st.files| && bno < NDIRECT + NINDIRECT
    requires Reachable(st, f, SlotFor(bno)) && Walkable(st, f, bno) && Lookup(st, f, bno) != 0
    ensures st' == SetSlot(Free(st, Lookup(st, f, bno)), f, SlotFor(bno), 0)
    ensures Inv(st') && Clears(st, st', f, bno, bno + 1)
  {
    var s := SlotFor(bno);
    st' := SetSlot(Free(st, Lookup(st, f, bno)), f, s, 0);
    assert SlotValue(st, f, s) == Lookup(st, f, bno);
    ReleaseSlot(st, f, s);
    SetSlotChangesOneFree(st, st.free + {Lookup(st, f, bno)}, f, s, 0);
    forall g, c | 0 <= g < |st.files| && 0 <= c && !(g == f && c == bno)
      ensures Lookup(st', g, c) == Lookup(st, g, c)
      ensures Lookup(st', g, c) != 0 ==> Peek(st', Lookup(st, g, c)) == Peek(st, Lookup(st, g, c))
    {
      if c < NDIRECT + NINDIRECT {
        assert OwnerOf(g, SlotFor(c)) != OwnerOf(f, s);
        if Lookup(st, g, c) != 0 {
          DataBlockIsApart(st, g, c);
        }
      }
    }
  }

  lemma ClearsNothing(st: State, f: nat, bno: nat)
    requires f < |st.files| && (Lookup(st, f, bno) == 0 || !Walkable(st, f, bno))
    ensures Clears(st, st, f, bno, bno + 1)
  {
  }

  lemma ClearsOne(st: State, f: nat, bno: nat) returns (st': State)
    requires Inv(st) && f < |st.files|
    ensures st' == FreeFileBlock(st, f, bno)
    ensures Inv(st') && Clears(st, st', f, bno, bno + 1)
  {
    if bno < NDIRECT + NINDIRECT && Walkable(st, f, bno) && Lookup(st, f, bno) != 0 {
      assert SlotValue(st, f, SlotFor(bno)) == Lookup(st, f, bno);
      st' := ReleaseSlotClears(st, f, bno);
    } else {
      st' := st;
      ClearsNothing(st, f, bno);
    }
  }

  lemma ClearsTransitive(a: State, b: State, c: State, f: nat, lo: nat, mid: nat, hi: nat)
    requires Clears(a, b, f, lo, mid) && Clears(b, c, f, mid, hi) && lo <= mid <= hi
    ensures Clears(a, c, f, lo, hi)
  {
    forall g, n | 0 <= g < |a.files| && 0 <= n
      ensures Lookup(c, g, n) == if g == f && lo <= n < hi && Walkable(a, f, n) then 0 else Lookup(a, g, n)
      ensures Lookup(c, g, n) != 0 ==> Peek(c, Lookup(a, g, n)) == Peek(a, Lookup(a, g, n))
    {
      assert Lookup(b, g, n) == if g == f && lo <= n < mid && Walkable(a, f, n) then 0 else Lookup(a, g, n);
    }
  }

  lemma {:induction false} ClearsRange(st: State, f: nat, bno: nat, end: nat) returns (st': State)
    requires Inv(st) && f < |st.files| && bno <= end
    ensures st' == FreeRange(st, f, bno, end)
    ensures Inv(st') && Clears(st, st', f, bno, end)
    decreases end - bno
  {
    if bno == end {
      st' := st;
    } else {
      var st1 := ClearsOne(st, f, bno);
      st' := ClearsRange(st1, f, bno + 1, end);
      ClearsTransitive(st, st1, st', f, bno, bno + 1, end);
    }
  }

  /** The exact effect of shrinking on the block map: what lies past the new end is cleared where it can be walked
      to, and otherwise left in place. */
  ghost predicate Shrunk(st: State, st': State, f: nat, newsize: nat)
  {
    && SameFrame(st, st') && f < |st.files|
    && (forall g :: 0 <= g < |st.files| && g != f ==> st'.files[g] == st.files[g])
    && (forall g, c :: 0 <= g < |st.files| && 0 <= c
            ==> Lookup(st', g, c)
                == if g == f && NBlocks(newsize) <= c < NBlocks(st.files[f].size) && Walkable(st, f, c) then 0
                   else Lookup(st, g, c))
    && (forall g, c :: 0 <= g < |st.files| && 0 <= c && Lookup(st', g, c) != 0
            ==> Peek(st', Lookup(st, g, c)) == Peek(st, Lookup(st, g, c)))
  }

  lemma SizeOrder(a: nat, b: nat)
    requires a <= b
    ensures NBlocks(a) <= NBlocks(b)
  {
  }

  /** With at most NDIRECT blocks left, the truncation loop has emptied the whole indirect block. */
  lemma IndirectEmptied(st: State, st1: State, f: nat, newsize: nat)
    requires Inv(st) && f < |st.files| && st.files[f].indirect != 0
    requires Clears(st, st1, f, NBlocks(newsize), NBlocks(st.files[f].size)) && NBlocks(newsize) <= NDIRECT
    ensures forall j :: 0 <= j < NINDIRECT ==> Name(st1, SlotOf(f, j)) == 0
  {
    forall j | 0 <= j < NINDIRECT
      ensures Name(st1, SlotOf(f, j)) == 0
    {
      assert Lookup(st1, f, NDIRECT + j) == Name(st1, SlotOf(f, j));
      assert Lookup(st, f, NDIRECT + j) == Name(st, SlotOf(f, j));
    }
  }

  lemma TruncateCorrect(st: State, f: nat, newsize: nat) returns (st': State)
    requires Inv(st) && f < |st.files| && newsize < st.files[f].size
    ensures st' == Truncate(st, f, newsize)
    ensures Inv(st') && Shrunk(st, st', f, newsize) && st'.files[f].size == st.files[f].size
    ensures st'.files[f].indirect == if NBlocks(newsize) <= NDIRECT then 0 else st.files[f].indirect
  {
    SizeOrder(newsize, st.files[f].size);
    var st1 := ClearsRange(st, f, NBlocks(newsize), NBlocks(st.files[f].size));
    st' := Truncate(st, f, newsize);
    if NBlocks(newsize) <= NDIRECT && st.files[f].indirect != 0 {
      IndirectEmptied(st, st1, f, newsize);
      ReleaseIndirect(st1, f);
      DropIndirect(st1, st', f);
      forall g, c | 0 <= g < |st.files| && 0 <= c && Lookup(st', g, c) != 0
        ensures Peek(st', Lookup(st, g, c)) == Peek(st, Lookup(st, g, c))
      {
        assert Lookup(st1, g, c) == Lookup(st', g, c);
      }
    }
  }

  lemma DropIndirect(st: State, st': State, f: nat)
    requires f < |st.files| && st.files[f].indirect != 0
    requires st' == SetIndirect(Free(st, st.files[f].indirect), f, 0)
    requires forall j :: 0 <= j < NINDIRECT ==> Name(st, SlotOf(f, j)) == 0
    ensures forall g, c :: 0 <= g < |st.files| && 0 <= c ==> Lookup(st', g, c) == Lookup(st, g, c)
  {
    forall g, c | 0 <= g < |st.files| && 0 <= c
      ensures Lookup(st', g, c) == Lookup(st, g, c)
    {
      if g == f && NDIRECT <= c < NDIRECT + NINDIRECT {
        assert Name(st, SlotOf(f, c - NDIRECT)) == 0;
      }
    }
  }

  // ----- file_set_size -----

  lemma ResizeOnly(st: State, f: nat, newsize: nat)
    requires Inv(st) && f < |st.files|
    requires forall c :: NBlocks(newsize) <= c && NDIRECT <= c ==> Lookup(st, f, c) == 0
    ensures var st' := st.(files := st.files[f := st.files[f].(size := newsize)]);
            Inv(st') && (forall g, c :: 0 <= g < |st.files| && 0 <= c ==> Lookup(st', g, c) == Lookup(st, g, c))
  {
    var st' := st.(files := st.files[f := st.files[f].(size := newsize)]);
    assert forall p :: IsOwner(st, p) ==> Name(st', p) == Name(st, p);
    NamesUnchanged(st, st');
    forall g, j | 0 <= g < |st'.files| && 0 <= j < NINDIRECT && NBlocks(st'.files[g].size) <= NDIRECT + j
      ensures Name(st', SlotOf(g, j)) == 0
    {
      assert Name(st, SlotOf(g, j)) == Lookup(st, g, NDIRECT + j);
    }
    forall g, c | 0 <= g < |st.files| && 0 <= c
      ensures Lookup(st', g, c) == Lookup(st, g, c)
    {
    }
  }

  /** Growing changes the size and nothing else. */
  lemma GrowCorrect(st: State, f: nat, newsize: nat) returns (st': State)
    requires Inv(st) && f < |st.files| && st.files[f].size <= newsize
    ensures st' == SetSize(st, f, newsize)
    ensures st' == st.(files := st.files[f := st.files[f].(size := newsize)])
    ensures Inv(st') && st'.files[f].size == newsize
    ensures forall g, c :: 0 <= g < |st.files| && 0 <= c ==> Lookup(st', g, c) == Lookup(st, g, c)
  {
    st' := SetSize(st, f, newsize);
    SizeOrder(st.files[f].size, newsize);
    forall c | NBlocks(newsize) <= c && NDIRECT <= c
      ensures Lookup(st, f, c) == 0
    {
      if c < NDIRECT + NINDIRECT {
        assert Name(st, SlotOf(f, c - NDIRECT)) == 0;
      }
    }
    ResizeOnly(st, f, newsize);
  }

  lemma ShrinkCorrect(st: State, f: nat, newsize: nat) returns (st': State)
    requires Inv(st) && f < |st.files| && newsize < st.files[f].size
    ensures st' == SetSize(st, f, newsize)
    ensures Inv(st') && Shrunk(st, st', f, newsize) && st'.files[f].size == newsize
    ensures st'.files[f].indirect == if NBlocks(newsize) <= NDIRECT then 0 else st.files[f].indirect
  {
    var st1 := TruncateCorrect(st, f, newsize);
    st' := SetSize(st, f, newsize);
    forall c | NBlocks(newsize) <= c && NDIRECT <= c
      ensures Lookup(st1, f, c) == 0
    {
      if c < NDIRECT + NINDIRECT {
        assert Name(st, SlotOf(f, c - NDIRECT)) == Lookup(st, f, c);
      }
    }
    ResizeOnly(st1, f, newsize);
    forall g, c | 0 <= g < |st.files| && 0 <= c
      ensures Lookup(st', g, c) == Lookup(st1, g, c)
      ensures Lookup(st', g, c) != 0 ==> Peek(st', Lookup(st, g, c)) == Peek(st, Lookup(st, g, c))
    {
    }
  }

  /** The comment above file_truncate_blocks promises that every block from the new end on is cleared.  Exactly
      these are not: blocks 1 to 9 that were allocated while the file has no indirect block. */
  lemma TruncationClearsIff(st: State, f: nat, newsize: nat, c: nat)
    requires Inv(st) && f < |st.files| && newsize < st.files[f].size
    requires NBlocks(newsize) <= c < NBlocks(st.files[f].size)
    ensures Lookup(SetSize(st, f, newsize), f, c) == 0 <==> Walkable(st, f, c) || Lookup(st, f, c) == 0
  {
    var st' := ShrinkCorrect(st, f, newsize);
  }
}

/** What the file operations do to ownership and to the bytes of files. */
module FsData {
  import opened Basics
  import opened FsModel
  import opened FsOwnership

  /** The block that holds block `bno` of file f, or 0. */
  function Lookup(st: State, f: nat, bno: nat): nat
    requires f < |st.files|
  {
    if bno < NDIRECT + NINDIRECT then Name(st, OwnerOf(f, SlotFor(bno))) else 0
  }

  /** Byte p of file f, if a block is allocated for it. */
  function ByteAt(st: State, f: nat, p: nat): Option<Byte>
    requires f < |st.files|
  {
    var b := Lookup(st, f, p / BLKSIZE);
    if b == 0 then None else Some(Peek(st, b)[p % BLKSIZE])
  }

  /** From st to st' blocks were only added, and only to file f; nothing that was there moved or changed. */
  ghost predicate Extends(st: State, st': State, f: nat)
  {
    && SameFrame(st, st') && f < |st.files|
    && (forall g :: 0 <= g < |st.files| ==> st'.files[g].size == st.files[g].size)
    && (forall g :: 0 <= g < |st.files| && g != f ==> st'.files[g] == st.files[g])
    && (st.files[f].indirect != 0 ==> st'.files[f].indirect == st.files[f].indirect)
    && (forall g, c :: 0 <= g < |st.files| && 0 <= c && (g != f || Lookup(st, g, c) != 0)
            ==> Lookup(st', g, c) == Lookup(st, g, c))
    && (forall g, c :: 0 <= g < |st.files| && 0 <= c && Lookup(st, g, c) != 0
            ==> Peek(st', Lookup(st, g, c)) == Peek(st, Lookup(st, g, c)))
  }

  lemma ExtendsTransitive(a: State, b: State, c: State, f: nat)
    requires Extends(a, b, f) && Extends(b, c, f)
    ensures Extends(a, c, f)
  {
    forall g, n | 0 <= g < |a.files| && 0 <= n && (g != f || Lookup(a, g, n) != 0)
      ensures Lookup(c, g, n) == Lookup(a, g, n)
    {
      assert Lookup(b, g, n) == Lookup(a, g, n);
    }
    forall g, n | 0 <= g < |a.files| && 0 <= n && Lookup(a, g, n) != 0
      ensures Peek(c, Lookup(a, g, n)) == Peek(a, Lookup(a, g, n))
    {
      assert Lookup(b, g, n) == Lookup(a, g, n);
    }
  }

  /** A data block is nobody's indirect block and is not free. */
  lemma DataBlockIsApart(st: State, f: nat, bno: nat)
    requires Shape(st) && Ownership(st) && f < |st.files| && Lookup(st, f, bno) != 0
    ensures Lookup(st, f, bno) !in st.free && Lookup(st, f, bno) < |st.blocks|
    ensures forall g :: 0 <= g < |st.files| ==> st.files[g].indirect != Lookup(st, f, bno)
  {
    var o := OwnerOf(f, SlotFor(bno));
    assert IsOwner(st, o);
    forall g | 0 <= g < |st.files|
      ensures st.files[g].indirect != Lookup(st, f, bno)
    {
      assert IsOwner(st, IndirectOf(g)) && Name(st, IndirectOf(g)) == st.files[g].indirect;
    }
  }

  // ----- file_block_walk and file_get_block -----

  lemma FirstFreeFinds(free: set<nat>, n: nat)
    requires forall b :: b in free ==> b < n
    ensures FirstFree(free, 0, n) == n <==> free == {}
  {
    if free != {} {
      var b :| b in free;
    }
  }

  /** The indirect block is claimed for f before anything else is looked at. */
  lemma WalkAllocates(st: State, f: nat, bno: nat)
    requires Inv(st) && f < |st.files|
    ensures var w := Walk(st, f, bno, true);
            && Inv(w.st) && Extends(st, w.st, f)
            && (w.r == Err(Inval) <==> bno >= NDIRECT + NINDIRECT)
            && (w.r == Err(NoDisk) <==> bno < NDIRECT + NINDIRECT && NeedsIndirect(st, f, bno) && st.free == {})
            && (w.r.Err? ==> w.st == st)
            && (w.r.Ok? ==> (bno > 0 ==> w.st.files[f].indirect != 0) && Lookup(w.st, f, bno) == Lookup(st, f, bno))
            && (w.r.Ok? ==> |w.st.free| == |st.free| - if NeedsIndirect(st, f, bno) then 1 else 0)
  {
    FirstFreeFinds(st.free, st.nblocks);
    if bno < NDIRECT + NINDIRECT && NeedsIndirect(st, f, bno) && st.free != {} {
      var b := FirstFree(st.free, 0, st.nblocks);
      ClaimIndirect(st, f, b);
      var st' := Walk(st, f, bno, true).st;
      forall g, c | 0 <= g < |st.files| && 0 <= c
        ensures Lookup(st', g, c) == Lookup(st, g, c)
      {
        if c < NDIRECT + NINDIRECT {
          assert Name(st', OwnerOf(g, SlotFor(c))) == Name(st, OwnerOf(g, SlotFor(c)));
        }
      }
      forall g, c | 0 <= g < |st.files| && 0 <= c && Lookup(st, g, c) != 0
        ensures Peek(st', Lookup(st, g, c)) == Peek(st, Lookup(st, g, c))
      {
        DataBlockIsApart(st, g, c);
      }
    }
  }

  lemma ClaimSlotExtends(st: State, f: nat, bno: nat, b: nat)
    requires Inv(st) && f < |st.files| && bno < NDIRECT + NINDIRECT
    requires Reachable(st, f, SlotFor(bno)) && Lookup(st, f, bno) == 0 && b in st.free
    ensures var st' := SetSlot(st.(free := st.free - {b}), f, SlotFor(bno), b);
            && Shape(st') && Ownership(st') && (Inv(st') <==> bno < NDIRECT || bno < NBlocks(st.files[f].size))
            && Extends(st, st', f) && Lookup(st', f, bno) == b && st'.free == st.free - {b}
            && st'.files[f].indirect == st.files[f].indirect
            && forall c :: 0 <= c != bno ==> Lookup(st', f, c) == Lookup(st, f, c)
  {
    var s := SlotFor(bno);
    ClaimSlot(st, f, s, b);
    SetSlotChangesOneFree(st, st.free - {b}, f, s, b);
    var st' := SetSlot(st.(free := st.free - {b}), f, s, b);
    forall g, c | 0 <= g < |st.files| && 0 <= c && !(g == f && c == bno)
      ensures Lookup(st', g, c) == Lookup(st, g, c)
    {
      if c < NDIRECT + NINDIRECT {
        assert OwnerOf(g, SlotFor(c)) != OwnerOf(f, s);
      }
    }
    forall g, c | 0 <= g < |st.files| && 0 <= c && Lookup(st, g, c) != 0
      ensures Peek(st', Lookup(st, g, c)) == Peek(st, Lookup(st, g, c))
    {
      DataBlockIsApart(st, g, c);
    }
  }

  /** How many blocks an access to block `bno` of f must allocate. */
  function Need(st: State, f: nat, bno: nat): nat
    requires f < |st.files|
  {
    (if NeedsIndirect(st, f, bno) then 1 else 0) + (if Lookup(st, f, bno) == 0 then 1 else 0)
  }

  /** file_get_block succeeds exactly when the block number is in range and enough blocks are free; even when it
      fails it only ever adds blocks.  Ownership stays exact for every block number; an indirect slot past the end of
      the file is filled exactly if that is where the block is. */
  lemma GetBlockAllocates(st: State, f: nat, bno: nat)
    requires Inv(st) && f < |st.files|
    ensures var g := GetBlock(st, f, bno);
            && Shape(g.st) && Ownership(g.st) && Extends(st, g.st, f)
            && (Inv(g.st) <==> g.r.Err? || bno < NDIRECT || bno < NBlocks(st.files[f].size))
            && (g.r == Err(Inval) <==> bno >= NDIRECT + NINDIRECT)
            && (g.r.Ok? <==> bno < NDIRECT + NINDIRECT && Need(st, f, bno) <= |st.free|)
            && (g.r.Ok? ==> |g.st.free| == |st.free| - Need(st, f, bno))
            && (g.r.Ok? ==> g.r.value == Lookup(g.st, f, bno) != 0 && (bno > 0 ==> g.st.files[f].indirect != 0))
            && (g.r.Ok? ==> forall c :: 0 <= c != bno ==> Lookup(g.st, f, c) == Lookup(st, f, c))
            && (g.r.Ok? && bno == 0 ==> g.st.files[f].indirect == st.files[f].indirect)
  {
    WalkAllocates(st, f, bno);
    var w, g := GetBlockCases(st, f, bno);
    if w.r.Ok? {
      WalkKeepsLookups(st, f, bno);
      if Lookup(w.st, f, bno) == 0 && w.st.free != {} {
        ClaimSlotExtends(w.st, f, bno, FirstFree(w.st.free, 0, w.st.nblocks));
        ExtendsTransitive(st, w.st, g.st, f);
      }
    }
  }

  /** Which way file_get_block goes after the walk. */
  lemma GetBlockCases(st: State, f: nat, bno: nat) returns (w: Step<Slot>, g: Step<nat>)
    requires Inv(st) && f < |st.files|
    ensures w == Walk(st, f, bno, true) && g == GetBlock(st, f, bno)
    ensures w.r.Err? ==> g == Step(Err(w.r.error), w.st)
    ensures w.r.Ok? ==> Reachable(w.st, f, SlotFor(bno))
    ensures w.r.Ok? && Lookup(w.st, f, bno) != 0 ==> g == Step(Ok(Lookup(w.st, f, bno)), w.st)
    ensures w.r.Ok? && Lookup(w.st, f, bno) == 0 && w.st.free == {} ==> g == Step(Err(NoDisk), w.st)
    ensures w.r.Ok? && Lookup(w.st, f, bno) == 0 && w.st.free != {}
            ==> var b := FirstFree(w.st.free, 0, w.st.nblocks);
                b in w.st.free && g == Step(Ok(b), SetSlot(w.st.(free := w.st.free - {b}), f, SlotFor(bno), b))
  {
    WalkAllocates(st, f, bno);
    w, g := Walk(st, f, bno, true), GetBlock(st, f, bno);
    if w.r.Ok? {
      assert SlotValue(w.st, f, SlotFor(bno)) == Lookup(w.st, f, bno);
      FirstFreeFinds(w.st.free, w.st.nblocks);
    }
  }

  lemma WalkKeepsLookups(st: State, f: nat, bno: nat)
    requires Inv(st) && f < |st.files| && Walk(st, f, bno, true).r.Ok?
    ensures forall c :: 0 <= c ==> Lookup(Walk(st, f, bno, true).st, f, c) == Lookup(st, f, c)
    ensures bno == 0 ==> Walk(st, f, bno, true).st == st
  {
    WalkAllocates(st, f, bno);
    var st' := Walk(st, f, bno, true).st;
    forall c | 0 <= c
      ensures Lookup(st', f, c) == Lookup(st, f, c)
    {
      if NeedsIndirect(st, f, bno) && c < NDIRECT + NINDIRECT {
        ClaimIndirect(st, f, FirstFree(st.free, 0, st.nblocks));
        assert Name(st', OwnerOf(f, SlotFor(c))) == Name(st, OwnerOf(f, SlotFor(c)));
      }
    }
  }
}

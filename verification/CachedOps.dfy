/** Each function of fs.c over the cached disk returns what it returns on values, and leaves the disk holding the state
    it leaves there. */
module CachedOps {
  import opened FsModel
  import opened FsOwnership
  import opened FsData
  import opened FsTransfer
  import opened FsTruncate
  import opened CachedState
  import C = CacheModel
  import K = CachedFs

  // ----- block pointers -----

  /** The slot lies in the file's record, or in an indirect block that is in use. */
  predicate SlotInUse(st: State, f: nat, s: Slot)
  {
    f < |st.files| && ValidSlot(s) && (s.Indirect? ==> InUse(st, st.files[f].indirect))
  }

  lemma LoadWordShows(m: K.Mem, st: State, f: nat, j: nat) returns (m': K.Mem)
    requires Backs(m, st) && SlotInUse(st, f, Indirect(j))
    ensures K.LoadWord(m, f, j) == (GetWord(Peek(st, st.files[f].indirect), j), m') && Backs(m', st)
  {
    var m1 := FieldShows(m, st, f, K.INDIRECT);
    m' := LoadShows(m1, st, st.files[f].indirect);
  }

  lemma LoadSlotShows(m: K.Mem, st: State, f: nat, s: Slot) returns (m': K.Mem)
    requires Backs(m, st) && SlotInUse(st, f, s)
    ensures K.LoadSlot(m, f, s) == (SlotValue(st, f, s), m') && Backs(m', st)
  {
    match s
    case Direct(i) => m' := FieldShows(m, st, f, K.DIRECT + i);
    case Indirect(j) => m' := LoadWordShows(m, st, f, j);
  }

  lemma StoreWordShows(m: K.Mem, st: State, f: nat, j: nat, v: nat)
    requires Backs(m, st) && SlotInUse(st, f, Indirect(j))
    ensures var b := st.files[f].indirect; Backs(K.StoreWord(m, f, j, v), Poke(st, b, PutWord(Peek(st, b), j, v)))
  {
    var b := st.files[f].indirect;
    var m1 := FieldShows(m, st, f, K.INDIRECT);
    var m2 := LoadShows(m1, st, b);
    SaveShows(m2, st, b, PutWord(Peek(st, b), j, v));
  }

  lemma StoreSlotShows(m: K.Mem, st: State, f: nat, s: Slot, v: nat)
    requires Backs(m, st) && SlotInUse(st, f, s) && v < WORD
    ensures Backs(K.StoreSlot(m, f, s, v), SetSlot(st, f, s, v))
  {
    match s
    case Direct(i) => SetFieldShows(m, st, f, K.DIRECT + i, v);
    case Indirect(j) => StoreWordShows(m, st, f, j, v);
  }

  /** The state with a new indirect block, b. */
  function Claimed(st: State, f: nat, b: nat): State
    requires f < |st.files|
  {
    Poke(SetIndirect(st, f, b), b, ZeroBlock())
  }

  lemma WalkClaims(st: State, f: nat, bno: nat, a: Step<nat>)
    requires f < |st.files| && bno < NDIRECT + NINDIRECT && NeedsIndirect(st, f, bno) && a == Alloc(st)
    ensures Walk(st, f, bno, true)
            == if a.r.Err? then Step(Err(a.r.error), a.st) else Step(Ok(SlotFor(bno)), Claimed(a.st, f, a.r.value))
  {
  }

  lemma ClaimShows(m: K.Mem, st: State, f: nat, b: nat)
    requires Backs(m, st) && f < |st.files| && InUse(st, b) && st.nblocks <= MAXBLOCKS
    ensures Backs(K.Save(K.SetField(m, f, K.INDIRECT, b), b, ZeroBlock()), Claimed(st, f, b))
  {
    SetFieldShows(m, st, f, K.INDIRECT, b);
    SaveShows(K.SetField(m, f, K.INDIRECT, b), SetIndirect(st, f, b), b, ZeroBlock());
  }

  lemma NewIndirectShows(m: K.Mem, st: State, f: nat, bno: nat)
    requires Backs(m, st) && Inv(st) && f < |st.files| && bno < NDIRECT + NINDIRECT && NeedsIndirect(st, f, bno)
    ensures Same(K.NewIndirect(m, f, bno), Walk(st, f, bno, true))
  {
    AllocShows(m, st);
    var a := Alloc(st);
    WalkClaims(st, f, bno, a);
    if a.r.Ok? {
      ClaimShows(K.Alloc(m).m, a.st, f, a.r.value);
    }
  }

  lemma WalkShows(m: K.Mem, st: State, f: nat, bno: nat, alloc: bool)
    requires Backs(m, st) && Inv(st) && f < |st.files|
    ensures Same(K.Walk(m, f, bno, alloc), Walk(st, f, bno, alloc))
  {
    if NDIRECT / BLKSIZE < bno < NDIRECT + NINDIRECT {
      var m1 := FieldShows(m, st, f, K.INDIRECT);
      if st.files[f].indirect == 0 && alloc {
        NewIndirectShows(m1, st, f, bno);
      }
    }
  }

  lemma WalkedSlotInUse(st: State, f: nat, bno: nat)
    requires Ownership(st) && f < |st.files| && bno < NDIRECT + NINDIRECT && (bno > 0 ==> st.files[f].indirect != 0)
    ensures SlotInUse(st, f, SlotFor(bno))
  {
    if bno >= NDIRECT {
      NamedInUse(st, IndirectOf(f));
    }
  }

  lemma FillShows(m: K.Mem, st: State, f: nat, s: Slot)
    requires Backs(m, st) && Shape(st) && SlotInUse(st, f, s)
    ensures var a := Alloc(st);
            Same(K.Fill(m, f, s), if a.r.Err? then a else Step(a.r, SetSlot(a.st, f, s, a.r.value)))
  {
    AllocShows(m, st);
    var a := Alloc(st);
    if a.r.Ok? {
      StoreSlotShows(K.Alloc(m).m, a.st, f, s, a.r.value);
    }
  }

  lemma GetBlockShows(m: K.Mem, st: State, f: nat, bno: nat)
    requires Backs(m, st) && Inv(st) && f < |st.files|
    ensures Same(K.GetBlock(m, f, bno), GetBlock(st, f, bno))
  {
    WalkShows(m, st, f, bno, true);
    WalkAllocates(st, f, bno);
    var w := Walk(st, f, bno, true);
    if w.r.Ok? {
      WalkedSlotInUse(w.st, f, bno);
      var m1 := LoadSlotShows(K.Walk(m, f, bno, true).m, w.st, f, SlotFor(bno));
      if SlotValue(w.st, f, SlotFor(bno)) == 0 {
        FillShows(m1, w.st, f, SlotFor(bno));
      }
    }
  }

  /** The block that file_get_block gives is in use. */
  lemma GotInUse(st: State, f: nat, bno: nat)
    requires Inv(st) && f < |st.files| && GetBlock(st, f, bno).r.Ok?
    ensures InUse(GetBlock(st, f, bno).st, GetBlock(st, f, bno).r.value)
  {
    GetBlockAllocates(st, f, bno);
    NamedInUse(GetBlock(st, f, bno).st, OwnerOf(f, SlotFor(bno)));
  }

  // ----- file_read and file_write -----

  lemma ReadOneShows(m: K.Mem, st: State, f: nat, pos: nat, end: nat)
    requires Backs(m, st) && Inv(st) && f < |st.files| && pos < end
    ensures Same(K.ReadOne(m, f, pos, end), ReadOne(st, f, pos, end))
  {
    GetBlockShows(m, st, f, pos / BLKSIZE);
    var g := GetBlock(st, f, pos / BLKSIZE);
    if g.r.Ok? {
      GotInUse(st, f, pos / BLKSIZE);
      var m' := LoadShows(K.GetBlock(m, f, pos / BLKSIZE).m, g.st, g.r.value);
    }
  }

  lemma JoinedShows(d: K.Done<seq<Byte>>, s: Step<seq<Byte>>, first: seq<Byte>)
    requires Same(d, s)
    ensures Same(K.Joined(first, d), Joined(first, s))
  {
  }

  lemma UnfoldCachedRead(m: K.Mem, f: nat, pos: nat, next: nat, end: nat)
    requires pos < end && next == K.Next(pos, end)
    ensures var one := K.ReadOne(m, f, pos, end);
            K.ReadFrom(m, f, pos, end)
            == if one.r.Err? then one else K.Joined(one.r.value, K.ReadFrom(one.m, f, next, end))
  {
  }

  lemma {:induction false} ReadFromShows(m: K.Mem, st: State, f: nat, pos: nat, end: nat)
    requires Backs(m, st) && Inv(st) && f < |st.files| && end <= st.files[f].size
    ensures Same(K.ReadFrom(m, f, pos, end), ReadFrom(st, f, pos, end))
    decreases end - pos
  {
    if pos < end {
      var next := K.Next(pos, end);
      ReadOneShows(m, st, f, pos, end);
      UnfoldRead(st, f, pos, next, end);
      UnfoldCachedRead(m, f, pos, next, end);
      if GetBlock(st, f, pos / BLKSIZE).r.Ok? {
        var st1, chunk := ReadChunk(st, f, pos, end, next);
        var m1 := K.ReadOne(m, f, pos, end).m;
        ReadFromShows(m1, st1, f, next, end);
        JoinedShows(K.ReadFrom(m1, f, next, end), ReadFrom(st1, f, next, end), chunk);
      }
    }
  }

  lemma ReadShows(m: K.Mem, st: State, f: nat, count: nat, off: nat)
    requires Backs(m, st) && Inv(st) && f < |st.files|
    ensures Same(K.Read(m, f, count, off), Read(st, f, count, off))
  {
    var m1 := FieldShows(m, st, f, K.SIZE);
    if off < st.files[f].size {
      ReadFromShows(m1, st, f, off, ReadEnd(st.files[f].size, count, off));
    }
  }

  lemma WriteOneShows(m: K.Mem, st: State, f: nat, pos: nat, bytes: seq<Byte>)
    requires Backs(m, st) && Inv(st) && f < |st.files| && pos % BLKSIZE + |bytes| <= BLKSIZE
    ensures Same(K.WriteOne(m, f, pos, bytes), WriteOne(st, f, pos, bytes))
  {
    GetBlockShows(m, st, f, pos / BLKSIZE);
    var g := GetBlock(st, f, pos / BLKSIZE);
    if g.r.Ok? {
      GotInUse(st, f, pos / BLKSIZE);
      var m1 := LoadShows(K.GetBlock(m, f, pos / BLKSIZE).m, g.st, g.r.value);
      SaveShows(m1, g.st, g.r.value, Splice(Peek(g.st, g.r.value), pos % BLKSIZE, bytes));
    }
  }

  lemma UnfoldCachedWrite(m: K.Mem, f: nat, pos: nat, next: nat, end: nat, buf: seq<Byte>)
    requires pos < end == pos + |buf| && next == K.Next(pos, end)
    ensures var one := K.WriteOne(m, f, pos, K.Front(pos, end, buf));
            K.WriteFrom(m, f, pos, end, buf)
            == if one.r.Err? then one else K.WriteFrom(one.m, f, next, end, K.Back(pos, end, buf))
  {
  }

  lemma UnfoldPlainWrite(st: State, f: nat, pos: nat, next: nat, end: nat, buf: seq<Byte>, front: seq<Byte>,
      back: seq<Byte>)
    requires f < |st.files| && pos < end == pos + |buf| && next == pos + Chunk(pos, end)
    requires front == buf[..next - pos] && back == buf[next - pos..]
    ensures var one := WriteOne(st, f, pos, front);
            WriteFrom(st, f, pos, buf) == if one.r.Err? then one else WriteFrom(one.st, f, next, back)
  {
    UnfoldWrite(st, f, pos, end, next, buf);
  }

  /** Both loops begin with the same round. */
  lemma UnfoldWrites(m: K.Mem, st: State, f: nat, pos: nat, end: nat, buf: seq<Byte>)
      returns (next: nat, front: seq<Byte>, back: seq<Byte>, d: K.Done<()>, s: Step<()>)
    requires f < |st.files| && pos < end == pos + |buf|
    ensures next == pos + Chunk(pos, end) == pos + |front| && end == next + |back|
    ensures pos % BLKSIZE + |front| <= BLKSIZE
    ensures d == K.WriteOne(m, f, pos, front) && s == WriteOne(st, f, pos, front)
    ensures K.WriteFrom(m, f, pos, end, buf) == if d.r.Err? then d else K.WriteFrom(d.m, f, next, end, back)
    ensures WriteFrom(st, f, pos, buf) == if s.r.Err? then s else WriteFrom(s.st, f, next, back)
  {
    next, front, back := K.Next(pos, end), K.Front(pos, end, buf), K.Back(pos, end, buf);
    UnfoldPlainWrite(st, f, pos, next, end, buf, front, back);
    UnfoldCachedWrite(m, f, pos, next, end, buf);
    d, s := K.WriteOne(m, f, pos, front), WriteOne(st, f, pos, front);
  }

  lemma RoundShows(m: K.Mem, st: State, f: nat, pos: nat, end: nat, next: nat, front: seq<Byte>)
    requires Backs(m, st) && Inv(st) && f < |st.files| && pos < end <= st.files[f].size
    requires next == pos + Chunk(pos, end) == pos + |front|
    ensures var s := WriteOne(st, f, pos, front);
            && Same(K.WriteOne(m, f, pos, front), s)
            && (s.r.Ok? ==> |s.st.files| == |st.files| && Inv(s.st) && end <= s.st.files[f].size)
  {
    WriteOneShows(m, st, f, pos, front);
    if GetBlock(st, f, pos / BLKSIZE).r.Ok? {
      var st1 := WriteChunk(st, f, pos, end, next, front);
    }
  }

  lemma {:induction false} WriteFromShows(m: K.Mem, st: State, f: nat, pos: nat, end: nat, buf: seq<Byte>)
      returns (d: K.Done<()>, s: Step<()>)
    requires Backs(m, st) && Inv(st) && f < |st.files| && end == pos + |buf| <= st.files[f].size
    ensures d == K.WriteFrom(m, f, pos, end, buf) && s == WriteFrom(st, f, pos, buf)
    ensures Same(d, s)
    decreases end - pos
  {
    d, s := K.Done(Ok(()), m), Step(Ok(()), st);
    if pos < end {
      var next, front, back;
      next, front, back, d, s := UnfoldWrites(m, st, f, pos, end, buf);
      RoundShows(m, st, f, pos, end, next, front);
      if s.r.Ok? {
        d, s := WriteFromShows(d.m, s.st, f, next, end, back);
      }
    }
  }

  lemma GrownShows(m: K.Mem, st: State, f: nat, end: nat) returns (m1: K.Mem, st1: State)
    requires Backs(m, st) && Inv(st) && f < |st.files| && end < K.MAXSIZE
    ensures m1 == K.Grown(m, f, end) && st1 == Grown(st, f, end)
    ensures |st1.files| == |st.files| && Backs(m1, st1) && Inv(st1) && end <= st1.files[f].size
  {
    m1 := FieldShows(m, st, f, K.SIZE);
    st1 := st;
    if end > st.files[f].size {
      SetSizeShows(m1, st, f, end);
      m1 := K.SetSize(m1, f, end);
      st1 := GrowCorrect(st, f, end);
    }
  }

  lemma WriteIsLoop(st: State, f: nat, buf: seq<Byte>, off: nat, end: nat, st1: State)
    requires f < |st.files| == |st1.files| && end == WriteEnd(buf, off) && st1 == Grown(st, f, end)
    ensures Write(st, f, buf, off) == WriteFrom(st1, f, off, buf)
  {
  }

  lemma CachedWriteIsLoop(m: K.Mem, f: nat, buf: seq<Byte>, off: nat, end: nat, m1: K.Mem)
    requires end == WriteEnd(buf, off) && m1 == K.Grown(m, f, end)
    ensures K.Write(m, f, buf, off) == K.WriteFrom(m1, f, off, end, buf)
  {
  }

  lemma WriteShows(m: K.Mem, st: State, f: nat, buf: seq<Byte>, off: nat) returns (d: K.Done<()>, s: Step<()>)
    requires Backs(m, st) && Inv(st) && f < |st.files| && off + |buf| < K.MAXSIZE
    ensures d == K.Write(m, f, buf, off) && s == Write(st, f, buf, off)
    ensures Same(d, s)
  {
    var end := WriteEnd(buf, off);
    var m1, st1 := GrownShows(m, st, f, end);
    d, s := WriteFromShows(m1, st1, f, off, end, buf);
    WriteIsLoop(st, f, buf, off, end, st1);
    CachedWriteIsLoop(m, f, buf, off, end, m1);
  }

  // ----- file_free_block, file_truncate_blocks and file_set_size -----

  /** The block a slot names is freed, and the slot cleared. */
  lemma DropShows(m: K.Mem, st: State, f: nat, s: Slot)
    requires Backs(m, st) && Ownership(st) && SlotInUse(st, f, s) && SlotValue(st, f, s) != 0 && Reachable(st, f, s)
    ensures var v := SlotValue(st, f, s); Backs(K.StoreSlot(K.Free(m, v), f, s, 0), SetSlot(Free(st, v), f, s, 0))
  {
    var v := SlotValue(st, f, s);
    NamedInUse(st, OwnerOf(f, s));
    FreeShows(m, st, v);
    ApartFromIndirect(st, f, s);
    StoreSlotShows(K.Free(m, v), Free(st, v), f, s, 0);
  }

  lemma ApartFromIndirect(st: State, f: nat, s: Slot)
    requires Ownership(st) && Reachable(st, f, s) && SlotValue(st, f, s) != 0
    ensures SlotValue(st, f, s) != st.files[f].indirect
  {
    assert IsOwner(st, OwnerOf(f, s)) && IsOwner(st, IndirectOf(f));
    assert Name(st, IndirectOf(f)) == st.files[f].indirect && Name(st, OwnerOf(f, s)) == SlotValue(st, f, s);
  }

  /** What file_free_block does once it has the slot. */
  function Emptied(st: State, f: nat, s: Slot): (st': State)
    requires f < |st.files| && ValidSlot(s)
    ensures |st'.files| == |st.files|
  {
    var v := SlotValue(st, f, s);
    if v == 0 then st else SetSlot(Free(st, v), f, s, 0)
  }

  lemma FreeSlotShows(m: K.Mem, st: State, f: nat, s: Slot)
    requires Backs(m, st) && Ownership(st) && SlotInUse(st, f, s) && Reachable(st, f, s)
    ensures Backs(K.FreeSlot(m, f, s), Emptied(st, f, s))
  {
    var m1 := LoadSlotShows(m, st, f, s);
    if SlotValue(st, f, s) != 0 {
      DropShows(m1, st, f, s);
    }
  }

  lemma FreeIsEmptied(st: State, f: nat, bno: nat)
    requires f < |st.files|
    ensures FreeFileBlock(st, f, bno)
            == if Walk(st, f, bno, false).r.Err? then st else Emptied(st, f, SlotFor(bno))
  {
  }

  lemma FreeFileBlockShows(m: K.Mem, st: State, f: nat, bno: nat)
    requires Backs(m, st) && Inv(st) && f < |st.files|
    ensures Backs(K.FreeFileBlock(m, f, bno), FreeFileBlock(st, f, bno))
  {
    WalkShows(m, st, f, bno, false);
    FreeIsEmptied(st, f, bno);
    if Walk(st, f, bno, false).r.Ok? {
      WalkedSlotInUse(st, f, bno);
      FreeSlotShows(K.Walk(m, f, bno, false).m, st, f, SlotFor(bno));
    }
  }

  lemma {:induction false} FreeRangeShows(m: K.Mem, st: State, f: nat, bno: nat, end: nat)
    requires Backs(m, st) && Inv(st) && f < |st.files| && bno <= end
    ensures Backs(K.FreeRange(m, f, bno, end), FreeRange(st, f, bno, end))
    decreases end - bno
  {
    if bno < end {
      FreeFileBlockShows(m, st, f, bno);
      var st1 := ClearsOne(st, f, bno);
      FreeRangeShows(K.FreeFileBlock(m, f, bno), st1, f, bno + 1, end);
    }
  }

  lemma DropIndirectShows(m: K.Mem, st: State, f: nat)
    requires Backs(m, st) && Inv(st) && f < |st.files|
    ensures var b := st.files[f].indirect;
            Backs(K.DropIndirect(m, f), if b != 0 then SetIndirect(Free(st, b), f, 0) else st)
  {
    var m1 := FieldShows(m, st, f, K.INDIRECT);
    var b := st.files[f].indirect;
    if b != 0 {
      NamedInUse(st, IndirectOf(f));
      FreeShows(m1, st, b);
      SetFieldShows(K.Free(m1, b), Free(st, b), f, K.INDIRECT, 0);
    }
  }

  lemma TruncateShows(m: K.Mem, st: State, f: nat, newsize: nat)
    requires Backs(m, st) && Inv(st) && f < |st.files| && newsize < st.files[f].size
    ensures Backs(K.Truncate(m, f, newsize), Truncate(st, f, newsize))
  {
    var from, end := NBlocks(newsize), NBlocks(st.files[f].size);
    SizeOrder(newsize, st.files[f].size);
    var m1 := FieldShows(m, st, f, K.SIZE);
    FreeRangeShows(m1, st, f, from, end);
    var st1 := ClearsRange(st, f, from, end);
    DropIndirectShows(K.FreeRange(m1, f, from, end), st1, f);
  }

  /** The end of file_set_size. */
  lemma NewSizeShows(m: K.Mem, st: State, f: nat, newsize: nat)
    requires Backs(m, st) && f < |st.files| && newsize < K.MAXSIZE
    ensures Backs(K.NewSize(m, f, newsize), st.(files := st.files[f := st.files[f].(size := newsize)]))
  {
    SetFieldShows(m, st, f, K.SIZE, newsize);
    HomeIsApart(st, m.homes, C.View(m.cache), f);
    FlushShows(K.SetField(m, f, K.SIZE, newsize), WithField(st, f, K.SIZE, newsize), K.Home(m.homes, f));
  }

  lemma SetSizeShows(m: K.Mem, st: State, f: nat, newsize: nat)
    requires Backs(m, st) && Inv(st) && f < |st.files| && newsize < K.MAXSIZE
    ensures Backs(K.SetSize(m, f, newsize), SetSize(st, f, newsize))
  {
    var m1 := FieldShows(m, st, f, K.SIZE);
    if newsize < st.files[f].size {
      TruncateShows(m1, st, f, newsize);
      NewSizeShows(K.Truncate(m1, f, newsize), Truncate(st, f, newsize), f, newsize);
    } else {
      NewSizeShows(m1, st, f, newsize);
    }
  }
}

/** fs.c as it runs: bitmap words, disk blocks and file records updated in place.  Every method is the function of
    the same name in FsModel. */
module FileSystem {
  import opened Basics
  import opened Bitmap
  import opened FsModel
  import opened FsOwnership
  import opened FsData
  import opened FsTransfer
  import opened FsTruncate
  import opened FsFlush

  lemma JoinedTwice(a: seq<Byte>, b: seq<Byte>, rest: Step<seq<Byte>>)
    ensures Joined(a, Joined(b, rest)) == Joined(a + b, rest)
  {
    if rest.r.Ok? {
      assert a + (b + rest.r.value) == (a + b) + rest.r.value;
    }
  }

  lemma JoinedNothing(rest: Step<seq<Byte>>)
    ensures Joined([], rest) == rest
  {
    if rest.r.Ok? {
      assert [] + rest.r.value == rest.r.value;
    }
  }

  lemma RoundOfRead(st: State, f: nat, pos: nat, next: nat, end: nat, buf: seq<Byte>, one: Step<seq<Byte>>,
      whole: Step<seq<Byte>>)
    requires f < |st.files| && pos < end && next == pos + Chunk(pos, end) && one == ReadOne(st, f, pos, end)
    requires whole == Joined(buf, ReadFrom(st, f, pos, end))
    ensures if one.r.Err? then whole == one else whole == Joined(buf + one.r.value, ReadFrom(one.st, f, next, end))
  {
    UnfoldRead(st, f, pos, next, end);
    if one.r.Ok? {
      JoinedTwice(buf, one.r.value, ReadFrom(one.st, f, next, end));
    }
  }

  lemma RoundOfWrite(st: State, f: nat, pos: nat, end: nat, next: nat, buf: seq<Byte>, rest: seq<Byte>,
      one: Step<()>, whole: Step<()>)
    requires f < |st.files| && end == pos + |buf| && buf != [] && next == pos + Chunk(pos, end)
    requires rest == buf[next - pos..] && one == WriteOne(st, f, pos, buf[..next - pos])
    requires whole == WriteFrom(st, f, pos, buf)
    ensures whole == if one.r.Err? then one else WriteFrom(one.st, f, next, rest)
  {
    UnfoldWrite(st, f, pos, end, next, buf);
  }

  class Disk {
    const nblocks: nat
    ghost const reserved: set<nat>
    const bitmap: array<Word>
    const blocks: array<Block>
    const files: array<Inode>

    ghost predicate Wired()
    {
      blocks.Length == nblocks <= 32 * bitmap.Length
    }

    ghost function Abs(): State
      reads bitmap, blocks, files
      requires Wired()
    {
      State(nblocks, reserved, FreeSet(bitmap[..], nblocks), blocks[..], files[..])
    }

    ghost predicate Valid()
      reads bitmap, blocks, files
    {
      Wired() && Inv(Abs())
    }

    /** A disk with this bitmap, these blocks and these files. */
    constructor (ghost reserved: set<nat>, words: seq<Word>, contents: seq<Block>, inodes: seq<Inode>)
      requires |contents| <= 32 * |words|
      requires Inv(State(|contents|, reserved, FreeSet(words, |contents|), contents, inodes))
      ensures Valid() && fresh(bitmap) && fresh(blocks) && fresh(files)
      ensures Abs() == State(|contents|, reserved, FreeSet(words, |contents|), contents, inodes)
    {
      nblocks, this.reserved := |contents|, reserved;
      bitmap := new Word[|words|](i requires 0 <= i < |words| => words[i]);
      blocks := new Block[|contents|](i requires 0 <= i < |contents| => contents[i]);
      files := new Inode[|inodes|](i requires 0 <= i < |inodes| => inodes[i]);
      new;
      assert bitmap[..] == words && blocks[..] == contents && files[..] == inodes;
    }

    method BlockIsFree(b: nat) returns (free: bool)
      requires Wired()
      ensures free <==> b in Abs().free
    {
      if b >= nblocks {
        return false;
      }
      return bitmap[b / 32][b % 32];
    }

    /** Panics on block 0.  A number past the last block sets a bit that stands for no block; the bitmap's own end is
        not checked. */
    method FreeBlock(b: nat) returns (panicked: bool)
      requires Wired() && b < 32 * bitmap.Length
      modifies bitmap
      ensures panicked <==> b == 0
      ensures Abs() == if 0 < b < nblocks then Free(old(Abs()), b) else old(Abs())
    {
      if b == 0 {
        return true;
      }
      if b < nblocks {
        BitsAreBlocks(bitmap[..], nblocks, b);
      } else {
        BitsPastEnd(bitmap[..], nblocks, b);
      }
      bitmap[b / 32] := bitmap[b / 32][b % 32 := true];
      assert bitmap[..] == SetBit(old(bitmap[..]), b, true);
      return false;
    }

    method AllocBlock() returns (r: Result<nat>)
      requires Wired()
      modifies bitmap
      ensures Step(r, Abs()) == Alloc(old(Abs()))
    {
      var blockno := 0;
      while blockno < nblocks && !bitmap[blockno / 32][blockno % 32]
        invariant 0 <= blockno <= nblocks
        invariant FirstFree(Abs().free, 0, nblocks) == FirstFree(Abs().free, blockno, nblocks)
      {
        assert !Marked(bitmap[..], blockno);
        blockno := blockno + 1;
      }
      if blockno == nblocks {
        return Err(NoDisk);
      }
      assert Marked(bitmap[..], blockno);
      BitsAreBlocks(bitmap[..], nblocks, blockno);
      bitmap[blockno / 32] := bitmap[blockno / 32][blockno % 32 := false];
      assert bitmap[..] == SetBit(old(bitmap[..]), blockno, false);
      return Ok(blockno);
    }

    /** Reads the slot a walk returned. */
    method LoadSlot(f: nat, s: Slot) returns (v: nat)
      requires Wired() && f < files.Length && ValidSlot(s)
      requires s.Indirect? ==> files[f].indirect < nblocks
      ensures v == SlotValue(Abs(), f, s)
    {
      match s
      case Direct(i) => v := files[f].direct[i];
      case Indirect(j) => v := GetWord(blocks[files[f].indirect], j);
    }

    method StoreSlot(f: nat, s: Slot, v: nat)
      requires Wired() && f < files.Length && ValidSlot(s)
      requires s.Indirect? ==> files[f].indirect < nblocks
      modifies files, blocks
      ensures Abs() == SetSlot(old(Abs()), f, s, v)
    {
      match s
      case Direct(i) =>
        files[f] := files[f].(direct := files[f].direct[i := v]);
      case Indirect(j) =>
        var b := files[f].indirect;
        blocks[b] := PutWord(blocks[b], j, v);
    }

    method FileBlockWalk(f: nat, bno: nat, alloc: bool) returns (r: Result<Slot>)
      requires Wired() && f < files.Length
      requires forall b :: b in Abs().free ==> b < nblocks
      modifies bitmap, blocks, files
      ensures Step(r, Abs()) == Walk(old(Abs()), f, bno, alloc)
    {
      if bno >= NDIRECT + NINDIRECT {
        return Err(Inval);
      }
      if bno > NDIRECT / BLKSIZE && files[f].indirect == 0 {
        if alloc {
          var b := AllocBlock();
          if b.Err? {
            return Err(b.error);
          }
          files[f] := files[f].(indirect := b.value);
          blocks[b.value] := ZeroBlock();
        } else {
          return Err(NotFound);
        }
      }
      return Ok(SlotFor(bno));
    }

    method FileGetBlock(f: nat, bno: nat) returns (r: Result<nat>)
      requires Valid() && f < files.Length
      modifies bitmap, blocks, files
      ensures Step(r, Abs()) == GetBlock(old(Abs()), f, bno)
    {
      ghost var st := Abs();
      var slot := FileBlockWalk(f, bno, true);
      WalkAllocates(st, f, bno);
      if slot.Err? {
        return Err(slot.error);
      }
      IndirectInRange(Abs(), f);
      var v := LoadSlot(f, slot.value);
      if v == 0 {
        var b := AllocBlock();
        if b.Err? {
          return b;
        }
        StoreSlot(f, slot.value, b.value);
        v := b.value;
      }
      return Ok(v);
    }

    /** One round of the loop of file_read. */
    method ReadPiece(f: nat, pos: nat, end: nat) returns (r: Result<seq<Byte>>, next: nat)
      requires Valid() && f < files.Length && pos < end <= files[f].size
      modifies bitmap, blocks, files
      ensures Valid() && files[f].size == old(files[f].size) && next == pos + Chunk(pos, end)
      ensures Step(r, Abs()) == ReadOne(old(Abs()), f, pos, end)
    {
      var bno, at := pos / BLKSIZE, pos % BLKSIZE;
      var bn := Min(BLKSIZE - at, end - pos);
      next := pos + bn;
      BlockForPosition(Abs(), f, pos, bno);
      var b := FileGetBlock(f, bno);
      if b.Err? {
        return Err(b.error), next;
      }
      return Ok(blocks[b.value][at..at + bn]), next;
    }

    /** One more piece behind `buf`; the whole read is to end as `whole`. */
    method ReadMore(f: nat, pos: nat, end: nat, buf: seq<Byte>, ghost whole: Step<seq<Byte>>)
      returns (r: Result<seq<Byte>>, next: nat)
      requires Valid() && f < files.Length && pos < end <= files[f].size
      requires whole == Joined(buf, ReadFrom(Abs(), f, pos, end))
      modifies bitmap, blocks, files
      ensures Valid()
      ensures files[f].size == old(files[f].size)
      ensures pos < next <= end
      ensures if r.Err? then whole == Step(r, Abs()) else whole == Joined(r.value, ReadFrom(Abs(), f, next, end))
    {
      r, next := ReadPiece(f, pos, end);
      RoundOfRead(old(Abs()), f, pos, next, end, buf, Step(r, Abs()), whole);
      if r.Ok? {
        r := Ok(buf + r.value);
      }
    }

    /** The loop of file_read. */
    method ReadBytes(f: nat, offset: nat, end: nat) returns (r: Result<seq<Byte>>)
      requires Valid() && f < files.Length && offset <= end <= files[f].size
      modifies bitmap, blocks, files
      ensures Step(r, Abs()) == ReadFrom(old(Abs()), f, offset, end)
      ensures Valid()
    {
      ghost var whole := ReadFrom(Abs(), f, offset, end);
      var pos := offset;
      r := Ok([]);
      JoinedNothing(whole);
      while pos < end
        invariant offset <= pos <= end
        invariant end <= files[f].size
        invariant Valid()
        invariant r.Ok?
        invariant whole == Joined(r.value, ReadFrom(Abs(), f, pos, end))
      {
        r, pos := ReadMore(f, pos, end, r.value, whole);
        if r.Err? {
          return;
        }
      }
      assert r.value + [] == r.value;
    }

    method FileRead(f: nat, count: nat, offset: nat) returns (r: Result<seq<Byte>>)
      requires Valid() && f < files.Length
      modifies bitmap, blocks, files
      ensures Step(r, Abs()) == Read(old(Abs()), f, count, offset)
      ensures Valid()
    {
      if offset >= files[f].size {
        return Ok([]);
      }
      r := ReadBytes(f, offset, ReadEnd(files[f].size, count, offset));
    }

    /** memmove into the middle of a cached block. */
    method CopyIn(b: nat, at: nat, bytes: seq<Byte>)
      requires Wired() && b < nblocks && at + |bytes| <= BLKSIZE
      modifies blocks
      ensures Abs() == Poke(old(Abs()), b, Splice(Peek(old(Abs()), b), at, bytes))
    {
      blocks[b] := Splice(blocks[b], at, bytes);
    }

    /** One round of the loop of file_write. */
    method WritePiece(f: nat, pos: nat, end: nat, buf: seq<Byte>) returns (r: Result<()>, next: nat)
      requires Valid() && f < files.Length && pos < end == pos + |buf| <= files[f].size
      modifies bitmap, blocks, files
      ensures Valid() && files[f].size == old(files[f].size) && next == pos + Chunk(pos, end)
      ensures Step(r, Abs()) == WriteOne(old(Abs()), f, pos, buf[..next - pos])
    {
      var bno, at := pos / BLKSIZE, pos % BLKSIZE;
      var bn := Min(BLKSIZE - at, end - pos);
      next := pos + bn;
      WriteOneKeeps(Abs(), f, pos, end, next, bno, buf[..bn]);
      var b := FileGetBlock(f, bno);
      if b.Err? {
        return Err(b.error), next;
      }
      CopyIn(b.value, at, buf[..bn]);
      return Ok(()), next;
    }

    /** The next piece of `buf`; the whole write is to end as `whole`. */
    method WriteMore(f: nat, pos: nat, end: nat, buf: seq<Byte>, ghost whole: Step<()>)
      returns (r: Result<()>, next: nat, rest: seq<Byte>)
      requires Valid() && f < files.Length && pos < end == pos + |buf| <= files[f].size
      requires whole == WriteFrom(Abs(), f, pos, buf)
      modifies bitmap, blocks, files
      ensures Valid()
      ensures files[f].size == old(files[f].size)
      ensures pos < next && end == next + |rest|
      ensures if r.Err? then whole == Step(r, Abs()) else whole == WriteFrom(Abs(), f, next, rest)
    {
      r, next := WritePiece(f, pos, end, buf);
      rest := buf[next - pos..];
      RoundOfWrite(old(Abs()), f, pos, end, next, buf, rest, Step(r, Abs()), whole);
    }

    /** The loop of file_write. */
    method WriteBytes(f: nat, offset: nat, end: nat, buf: seq<Byte>) returns (r: Result<()>)
      requires Valid() && f < files.Length && end == offset + |buf| <= files[f].size
      modifies bitmap, blocks, files
      ensures Step(r, Abs()) == WriteFrom(old(Abs()), f, offset, buf)
      ensures Valid()
    {
      ghost var whole := WriteFrom(Abs(), f, offset, buf);
      var pos, rest := offset, buf;
      while pos < end
        invariant end == pos + |rest|
        invariant end <= files[f].size
        invariant Valid()
        invariant whole == WriteFrom(Abs(), f, pos, rest)
      {
        r, pos, rest := WriteMore(f, pos, end, rest, whole);
        if r.Err? {
          return;
        }
      }
      assert rest == [];
      r := Ok(());
    }

    method FileWrite(f: nat, buf: seq<Byte>, offset: nat) returns (r: Result<()>)
      requires Valid() && f < files.Length
      modifies bitmap, blocks, files
      ensures Step(r, Abs()) == Write(old(Abs()), f, buf, offset)
      ensures Valid()
    {
      var end := WriteEnd(buf, offset);
      if end > files[f].size {
        FileSetSize(f, end);
      }
      r := WriteBytes(f, offset, end, buf);
    }

    method FileFreeBlock(f: nat, bno: nat)
      requires Valid() && f < files.Length
      modifies bitmap, blocks, files
      ensures Abs() == FreeFileBlock(old(Abs()), f, bno)
      ensures Valid()
    {
      ghost var st := Abs();
      ghost var st' := ClearsOne(st, f, bno);
      var slot := FileBlockWalk(f, bno, false);
      if slot.Err? {
        return;
      }
      IndirectInRange(Abs(), f);
      var v := LoadSlot(f, slot.value);
      if v != 0 {
        SlotInRange(Abs(), f, slot.value);
        var _ := FreeBlock(v);
        StoreSlot(f, slot.value, 0);
      }
    }

    /** The loop of file_truncate_blocks. */
    method FreeFileBlocks(f: nat, from: nat, end: nat)
      requires Valid() && f < files.Length
      modifies bitmap, blocks, files
      ensures Abs() == FreeRange(old(Abs()), f, from, end)
      ensures Valid()
    {
      var bno := from;
      while bno < end
        invariant from <= bno && Valid()
        invariant FreeRange(old(Abs()), f, from, end) == FreeRange(Abs(), f, bno, end)
      {
        FileFreeBlock(f, bno);
        bno := bno + 1;
      }
    }

    method FileTruncateBlocks(f: nat, newsize: nat)
      requires Valid() && f < files.Length && newsize < files[f].size
      modifies bitmap, blocks, files
      ensures Abs() == Truncate(old(Abs()), f, newsize)
      ensures Valid()
    {
      ghost var st' := TruncateCorrect(Abs(), f, newsize);
      var oldBlocks, newBlocks := NBlocks(files[f].size), NBlocks(newsize);
      FreeFileBlocks(f, newBlocks, oldBlocks);
      if newBlocks <= NDIRECT && files[f].indirect != 0 {
        IndirectInRange(Abs(), f);
        var _ := FreeBlock(files[f].indirect);
        files[f] := files[f].(indirect := 0);
      }
    }

    method FileSetSize(f: nat, newsize: nat)
      requires Valid() && f < files.Length
      modifies bitmap, blocks, files
      ensures Abs() == SetSize(old(Abs()), f, newsize)
      ensures Valid()
    {
      ghost var st := Abs();
      ghost var st';
      if newsize < st.files[f].size {
        st' := ShrinkCorrect(st, f, newsize);
      } else {
        st' := GrowCorrect(st, f, newsize);
      }
      if files[f].size > newsize {
        FileTruncateBlocks(f, newsize);
      }
      files[f] := files[f].(size := newsize);
    }

    /** The block that one round of file_flush's loop writes back, if any. */
    method FlushStep(f: nat, bno: nat) returns (more: seq<nat>)
      requires Valid() && f < files.Length
      modifies bitmap, blocks, files
      ensures Abs() == old(Abs()) && more == FlushOne(Abs(), f, bno)
    {
      var slot := FileBlockWalk(f, bno, false);
      if slot.Err? {
        return [];
      }
      IndirectInRange(Abs(), f);
      var v := LoadSlot(f, slot.value);
      return if v == 0 then [] else [v];
    }

    /** One more block behind `flushed`; the loop is to end with `whole`. */
    method FlushMore(f: nat, bno: nat, flushed: seq<nat>, ghost whole: seq<nat>) returns (flushed': seq<nat>)
      requires Valid() && f < files.Length && bno < NBlocks(files[f].size)
      requires flushed + FlushFrom(Abs(), f, bno) == whole
      modifies bitmap, blocks, files
      ensures Abs() == old(Abs())
      ensures flushed' + FlushFrom(Abs(), f, bno + 1) == whole
    {
      var more := FlushStep(f, bno);
      UnfoldFlush(Abs(), f, bno);
      flushed' := flushed + more;
    }

    /** The loop of file_flush. */
    method FlushBlocks(f: nat) returns (flushed: seq<nat>)
      requires Valid() && f < files.Length
      modifies bitmap, blocks, files
      ensures Abs() == old(Abs()) && flushed == FlushFrom(Abs(), f, 0)
    {
      flushed := [];
      ghost var whole := FlushFrom(Abs(), f, 0);
      var bno := 0;
      while bno < NBlocks(files[f].size)
        invariant Abs() == old(Abs())
        invariant flushed + FlushFrom(Abs(), f, bno) == whole
      {
        flushed := FlushMore(f, bno, flushed, whole);
        bno := bno + 1;
      }
      assert flushed + [] == flushed;
    }

    /** file_flush, as the list of the blocks it hands to flush_block. */
    method FileFlush(f: nat, home: nat) returns (flushed: seq<nat>)
      requires Valid() && f < files.Length
      modifies bitmap, blocks, files
      ensures Abs() == old(Abs()) && flushed == Flushed(Abs(), f, home)
    {
      flushed := FlushBlocks(f);
      flushed := flushed + [home];
      if files[f].indirect != 0 {
        flushed := flushed + [files[f].indirect];
      }
    }
  }

  /** The block for a position within the file, if it can be had, is on the disk, and the invariant is kept. */
  lemma BlockForPosition(st: State, f: nat, pos: nat, bno: nat)
    requires Inv(st) && f < |st.files| && pos < st.files[f].size && bno == pos / BLKSIZE
    ensures var g := GetBlock(st, f, bno);
            && Inv(g.st) && |g.st.files| == |st.files| && g.st.files[f].size == st.files[f].size
            && g.st.nblocks == st.nblocks && (g.r.Ok? ==> g.r.value < st.nblocks)
  {
    BlockInFile(pos, st.files[f].size);
    GetBlockAllocates(st, f, bno);
    var g := GetBlock(st, f, bno);
    if g.r.Ok? {
      DataBlockIsApart(g.st, f, bno);
    }
  }

  lemma WriteOneKeeps(st: State, f: nat, pos: nat, end: nat, next: nat, bno: nat, bytes: seq<Byte>)
    requires Inv(st) && f < |st.files| && pos < end <= st.files[f].size
    requires bno == pos / BLKSIZE && next == pos + Chunk(pos, end) == pos + |bytes|
    ensures var s, g := WriteOne(st, f, pos, bytes), GetBlock(st, f, bno);
            && Inv(s.st) && |s.st.files| == |st.files| && s.st.files[f].size == st.files[f].size
            && g.st.nblocks == st.nblocks && (g.r.Ok? ==> g.r.value < st.nblocks)
  {
    BlockForPosition(st, f, pos, bno);
    if GetBlock(st, f, bno).r.Ok? {
      var st1 := WriteChunk(st, f, pos, end, next, bytes);
    }
  }

  lemma IndirectInRange(st: State, f: nat)
    requires Inv(st) && f < |st.files|
    ensures st.files[f].indirect < st.nblocks
  {
    assert Name(st, IndirectOf(f)) == st.files[f].indirect;
  }

  lemma SlotInRange(st: State, f: nat, s: Slot)
    requires Inv(st) && Reachable(st, f, s)
    ensures SlotValue(st, f, s) < st.nblocks
  {
    assert Name(st, OwnerOf(f, s)) == SlotValue(st, f, s);
  }
}

/** The main results about the file system: what a write followed by a read returns, and what every sequence of
    operations keeps. */
module FsTheorems {
  import opened Basics
  import opened FsModel
  import opened FsOwnership
  import opened FsData
  import opened FsTransfer
  import opened FsTruncate
  import opened FsFlush

  // ----- one write -----

  ghost predicate BytesKept(st: State, st': State, f: nat, lo: nat, hi: nat)
  {
    && |st'.files| == |st.files| && f < |st.files|
    && (forall g :: 0 <= g < |st.files| && g != f ==> st'.files[g] == st.files[g])
    && (forall g, p :: 0 <= g < |st.files| && 0 <= p && g != f ==> ByteAt(st', g, p) == ByteAt(st, g, p))
    && (forall p :: 0 <= p && !(lo <= p < hi) && ByteAt(st, f, p).Some? ==> ByteAt(st', f, p) == ByteAt(st, f, p))
  }

  lemma FitsSame(st: State, st': State, f: nat, pos: nat, end: nat)
    requires f < |st.files| == |st'.files| && st'.free == st.free && st'.files[f].indirect == st.files[f].indirect
    requires forall c :: 0 <= c ==> Lookup(st', f, c) == Lookup(st, f, c)
    ensures Fits(st', f, pos, end) <==> Fits(st, f, pos, end)
  {
    MissingSame(st, st', f, pos / BLKSIZE, NBlocks(end));
  }

  lemma GrownCorrect(st: State, f: nat, end: nat) returns (st1: State)
    requires Inv(st) && f < |st.files|
    ensures st1 == Grown(st, f, end) && |st1.files| == |st.files| && st1.blocks == st.blocks && Inv(st1)
    ensures st1.free == st.free && st1.files[f].indirect == st.files[f].indirect
    ensures st1.files[f].size == (if end > st.files[f].size then end else st.files[f].size)
    ensures forall g :: 0 <= g < |st.files| && g != f ==> st1.files[g] == st.files[g]
    ensures forall g, c :: 0 <= g < |st.files| && 0 <= c ==> Lookup(st1, g, c) == Lookup(st, g, c)
  {
    st1 := st;
    if end > st.files[f].size {
      st1 := GrowCorrect(st, f, end);
    }
  }

  /** file_write, successful or not: it succeeds exactly when the range is within the maximum file size and the
      disk has room for the blocks that are missing; on success the file holds the buffer; no other allocated byte
      of any file changes, even on failure. */
  lemma WriteCorrect(st: State, f: nat, buf: seq<Byte>, off: nat) returns (s: Step<()>)
    requires Inv(st) && f < |st.files|
    ensures s == Write(st, f, buf, off)
    ensures Inv(s.st) && BytesKept(st, s.st, f, off, off + |buf|)
    ensures s.st.files[f].size == if off + |buf| > st.files[f].size then off + |buf| else st.files[f].size
    ensures s.r.Ok? <==> Fits(st, f, off, off + |buf|)
    ensures s.r.Ok? ==> Holds(s.st, f, off, buf)
    ensures s.r.Ok? && |buf| > 0 && off + |buf| > BLKSIZE ==> s.st.files[f].indirect != 0
  {
    var end := WriteEnd(buf, off);
    var st1 := GrownCorrect(st, f, end);
    FitsSame(st, st1, f, off, end);
    s := WriteFromCorrect(st1, f, off, end, buf);
    GrownBytesKept(st, st1, s.st, f, off, end);
  }

  lemma GrownBytesKept(st: State, st1: State, st2: State, f: nat, lo: nat, hi: nat)
    requires f < |st.files| && |st1.files| == |st.files| && st1.blocks == st.blocks
    requires forall g :: 0 <= g < |st.files| && g != f ==> st1.files[g] == st.files[g]
    requires forall g, c :: 0 <= g < |st.files| && 0 <= c ==> Lookup(st1, g, c) == Lookup(st, g, c)
    requires Kept(st1, st2, f, lo, hi)
    ensures BytesKept(st, st2, f, lo, hi)
  {
    forall g, p | 0 <= g < |st.files| && 0 <= p
      ensures ByteAt(st1, g, p) == ByteAt(st, g, p)
    {
      assert Lookup(st1, g, p / BLKSIZE) == Lookup(st, g, p / BLKSIZE);
    }
  }

  /** Why a write failed: past the largest file, if all of the range that a file can have has room; else no room. */
  lemma WriteFailsWith(st: State, f: nat, buf: seq<Byte>, off: nat)
    requires Inv(st) && f < |st.files| && Write(st, f, buf, off).r.Err?
    ensures Write(st, f, buf, off).r == Err(Failure(st, f, off, off + |buf|))
  {
    var end := WriteEnd(buf, off);
    var st1 := GrownCorrect(st, f, end);
    WriteFailure(st1, f, off, end, buf);
    FitsSame(st, st1, f, off, Reach(end));
  }

  /** And a read; it is cut off at the file's size before. */
  lemma ReadFailsWith(st: State, f: nat, count: nat, off: nat)
    requires Inv(st) && f < |st.files| && Read(st, f, count, off).r.Err?
    ensures off < st.files[f].size
    ensures Read(st, f, count, off).r == Err(Failure(st, f, off, off + Min(count, st.files[f].size - off)))
  {
    ReadFailure(st, f, off, ReadEnd(st.files[f].size, count, off));
  }

  // ----- one read -----

  lemma GetBlockPure(st: State, f: nat, bno: nat)
    requires f < |st.files| && Lookup(st, f, bno) != 0 && (bno > 0 ==> st.files[f].indirect != 0)
    ensures GetBlock(st, f, bno) == Step(Ok(Lookup(st, f, bno)), st)
  {
    assert SlotValue(st, f, SlotFor(bno)) == Lookup(st, f, bno);
  }

  /** Reading bytes that are all there returns them and changes nothing. */
  lemma {:induction false} ReadFromPure(st: State, f: nat, pos: nat, end: nat, bytes: seq<Byte>)
    requires f < |st.files| && end == pos + |bytes| && Holds(st, f, pos, bytes)
    requires pos < end && end > BLKSIZE ==> st.files[f].indirect != 0
    ensures ReadFrom(st, f, pos, end) == Step(Ok(bytes), st)
    decreases |bytes|
  {
    if pos < end {
      var next := pos + Chunk(pos, end);
      assert ByteAt(st, f, pos) == Some(bytes[pos - pos]);
      GetBlockPure(st, f, pos / BLKSIZE);
      UnfoldRead(st, f, pos, next, end);
      var chunk := ChunkInBlock(st, f, pos, end);
      HoldsSplit(st, f, pos, next, bytes, chunk);
      ReadFromPure(st, f, next, end, bytes[next - pos..]);
    }
  }

  lemma HoldsSplit(st: State, f: nat, pos: nat, next: nat, bytes: seq<Byte>, chunk: seq<Byte>)
    requires f < |st.files| && pos <= next <= pos + |bytes| && next == pos + |chunk|
    requires Holds(st, f, pos, bytes) && Holds(st, f, pos, chunk)
    ensures chunk == bytes[..next - pos] && chunk + bytes[next - pos..] == bytes
    ensures Holds(st, f, next, bytes[next - pos..])
  {
    forall k | 0 <= k < |chunk|
      ensures chunk[k] == bytes[k]
    {
      var p := pos + k;
      assert ByteAt(st, f, p) == Some(bytes[p - pos]) && ByteAt(st, f, p) == Some(chunk[p - pos]);
    }
  }

  /** Even over bytes that are all there, file_read is not a pure read: beyond the first block it does nothing to the
      disk exactly when the file still has its indirect block. */
  lemma ReadIsPureIff(st: State, f: nat, pos: nat, end: nat, bytes: seq<Byte>)
    requires Inv(st) && f < |st.files| && pos < end == pos + |bytes| <= st.files[f].size && Holds(st, f, pos, bytes)
    ensures ReadFrom(st, f, pos, end) == Step(Ok(bytes), st) <==> end <= BLKSIZE || st.files[f].indirect != 0
  {
    if end <= BLKSIZE || st.files[f].indirect != 0 {
      ReadFromPure(st, f, pos, end, bytes);
    } else {
      var s := ReadFromCorrect(st, f, pos, end);
    }
  }

  /** file_read: the result is as long as the file allows, and is what the file then holds. */
  lemma ReadCorrect(st: State, f: nat, count: nat, off: nat) returns (s: Step<seq<Byte>>)
    requires Inv(st) && f < |st.files|
    ensures s == Read(st, f, count, off)
    ensures Inv(s.st) && Extends(st, s.st, f)
    ensures s.r.Ok? ==> Holds(s.st, f, off, s.r.value)
                        && |s.r.value| == if off >= st.files[f].size then 0 else Min(count, st.files[f].size - off)
    ensures s.r.Ok? <==> off >= st.files[f].size || Fits(st, f, off, ReadEnd(st.files[f].size, count, off))
  {
    if off >= st.files[f].size {
      s := Step(Ok([]), st);
    } else {
      s := ReadFromCorrect(st, f, off, ReadEnd(st.files[f].size, count, off));
    }
  }

  // ----- write, then read -----

  /** A successful write is read back exactly, and reading it back changes nothing. */
  lemma WriteThenRead(st: State, f: nat, buf: seq<Byte>, off: nat)
    requires Inv(st) && f < |st.files| && Write(st, f, buf, off).r.Ok?
    ensures var st' := Write(st, f, buf, off).st;
            Read(st', f, |buf|, off) == Step(Ok(buf), st')
  {
    var s := WriteCorrect(st, f, buf, off);
    ReadBack(s.st, f, buf, off);
  }

  lemma ReadBack(st: State, f: nat, buf: seq<Byte>, off: nat)
    requires f < |st.files| && off + |buf| <= st.files[f].size && Holds(st, f, off, buf)
    requires |buf| > 0 && off + |buf| > BLKSIZE ==> st.files[f].indirect != 0
    ensures Read(st, f, |buf|, off) == Step(Ok(buf), st)
  {
    if buf != [] {
      var end := off + |buf|;
      ReadFromPure(st, f, off, end, buf);
      assert off + Min(|buf|, st.files[f].size - off) == end;
    }
  }

  // ----- every sequence of operations -----

  datatype Op =
    | ReadOp(f: nat, count: nat, off: nat)
    | WriteOp(f: nat, buf: seq<Byte>, off: nat)
    | ResizeOp(f: nat, newsize: nat)

  function Apply(st: State, op: Op): (st': State)
    requires op.f < |st.files|
    ensures |st'.files| == |st.files|
  {
    match op
    case ReadOp(f, count, off) => Read(st, f, count, off).st
    case WriteOp(f, buf, off) => Write(st, f, buf, off).st
    case ResizeOp(f, newsize) => SetSize(st, f, newsize)
  }

  function Run(st: State, ops: seq<Op>): (st': State)
    requires forall op :: op in ops ==> op.f < |st.files|
    ensures |st'.files| == |st.files|
    decreases |ops|
  {
    if ops == [] then st else Run(Apply(st, ops[0]), ops[1..])
  }

  /** One operation keeps the invariant and leaves every other file alone. */
  lemma ApplyKeeps(st: State, op: Op)
    requires Inv(st) && op.f < |st.files|
    ensures Inv(Apply(st, op))
    ensures forall g :: 0 <= g < |st.files| && g != op.f ==> Apply(st, op).files[g] == st.files[g]
    ensures forall g, p :: 0 <= g < |st.files| && 0 <= p && g != op.f
                ==> ByteAt(Apply(st, op), g, p) == ByteAt(st, g, p)
  {
    match op
    case ReadOp(f, count, off) =>
      var s := ReadCorrect(st, f, count, off);
      ExtendsKeeps(st, s.st, f);
    case WriteOp(f, buf, off) =>
      var s := WriteCorrect(st, f, buf, off);
    case ResizeOp(f, newsize) =>
      if newsize < st.files[f].size {
        var st' := ShrinkCorrect(st, f, newsize);
        ShrunkKeeps(st, st', f, newsize);
      } else {
        var st' := GrowCorrect(st, f, newsize);
        forall g, p | 0 <= g < |st.files| && 0 <= p
          ensures ByteAt(st', g, p) == ByteAt(st, g, p)
        {
          assert Lookup(st', g, p / BLKSIZE) == Lookup(st, g, p / BLKSIZE);
        }
      }
  }

  /** Shrinking loses no byte below the new size, and none of another file. */
  lemma ShrunkKeeps(st: State, st': State, f: nat, newsize: nat)
    requires Shrunk(st, st', f, newsize)
    ensures forall g, p :: 0 <= g < |st.files| && 0 <= p && (g != f || p < newsize)
                ==> ByteAt(st', g, p) == ByteAt(st, g, p)
  {
    forall g, p | 0 <= g < |st.files| && 0 <= p && (g != f || p < newsize)
      ensures ByteAt(st', g, p) == ByteAt(st, g, p)
    {
      if p < newsize {
        BlockInFile(p, newsize);
      }
      assert Lookup(st', g, p / BLKSIZE) == Lookup(st, g, p / BLKSIZE);
    }
  }

  /** Exact ownership over every run, failed operations included. */
  lemma {:induction false} RunKeepsInv(st: State, ops: seq<Op>)
    requires Inv(st) && forall op :: op in ops ==> op.f < |st.files|
    ensures Inv(Run(st, ops))
    decreases |ops|
  {
    if ops != [] {
      ApplyKeeps(st, ops[0]);
      RunKeepsInv(Apply(st, ops[0]), ops[1..]);
    }
  }

  /** No run on other files changes a byte of file g. */
  lemma {:induction false} RunIsolates(st: State, ops: seq<Op>, g: nat)
    requires Inv(st) && (forall op :: op in ops ==> op.f < |st.files| && op.f != g) && g < |st.files|
    ensures Run(st, ops).files[g] == st.files[g]
    ensures forall p :: 0 <= p ==> ByteAt(Run(st, ops), g, p) == ByteAt(st, g, p)
    decreases |ops|
  {
    if ops != [] {
      ApplyKeeps(st, ops[0]);
      RunIsolates(Apply(st, ops[0]), ops[1..], g);
    }
  }

  /** What was written is still read back after any run on other files. */
  lemma WriteSurvivesOthers(st: State, f: nat, buf: seq<Byte>, off: nat, ops: seq<Op>)
    requires Inv(st) && f < |st.files| && Write(st, f, buf, off).r.Ok?
    requires forall op :: op in ops ==> op.f < |st.files| && op.f != f
    ensures var st' := Run(Write(st, f, buf, off).st, ops);
            Read(st', f, |buf|, off) == Step(Ok(buf), st')
  {
    var s := WriteCorrect(st, f, buf, off);
    RunIsolates(s.st, ops, f);
    var st' := Run(s.st, ops);
    ReadBack(st', f, buf, off);
  }

  // ----- other operations on the same file -----

  /** The operation does not write to bytes [lo, hi) of file f, nor cut them off. */
  predicate Spares(op: Op, f: nat, lo: nat, hi: nat)
  {
    op.f == f ==>
      match op
      case ReadOp(_, _, _) => true
      case WriteOp(_, buf, off) => off + |buf| <= lo || hi <= off || buf == []
      case ResizeOp(_, newsize) => hi <= newsize
  }

  lemma ResizeSpares(st: State, f: nat, newsize: nat, p: nat)
    requires Inv(st) && f < |st.files| && p < newsize
    ensures ByteAt(SetSize(st, f, newsize), f, p) == ByteAt(st, f, p)
    ensures SetSize(st, f, newsize).files[f].size == newsize
  {
    if newsize < st.files[f].size {
      var st' := ShrinkCorrect(st, f, newsize);
      ShrunkKeeps(st, st', f, newsize);
    } else {
      var st' := GrowCorrect(st, f, newsize);
      assert Lookup(st', f, p / BLKSIZE) == Lookup(st, f, p / BLKSIZE);
    }
  }

  lemma ByteSpared(st: State, op: Op, f: nat, lo: nat, hi: nat, p: nat)
    requires Inv(st) && f < |st.files| && op.f < |st.files| && Spares(op, f, lo, hi) && lo <= p < hi
    requires ByteAt(st, f, p).Some?
    ensures ByteAt(Apply(st, op), f, p) == ByteAt(st, f, p)
  {
    if op.f != f {
      ApplyKeeps(st, op);
    } else {
      match op
      case ReadOp(_, count, off) =>
        var s := ReadCorrect(st, f, count, off);
        ExtendsKeeps(st, s.st, f);
      case WriteOp(_, buf, off) =>
        var s := WriteCorrect(st, f, buf, off);
      case ResizeOp(_, newsize) =>
        ResizeSpares(st, f, newsize, p);
    }
  }

  lemma SizeSpared(st: State, op: Op, f: nat, lo: nat, hi: nat)
    requires Inv(st) && f < |st.files| && op.f < |st.files| && Spares(op, f, lo, hi) && hi <= st.files[f].size
    ensures hi <= Apply(st, op).files[f].size
  {
    if op.f != f {
      ApplyKeeps(st, op);
    } else {
      match op
      case ReadOp(_, count, off) =>
        var s := ReadCorrect(st, f, count, off);
      case WriteOp(_, buf, off) =>
        var s := WriteCorrect(st, f, buf, off);
      case ResizeOp(_, newsize) =>
    }
  }

  lemma {:induction false} RunSpares(st: State, ops: seq<Op>, f: nat, off: nat, bytes: seq<Byte>)
    requires Inv(st) && f < |st.files| && Holds(st, f, off, bytes) && off + |bytes| <= st.files[f].size
    requires forall op :: op in ops ==> op.f < |st.files| && Spares(op, f, off, off + |bytes|)
    ensures Holds(Run(st, ops), f, off, bytes) && off + |bytes| <= Run(st, ops).files[f].size
    decreases |ops|
  {
    if ops != [] {
      var st1 := Apply(st, ops[0]);
      ApplyKeeps(st, ops[0]);
      SizeSpared(st, ops[0], f, off, off + |bytes|);
      forall p | off <= p < off + |bytes|
        ensures ByteAt(st1, f, p) == Some(bytes[p - off])
      {
        ByteSpared(st, ops[0], f, off, off + |bytes|, p);
      }
      RunSpares(st1, ops[1..], f, off, bytes);
    }
  }

  lemma {:induction false} NothingMissing(st: State, f: nat, bno: nat, end: nat)
    requires f < |st.files| && forall c :: bno <= c < end ==> Lookup(st, f, c) != 0
    ensures Missing(st, f, bno, end) == 0
    decreases end - bno
  {
    if bno < end {
      NothingMissing(st, f, bno + 1, end);
    }
  }

  /** Bytes that are all there need at most the indirect block. */
  lemma HeldFitsIff(st: State, f: nat, off: nat, end: nat, bytes: seq<Byte>)
    requires f < |st.files| && off < end == off + |bytes| && Holds(st, f, off, bytes)
    ensures Fits(st, f, off, end) <==> end <= BLKSIZE || st.files[f].indirect != 0 || |st.free| > 0
  {
    forall c | off / BLKSIZE <= c < NBlocks(end)
      ensures Lookup(st, f, c) != 0
    {
      var p := if c == off / BLKSIZE then off else c * BLKSIZE;
      assert off <= p < end && p / BLKSIZE == c;
      assert ByteAt(st, f, p) == Some(bytes[p - off]);
    }
    NothingMissing(st, f, off / BLKSIZE, NBlocks(end));
    LastBlockInRange(st, f, end);
  }

  lemma LastBlockInRange(st: State, f: nat, end: nat)
    requires f < |st.files| && end > 0 && Lookup(st, f, NBlocks(end) - 1) != 0
    ensures end <= MAXFILESIZE
  {
  }

  /** Bytes that are all there, within the file's size, are read exactly if they are in the first block, or there is an
      indirect block, or there is room for one: file_read allocates it before it looks at the direct slots. */
  lemma ReadHeldIff(st: State, f: nat, bytes: seq<Byte>, off: nat)
    requires Inv(st) && f < |st.files| && Holds(st, f, off, bytes) && off + |bytes| <= st.files[f].size && bytes != []
    ensures Read(st, f, |bytes|, off).r == Ok(bytes)
            <==> off + |bytes| <= BLKSIZE || st.files[f].indirect != 0 || st.free != {}
    ensures Read(st, f, |bytes|, off).r.Ok? ==> Read(st, f, |bytes|, off).r == Ok(bytes)
  {
    var end := off + |bytes|;
    var s := ReadCorrect(st, f, |bytes|, off);
    assert ReadEnd(st.files[f].size, |bytes|, off) == end;
    HeldFitsIff(st, f, off, end, bytes);
    assert st.free != {} <==> |st.free| > 0;
    if s.r.Ok? {
      ExtendsKeeps(st, s.st, f);
      SameBytes(st, s.st, f, off, bytes, s.r.value);
    }
  }

  lemma SameBytes(st: State, st': State, f: nat, off: nat, bytes: seq<Byte>, found: seq<Byte>)
    requires f < |st.files| == |st'.files| && Holds(st, f, off, bytes) && Holds(st', f, off, found)
    requires |found| == |bytes| && Kept(st, st', f, 0, 0)
    ensures found == bytes
  {
    forall k | 0 <= k < |bytes|
      ensures found[k] == bytes[k]
    {
      var p := off + k;
      assert ByteAt(st, f, p) == Some(bytes[p - off]) && ByteAt(st', f, p) == Some(found[p - off]);
    }
  }

  /** What was written stays through any run that spares it, on the same file too; and it is read back exactly if, after
      that run, it lies in the first block, or the file has an indirect block, or there is room for one. */
  lemma WriteSurvivesRun(st: State, f: nat, buf: seq<Byte>, off: nat, ops: seq<Op>)
    requires Inv(st) && f < |st.files| && Write(st, f, buf, off).r.Ok?
    requires forall op :: op in ops ==> op.f < |st.files| && Spares(op, f, off, off + |buf|)
    ensures var st' := Run(Write(st, f, buf, off).st, ops);
            && Holds(st', f, off, buf)
            && (Read(st', f, |buf|, off).r == Ok(buf)
                <==> buf == [] || off + |buf| <= BLKSIZE || st'.files[f].indirect != 0 || st'.free != {})
  {
    var s := WriteCorrect(st, f, buf, off);
    RunSpares(s.st, ops, f, off, buf);
    RunKeepsInv(s.st, ops);
    if buf != [] {
      ReadHeldIff(Run(s.st, ops), f, buf, off);
    }
  }

  // ----- the truncation gap -----

  /** Shrinking a file twice leaks through the gap: the first cut frees the indirect block, so the second cut cannot
      reach blocks 1 to 9, and the file goes on naming them past its end. */
  lemma ShrinkTwiceLeavesBlocks(st: State, f: nat, mid: nat, newsize: nat, c: nat)
    requires Inv(st) && f < |st.files| && newsize < mid < st.files[f].size
    requires 0 < c && NBlocks(newsize) <= c < NBlocks(mid) <= NDIRECT
    ensures Lookup(SetSize(SetSize(st, f, mid), f, newsize), f, c) == Lookup(st, f, c)
  {
    var st1 := ShrinkCorrect(st, f, mid);
    var st2 := ShrinkCorrect(st1, f, newsize);
  }

  /** A disk of 8 blocks with one two-block file whose indirect block has been freed. */
  function GapExample(): State
  {
    State(8, {0, 1, 2}, {5, 6, 7}, seq(8, _ => ZeroBlock()),
        [Inode(2 * BLKSIZE, seq(NDIRECT, i => if 0 <= i < 2 then 3 + i else 0), 0)])
  }

  lemma GapExampleValid()
    ensures Inv(GapExample())
  {
    var st := GapExample();
    forall o | IsOwner(st, o)
      ensures Name(st, o) == if o == DirectOf(0, 0) then 3 else if o == DirectOf(0, 1) then 4 else 0
    {
    }
    forall b | 0 <= b < st.nblocks && b !in st.free && b !in st.reserved
      ensures Owned(st, b)
    {
      var o := if b == 3 then DirectOf(0, 0) else DirectOf(0, 1);
      assert IsOwner(st, o) && Name(st, o) == b;
    }
    assert Shape(st);
    assert Ownership(st);
  }

  /** Cut to nothing, that file still names block 4. */
  lemma GapExampleLeavesBlock()
    ensures Inv(GapExample())
    ensures Lookup(SetSize(GapExample(), 0, 0), 0, 0) == 0 && Lookup(SetSize(GapExample(), 0, 0), 0, 1) == 4
  {
    GapExampleValid();
    var st' := ShrinkCorrect(GapExample(), 0, 0);
  }

  /** Nor does file_flush write that block back, though it is within the file's size. */
  lemma GapExampleNotFlushed()
    ensures Inv(GapExample()) && Lookup(GapExample(), 0, 1) == 4 && 1 < NBlocks(GapExample().files[0].size)
    ensures 4 !in Flushed(GapExample(), 0, 1)
  {
    GapExampleValid();
    FlushesIff(GapExample(), 0, 1, 1);
  }

  /** The same disk with no block free. */
  function FullGapExample(): State
  {
    GapExample().(reserved := {0, 1, 2, 5, 6, 7}, free := {})
  }

  /** Block 4 is there and within the file, but it cannot be read. */
  lemma FullGapExampleUnreadable()
    ensures Inv(FullGapExample()) && Lookup(FullGapExample(), 0, 1) == 4
    ensures Read(FullGapExample(), 0, 1, BLKSIZE).r.Err?
  {
    var st := FullGapExample();
    GapExampleValid();
    forall o | IsOwner(st, o)
      ensures Name(st, o) == Name(GapExample(), o)
    {
    }
    NoOtherInUse(GapExample(), st);
    assert Lookup(st, 0, 1) == 4;
    var bytes := [Peek(st, 4)[0]];
    assert Holds(st, 0, BLKSIZE, bytes);
    ReadHeldIff(st, 0, bytes, BLKSIZE);
  }

  lemma NoOtherInUse(st: State, st': State)
    requires Inv(st) && st' == st.(reserved := st.reserved + st.free, free := {})
    ensures Inv(st')
  {
    forall o | IsOwner(st', o)
      ensures Name(st', o) == Name(st, o)
    {
    }
    forall b | 0 <= b < st'.nblocks && b !in st'.free && b !in st'.reserved
      ensures Owned(st', b)
    {
      assert Owned(st, b);
      var o :| IsOwner(st, o) && Name(st, o) == b;
      assert IsOwner(st', o);
    }
    forall f, j | 0 <= f < |st'.files| && 0 <= j < NINDIRECT && NBlocks(st'.files[f].size) <= NDIRECT + j
      ensures Name(st', SlotOf(f, j)) == 0
    {
      assert Name(st, SlotOf(f, j)) == 0;
    }
  }
}

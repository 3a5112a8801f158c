/** file_read and file_write: which bytes they move, which they leave alone, and when they succeed. */
module FsTransfer {
  import opened Basics
  import opened FsModel
  import opened FsOwnership
  import opened FsData

  /** Bytes of other files are the same; allocated bytes of f outside [lo, hi) are the same. */
  ghost predicate Kept(st: State, st': State, f: nat, lo: nat, hi: nat)
  {
    && SameFrame(st, st') && f < |st.files|
    && (forall g :: 0 <= g < |st.files| ==> st'.files[g].size == st.files[g].size)
    && (forall g :: 0 <= g < |st.files| && g != f ==> st'.files[g] == st.files[g])
    && (forall g, p :: 0 <= g < |st.files| && 0 <= p && g != f ==> ByteAt(st', g, p) == ByteAt(st, g, p))
    && (forall p :: 0 <= p && !(lo <= p < hi) && ByteAt(st, f, p).Some? ==> ByteAt(st', f, p) == ByteAt(st, f, p))
  }

  lemma ExtendsKeeps(st: State, st': State, f: nat)
    requires Extends(st, st', f)
    ensures Kept(st, st', f, 0, 0)
  {
    forall g, p | 0 <= g < |st.files| && 0 <= p && (g != f || ByteAt(st, g, p).Some?)
      ensures ByteAt(st', g, p) == ByteAt(st, g, p)
    {
      assert Lookup(st', g, p / BLKSIZE) == Lookup(st, g, p / BLKSIZE);
    }
  }

  /** Rewriting a data block of f changes that block's bytes and nothing else. */
  lemma PokeData(st: State, f: nat, bno: nat, data: Block)
    requires Inv(st) && f < |st.files| && Lookup(st, f, bno) != 0
    ensures var st' := Poke(st, Lookup(st, f, bno), data);
            && Inv(st') && SameFrame(st, st') && st'.files == st.files && st'.free == st.free
            && (forall g, c :: 0 <= g < |st.files| && 0 <= c ==> Lookup(st', g, c) == Lookup(st, g, c))
            && Peek(st', Lookup(st, f, bno)) == data
            && (forall g, c :: 0 <= g < |st.files| && 0 <= c && (g != f || c != bno) && Lookup(st, g, c) != 0
                    ==> Peek(st', Lookup(st, g, c)) == Peek(st, Lookup(st, g, c)))
  {
    var b := Lookup(st, f, bno);
    var st' := Poke(st, b, data);
    DataBlockIsApart(st, f, bno);
    PokeKeepsNames(st, b, data);
    NamesUnchanged(st, st');
    forall g, j | 0 <= g < |st'.files| && 0 <= j < NINDIRECT && NBlocks(st'.files[g].size) <= NDIRECT + j
      ensures Name(st', SlotOf(g, j)) == 0
    {
      assert Name(st, SlotOf(g, j)) == 0;
    }
    forall g, c | 0 <= g < |st.files| && 0 <= c
      ensures Lookup(st', g, c) == Lookup(st, g, c)
      ensures (g != f || c != bno) && Lookup(st, g, c) != 0
              ==> Peek(st', Lookup(st, g, c)) == Peek(st, Lookup(st, g, c))
    {
      if c < NDIRECT + NINDIRECT {
        var o := OwnerOf(g, SlotFor(c));
        assert IsOwner(st, o) && Name(st', o) == Name(st, o);
        assert (g != f || c != bno) ==> o != OwnerOf(f, SlotFor(bno));
      }
    }
  }

  lemma PokeBytes(st: State, f: nat, pos: nat, next: nat, bytes: seq<Byte>)
    requires next == pos + |bytes|
    requires Inv(st) && f < |st.files| && Lookup(st, f, pos / BLKSIZE) != 0 && pos % BLKSIZE + |bytes| <= BLKSIZE
    ensures var b := Lookup(st, f, pos / BLKSIZE);
            var st' := Poke(st, b, Splice(Peek(st, b), pos % BLKSIZE, bytes));
            && Inv(st') && Kept(st, st', f, pos, next) && st'.files == st.files && st'.free == st.free
            && (forall c :: 0 <= c ==> Lookup(st', f, c) == Lookup(st, f, c))
            && Holds(st', f, pos, bytes)
  {
    var b := Lookup(st, f, pos / BLKSIZE);
    var at := pos % BLKSIZE;
    var data := Splice(Peek(st, b), at, bytes);
    PokeData(st, f, pos / BLKSIZE, data);
    var st' := Poke(st, b, data);
    forall p | pos <= p < pos + |bytes|
      ensures ByteAt(st', f, p) == Some(bytes[p - pos])
    {
      assert p / BLKSIZE == pos / BLKSIZE && p % BLKSIZE == at + (p - pos);
      assert data[at + (p - pos)] == bytes[p - pos];
    }
    forall g, p | 0 <= g < |st.files| && 0 <= p && (g != f || !(pos <= p < pos + |bytes|))
      ensures ByteAt(st', g, p) == ByteAt(st, g, p)
    {
      assert Lookup(st', g, p / BLKSIZE) == Lookup(st, g, p / BLKSIZE);
      if g == f && p / BLKSIZE == pos / BLKSIZE {
        assert data[p % BLKSIZE] == Peek(st, b)[p % BLKSIZE];
      }
    }
  }

  // ----- how many blocks an access needs -----

  function Missing(st: State, f: nat, bno: nat, end: nat): nat
    requires f < |st.files|
    decreases end - bno
  {
    if bno >= end then 0 else (if Lookup(st, f, bno) == 0 then 1 else 0) + Missing(st, f, bno + 1, end)
  }

  /** Blocks to allocate before bytes [pos, end) of f are all backed, the indirect block included. */
  function Demand(st: State, f: nat, pos: nat, end: nat): nat
    requires f < |st.files|
  {
    if pos >= end then 0
    else Missing(st, f, pos / BLKSIZE, NBlocks(end)) + if st.files[f].indirect == 0 && end > BLKSIZE then 1 else 0
  }

  /** Every block of [pos, end) is in range and there is room for the missing ones. */
  predicate Fits(st: State, f: nat, pos: nat, end: nat)
    requires f < |st.files|
  {
    pos >= end || (end <= MAXFILESIZE && Demand(st, f, pos, end) <= |st.free|)
  }

  lemma {:induction false} MissingSame(st: State, st': State, f: nat, bno: nat, end: nat)
    requires f < |st.files| == |st'.files|
    requires forall c :: bno <= c < end ==> Lookup(st', f, c) == Lookup(st, f, c)
    ensures Missing(st', f, bno, end) == Missing(st, f, bno, end)
    decreases end - bno
  {
    if bno < end {
      MissingSame(st, st', f, bno + 1, end);
    }
  }

  /** One chunk uses up exactly its own share of the demand. */
  lemma DemandOfChunk(st: State, st': State, f: nat, pos: nat, next: nat, end: nat)
    requires f < |st.files| == |st'.files| && pos < end && next == pos + Chunk(pos, end)
    requires forall c :: 0 <= c != pos / BLKSIZE ==> Lookup(st', f, c) == Lookup(st, f, c)
    requires pos / BLKSIZE > 0 ==> st'.files[f].indirect != 0
    requires pos / BLKSIZE == 0 ==> st'.files[f].indirect == st.files[f].indirect
    ensures Demand(st, f, pos, end) == Need(st, f, pos / BLKSIZE) + Demand(st', f, next, end)
  {
    var bno := pos / BLKSIZE;
    MissingSame(st, st', f, bno + 1, NBlocks(end));
    if next < end {
      assert next / BLKSIZE == bno + 1;
    } else {
      assert NBlocks(end) == bno + 1;
      assert Missing(st, f, bno + 1, NBlocks(end)) == 0;
    }
  }

  lemma FitsChunk(st: State, st': State, f: nat, pos: nat, next: nat, end: nat)
    requires f < |st.files| == |st'.files| && pos < end && pos / BLKSIZE < NDIRECT + NINDIRECT
    requires next == pos + Chunk(pos, end)
    requires forall c :: 0 <= c != pos / BLKSIZE ==> Lookup(st', f, c) == Lookup(st, f, c)
    requires pos / BLKSIZE > 0 ==> st'.files[f].indirect != 0
    requires pos / BLKSIZE == 0 ==> st'.files[f].indirect == st.files[f].indirect
    requires Need(st, f, pos / BLKSIZE) <= |st.free| && |st'.free| == |st.free| - Need(st, f, pos / BLKSIZE)
    ensures Fits(st, f, pos, end) <==> Fits(st', f, next, end)
  {
    DemandOfChunk(st, st', f, pos, next, end);
    assert next >= end ==> end <= MAXFILESIZE;
  }

  // ----- file_write -----

  lemma BlockInFile(pos: nat, size: nat)
    requires pos < size
    ensures pos / BLKSIZE < NBlocks(size)
  {
  }

  /** One round of the loop of file_write. */
  lemma WriteChunk(st: State, f: nat, pos: nat, end: nat, next: nat, bytes: seq<Byte>) returns (st1: State)
    requires Inv(st) && f < |st.files| && pos < end <= st.files[f].size
    requires next == pos + Chunk(pos, end) == pos + |bytes| && GetBlock(st, f, pos / BLKSIZE).r.Ok?
    ensures WriteOne(st, f, pos, bytes) == Step(Ok(()), st1) && |st1.files| == |st.files|
    ensures Inv(st1) && Kept(st, st1, f, pos, next) && st1.files[f].size == st.files[f].size
    ensures Fits(st, f, pos, end) <==> Fits(st1, f, next, end)
    ensures Holds(st1, f, pos, bytes)
    ensures st.files[f].indirect != 0 || pos >= BLKSIZE ==> st1.files[f].indirect != 0
  {
    BlockInFile(pos, st.files[f].size);
    GetBlockAllocates(st, f, pos / BLKSIZE);
    var g := GetBlock(st, f, pos / BLKSIZE);
    st1 := PutChunk(st, g.st, f, pos, next, bytes);
    FitsChunk(st, st1, f, pos, next, end);
  }

  /** The first round of the loop, and the others. */
  lemma UnfoldWrite(st: State, f: nat, pos: nat, end: nat, next: nat, buf: seq<Byte>)
    requires f < |st.files| && end == pos + |buf| && buf != [] && next == pos + Chunk(pos, end)
    ensures var one := WriteOne(st, f, pos, buf[..next - pos]);
            WriteFrom(st, f, pos, buf) == if one.r.Err? then one else WriteFrom(one.st, f, next, buf[next - pos..])
  {
  }

  lemma PutChunk(st: State, st0: State, f: nat, pos: nat, next: nat, bytes: seq<Byte>) returns (st1: State)
    requires Inv(st0) && Extends(st, st0, f) && next == pos + |bytes|
    requires Lookup(st0, f, pos / BLKSIZE) != 0 && pos % BLKSIZE + |bytes| <= BLKSIZE
    ensures var b := Lookup(st0, f, pos / BLKSIZE);
            st1 == Poke(st0, b, Splice(Peek(st0, b), pos % BLKSIZE, bytes))
    ensures Inv(st1) && Kept(st, st1, f, pos, next) && st1.files == st0.files && st1.free == st0.free
    ensures forall c :: 0 <= c ==> Lookup(st1, f, c) == Lookup(st0, f, c)
    ensures Holds(st1, f, pos, bytes)
  {
    var b := Lookup(st0, f, pos / BLKSIZE);
    st1 := Poke(st0, b, Splice(Peek(st0, b), pos % BLKSIZE, bytes));
    ExtendsKeeps(st, st0, f);
    PokeBytes(st0, f, pos, next, bytes);
    KeptTransitive(st, st0, st1, f, pos, next);
  }

  lemma KeptTransitive(a: State, b: State, c: State, f: nat, lo: nat, hi: nat)
    requires Kept(a, b, f, 0, 0) && Kept(b, c, f, lo, hi)
    ensures Kept(a, c, f, lo, hi)
  {
    forall g, p | 0 <= g < |a.files| && 0 <= p && g != f
      ensures ByteAt(c, g, p) == ByteAt(a, g, p)
    {
      assert ByteAt(b, g, p) == ByteAt(a, g, p);
    }
    forall p | 0 <= p && !(lo <= p < hi) && ByteAt(a, f, p).Some?
      ensures ByteAt(c, f, p) == ByteAt(a, f, p)
    {
      assert ByteAt(b, f, p) == ByteAt(a, f, p);
    }
  }

  lemma {:induction false} WriteFromCorrect(st: State, f: nat, pos: nat, end: nat, buf: seq<Byte>) returns (s: Step<()>)
    requires Inv(st) && f < |st.files| && end == pos + |buf| <= st.files[f].size
    ensures s == WriteFrom(st, f, pos, buf)
    ensures Inv(s.st) && Kept(st, s.st, f, pos, end)
    ensures st.files[f].indirect != 0 ==> s.st.files[f].indirect != 0
    ensures s.r.Ok? <==> Fits(st, f, pos, end)
    ensures s.r.Ok? ==> Holds(s.st, f, pos, buf)
    ensures s.r.Ok? && pos < end && end > BLKSIZE ==> s.st.files[f].indirect != 0
    decreases |buf|
  {
    if buf == [] {
      s := Step(Ok(()), st);
    } else if GetBlock(st, f, pos / BLKSIZE).r.Ok? {
      var next := pos + Chunk(pos, end);
      UnfoldWrite(st, f, pos, end, next, buf);
      var st1 := WriteChunk(st, f, pos, end, next, buf[..next - pos]);
      s := WriteFromCorrect(st1, f, next, end, buf[next - pos..]);
      ComposeWrites(st, st1, s.st, f, pos, next, end, buf, s.r.Ok?);
    } else {
      s := WriteFails(st, f, pos, end, buf);
    }
  }

  lemma WriteFails(st: State, f: nat, pos: nat, end: nat, buf: seq<Byte>) returns (s: Step<()>)
    requires Inv(st) && f < |st.files| && end == pos + |buf| <= st.files[f].size && buf != []
    requires GetBlock(st, f, pos / BLKSIZE).r.Err?
    ensures s == WriteFrom(st, f, pos, buf) && s.r.Err?
    ensures Inv(s.st) && Kept(st, s.st, f, pos, end)
    ensures st.files[f].indirect != 0 ==> s.st.files[f].indirect != 0
    ensures !Fits(st, f, pos, end)
  {
    BlockInFile(pos, st.files[f].size);
    GetBlockAllocates(st, f, pos / BLKSIZE);
    ExtendsKeeps(st, GetBlock(st, f, pos / BLKSIZE).st, f);
    DemandOfFailure(st, f, pos, end);
    s := WriteFrom(st, f, pos, buf);
  }

  /** What cannot be allocated for the first block cannot be allocated for the whole range. */
  lemma DemandOfFailure(st: State, f: nat, pos: nat, end: nat)
    requires f < |st.files| && pos < end
    requires pos / BLKSIZE >= NDIRECT + NINDIRECT || Need(st, f, pos / BLKSIZE) > |st.free|
    ensures !Fits(st, f, pos, end)
  {
    assert Missing(st, f, pos / BLKSIZE, NBlocks(end)) >= if Lookup(st, f, pos / BLKSIZE) == 0 then 1 else 0;
  }

  lemma ComposeWrites(st: State, st1: State, st2: State, f: nat, pos: nat, next: nat, end: nat, buf: seq<Byte>,
      ok: bool)
    requires f < |st.files| && pos <= next <= end == pos + |buf|
    requires Kept(st, st1, f, pos, next) && Kept(st1, st2, f, next, end)
    requires Holds(st1, f, pos, buf[..next - pos])
    requires ok ==> Holds(st2, f, next, buf[next - pos..])
    ensures Kept(st, st2, f, pos, end)
    ensures ok ==> Holds(st2, f, pos, buf)
  {
    forall p | 0 <= p && !(pos <= p < end) && ByteAt(st, f, p).Some?
      ensures ByteAt(st2, f, p) == ByteAt(st, f, p)
    {
      assert ByteAt(st1, f, p) == ByteAt(st, f, p);
    }
    forall g, p | 0 <= g < |st.files| && 0 <= p && g != f
      ensures ByteAt(st2, g, p) == ByteAt(st, g, p)
    {
      assert ByteAt(st1, g, p) == ByteAt(st, g, p);
    }
    forall p | pos <= p < end && ok
      ensures ByteAt(st2, f, p) == Some(buf[p - pos])
    {
      if p < next {
        assert ByteAt(st1, f, p) == Some(buf[..next - pos][p - pos]);
      } else {
        assert ByteAt(st2, f, p) == Some(buf[next - pos..][p - next]);
      }
    }
  }

  // ----- file_read -----

  lemma ChunkInBlock(st: State, f: nat, pos: nat, end: nat) returns (chunk: seq<Byte>)
    requires f < |st.files| && pos < end && Lookup(st, f, pos / BLKSIZE) != 0
    ensures chunk == Peek(st, Lookup(st, f, pos / BLKSIZE))[pos % BLKSIZE..pos % BLKSIZE + Chunk(pos, end)]
    ensures Holds(st, f, pos, chunk)
  {
    var at := pos % BLKSIZE;
    chunk := Peek(st, Lookup(st, f, pos / BLKSIZE))[at..at + Chunk(pos, end)];
    forall p | pos <= p < pos + |chunk|
      ensures ByteAt(st, f, p) == Some(chunk[p - pos])
    {
      assert p / BLKSIZE == pos / BLKSIZE && p % BLKSIZE == at + (p - pos);
    }
  }

  /** One round of the loop of file_read. */
  lemma ReadChunk(st: State, f: nat, pos: nat, end: nat, next: nat) returns (st1: State, chunk: seq<Byte>)
    requires Inv(st) && f < |st.files| && pos < end <= st.files[f].size
    requires next == pos + Chunk(pos, end) && GetBlock(st, f, pos / BLKSIZE).r.Ok?
    ensures ReadOne(st, f, pos, end) == Step(Ok(chunk), st1) && next == pos + |chunk|
    ensures |st1.files| == |st.files|
    ensures Inv(st1) && Extends(st, st1, f)
    ensures Fits(st, f, pos, end) <==> Fits(st1, f, next, end)
    ensures Holds(st1, f, pos, chunk)
    ensures st.files[f].indirect != 0 || pos >= BLKSIZE ==> st1.files[f].indirect != 0
  {
    BlockInFile(pos, st.files[f].size);
    GetBlockAllocates(st, f, pos / BLKSIZE);
    st1 := GetBlock(st, f, pos / BLKSIZE).st;
    chunk := ChunkInBlock(st1, f, pos, end);
    FitsChunk(st, st1, f, pos, next, end);
  }

  /** The first round of the loop, and the others. */
  lemma UnfoldRead(st: State, f: nat, pos: nat, next: nat, end: nat)
    requires f < |st.files| && pos < end && next == pos + Chunk(pos, end)
    ensures var one := ReadOne(st, f, pos, end);
            ReadFrom(st, f, pos, end) == if one.r.Err? then one else Joined(one.r.value, ReadFrom(one.st, f, next, end))
  {
  }

  /** A read may allocate, but what it returns is what the file then holds. */
  lemma {:induction false} ReadFromCorrect(st: State, f: nat, pos: nat, end: nat) returns (s: Step<seq<Byte>>)
    requires Inv(st) && f < |st.files| && pos <= end <= st.files[f].size
    ensures s == ReadFrom(st, f, pos, end)
    ensures Inv(s.st) && Extends(st, s.st, f)
    ensures s.r.Ok? <==> Fits(st, f, pos, end)
    ensures s.r.Ok? ==> Holds(s.st, f, pos, s.r.value) && |s.r.value| == end - pos
    ensures s.r.Ok? && pos < end && end > BLKSIZE ==> s.st.files[f].indirect != 0
    decreases end - pos
  {
    if pos == end {
      s := Step(Ok([]), st);
    } else if GetBlock(st, f, pos / BLKSIZE).r.Ok? {
      var next := pos + Chunk(pos, end);
      UnfoldRead(st, f, pos, next, end);
      var st1, chunk := ReadChunk(st, f, pos, end, next);
      var rest := ReadFromCorrect(st1, f, next, end);
      ExtendsTransitive(st, st1, rest.st, f);
      if rest.r.Ok? {
        ComposeReads(st1, rest.st, f, pos, next, chunk, rest.r.value);
        s := Step(Ok(chunk + rest.r.value), rest.st);
      } else {
        s := rest;
      }
    } else {
      s := ReadFrom(st, f, pos, end);
      BlockInFile(pos, st.files[f].size);
      GetBlockAllocates(st, f, pos / BLKSIZE);
      DemandOfFailure(st, f, pos, end);
    }
  }

  ghost predicate Holds(st: State, f: nat, pos: nat, bytes: seq<Byte>)
    requires f < |st.files|
  {
    forall p {:trigger ByteAt(st, f, p)} :: pos <= p < pos + |bytes| ==> ByteAt(st, f, p) == Some(bytes[p - pos])
  }

  lemma ComposeReads(st1: State, st2: State, f: nat, pos: nat, next: nat, chunk: seq<Byte>, rest: seq<Byte>)
    requires Extends(st1, st2, f) && next == pos + |chunk|
    requires Holds(st1, f, pos, chunk) && Holds(st2, f, next, rest)
    ensures Holds(st2, f, pos, chunk + rest)
  {
    ExtendsKeeps(st1, st2, f);
    forall p | pos <= p < pos + |chunk + rest|
      ensures ByteAt(st2, f, p) == Some((chunk + rest)[p - pos])
    {
      if p < pos + |chunk| {
        assert ByteAt(st1, f, p) == Some(chunk[p - pos]);
      }
    }
  }

  // ----- which error comes back -----

  /** The part of the range that lies within the largest possible file. */
  function Reach(end: nat): nat
  {
    Min(end, MAXFILESIZE)
  }

  /** A range that does not fit fails for its size exactly if there is room for all of it that a file can have; else for
      want of room. */
  function Failure(st: State, f: nat, pos: nat, end: nat): Error
    requires f < |st.files|
  {
    if Fits(st, f, pos, Reach(end)) then Inval else NoDisk
  }

  lemma ChunkWithin(pos: nat, end: nat)
    requires pos < end && pos < MAXFILESIZE
    ensures pos < Reach(end) && Chunk(pos, Reach(end)) == Chunk(pos, end)
  {
  }

  lemma FirstFailure(st: State, f: nat, pos: nat, end: nat)
    requires Inv(st) && f < |st.files| && pos < end <= st.files[f].size && GetBlock(st, f, pos / BLKSIZE).r.Err?
    ensures GetBlock(st, f, pos / BLKSIZE).r == Err(Failure(st, f, pos, end))
  {
    var bno := pos / BLKSIZE;
    GetBlockAllocates(st, f, bno);
    var w, g := GetBlockCases(st, f, bno);
    WalkAllocates(st, f, bno);
    if bno < NDIRECT + NINDIRECT {
      ChunkWithin(pos, end);
      DemandOfFailure(st, f, pos, Reach(end));
    }
  }

  lemma LaterFailure(st: State, st1: State, f: nat, pos: nat, next: nat, end: nat)
    requires Inv(st) && f < |st.files| == |st1.files| && pos < end && next == pos + Chunk(pos, end)
    requires GetBlock(st, f, pos / BLKSIZE).r.Ok?
    requires var g := GetBlock(st, f, pos / BLKSIZE).st;
             && |g.files| == |st1.files| && st1.files[f].indirect == g.files[f].indirect && st1.free == g.free
             && forall c :: 0 <= c ==> Lookup(st1, f, c) == Lookup(g, f, c)
    ensures Failure(st1, f, next, end) == Failure(st, f, pos, end)
  {
    GetBlockAllocates(st, f, pos / BLKSIZE);
    ChunkWithin(pos, end);
    FitsChunk(st, st1, f, pos, next, Reach(end));
  }

  lemma {:induction false} ReadFailure(st: State, f: nat, pos: nat, end: nat)
    requires Inv(st) && f < |st.files| && pos <= end <= st.files[f].size && ReadFrom(st, f, pos, end).r.Err?
    ensures ReadFrom(st, f, pos, end).r == Err(Failure(st, f, pos, end))
    decreases end - pos
  {
    var next := pos + Chunk(pos, end);
    UnfoldRead(st, f, pos, next, end);
    if GetBlock(st, f, pos / BLKSIZE).r.Err? {
      FirstFailure(st, f, pos, end);
    } else {
      var st1, chunk := ReadChunk(st, f, pos, end, next);
      ReadFailure(st1, f, next, end);
      LaterFailure(st, st1, f, pos, next, end);
    }
  }

  /** Writing into the block adds none and frees none. */
  lemma WrittenSame(st: State, f: nat, pos: nat, end: nat, next: nat, bytes: seq<Byte>)
    requires Inv(st) && f < |st.files| && pos < end <= st.files[f].size
    requires next == pos + Chunk(pos, end) == pos + |bytes| && GetBlock(st, f, pos / BLKSIZE).r.Ok?
    ensures var g, st1 := GetBlock(st, f, pos / BLKSIZE).st, WriteOne(st, f, pos, bytes).st;
            && st1.files == g.files && st1.free == g.free
            && forall c :: 0 <= c ==> Lookup(st1, f, c) == Lookup(g, f, c)
  {
    BlockInFile(pos, st.files[f].size);
    GetBlockAllocates(st, f, pos / BLKSIZE);
    var st1 := PutChunk(st, GetBlock(st, f, pos / BLKSIZE).st, f, pos, next, bytes);
  }

  lemma {:induction false} WriteFailure(st: State, f: nat, pos: nat, end: nat, buf: seq<Byte>)
    requires Inv(st) && f < |st.files| && end == pos + |buf| <= st.files[f].size && WriteFrom(st, f, pos, buf).r.Err?
    ensures WriteFrom(st, f, pos, buf).r == Err(Failure(st, f, pos, end))
    decreases |buf|
  {
    var next := pos + Chunk(pos, end);
    UnfoldWrite(st, f, pos, end, next, buf);
    if GetBlock(st, f, pos / BLKSIZE).r.Err? {
      FirstFailure(st, f, pos, end);
    } else {
      var st1 := WriteChunk(st, f, pos, end, next, buf[..next - pos]);
      WriteFailure(st1, f, next, end, buf[next - pos..]);
      WrittenSame(st, f, pos, end, next, buf[..next - pos]);
      LaterFailure(st, st1, f, pos, next, end);
    }
  }
}

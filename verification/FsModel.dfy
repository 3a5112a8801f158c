/** The block file system of os_final_project/code/fs/fs.c as state and functions on it:
    a set of free blocks, the disk blocks as bytes, and a fixed set of files. */
module FsModel {
  import opened Basics

  // inc/fs.h and inc/mmu.h
  const BLKSIZE: nat := 4096
  const NDIRECT: nat := 10
  const NINDIRECT: nat := BLKSIZE / 4
  const MAXFILESIZE: nat := (NDIRECT + NINDIRECT) * BLKSIZE
  /** DISKSIZE / BLKSIZE, the most blocks check_super accepts. */
  const MAXBLOCKS: nat := 0xC000_0000 / BLKSIZE
  const WORD: nat := 0x1_0000_0000

  datatype Error = NotFound | NoDisk | Inval
  datatype Result<+T> = Ok(value: T) | Err(error: Error)

  type Byte = x: int | 0 <= x < 256
  type Block = b: seq<Byte> | |b| == BLKSIZE witness seq(BLKSIZE, _ => 0)
  type Directs = d: seq<nat> | |d| == NDIRECT witness seq(NDIRECT, _ => 0)

  /** struct File: a block pointer is in use iff it is not 0. */
  datatype Inode = Inode(size: nat, direct: Directs, indirect: nat)

  /** `reserved` holds block 0, the super block, the bitmap and whatever else no file may name. */
  datatype State = State(nblocks: nat, reserved: set<nat>, free: set<nat>, blocks: seq<Block>, files: seq<Inode>)

  /** What a call returns, and the state it leaves behind. */
  datatype Step<+T> = Step(r: Result<T>, st: State)

  /** What file_block_walk points its caller at. */
  datatype Slot = Direct(i: nat) | Indirect(j: nat)

  // ----- words inside a block -----

  function GetWord(b: Block, j: nat): nat
    requires j < NINDIRECT
  {
    (b[4 * j] as int) + 0x100 * (b[4 * j + 1] as int) + 0x1_0000 * (b[4 * j + 2] as int)
        + 0x100_0000 * (b[4 * j + 3] as int)
  }

  function PutWord(b: Block, j: nat, v: nat): Block
    requires j < NINDIRECT
  {
    b[4 * j := v % 0x100][4 * j + 1 := v / 0x100 % 0x100]
     [4 * j + 2 := v / 0x1_0000 % 0x100][4 * j + 3 := v / 0x100_0000 % 0x100]
  }

  function ZeroBlock(): (b: Block)
    ensures forall j :: 0 <= j < NINDIRECT ==> GetWord(b, j) == 0
  {
    seq(BLKSIZE, _ => 0)
  }

  lemma BytesOfWord(v: nat)
    requires v < WORD
    ensures v % 0x100 + 0x100 * (v / 0x100 % 0x100) + 0x1_0000 * (v / 0x1_0000 % 0x100)
            + 0x100_0000 * (v / 0x100_0000 % 0x100) == v
  {
    var q := v / 0x100;
    var r := q / 0x100;
    assert v == 0x100 * q + v % 0x100 && q == 0x100 * r + q % 0x100;
    assert r == v / 0x1_0000 && r == 0x100 * (r / 0x100) + r % 0x100;
    assert r / 0x100 == v / 0x100_0000 < 0x100;
  }

  lemma WordRoundTrip(b: Block, j: nat, v: nat, k: nat)
    requires j < NINDIRECT && k < NINDIRECT && v < WORD
    ensures GetWord(PutWord(b, j, v), k) == if k == j then v else GetWord(b, k)
  {
    var c := PutWord(b, j, v);
    if k == j {
      assert c[4 * j] == v % 0x100 && c[4 * j + 1] == v / 0x100 % 0x100;
      assert c[4 * j + 2] == v / 0x1_0000 % 0x100 && c[4 * j + 3] == v / 0x100_0000 % 0x100;
      BytesOfWord(v);
    } else {
      assert c[4 * k] == b[4 * k] && c[4 * k + 1] == b[4 * k + 1];
      assert c[4 * k + 2] == b[4 * k + 2] && c[4 * k + 3] == b[4 * k + 3];
    }
  }

  // ----- diskaddr: blocks by number -----

  function Peek(st: State, b: nat): Block
  {
    if b < |st.blocks| then st.blocks[b] else ZeroBlock()
  }

  function Poke(st: State, b: nat, data: Block): State
  {
    if b < |st.blocks| then st.(blocks := st.blocks[b := data]) else st
  }

  // ----- alloc_block and free_block -----

  /** The first free block from b on, or n. */
  function FirstFree(free: set<nat>, b: nat, n: nat): (r: nat)
    requires b <= n
    ensures b <= r <= n
    ensures r < n ==> r in free
    ensures forall c :: b <= c < r ==> c !in free
    decreases n - b
  {
    if b == n || b in free then b else FirstFree(free, b + 1, n)
  }

  function Alloc(st: State): Step<nat>
  {
    var b := FirstFree(st.free, 0, st.nblocks);
    if b == st.nblocks then Step(Err(NoDisk), st) else Step(Ok(b), st.(free := st.free - {b}))
  }

  function Free(st: State, b: nat): State
  {
    st.(free := st.free + {b})
  }

  // ----- file_block_walk and file_get_block -----

  function SlotFor(bno: nat): Slot
  {
    if bno < NDIRECT then Direct(bno) else Indirect(bno - NDIRECT)
  }

  predicate ValidSlot(s: Slot)
  {
    match s case Direct(i) => i < NDIRECT case Indirect(j) => j < NINDIRECT
  }

  function SlotValue(st: State, f: nat, s: Slot): nat
    requires f < |st.files| && ValidSlot(s)
  {
    match s
    case Direct(i) => st.files[f].direct[i]
    case Indirect(j) => GetWord(Peek(st, st.files[f].indirect), j)
  }

  function SetSlot(st: State, f: nat, s: Slot, v: nat): State
    requires f < |st.files| && ValidSlot(s)
  {
    match s
    case Direct(i) => st.(files := st.files[f := st.files[f].(direct := st.files[f].direct[i := v])])
    case Indirect(j) =>
      var b := st.files[f].indirect;
      Poke(st, b, PutWord(Peek(st, b), j, v))
  }

  function SetIndirect(st: State, f: nat, b: nat): State
    requires f < |st.files|
  {
    st.(files := st.files[f := st.files[f].(indirect := b)])
  }

  /** The guard reads `filebno > NDIRECT / BLKSIZE`, which is `filebno > 0`: block 1 of a file already needs the
      indirect block. */
  predicate NeedsIndirect(st: State, f: nat, bno: nat)
    requires f < |st.files|
  {
    bno > NDIRECT / BLKSIZE && st.files[f].indirect == 0
  }

  function Walk(st: State, f: nat, bno: nat, alloc: bool): (w: Step<Slot>)
    requires f < |st.files|
    ensures |w.st.files| == |st.files|
    ensures w.r.Ok? ==> bno < NDIRECT + NINDIRECT && w.r.value == SlotFor(bno)
  {
    if bno >= NDIRECT + NINDIRECT then Step(Err(Inval), st)
    else if NeedsIndirect(st, f, bno) then
      if alloc then
        var a := Alloc(st);
        if a.r.Err? then Step(Err(a.r.error), a.st)
        else Step(Ok(SlotFor(bno)), Poke(SetIndirect(a.st, f, a.r.value), a.r.value, ZeroBlock()))
      else Step(Err(NotFound), st)
    else Step(Ok(SlotFor(bno)), st)
  }

  function GetBlock(st: State, f: nat, bno: nat): (g: Step<nat>)
    requires f < |st.files|
    ensures |g.st.files| == |st.files|
  {
    var w := Walk(st, f, bno, true);
    if w.r.Err? then Step(Err(w.r.error), w.st)
    else if SlotValue(w.st, f, w.r.value) != 0 then Step(Ok(SlotValue(w.st, f, w.r.value)), w.st)
    else
      var a := Alloc(w.st);
      if a.r.Err? then a else Step(a.r, SetSlot(a.st, f, w.r.value, a.r.value))
  }

  // ----- file_read and file_write -----

  /** Length of the piece of [pos, end) that lies in one block. */
  function Chunk(pos: nat, end: nat): (n: nat)
    requires pos < end
    ensures 0 < n <= end - pos && pos % BLKSIZE + n <= BLKSIZE
  {
    Min(BLKSIZE - pos % BLKSIZE, end - pos)
  }

  function Splice(data: Block, at: nat, bytes: seq<Byte>): (r: Block)
    requires at + |bytes| <= BLKSIZE
  {
    data[..at] + bytes + data[at + |bytes|..]
  }

  /** The bytes of the first part of a read in front of the outcome of the rest. */
  function Joined(first: seq<Byte>, rest: Step<seq<Byte>>): Step<seq<Byte>>
  {
    if rest.r.Err? then rest else Step(Ok(first + rest.r.value), rest.st)
  }

  /** One round of the loop of file_read: the piece of [pos, end) that lies in one block. */
  function ReadOne(st: State, f: nat, pos: nat, end: nat): (s: Step<seq<Byte>>)
    requires f < |st.files| && pos < end
    ensures |s.st.files| == |st.files|
  {
    var g := GetBlock(st, f, pos / BLKSIZE);
    var at := pos % BLKSIZE;
    if g.r.Err? then Step(Err(g.r.error), g.st)
    else Step(Ok(Peek(g.st, g.r.value)[at..at + Chunk(pos, end)]), g.st)
  }

  function ReadFrom(st: State, f: nat, pos: nat, end: nat): (s: Step<seq<Byte>>)
    requires f < |st.files|
    ensures |s.st.files| == |st.files|
    decreases end - pos
  {
    if pos >= end then Step(Ok([]), st)
    else
      var one := ReadOne(st, f, pos, end);
      if one.r.Err? then one else Joined(one.r.value, ReadFrom(one.st, f, pos + Chunk(pos, end), end))
  }

  /** Where a read of `count` bytes from `off` ends. */
  function ReadEnd(size: nat, count: nat, off: nat): (end: nat)
    requires off < size
    ensures off <= end <= size
  {
    off + Min(count, size - off)
  }

  /** Returns the bytes read; the count the source returns is their number. */
  function Read(st: State, f: nat, count: nat, off: nat): (s: Step<seq<Byte>>)
    requires f < |st.files|
    ensures |s.st.files| == |st.files|
  {
    if off >= st.files[f].size then Step(Ok([]), st)
    else ReadFrom(st, f, off, ReadEnd(st.files[f].size, count, off))
  }

  /** One round of the loop of file_write: bytes that fit into the block at pos. */
  function WriteOne(st: State, f: nat, pos: nat, bytes: seq<Byte>): (s: Step<()>)
    requires f < |st.files| && pos % BLKSIZE + |bytes| <= BLKSIZE
    ensures |s.st.files| == |st.files|
  {
    var g := GetBlock(st, f, pos / BLKSIZE);
    if g.r.Err? then Step(Err(g.r.error), g.st)
    else Step(Ok(()), Poke(g.st, g.r.value, Splice(Peek(g.st, g.r.value), pos % BLKSIZE, bytes)))
  }

  function WriteFrom(st: State, f: nat, pos: nat, buf: seq<Byte>): (s: Step<()>)
    requires f < |st.files|
    ensures |s.st.files| == |st.files|
    decreases |buf|
  {
    if buf == [] then Step(Ok(()), st)
    else
      var n := Chunk(pos, pos + |buf|);
      var one := WriteOne(st, f, pos, buf[..n]);
      if one.r.Err? then one else WriteFrom(one.st, f, pos + n, buf[n..])
  }

  function WriteEnd(buf: seq<Byte>, off: nat): (end: nat)
    ensures end == off + |buf|
  {
    off + |buf|
  }

  /** The file is made long enough to end at `end`. */
  function Grown(st: State, f: nat, end: nat): (st': State)
    requires f < |st.files|
    ensures |st'.files| == |st.files|
  {
    if end > st.files[f].size then SetSize(st, f, end) else st
  }

  function Write(st: State, f: nat, buf: seq<Byte>, off: nat): (s: Step<()>)
    requires f < |st.files|
    ensures |s.st.files| == |st.files|
  {
    WriteFrom(Grown(st, f, WriteEnd(buf, off)), f, off, buf)
  }

  // ----- file_free_block, file_truncate_blocks and file_set_size -----

  function FreeFileBlock(st: State, f: nat, bno: nat): (st': State)
    requires f < |st.files|
    ensures |st'.files| == |st.files|
  {
    var w := Walk(st, f, bno, false);
    if w.r.Err? then w.st
    else
      var v := SlotValue(w.st, f, w.r.value);
      if v == 0 then w.st else SetSlot(Free(w.st, v), f, w.r.value, 0)
  }

  function NBlocks(size: nat): nat { (size + BLKSIZE - 1) / BLKSIZE }

  function FreeRange(st: State, f: nat, bno: nat, end: nat): (st': State)
    requires f < |st.files|
    ensures |st'.files| == |st.files|
    decreases end - bno
  {
    if bno >= end then st else FreeRange(FreeFileBlock(st, f, bno), f, bno + 1, end)
  }

  function Truncate(st: State, f: nat, newsize: nat): (st': State)
    requires f < |st.files|
    ensures |st'.files| == |st.files|
  {
    var st1 := FreeRange(st, f, NBlocks(newsize), NBlocks(st.files[f].size));
    var b := st1.files[f].indirect;
    if NBlocks(newsize) <= NDIRECT && b != 0 then SetIndirect(Free(st1, b), f, 0) else st1
  }

  function SetSize(st: State, f: nat, newsize: nat): (st': State)
    requires f < |st.files|
    ensures |st'.files| == |st.files|
  {
    var st1 := if st.files[f].size > newsize then Truncate(st, f, newsize) else st;
    st1.(files := st1.files[f := st1.files[f].(size := newsize)])
  }
}

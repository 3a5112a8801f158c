/** fs.c run over the block cache of bc.c: every block it looks at is faulted in, every store goes to a page, and the
    bitmap and the file records are the ones in the cache. */
module CachedFs {
  import opened Basics
  import opened FsModel
  import C = CacheModel
  import D = CacheDurable

  // ----- bytes and bits of a block -----

  /** The number whose binary digits, the lowest first, are bits [from, from + n). */
  function Value(d: C.Bits, from: nat, n: nat): (v: nat)
    requires from + n <= C.BLKBITS
    ensures v < Pow2(n)
    decreases n
  {
    if n == 0 then 0 else (if d[from] then 1 else 0) + 2 * Value(d, from + 1, n - 1)
  }

  predicate Digit(v: nat, k: nat)
    decreases k
  {
    if k == 0 then v % 2 == 1 else Digit(v / 2, k - 1)
  }

  function ByteOf(d: C.Bits, i: nat): Byte
    requires i < BLKSIZE
  {
    assert Pow2(8) == 256;
    Value(d, 8 * i, 8)
  }

  function Bytes(d: C.Bits): Block
  {
    seq(BLKSIZE, i requires 0 <= i < BLKSIZE => ByteOf(d, i))
  }

  function BitsOf(b: Block): C.Bits
  {
    seq(C.BLKBITS, k requires 0 <= k < C.BLKBITS => Digit(b[k / 8], k % 8))
  }

  // ----- the cache under the file system -----

  type Cache = s: C.State | C.Sized(s) witness D.Crowded(3)

  /** The records of the files lie in the blocks `homes`, BLKFILES in each. */
  datatype Mem = Mem(homes: seq<nat>, cache: Cache)

  /** What a call returns, and what it leaves in memory and on the disk. */
  datatype Done<+T> = Done(r: Result<T>, m: Mem)

  predicate SameSizes(m: Mem, m': Mem)
  {
    m'.homes == m.homes && C.N(m'.cache) == C.N(m.cache)
  }

  /** diskaddr accepts the block number; otherwise it panics. */
  predicate OnDisk(m: Mem, b: nat)
  {
    0 < b < C.N(m.cache)
  }

  function Do(m: Mem, op: C.Op): Mem
    requires C.InRange(C.N(m.cache), op)
  {
    m.(cache := C.After(m.cache, op))
  }

  function BadNumber(m: Mem): Mem
  {
    m.(cache := m.cache.(panicked := true))
  }

  function Load(m: Mem, b: nat): (r: (Block, Mem))
    ensures SameSizes(m, r.1)
  {
    if OnDisk(m, b) then (Bytes(C.Touch(m.cache, b).page[b]), Do(m, C.Read(b))) else (ZeroBlock(), BadNumber(m))
  }

  function Save(m: Mem, b: nat, data: Block): (m': Mem)
    ensures SameSizes(m, m')
  {
    if OnDisk(m, b) then Do(m, C.Write(b, BitsOf(data))) else BadNumber(m)
  }

  function Alloc(m: Mem): (d: Done<nat>)
    ensures SameSizes(m, d.m)
  {
    var b := C.Alloc(m.cache).0;
    Done(if b == C.N(m.cache) then Err(NoDisk) else Ok(b), Do(m, C.AllocBlock))
  }

  function Free(m: Mem, b: nat): (m': Mem)
    ensures SameSizes(m, m')
  {
    if OnDisk(m, b) then Do(m, C.FreeBlock(b)) else BadNumber(m)
  }

  function Flush(m: Mem, b: nat): (m': Mem)
    ensures SameSizes(m, m')
  {
    if OnDisk(m, b) then Do(m, C.Flush(b)) else BadNumber(m)
  }

  // ----- struct File -----

  const BLKFILES: nat := 16

  /** off_t has 31 bits and a sign. */
  const MAXSIZE: nat := 0x8000_0000

  // in words: 32 of name, the size, the type, the direct blocks and the indirect block, padded to 64
  const RECORD: nat := 64
  const SIZE: nat := 32
  const DIRECT: nat := 34
  const INDIRECT: nat := 44

  predicate IsField(k: nat)
  {
    k == SIZE || DIRECT <= k <= INDIRECT
  }

  function WordOf(inode: Inode, k: nat): nat
    requires IsField(k)
  {
    if k == SIZE then inode.size else if k == INDIRECT then inode.indirect else inode.direct[k - DIRECT]
  }

  function WithWord(inode: Inode, k: nat, v: nat): (inode': Inode)
    requires IsField(k)
    ensures forall i :: IsField(i) ==> WordOf(inode', i) == if i == k then v else WordOf(inode, i)
  {
    if k == SIZE then inode.(size := v)
    else if k == INDIRECT then inode.(indirect := v)
    else inode.(direct := inode.direct[k - DIRECT := v])
  }

  function Home(homes: seq<nat>, f: nat): nat
  {
    if f / BLKFILES < |homes| then homes[f / BLKFILES] else 0
  }

  function WordAt(f: nat, k: nat): (j: nat)
    requires k < RECORD
    ensures j < NINDIRECT
  {
    RECORD * (f % BLKFILES) + k
  }

  function Field(m: Mem, f: nat, k: nat): (r: (nat, Mem))
    requires k < RECORD
    ensures SameSizes(m, r.1)
  {
    var (data, m1) := Load(m, Home(m.homes, f));
    (GetWord(data, WordAt(f, k)), m1)
  }

  function SetField(m: Mem, f: nat, k: nat, v: nat): (m': Mem)
    requires k < RECORD
    ensures SameSizes(m, m')
  {
    var (data, m1) := Load(m, Home(m.homes, f));
    Save(m1, Home(m.homes, f), PutWord(data, WordAt(f, k), v))
  }

  // ----- file_block_walk and file_get_block -----

  function LoadSlot(m: Mem, f: nat, s: Slot): (r: (nat, Mem))
    requires ValidSlot(s)
    ensures SameSizes(m, r.1)
  {
    match s
    case Direct(i) => Field(m, f, DIRECT + i)
    case Indirect(j) => LoadWord(m, f, j)
  }

  /** Word j of the indirect block. */
  function LoadWord(m: Mem, f: nat, j: nat): (r: (nat, Mem))
    requires j < NINDIRECT
    ensures SameSizes(m, r.1)
  {
    var (b, m1) := Field(m, f, INDIRECT);
    var (data, m2) := Load(m1, b);
    (GetWord(data, j), m2)
  }

  function StoreSlot(m: Mem, f: nat, s: Slot, v: nat): (m': Mem)
    requires ValidSlot(s)
    ensures SameSizes(m, m')
  {
    match s
    case Direct(i) => SetField(m, f, DIRECT + i, v)
    case Indirect(j) => StoreWord(m, f, j, v)
  }

  function StoreWord(m: Mem, f: nat, j: nat, v: nat): (m': Mem)
    requires j < NINDIRECT
    ensures SameSizes(m, m')
  {
    var (b, m1) := Field(m, f, INDIRECT);
    var (data, m2) := Load(m1, b);
    Save(m2, b, PutWord(data, j, v))
  }

  function Walk(m: Mem, f: nat, bno: nat, alloc: bool): (w: Done<Slot>)
    ensures SameSizes(m, w.m)
    ensures w.r.Ok? ==> bno < NDIRECT + NINDIRECT && w.r.value == SlotFor(bno)
  {
    if bno >= NDIRECT + NINDIRECT then Done(Err(Inval), m)
    else if bno > NDIRECT / BLKSIZE then
      var (b, m1) := Field(m, f, INDIRECT);
      if b != 0 then Done(Ok(SlotFor(bno)), m1)
      else if alloc then NewIndirect(m1, f, bno)
      else Done(Err(NotFound), m1)
    else Done(Ok(SlotFor(bno)), m)
  }

  function NewIndirect(m: Mem, f: nat, bno: nat): (w: Done<Slot>)
    ensures SameSizes(m, w.m) && (w.r.Ok? ==> w.r.value == SlotFor(bno))
  {
    var a := Alloc(m);
    if a.r.Err? then Done(Err(a.r.error), a.m)
    else Done(Ok(SlotFor(bno)), Save(SetField(a.m, f, INDIRECT, a.r.value), a.r.value, ZeroBlock()))
  }

  function GetBlock(m: Mem, f: nat, bno: nat): (g: Done<nat>)
    ensures SameSizes(m, g.m)
  {
    var w := Walk(m, f, bno, true);
    if w.r.Err? then Done(Err(w.r.error), w.m)
    else
      var (v, m1) := LoadSlot(w.m, f, w.r.value);
      if v != 0 then Done(Ok(v), m1) else Fill(m1, f, w.r.value)
  }

  /** Put a new block into an empty slot. */
  function Fill(m: Mem, f: nat, s: Slot): (d: Done<nat>)
    requires ValidSlot(s)
    ensures SameSizes(m, d.m)
  {
    var a := Alloc(m);
    if a.r.Err? then a else Done(a.r, StoreSlot(a.m, f, s, a.r.value))
  }

  // ----- file_read and file_write -----

  /** The bytes of the first part of a read in front of the outcome of the rest. */
  function Joined(first: seq<Byte>, rest: Done<seq<Byte>>): Done<seq<Byte>>
  {
    if rest.r.Err? then rest else Done(Ok(first + rest.r.value), rest.m)
  }

  /** Where the next block of [pos, end) begins, or end. */
  function Next(pos: nat, end: nat): (next: nat)
    requires pos < end
    ensures pos < next == pos + Chunk(pos, end) <= end
  {
    pos + Chunk(pos, end)
  }

  function ReadOne(m: Mem, f: nat, pos: nat, end: nat): (d: Done<seq<Byte>>)
    requires pos < end
    ensures SameSizes(m, d.m)
  {
    var g := GetBlock(m, f, pos / BLKSIZE);
    if g.r.Err? then Done(Err(g.r.error), g.m)
    else
      var (data, m1) := Load(g.m, g.r.value);
      var at := pos % BLKSIZE;
      Done(Ok(data[at..at + Chunk(pos, end)]), m1)
  }

  function ReadFrom(m: Mem, f: nat, pos: nat, end: nat): (d: Done<seq<Byte>>)
    ensures SameSizes(m, d.m)
    decreases end - pos
  {
    if pos >= end then Done(Ok([]), m)
    else
      var one := ReadOne(m, f, pos, end);
      if one.r.Err? then one else Joined(one.r.value, ReadFrom(one.m, f, Next(pos, end), end))
  }

  function Read(m: Mem, f: nat, count: nat, off: nat): (d: Done<seq<Byte>>)
    ensures SameSizes(m, d.m)
  {
    var (size, m1) := Field(m, f, SIZE);
    if off >= size then Done(Ok([]), m1) else ReadFrom(m1, f, off, ReadEnd(size, count, off))
  }

  function WriteOne(m: Mem, f: nat, pos: nat, bytes: seq<Byte>): (d: Done<()>)
    requires pos % BLKSIZE + |bytes| <= BLKSIZE
    ensures SameSizes(m, d.m)
  {
    var g := GetBlock(m, f, pos / BLKSIZE);
    if g.r.Err? then Done(Err(g.r.error), g.m)
    else
      var (data, m1) := Load(g.m, g.r.value);
      Done(Ok(()), Save(m1, g.r.value, Splice(data, pos % BLKSIZE, bytes)))
  }

  /** The bytes that go into the block at pos. */
  function Front(pos: nat, end: nat, buf: seq<Byte>): (front: seq<Byte>)
    requires pos < end == pos + |buf|
    ensures front == buf[..Next(pos, end) - pos] && pos + |front| == Next(pos, end)
    ensures pos % BLKSIZE + |front| <= BLKSIZE
  {
    buf[..Next(pos, end) - pos]
  }

  /** The bytes after those. */
  function Back(pos: nat, end: nat, buf: seq<Byte>): (back: seq<Byte>)
    requires pos < end == pos + |buf|
    ensures back == buf[Next(pos, end) - pos..] && end == Next(pos, end) + |back|
  {
    buf[Next(pos, end) - pos..]
  }

  function WriteFrom(m: Mem, f: nat, pos: nat, end: nat, buf: seq<Byte>): (d: Done<()>)
    requires end == pos + |buf|
    ensures SameSizes(m, d.m)
    decreases end - pos
  {
    if pos >= end then Done(Ok(()), m)
    else
      var one := WriteOne(m, f, pos, Front(pos, end, buf));
      if one.r.Err? then one else WriteFrom(one.m, f, Next(pos, end), end, Back(pos, end, buf))
  }

  function Grown(m: Mem, f: nat, end: nat): (m': Mem)
    ensures SameSizes(m, m')
  {
    var (size, m1) := Field(m, f, SIZE);
    if end > size then SetSize(m1, f, end) else m1
  }

  function Write(m: Mem, f: nat, buf: seq<Byte>, off: nat): (d: Done<()>)
    ensures SameSizes(m, d.m)
  {
    WriteFrom(Grown(m, f, WriteEnd(buf, off)), f, off, WriteEnd(buf, off), buf)
  }

  // ----- file_free_block, file_truncate_blocks and file_set_size -----

  function FreeFileBlock(m: Mem, f: nat, bno: nat): (m': Mem)
    ensures SameSizes(m, m')
  {
    var w := Walk(m, f, bno, false);
    if w.r.Err? then w.m else FreeSlot(w.m, f, w.r.value)
  }

  function FreeSlot(m: Mem, f: nat, s: Slot): (m': Mem)
    requires ValidSlot(s)
    ensures SameSizes(m, m')
  {
    var (v, m1) := LoadSlot(m, f, s);
    if v == 0 then m1 else StoreSlot(Free(m1, v), f, s, 0)
  }

  function FreeRange(m: Mem, f: nat, bno: nat, end: nat): (m': Mem)
    ensures SameSizes(m, m')
    decreases end - bno
  {
    if bno >= end then m else FreeRange(FreeFileBlock(m, f, bno), f, bno + 1, end)
  }

  function Truncate(m: Mem, f: nat, newsize: nat): (m': Mem)
    ensures SameSizes(m, m')
  {
    var (size, m1) := Field(m, f, SIZE);
    var m2 := FreeRange(m1, f, NBlocks(newsize), NBlocks(size));
    if NBlocks(newsize) <= NDIRECT then DropIndirect(m2, f) else m2
  }

  function DropIndirect(m: Mem, f: nat): (m': Mem)
    ensures SameSizes(m, m')
  {
    var (b, m1) := Field(m, f, INDIRECT);
    if b != 0 then SetField(Free(m1, b), f, INDIRECT, 0) else m1
  }

  function SetSize(m: Mem, f: nat, newsize: nat): (m': Mem)
    ensures SameSizes(m, m')
  {
    var (size, m1) := Field(m, f, SIZE);
    NewSize(if size > newsize then Truncate(m1, f, newsize) else m1, f, newsize)
  }

  /** The size is stored, and the record's block flushed. */
  function NewSize(m: Mem, f: nat, newsize: nat): (m': Mem)
    ensures SameSizes(m, m')
  {
    Flush(SetField(m, f, SIZE, newsize), Home(m.homes, f))
  }
}

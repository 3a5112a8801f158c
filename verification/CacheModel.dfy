/** The block cache of os_final_project/code/fs/bc.c under the bitmap allocator of fs.c.
    A block's contents are its bits, so that the bitmap is a block like any other. */
module CacheModel {

  /** BLKBITSIZE of fs.h: the bits in one block. */
  const BLKBITS: nat := 32768

  type Bits = b: seq<bool> | |b| == BLKBITS witness seq(BLKBITS, _ => false)

  /** The disk, and the pages of the block cache with their PTE_P and PTE_D bits.  A panic ends the program: nothing
      happens after it. */
  datatype State = State(disk: seq<Bits>, page: seq<Bits>, mapped: seq<bool>, dirty: seq<bool>, panicked: bool)

  /** s_nblocks. */
  function N(s: State): nat
  {
    |s.disk|
  }

  // ----- the bitmap, from block 2 on; a set bit is a free block -----

  function BitBlock(b: nat): (k: nat)
    ensures k >= 2 && (b > 2 ==> k < b) && (b <= 2 ==> k == 2)
  {
    2 + b / BLKBITS
  }

  /** The bitmap fits on the disk. */
  predicate Fits(n: nat)
    ensures Fits(n) ==> forall b :: 0 <= b < n ==> BitBlock(b) < n
  {
    n > 2 && BitBlock(n - 1) < n
  }

  predicate FreeIn(blocks: seq<Bits>, b: nat)
    requires BitBlock(b) < |blocks|
  {
    blocks[BitBlock(b)][b % BLKBITS]
  }

  predicate Sized(s: State)
  {
    |s.disk| == |s.page| == |s.mapped| == |s.dirty| && Fits(|s.disk|)
  }

  /** What a read of the block sees. */
  function Logical(s: State, b: nat): Bits
    requires Sized(s) && b < N(s)
  {
    if s.mapped[b] then s.page[b] else s.disk[b]
  }

  function View(s: State): (v: seq<Bits>)
    requires Sized(s)
    ensures |v| == N(s) && forall b :: 0 <= b < |v| ==> v[b] == Logical(s, b)
  {
    seq(N(s), b requires 0 <= b < N(s) => Logical(s, b))
  }

  // ----- bc.c -----

  /** Read the block in, clean. */
  function MapIn(s: State, b: nat): (s': State)
    requires Sized(s) && b < N(s)
    ensures Sized(s') && N(s') == N(s) && s'.mapped[b]
  {
    s.(page := s.page[b := s.disk[b]], mapped := s.mapped[b := true], dirty := s.dirty[b := false])
  }

  /** bc_pgfault: read the block in, then look at its bit, which may fault the bitmap block in; a free block panics. */
  function Fault(s: State, b: nat): (s': State)
    requires Sized(s) && b < N(s)
    ensures Sized(s') && N(s') == N(s)
    decreases if b < 2 then 3 else b
  {
    var s1 := MapIn(s, b);
    var s2 := if s1.mapped[BitBlock(b)] then s1 else Fault(s1, BitBlock(b));
    if FreeIn(s2.page, b) then s2.(panicked := true) else s2
  }

  function Touch(s: State, b: nat): (s': State)
    requires Sized(s) && b < N(s)
    ensures Sized(s') && N(s') == N(s)
  {
    if s.panicked || s.mapped[b] then s else Fault(s, b)
  }

  /** A store to a mapped page sets its dirty bit. */
  function SetPage(s: State, b: nat, data: Bits): (s': State)
    requires Sized(s) && b < N(s)
    ensures Sized(s') && N(s') == N(s)
  {
    s.(page := s.page[b := data], dirty := s.dirty[b := true])
  }

  function Store(s: State, b: nat, data: Bits): (s': State)
    requires Sized(s) && b < N(s)
    ensures Sized(s') && N(s') == N(s)
  {
    var s1 := Touch(s, b);
    if s1.panicked then s1 else SetPage(s1, b, data)
  }

  function FlushBlock(s: State, b: nat): (s': State)
    requires Sized(s) && b < N(s)
    ensures Sized(s') && N(s') == N(s)
  {
    if !s.panicked && s.mapped[b] && s.dirty[b] then s.(disk := s.disk[b := s.page[b]], dirty := s.dirty[b := false])
    else s
  }

  /** sys_page_unmap. */
  function Unmap(s: State, b: nat): (s': State)
    requires Sized(s) && b < N(s)
    ensures Sized(s') && N(s') == N(s)
  {
    if s.panicked then s else s.(mapped := s.mapped[b := false], dirty := s.dirty[b := false])
  }

  /** fs_sync from block i on. */
  function Sync(s: State, i: nat): (s': State)
    requires Sized(s)
    ensures Sized(s') && N(s') == N(s)
    decreases N(s) - i
  {
    if i >= N(s) then s else Sync(FlushBlock(s, i), i + 1)
  }

  // ----- fs.c -----

  function SetFree(s: State, b: nat, free: bool): (s': State)
    requires Sized(s) && b < N(s)
    ensures Sized(s') && N(s') == N(s)
  {
    var s1 := Touch(s, BitBlock(b));
    Store(s1, BitBlock(b), s1.page[BitBlock(b)][b % BLKBITS := free])
  }

  /** alloc_block's search from block b on: the first free block, and the bitmap blocks it had to read. */
  function Search(s: State, b: nat): (r: (nat, State))
    requires Sized(s) && b <= N(s)
    ensures Sized(r.1) && N(r.1) == N(s) && b <= r.0 <= N(s)
    decreases N(s) - b
  {
    if b == N(s) then (b, s)
    else
      var s1 := Touch(s, BitBlock(b));
      if s1.panicked || FreeIn(s1.page, b) then (b, s1) else Search(s1, b + 1)
  }

  /** alloc_block: the changed bitmap is flushed, but only its first block. */
  function Alloc(s: State): (r: (nat, State))
    requires Sized(s)
    ensures Sized(r.1) && N(r.1) == N(s) && r.0 <= N(s)
  {
    var (b, s1) := Search(s, 0);
    if b == N(s) then (b, s1) else (b, FlushBlock(SetFree(s1, b, false), 2))
  }

  // ----- runs -----

  datatype Op =
    | Read(b: nat)
    | Write(b: nat, data: Bits)
    | Flush(b: nat)
    | Evict(b: nat)       // flush, then unmap
    | SyncAll
    | AllocBlock
    | FreeBlock(b: nat)

  datatype Reply = Contents(data: Bits) | Done | Allocated(b: nat) | NoDisk | Panic

  predicate InRange(n: nat, op: Op)
  {
    match op
    case Read(b) => 1 <= b < n
    case Write(b, _) => 1 <= b < n
    case Flush(b) => 1 <= b < n
    case Evict(b) => 1 <= b < n
    case SyncAll => true
    case AllocBlock => true
    case FreeBlock(b) => 1 <= b < n
  }

  function After(s: State, op: Op): (s': State)
    requires Sized(s) && InRange(N(s), op)
    ensures Sized(s') && N(s') == N(s)
  {
    match op
    case Read(b) => Touch(s, b)
    case Write(b, data) => Store(s, b, data)
    case Flush(b) => FlushBlock(s, b)
    case Evict(b) => Unmap(FlushBlock(s, b), b)
    case SyncAll => Sync(s, 1)
    case AllocBlock => Alloc(s).1
    case FreeBlock(b) => SetFree(s, b, true)
  }

  /** Every operation that faults may panic. */
  function Answer(s: State, op: Op): Reply
    requires Sized(s) && InRange(N(s), op)
  {
    if After(s, op).panicked then Panic
    else if op.Read? then Contents(After(s, op).page[op.b])
    else if op.AllocBlock? then (if Alloc(s).0 == N(s) then NoDisk else Allocated(Alloc(s).0))
    else Done
  }

  /** The same operation on a plain array of blocks. */
  function FirstFree(mem: seq<Bits>, b: nat): (r: nat)
    requires Fits(|mem|) && b <= |mem|
    ensures b <= r <= |mem|
    decreases |mem| - b
  {
    if b == |mem| || FreeIn(mem, b) then b else FirstFree(mem, b + 1)
  }

  function Mark(mem: seq<Bits>, b: nat, free: bool): (mem': seq<Bits>)
    requires BitBlock(b) < |mem|
    ensures |mem'| == |mem|
  {
    mem[BitBlock(b) := mem[BitBlock(b)][b % BLKBITS := free]]
  }

  function FlatApply(mem: seq<Bits>, op: Op): (r: (Reply, seq<Bits>))
    requires Fits(|mem|) && InRange(|mem|, op)
    ensures |r.1| == |mem|
  {
    match op
    case Read(b) => (Contents(mem[b]), mem)
    case Write(b, data) => (Done, mem[b := data])
    case Flush(_) => (Done, mem)
    case Evict(_) => (Done, mem)
    case SyncAll => (Done, mem)
    case AllocBlock =>
      var b := FirstFree(mem, 0);
      if b == |mem| then (NoDisk, mem) else (Allocated(b), Mark(mem, b, false))
    case FreeBlock(b) => (Done, Mark(mem, b, true))
  }

  /** The run ends at a panic. */
  function Run(s: State, ops: seq<Op>): (r: (seq<Reply>, State))
    requires Sized(s) && forall op :: op in ops ==> InRange(N(s), op)
    ensures Sized(r.1) && N(r.1) == N(s)
    decreases |ops|
  {
    if ops == [] then ([], s)
    else
      var reply, s1 := Answer(s, ops[0]), After(s, ops[0]);
      if reply.Panic? then ([reply], s1)
      else
        var (replies, s2) := Run(s1, ops[1..]);
        ([reply] + replies, s2)
  }

  function FlatRun(mem: seq<Bits>, ops: seq<Op>): (r: (seq<Reply>, seq<Bits>))
    requires Fits(|mem|) && forall op :: op in ops ==> InRange(|mem|, op)
    ensures |r.1| == |mem|
    decreases |ops|
  {
    if ops == [] then ([], mem)
    else
      var (reply, mem1) := FlatApply(mem, ops[0]);
      var (replies, mem2) := FlatRun(mem1, ops[1..]);
      ([reply] + replies, mem2)
  }
}

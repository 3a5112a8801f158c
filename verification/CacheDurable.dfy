/** What the bitmap on the disk says after a crash: which disks never lose an allocation. */
module CacheDurable {
  import opened CacheModel
  import opened CacheTheorems

  /** Whatever is in use in memory is in use on the disk. */
  ghost predicate Safe(disk: seq<Bits>, mem: seq<Bits>)
    requires |disk| == |mem| && Fits(|mem|)
  {
    forall b :: 0 <= b < |mem| && FreeIn(disk, b) ==> FreeIn(mem, b)
  }

  ghost predicate Durable(s: State)
    requires Sized(s)
  {
    Safe(s.disk, View(s))
  }

  /** A state of a running file system. */
  ghost predicate Running(s: State)
  {
    Coherent(s) && ReservedInUse(View(s)) && Durable(s)
  }

  // ----- steps that leave the disk alone -----

  lemma {:induction false} TouchDisk(s: State, b: nat)
    requires Sized(s) && b < N(s)
    ensures Touch(s, b).disk == s.disk
    decreases if b < 2 then 3 else b
  {
    var s1 := MapIn(s, b);
    if !s.panicked && !s.mapped[b] && !s1.mapped[BitBlock(b)] {
      TouchDisk(s1, BitBlock(b));
    }
  }

  lemma StoreDisk(s: State, b: nat, data: Bits)
    requires Sized(s) && b < N(s)
    ensures Store(s, b, data).disk == s.disk
  {
    TouchDisk(s, b);
  }

  lemma SetFreeDisk(s: State, b: nat, free: bool)
    requires Sized(s) && b < N(s)
    ensures SetFree(s, b, free).disk == s.disk
  {
    TouchDisk(s, BitBlock(b));
    var s1 := Touch(s, BitBlock(b));
    StoreDisk(s1, BitBlock(b), s1.page[BitBlock(b)][b % BLKBITS := free]);
  }

  lemma {:induction false} SearchDisk(s: State, b: nat)
    requires Sized(s) && b <= N(s)
    ensures Search(s, b).1.disk == s.disk
    decreases N(s) - b
  {
    if b < N(s) {
      TouchDisk(s, BitBlock(b));
      var s1 := Touch(s, BitBlock(b));
      if !s1.panicked && !FreeIn(s1.page, b) {
        SearchDisk(s1, b + 1);
      }
    }
  }

  // ----- what each step does to the two bitmaps -----

  lemma MarkBits(mem: seq<Bits>, b: nat, free: bool, c: nat)
    requires Fits(|mem|) && b < |mem| && c < |mem|
    ensures FreeIn(Mark(mem, b, free), c) == if c == b then free else FreeIn(mem, c)
  {
    assert BitBlock(c) == BitBlock(b) && c % BLKBITS == b % BLKBITS ==> c == b;
  }

  lemma SafeWhenFlushed(disk: seq<Bits>, disk': seq<Bits>, mem: seq<Bits>)
    requires Fits(|mem|) && PartlyFlushed(disk, disk', mem) && Safe(disk, mem)
    ensures Safe(disk', mem)
  {
    forall b | 0 <= b < |mem| && FreeIn(disk', b)
      ensures FreeIn(mem, b)
    {
      assert disk'[BitBlock(b)] == disk[BitBlock(b)] || disk'[BitBlock(b)] == mem[BitBlock(b)];
    }
  }

  lemma SafeAfterFree(disk: seq<Bits>, mem: seq<Bits>, b: nat)
    requires |disk| == |mem| && Fits(|mem|) && Safe(disk, mem) && b < |mem|
    ensures Safe(disk, Mark(mem, b, true))
  {
    forall c | 0 <= c < |mem| && FreeIn(disk, c)
      ensures FreeIn(Mark(mem, b, true), c)
    {
      MarkBits(mem, b, true, c);
    }
  }

  lemma SafeAfterWrite(disk: seq<Bits>, mem: seq<Bits>, b: nat, data: Bits)
    requires |disk| == |mem| && Fits(|mem|) && Safe(disk, mem) && b < |mem| && (b == 1 || b >= FirstData(|mem|))
    ensures Safe(disk, mem[b := data])
  {
    forall c | 0 <= c < |mem| && FreeIn(disk, c)
      ensures FreeIn(mem[b := data], c)
    {
      assert FreeIn(mem, c) && 1 < BitBlock(c) < FirstData(|mem|);
    }
  }

  /** Taking block b with a flush of block 2 is safe exactly if b's bit is in block 2, or was cleared there before. */
  lemma SafeAfterAllocIff(disk: seq<Bits>, mem: seq<Bits>, b: nat)
    requires |disk| == |mem| && Fits(|mem|) && Safe(disk, mem) && b < |mem|
    ensures var mem' := Mark(mem, b, false);
            Safe(disk[2 := mem'[2]], mem') <==> b < BLKBITS || !FreeIn(disk, b)
  {
    var mem', disk' := Mark(mem, b, false), disk[2 := Mark(mem, b, false)[2]];
    MarkBits(mem, b, false, b);
    if b < BLKBITS || !FreeIn(disk, b) {
      forall c | 0 <= c < |mem| && FreeIn(disk', c)
        ensures FreeIn(mem', c)
      {
        MarkBits(mem, b, false, c);
      }
    } else {
      assert FreeIn(disk', b);
    }
  }

  lemma AllocDisk(s: State)
    requires Coherent(s) && ReservedInUse(View(s))
    ensures var b := FirstFree(View(s), 0);
            Alloc(s).1.disk == if b == N(s) then s.disk else s.disk[2 := Mark(View(s), b, false)[2]]
  {
    SearchShows(s, 0);
    SearchDisk(s, 0);
    var (b, s1) := Search(s, 0);
    if b < N(s) {
      SetFreeShows(s1, b, false);
      SetFreeDisk(s1, b, false);
      FlushShows(SetFree(s1, b, false), 2);
    }
  }

  /** For a bitmap of any size: an allocation keeps the disk's bitmap safe exactly when the lowest free block has its
      bit in the first bitmap block, the only one that is flushed, or was in use on the disk already. */
  lemma AllocIsDurableIff(s: State)
    requires Running(s)
    ensures var b := FirstFree(View(s), 0);
            Durable(Alloc(s).1) <==> b == N(s) || b < BLKBITS || !FreeIn(s.disk, b)
  {
    AllocShows(s);
    AllocDisk(s);
    var b := FirstFree(View(s), 0);
    if b < N(s) {
      SafeAfterAllocIff(s.disk, View(s), b);
    }
  }

  // ----- a bitmap of one block -----

  lemma DurableStep(s: State, op: Op)
    requires Running(s) && N(s) <= BLKBITS && Allowed(View(s), op)
    ensures Running(After(s, op))
  {
    ApplyShows(s, op);
    ReservedStep(View(s), op);
    match op
    case Read(b) =>
      TouchDisk(s, b);
    case Write(b, data) =>
      StoreDisk(s, b, data);
      SafeAfterWrite(s.disk, View(s), b, data);
    case Flush(b) =>
      FlushShows(s, b);
      SafeWhenFlushed(s.disk, FlushBlock(s, b).disk, View(s));
    case Evict(b) =>
      FlushShows(s, b);
      SafeWhenFlushed(s.disk, FlushBlock(s, b).disk, View(s));
    case SyncAll =>
      SyncShows(s, 1);
      SafeWhenFlushed(s.disk, Sync(s, 1).disk, View(s));
    case AllocBlock =>
      AllocIsDurableIff(s);
    case FreeBlock(b) =>
      SetFreeDisk(s, b, true);
      SafeAfterFree(s.disk, View(s), b);
  }

  /** With a bitmap of one block, at every point between calls a crash loses no allocation. */
  lemma {:induction false} AllocationsAreDurable(s: State, ops: seq<Op>)
    requires Running(s) && N(s) <= BLKBITS && AllowedRun(View(s), ops)
    ensures forall op :: op in ops ==> InRange(N(s), op)
    ensures Running(Run(s, ops).1)
    decreases |ops|
  {
    AllowedInRange(View(s), ops);
    if ops != [] {
      ApplyShows(s, ops[0]);
      DurableStep(s, ops[0]);
      AllocationsAreDurable(After(s, ops[0]), ops[1..]);
    }
  }

  // ----- larger bitmaps -----

  lemma {:induction false} SkipUsed(mem: seq<Bits>, b: nat, c: nat)
    requires Fits(|mem|) && b <= c <= |mem| && forall i :: b <= i < c ==> !FreeIn(mem, i)
    ensures FirstFree(mem, b) == FirstFree(mem, c)
    decreases c - b
  {
    if b < c {
      SkipUsed(mem, b + 1, c);
    }
  }

  function NoBits(): (d: Bits)
    ensures forall k :: 0 <= k < BLKBITS ==> !d[k]
  {
    seq(BLKBITS, _ => false)
  }

  function CrowdedDisk(n: nat): (disk: seq<Bits>)
    requires Fits(n)
    ensures |disk| == n
  {
    Mark(seq(n, _ => NoBits()), n - 1, true)
  }

  /** A disk of n blocks, none cached, on which only the last block is free. */
  function Crowded(n: nat): (s: State)
    requires Fits(n)
    ensures Sized(s) && N(s) == n
  {
    var disk := CrowdedDisk(n);
    State(disk, disk, seq(n, _ => false), seq(n, _ => false), false)
  }

  lemma CrowdedBits(n: nat, b: nat)
    requires Fits(n) && b < n
    ensures FreeIn(CrowdedDisk(n), b) <==> b == n - 1
  {
    MarkBits(seq(n, _ => NoBits()), n - 1, true, b);
  }

  lemma CrowdedIsRunning(n: nat)
    requires Fits(n) && n > BLKBITS
    ensures Running(Crowded(n)) && View(Crowded(n)) == CrowdedDisk(n) && FirstFree(CrowdedDisk(n), 0) == n - 1
  {
    var mem := CrowdedDisk(n);
    assert View(Crowded(n)) == mem;
    CrowdedBits(n, n - 1);
    forall b | 0 <= b < n - 1
      ensures !FreeIn(mem, b)
    {
      CrowdedBits(n, b);
    }
    SkipUsed(mem, 0, n - 1);
    assert FirstData(n) <= n - 1;
  }

  /** Disks with more than one bitmap block, of every size, can lose an allocation. */
  lemma LargeBitmapIsNotDurable(n: nat)
    requires Fits(n) && n > BLKBITS
    ensures Running(Crowded(n)) && AllowedRun(View(Crowded(n)), [AllocBlock])
    ensures Run(Crowded(n), [AllocBlock]).0 == [Allocated(n - 1)] && !Durable(Run(Crowded(n), [AllocBlock]).1)
  {
    var s := Crowded(n);
    CrowdedIsRunning(n);
    CrowdedBits(n, n - 1);
    AllocIsDurableIff(s);
    assert AllowedRun(FlatApply(View(s), AllocBlock).1, []);
    CacheIsTransparent(s, [AllocBlock]);
    assert Run(After(s, AllocBlock), []) == ([], After(s, AllocBlock));
  }

  ghost predicate StaysDurable(s: State, ops: seq<Op>)
    requires Sized(s) && AllowedRun(View(s), ops)
  {
    AllowedInRange(View(s), ops);
    Durable(Run(s, ops).1)
  }

  /** So the size of the disk decides. */
  lemma DurableForAllRunsIff(n: nat)
    requires Fits(n)
    ensures (forall s, ops :: Running(s) && N(s) == n && AllowedRun(View(s), ops) ==> StaysDurable(s, ops))
            <==> n <= BLKBITS
  {
    if n <= BLKBITS {
      forall s, ops | Running(s) && N(s) == n && AllowedRun(View(s), ops)
        ensures StaysDurable(s, ops)
      {
        AllocationsAreDurable(s, ops);
      }
    } else {
      LargeBitmapIsNotDurable(n);
      assert !StaysDurable(Crowded(n), [AllocBlock]);
    }
  }
}

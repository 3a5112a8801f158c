/** The block cache is transparent and never panics, fs_sync makes the disk current, and a one-block bitmap survives a
    crash. */
module CacheTheorems {
  import opened CacheModel

  /** A clean page equals its disk block, and only mapped pages are dirty. */
  ghost predicate CoherentAt(s: State, b: nat)
    requires Sized(s) && b < N(s)
  {
    (s.dirty[b] ==> s.mapped[b]) && (s.mapped[b] && !s.dirty[b] ==> s.page[b] == s.disk[b])
  }

  ghost predicate Coherent(s: State)
  {
    Sized(s) && !s.panicked && forall b :: 0 <= b < N(s) ==> CoherentAt(s, b)
  }

  /** s' is coherent and shows the blocks `v`. */
  ghost predicate Shows(s: State, v: seq<Bits>)
  {
    Coherent(s) && View(s) == v
  }

  /** The two states differ in block b at most. */
  predicate SameElsewhere(s: State, s': State, b: nat)
    requires Sized(s) && Sized(s') && b < N(s) == N(s')
  {
    && s'.disk == s.disk[b := s'.disk[b]] && s'.page == s.page[b := s'.page[b]]
    && s'.mapped == s.mapped[b := s'.mapped[b]] && s'.dirty == s.dirty[b := s'.dirty[b]]
    && s'.panicked == s.panicked
  }

  lemma ShowsChange(s: State, s': State, b: nat)
    requires Coherent(s) && Sized(s') && b < N(s) == N(s') && SameElsewhere(s, s', b) && CoherentAt(s', b)
    ensures Shows(s', View(s)[b := Logical(s', b)])
  {
    forall c | 0 <= c < N(s')
      ensures CoherentAt(s', c) && (c != b ==> Logical(s', c) == Logical(s, c))
    {
      assert CoherentAt(s, c);
    }
    assert View(s') == View(s)[b := Logical(s', b)];
  }

  // ----- faults -----

  /** Blocks before this one hold the boot sector, the super block and the bitmap. */
  function FirstData(n: nat): nat
    requires n > 0
  {
    BitBlock(n - 1) + 1
  }

  /** What check_bitmap checks. */
  ghost predicate ReservedInUse(mem: seq<Bits>)
  {
    Fits(|mem|) && forall b :: 0 <= b < FirstData(|mem|) ==> !FreeIn(mem, b)
  }

  lemma BitmapInUse(mem: seq<Bits>, b: nat)
    requires ReservedInUse(mem) && b < |mem|
    ensures !FreeIn(mem, BitBlock(b))
  {
    assert BitBlock(b) < FirstData(|mem|);
  }

  lemma MapInShows(s: State, b: nat)
    requires Coherent(s) && b < N(s) && !s.mapped[b]
    ensures Shows(MapIn(s, b), View(s))
  {
    assert CoherentAt(s, b);
    ShowsChange(s, MapIn(s, b), b);
  }

  lemma {:induction false} FaultMaps(s: State, b: nat, c: nat)
    requires Sized(s) && b < N(s) && c < N(s)
    ensures c == b || c == BitBlock(b) || s.mapped[c] ==> Fault(s, b).mapped[c]
    decreases if b < 2 then 3 else b
  {
    var s1 := MapIn(s, b);
    if !s1.mapped[BitBlock(b)] {
      FaultMaps(s1, BitBlock(b), c);
    }
  }

  /** Once the panic flag is set aside, a fault is invisible; and it panics exactly if the block is free. */
  ghost predicate FaultedIn(s: State, s': State, b: nat)
    requires Sized(s) && Sized(s') && b < N(s) == N(s')
  {
    Shows(s'.(panicked := false), View(s)) && (s'.panicked <==> FreeIn(View(s), b))
  }

  lemma PageIsView(s: State, v: seq<Bits>, b: nat)
    requires Sized(s) && View(s) == v && b < N(s) && s.mapped[b]
    ensures s.page[b] == v[b]
  {
  }

  lemma {:induction false} FaultPanicsIff(s: State, b: nat)
    requires Coherent(s) && ReservedInUse(View(s)) && b < N(s) && !s.mapped[b]
    ensures FaultedIn(s, Fault(s, b), b)
    decreases if b < 2 then 3 else b
  {
    MapInShows(s, b);
    var s1 := MapIn(s, b);
    BitmapInUse(View(s), b);
    if s1.mapped[BitBlock(b)] {
      PageIsView(s1, View(s), BitBlock(b));
    } else {
      FaultPanicsIff(s1, BitBlock(b));
      var s2 := Fault(s1, BitBlock(b));
      assert s2 == s2.(panicked := false);
      FaultMaps(s1, BitBlock(b), BitBlock(b));
      PageIsView(s2, View(s), BitBlock(b));
    }
  }

  /** A block read in from the disk panics exactly if it is free and not in the cache. */
  lemma TouchPanicsIff(s: State, b: nat)
    requires Coherent(s) && ReservedInUse(View(s)) && b < N(s)
    ensures Touch(s, b).panicked <==> !s.mapped[b] && FreeIn(View(s), b)
  {
    if !s.mapped[b] {
      FaultPanicsIff(s, b);
    }
  }

  /** Reading a block in makes no page dirty, and leaves those that were mapped before as they were. */
  lemma {:induction false} FaultIsClean(s: State, b: nat, c: nat)
    requires Sized(s) && b < N(s) && c < N(s) && !s.mapped[b]
    ensures Fault(s, b).dirty[c] ==> s.dirty[c] && c != b
    ensures s.mapped[c] ==> Fault(s, b).page[c] == s.page[c] && Fault(s, b).dirty[c] == s.dirty[c]
    decreases if b < 2 then 3 else b
  {
    var s1 := MapIn(s, b);
    if !s1.mapped[BitBlock(b)] {
      FaultIsClean(s1, BitBlock(b), c);
    }
  }

  // ----- single steps -----

  lemma TouchShows(s: State, b: nat)
    requires Coherent(s) && ReservedInUse(View(s)) && b < N(s) && !FreeIn(View(s), b)
    ensures Shows(Touch(s, b), View(s)) && Touch(s, b).mapped[b] && Touch(s, b).page[b] == View(s)[b]
  {
    if !s.mapped[b] {
      FaultPanicsIff(s, b);
      var s' := Touch(s, b);
      assert s' == s'.(panicked := false);
      FaultMaps(s, b, b);
      PageIsView(s', View(s), b);
    }
  }

  lemma StoreShows(s: State, b: nat, data: Bits)
    requires Coherent(s) && ReservedInUse(View(s)) && b < N(s) && !FreeIn(View(s), b)
    ensures Shows(Store(s, b, data), View(s)[b := data])
  {
    TouchShows(s, b);
    var s1 := Touch(s, b);
    assert CoherentAt(s1, b);
    ShowsChange(s1, SetPage(s1, b, data), b);
  }

  /** A flush changes nothing that can be seen, and on the disk this block only. */
  lemma FlushShows(s: State, b: nat)
    requires Coherent(s) && b < N(s)
    ensures Shows(FlushBlock(s, b), View(s)) && FlushBlock(s, b).disk == s.disk[b := View(s)[b]]
    ensures !FlushBlock(s, b).dirty[b]
  {
    assert CoherentAt(s, b);
    ShowsChange(s, FlushBlock(s, b), b);
  }

  /** Unmapping is invisible exactly when the page is not dirty, or its changes happen to be on the disk. */
  lemma UnmapShowsIff(s: State, b: nat)
    requires Coherent(s) && b < N(s)
    ensures Shows(Unmap(s, b), View(s)) <==> !s.dirty[b] || s.page[b] == s.disk[b]
  {
    assert CoherentAt(s, b);
    ShowsChange(s, Unmap(s, b), b);
    if s.dirty[b] && s.page[b] != s.disk[b] {
      assert View(Unmap(s, b))[b] != View(s)[b];
    }
  }

  lemma EvictShows(s: State, b: nat)
    requires Coherent(s) && b < N(s)
    ensures Shows(Unmap(FlushBlock(s, b), b), View(s))
  {
    FlushShows(s, b);
    UnmapShowsIff(FlushBlock(s, b), b);
  }

  /** Each block on the disk is as it was or as it is seen. */
  ghost predicate PartlyFlushed(disk: seq<Bits>, disk': seq<Bits>, v: seq<Bits>)
  {
    |disk| == |disk'| == |v| && forall b :: 0 <= b < |disk| ==> disk'[b] == disk[b] || disk'[b] == v[b]
  }

  /** fs_sync leaves every block from i on as it is seen, and the same on the disk. */
  lemma {:induction false} SyncShows(s: State, i: nat)
    requires Coherent(s)
    ensures Shows(Sync(s, i), View(s)) && PartlyFlushed(s.disk, Sync(s, i).disk, View(s))
    ensures forall b :: 0 <= b < N(s) && (b >= i || s.disk[b] == View(s)[b]) ==> Sync(s, i).disk[b] == View(s)[b]
    decreases N(s) - i
  {
    if i < N(s) {
      FlushShows(s, i);
      SyncShows(FlushBlock(s, i), i + 1);
    }
  }

  lemma SetFreeShows(s: State, b: nat, free: bool)
    requires Coherent(s) && ReservedInUse(View(s)) && b < N(s)
    ensures Shows(SetFree(s, b, free), Mark(View(s), b, free))
  {
    BitmapInUse(View(s), b);
    TouchShows(s, BitBlock(b));
    var s1 := Touch(s, BitBlock(b));
    StoreShows(s1, BitBlock(b), s1.page[BitBlock(b)][b % BLKBITS := free]);
  }

  lemma {:induction false} SearchShows(s: State, b: nat)
    requires Coherent(s) && ReservedInUse(View(s)) && b <= N(s)
    ensures Shows(Search(s, b).1, View(s)) && Search(s, b).0 == FirstFree(View(s), b)
    decreases N(s) - b
  {
    if b < N(s) {
      BitmapInUse(View(s), b);
      TouchShows(s, BitBlock(b));
      var s1 := Touch(s, BitBlock(b));
      if !FreeIn(s1.page, b) {
        SearchShows(s1, b + 1);
      }
    }
  }

  lemma AllocShows(s: State)
    requires Coherent(s) && ReservedInUse(View(s))
    ensures var b := FirstFree(View(s), 0);
            Alloc(s).0 == b && Shows(Alloc(s).1, if b == N(s) then View(s) else Mark(View(s), b, false))
  {
    SearchShows(s, 0);
    var (b, s1) := Search(s, 0);
    if b < N(s) {
      SetFreeShows(s1, b, false);
      FlushShows(SetFree(s1, b, false), 2);
    }
  }

  // ----- runs -----

  /** What the file system keeps to: it uses only allocated blocks, never writes the bitmap but through the allocator,
      and never frees a reserved block. */
  predicate Allowed(mem: seq<Bits>, op: Op)
    requires Fits(|mem|)
  {
    && InRange(|mem|, op)
    && (op.Read? ==> !FreeIn(mem, op.b))
    && (op.Write? ==> !FreeIn(mem, op.b) && (op.b == 1 || op.b >= FirstData(|mem|)))
    && (op.FreeBlock? ==> op.b >= FirstData(|mem|))
  }

  ghost predicate AllowedRun(mem: seq<Bits>, ops: seq<Op>)
    requires Fits(|mem|)
    decreases |ops|
  {
    ops != [] ==> Allowed(mem, ops[0]) && AllowedRun(FlatApply(mem, ops[0]).1, ops[1..])
  }

  lemma {:induction false} AllowedInRange(mem: seq<Bits>, ops: seq<Op>)
    requires Fits(|mem|) && AllowedRun(mem, ops)
    ensures forall op :: op in ops ==> InRange(|mem|, op)
    decreases |ops|
  {
    if ops != [] {
      AllowedInRange(FlatApply(mem, ops[0]).1, ops[1..]);
      forall op | op in ops
        ensures InRange(|mem|, op)
      {
        if op != ops[0] {
          assert op in ops[1..];
        }
      }
    }
  }

  /** The reserved blocks stay in use. */
  lemma ReservedStep(mem: seq<Bits>, op: Op)
    requires ReservedInUse(mem) && Allowed(mem, op)
    ensures ReservedInUse(FlatApply(mem, op).1)
  {
    var mem' := FlatApply(mem, op).1;
    forall b | 0 <= b < FirstData(|mem|)
      ensures !FreeIn(mem', b)
    {
      assert !FreeIn(mem, b) && 1 < BitBlock(b) < FirstData(|mem|);
    }
  }

  lemma ApplyShows(s: State, op: Op)
    requires Coherent(s) && ReservedInUse(View(s)) && Allowed(View(s), op)
    ensures Answer(s, op) == FlatApply(View(s), op).0 && Shows(After(s, op), FlatApply(View(s), op).1)
  {
    match op
    case Read(b) => TouchShows(s, b);
    case Write(b, data) => StoreShows(s, b, data);
    case Flush(b) => FlushShows(s, b);
    case Evict(b) => EvictShows(s, b);
    case SyncAll => SyncShows(s, 1);
    case AllocBlock => AllocShows(s);
    case FreeBlock(b) => SetFreeShows(s, b, true);
  }

  /** No interleaving of reads, writes, flushes, evictions, syncs and allocations tells the cache from a plain array. */
  lemma {:induction false} CacheIsTransparent(s: State, ops: seq<Op>)
    requires Coherent(s) && ReservedInUse(View(s)) && AllowedRun(View(s), ops)
    ensures forall op :: op in ops ==> InRange(N(s), op)
    ensures Run(s, ops).0 == FlatRun(View(s), ops).0 && Shows(Run(s, ops).1, FlatRun(View(s), ops).1)
    ensures ReservedInUse(FlatRun(View(s), ops).1)
    decreases |ops|
  {
    AllowedInRange(View(s), ops);
    if ops != [] {
      ApplyShows(s, ops[0]);
      ReservedStep(View(s), ops[0]);
      CacheIsTransparent(After(s, ops[0]), ops[1..]);
    }
  }

  lemma {:induction false} FlatRunAnswers(mem: seq<Bits>, ops: seq<Op>)
    requires Fits(|mem|) && forall op :: op in ops ==> InRange(|mem|, op)
    ensures Panic !in FlatRun(mem, ops).0 && |FlatRun(mem, ops).0| == |ops|
    decreases |ops|
  {
    if ops != [] {
      FlatRunAnswers(FlatApply(mem, ops[0]).1, ops[1..]);
    }
  }

  /** No fault of such a run panics, not even those on the bitmap, and so the run gets to its end. */
  lemma NoPanics(s: State, ops: seq<Op>)
    requires Coherent(s) && ReservedInUse(View(s)) && AllowedRun(View(s), ops)
    ensures forall op :: op in ops ==> InRange(N(s), op)
    ensures Panic !in Run(s, ops).0 && |Run(s, ops).0| == |ops| && !Run(s, ops).1.panicked
  {
    CacheIsTransparent(s, ops);
    FlatRunAnswers(View(s), ops);
  }

  // ----- crashes -----

  /** Only the disk is left. */
  function Crash(s: State): (s': State)
    requires Sized(s)
    ensures Sized(s')
  {
    s.(mapped := seq(N(s), _ => false), dirty := seq(N(s), _ => false), panicked := false)
  }

  lemma CrashShowsDisk(s: State)
    requires Sized(s)
    ensures View(Crash(s)) == s.disk
  {
  }

  lemma SyncMakesCurrent(s: State)
    requires Coherent(s) && !s.mapped[0]
    ensures Sync(s, 1).disk == View(s)
  {
    SyncShows(s, 1);
    assert View(s)[0] == s.disk[0];
  }

  /** After fs_sync a crash loses nothing but block 0, which the cache never holds. */
  lemma SyncSurvivesCrash(s: State)
    requires Coherent(s) && !s.mapped[0]
    ensures View(Crash(Sync(s, 1))) == View(s)
  {
    SyncMakesCurrent(s);
    CrashShowsDisk(Sync(s, 1));
  }

  // ----- block 0 is never in the cache -----

  lemma {:induction false} TouchSkipsZero(s: State, b: nat)
    requires Sized(s) && 0 < b < N(s)
    ensures Touch(s, b).mapped[0] == s.mapped[0]
    decreases if b < 2 then 3 else b
  {
    var s1 := MapIn(s, b);
    if !s.panicked && !s.mapped[b] && !s1.mapped[BitBlock(b)] {
      TouchSkipsZero(s1, BitBlock(b));
    }
  }

  lemma {:induction false} SearchSkipsZero(s: State, b: nat)
    requires Sized(s) && b <= N(s)
    ensures Search(s, b).1.mapped[0] == s.mapped[0]
    decreases N(s) - b
  {
    if b < N(s) {
      TouchSkipsZero(s, BitBlock(b));
      var s1 := Touch(s, BitBlock(b));
      if !s1.panicked && !FreeIn(s1.page, b) {
        SearchSkipsZero(s1, b + 1);
      }
    }
  }

  lemma {:induction false} SyncSkipsZero(s: State, i: nat)
    requires Sized(s)
    ensures Sync(s, i).mapped[0] == s.mapped[0]
    decreases N(s) - i
  {
    if i < N(s) {
      SyncSkipsZero(FlushBlock(s, i), i + 1);
    }
  }

  lemma SetFreeSkipsZero(s: State, b: nat, free: bool)
    requires Sized(s) && b < N(s)
    ensures SetFree(s, b, free).mapped[0] == s.mapped[0]
  {
    TouchSkipsZero(s, BitBlock(b));
    TouchSkipsZero(Touch(s, BitBlock(b)), BitBlock(b));
  }

  lemma StepSkipsZero(s: State, op: Op)
    requires Sized(s) && InRange(N(s), op)
    ensures After(s, op).mapped[0] == s.mapped[0]
  {
    match op
    case Read(b) => TouchSkipsZero(s, b);
    case Write(b, _) => TouchSkipsZero(s, b);
    case Flush(_) =>
    case Evict(_) =>
    case SyncAll => SyncSkipsZero(s, 1);
    case AllocBlock =>
      SearchSkipsZero(s, 0);
      var (b, s1) := Search(s, 0);
      if b < N(s) {
        SetFreeSkipsZero(s1, b, false);
      }
    case FreeBlock(b) => SetFreeSkipsZero(s, b, true);
  }

  lemma {:induction false} RunSkipsZero(s: State, ops: seq<Op>)
    requires Sized(s) && forall op :: op in ops ==> InRange(N(s), op)
    ensures Run(s, ops).1.mapped[0] == s.mapped[0]
    decreases |ops|
  {
    if ops != [] {
      StepSkipsZero(s, ops[0]);
      if !Answer(s, ops[0]).Panic? {
        RunSkipsZero(After(s, ops[0]), ops[1..]);
      }
    }
  }

  /** Any run that ends with fs_sync survives a crash: what is found afterwards is what the plain array holds. */
  lemma SyncedRunSurvivesCrash(s: State, ops: seq<Op>)
    requires Coherent(s) && ReservedInUse(View(s)) && AllowedRun(View(s), ops) && !s.mapped[0]
    ensures forall op :: op in ops ==> InRange(N(s), op)
    ensures View(Crash(Sync(Run(s, ops).1, 1))) == FlatRun(View(s), ops).1
  {
    CacheIsTransparent(s, ops);
    RunSkipsZero(s, ops);
    SyncSurvivesCrash(Run(s, ops).1);
  }
}

/** When a cached disk holds the file system: its bitmap, its records and its blocks; and what each access does to
    that. */
module CachedState {
  import opened Basics
  import opened FsModel
  import opened FsOwnership
  import opened FsOnDisk
  import C = CacheModel
  import T = CacheTheorems
  import D = CacheDurable
  import K = CachedFs

  // ----- bytes and bits -----

  lemma {:induction false} DigitsGiveValue(d: C.Bits, from: nat, n: nat, v: nat)
    requires from + n <= C.BLKBITS && v < Pow2(n)
    requires forall k :: 0 <= k < n ==> d[from + k] == K.Digit(v, k)
    ensures K.Value(d, from, n) == v
    decreases n
  {
    if n > 0 {
      assert d[from + 0] == K.Digit(v, 0);
      forall k | 0 <= k < n - 1
        ensures d[from + 1 + k] == K.Digit(v / 2, k)
      {
        assert d[from + (k + 1)] == K.Digit(v, k + 1);
      }
      DigitsGiveValue(d, from + 1, n - 1, v / 2);
    }
  }

  lemma DigitOfByte(b: Block, i: nat, k: nat)
    requires i < BLKSIZE && k < 8
    ensures K.BitsOf(b)[8 * i + k] == K.Digit(b[i], k)
  {
    assert (8 * i + k) / 8 == i && (8 * i + k) % 8 == k;
  }

  lemma BlockRoundTrip(b: Block)
    ensures K.Bytes(K.BitsOf(b)) == b
  {
    forall i | 0 <= i < BLKSIZE
      ensures K.ByteOf(K.BitsOf(b), i) == b[i]
    {
      forall k | 0 <= k < 8
        ensures K.BitsOf(b)[8 * i + k] == K.Digit(b[i], k)
      {
        DigitOfByte(b, i, k);
      }
      assert Pow2(8) == 256;
      DigitsGiveValue(K.BitsOf(b), 8 * i, 8, b[i]);
    }
  }

  // ----- what the cache holds -----

  /** The free set as a bitmap, and the bytes of every block a file may name. */
  ghost predicate Pictured(st: State, mem: seq<C.Bits>)
  {
    && SameBitmap(st, mem) && |st.blocks| == |mem| <= MAXBLOCKS
    && (forall b :: 0 <= b < T.FirstData(|mem|) ==> b in st.reserved)
    && forall b :: 0 <= b < |mem| && b !in st.reserved ==> st.blocks[b] == K.Bytes(mem[b])
  }

  /** The record blocks are data blocks that no file names. */
  ghost predicate Homes(st: State, homes: seq<nat>)
  {
    && |st.files| <= K.BLKFILES * |homes| && st.nblocks > 0
    && (forall i :: 0 <= i < |homes|
            ==> T.FirstData(st.nblocks) <= homes[i] < st.nblocks && homes[i] in st.reserved && homes[i] !in st.free)
    && forall i, j :: 0 <= i < j < |homes| ==> homes[i] != homes[j]
  }

  ghost predicate RecordIs(data: Block, f: nat, inode: Inode)
  {
    forall k :: K.IsField(k) ==> GetWord(data, K.WordAt(f, k)) == K.WordOf(inode, k)
  }

  ghost predicate Recorded(st: State, homes: seq<nat>, mem: seq<C.Bits>)
    requires Homes(st, homes) && |mem| == st.nblocks
  {
    forall f :: 0 <= f < |st.files| ==> RecordIs(K.Bytes(mem[K.Home(homes, f)]), f, st.files[f])
  }

  /** A cache in use: it has not panicked, block 0 is not in it, and with a bitmap of one block the disk has lost no
      allocation. */
  ghost predicate Steady(s: C.State)
  {
    && T.Coherent(s) && T.ReservedInUse(C.View(s)) && !s.mapped[0]
    && (C.N(s) <= C.BLKBITS ==> D.Durable(s))
  }

  ghost predicate HoldsState(st: State, homes: seq<nat>, mem: seq<C.Bits>)
  {
    Pictured(st, mem) && Homes(st, homes) && Recorded(st, homes, mem)
  }

  ghost predicate Backs(m: K.Mem, st: State)
  {
    Steady(m.cache) && HoldsState(st, m.homes, C.View(m.cache))
  }

  /** The same outcome, and the cache goes on holding the state. */
  ghost predicate Same<A>(d: K.Done<A>, s: Step<A>)
  {
    d.r == s.r && Backs(d.m, s.st)
  }

  lemma StepShows(s: C.State, op: C.Op)
    requires Steady(s) && T.Allowed(C.View(s), op)
    ensures Steady(C.After(s, op)) && C.View(C.After(s, op)) == C.FlatApply(C.View(s), op).1
    ensures C.Answer(s, op) == C.FlatApply(C.View(s), op).0
  {
    T.ApplyShows(s, op);
    T.ReservedStep(C.View(s), op);
    T.StepSkipsZero(s, op);
    if C.N(s) <= C.BLKBITS {
      D.DurableStep(s, op);
    }
  }

  /** A block that a file may be using. */
  predicate InUse(st: State, b: nat)
  {
    b < st.nblocks && b !in st.free && b !in st.reserved
  }

  lemma InUseIsData(st: State, mem: seq<C.Bits>, b: nat)
    requires Pictured(st, mem) && InUse(st, b)
    ensures T.FirstData(|mem|) <= b < |mem| && !C.FreeIn(mem, b) && st.blocks[b] == K.Bytes(mem[b]) && 0 < b
  {
  }

  lemma NamedInUse(st: State, o: Owner)
    requires Ownership(st) && IsOwner(st, o) && Name(st, o) != 0
    ensures InUse(st, Name(st, o))
  {
  }

  lemma HomeIsApart(st: State, homes: seq<nat>, mem: seq<C.Bits>, f: nat)
    requires Pictured(st, mem) && Homes(st, homes) && f < |st.files|
    ensures var h := K.Home(homes, f);
            T.FirstData(|mem|) <= h < |mem| && !C.FreeIn(mem, h) && h in st.reserved && 0 < h
  {
    assert f / K.BLKFILES < |homes|;
  }

  // ----- what writes and marks do to the blocks -----

  lemma DataWriteKeepsBits(mem: seq<C.Bits>, b: nat, data: C.Bits, c: nat)
    requires C.Fits(|mem|) && T.FirstData(|mem|) <= b < |mem| && c < |mem|
    ensures C.FreeIn(mem[b := data], c) == C.FreeIn(mem, c)
  {
    assert C.BitBlock(c) < T.FirstData(|mem|);
  }

  lemma WriteHolds(st: State, homes: seq<nat>, mem: seq<C.Bits>, b: nat, data: Block)
    requires HoldsState(st, homes, mem) && InUse(st, b)
    ensures HoldsState(Poke(st, b, data), homes, mem[b := K.BitsOf(data)])
  {
    InUseIsData(st, mem, b);
    BlockRoundTrip(data);
    var st', mem' := Poke(st, b, data), mem[b := K.BitsOf(data)];
    forall c | 0 <= c < |mem|
      ensures C.FreeIn(mem', c) == C.FreeIn(mem, c)
    {
      DataWriteKeepsBits(mem, b, K.BitsOf(data), c);
    }
    forall f | 0 <= f < |st'.files|
      ensures RecordIs(K.Bytes(mem'[K.Home(homes, f)]), f, st'.files[f])
    {
      HomeIsApart(st, homes, mem, f);
    }
  }

  lemma MarkHolds(st: State, homes: seq<nat>, mem: seq<C.Bits>, b: nat, free: bool)
    requires HoldsState(st, homes, mem) && b < st.nblocks && b !in st.reserved
    ensures HoldsState(st.(free := if free then st.free + {b} else st.free - {b}), homes, C.Mark(mem, b, free))
  {
    BitMarked(st, mem, b, free);
    assert C.BitBlock(b) < T.FirstData(|mem|);
    var st' := st.(free := if free then st.free + {b} else st.free - {b});
    forall f | 0 <= f < |st'.files|
      ensures RecordIs(K.Bytes(C.Mark(mem, b, free)[K.Home(homes, f)]), f, st'.files[f])
    {
      HomeIsApart(st, homes, mem, f);
    }
  }

  function WithField(st: State, f: nat, k: nat, v: nat): State
    requires f < |st.files| && K.IsField(k)
  {
    st.(files := st.files[f := K.WithWord(st.files[f], k, v)])
  }

  lemma FieldRecorded(data: Block, f: nat, k: nat, v: nat, g: nat, inode: Inode)
    requires K.IsField(k) && v < WORD && RecordIs(data, g, inode) && (g == f || g % K.BLKFILES != f % K.BLKFILES)
    ensures RecordIs(PutWord(data, K.WordAt(f, k), v), g, if g == f then K.WithWord(inode, k, v) else inode)
  {
    forall i | K.IsField(i)
      ensures GetWord(PutWord(data, K.WordAt(f, k), v), K.WordAt(g, i))
              == if g == f && i == k then v else GetWord(data, K.WordAt(g, i))
    {
      WordRoundTrip(data, K.WordAt(f, k), v, K.WordAt(g, i));
    }
  }

  lemma SameHome(st: State, homes: seq<nat>, f: nat, g: nat)
    requires Homes(st, homes) && f < |st.files| && g < |st.files| && K.Home(homes, f) == K.Home(homes, g)
    ensures f == g || f % K.BLKFILES != g % K.BLKFILES
  {
    assert f / K.BLKFILES == g / K.BLKFILES;
  }

  lemma FieldPictured(st: State, homes: seq<nat>, mem: seq<C.Bits>, f: nat, k: nat, v: nat, data: C.Bits)
    requires Pictured(st, mem) && Homes(st, homes) && f < |st.files| && K.IsField(k)
    ensures K.Home(homes, f) < |mem| && Pictured(WithField(st, f, k, v), mem[K.Home(homes, f) := data])
    ensures Homes(WithField(st, f, k, v), homes)
  {
    HomeIsApart(st, homes, mem, f);
    forall c | 0 <= c < |mem|
      ensures C.FreeIn(mem[K.Home(homes, f) := data], c) == C.FreeIn(mem, c)
    {
      DataWriteKeepsBits(mem, K.Home(homes, f), data, c);
    }
  }

  lemma FieldHolds(st: State, homes: seq<nat>, mem: seq<C.Bits>, f: nat, k: nat, v: nat, data: Block)
    requires HoldsState(st, homes, mem) && f < |st.files| && K.IsField(k) && v < WORD
    requires K.Home(homes, f) < |mem| && data == PutWord(K.Bytes(mem[K.Home(homes, f)]), K.WordAt(f, k), v)
    ensures HoldsState(WithField(st, f, k, v), homes, mem[K.Home(homes, f) := K.BitsOf(data)])
  {
    var h, st' := K.Home(homes, f), WithField(st, f, k, v);
    FieldPictured(st, homes, mem, f, k, v, K.BitsOf(data));
    BlockRoundTrip(data);
    forall g | 0 <= g < |st'.files|
      ensures RecordIs(K.Bytes(mem[h := K.BitsOf(data)][K.Home(homes, g)]), g, st'.files[g])
    {
      RecordAfterField(st, homes, mem, f, k, v, data, g);
    }
  }

  lemma RecordAfterField(st: State, homes: seq<nat>, mem: seq<C.Bits>, f: nat, k: nat, v: nat, data: Block, g: nat)
    requires HoldsState(st, homes, mem) && f < |st.files| && g < |st.files| && K.IsField(k) && v < WORD
    requires K.Home(homes, f) < |mem| && data == PutWord(K.Bytes(mem[K.Home(homes, f)]), K.WordAt(f, k), v)
    ensures K.Home(homes, g) < |mem|
    ensures RecordIs(if K.Home(homes, g) == K.Home(homes, f) then data else K.Bytes(mem[K.Home(homes, g)]), g,
                WithField(st, f, k, v).files[g])
  {
    HomeIsApart(st, homes, mem, g);
    if K.Home(homes, g) == K.Home(homes, f) {
      SameHome(st, homes, f, g);
      FieldRecorded(K.Bytes(mem[K.Home(homes, f)]), f, k, v, g, st.files[g]);
    }
  }

  // ----- one access -----

  lemma LoadShows(m: K.Mem, st: State, b: nat) returns (m': K.Mem)
    requires Backs(m, st) && InUse(st, b)
    ensures K.Load(m, b) == (Peek(st, b), m') && Backs(m', st)
  {
    InUseIsData(st, C.View(m.cache), b);
    StepShows(m.cache, C.Read(b));
    m' := K.Load(m, b).1;
  }

  lemma SaveShows(m: K.Mem, st: State, b: nat, data: Block)
    requires Backs(m, st) && InUse(st, b)
    ensures Backs(K.Save(m, b, data), Poke(st, b, data))
  {
    InUseIsData(st, C.View(m.cache), b);
    StepShows(m.cache, C.Write(b, K.BitsOf(data)));
    WriteHolds(st, m.homes, C.View(m.cache), b, data);
  }

  lemma AllocShows(m: K.Mem, st: State)
    requires Backs(m, st) && Shape(st)
    ensures Same(K.Alloc(m), Alloc(st))
  {
    SameFirstFree(st, C.View(m.cache), 0);
    StepShows(m.cache, C.AllocBlock);
    T.AllocShows(m.cache);
    var b := C.Alloc(m.cache).0;
    if b < st.nblocks {
      MarkHolds(st, m.homes, C.View(m.cache), b, false);
    }
  }

  lemma FreeShows(m: K.Mem, st: State, b: nat)
    requires Backs(m, st) && InUse(st, b)
    ensures Backs(K.Free(m, b), Free(st, b))
  {
    InUseIsData(st, C.View(m.cache), b);
    StepShows(m.cache, C.FreeBlock(b));
    MarkHolds(st, m.homes, C.View(m.cache), b, true);
  }

  lemma FlushShows(m: K.Mem, st: State, b: nat)
    requires Backs(m, st) && 0 < b < st.nblocks
    ensures Backs(K.Flush(m, b), st)
  {
    StepShows(m.cache, C.Flush(b));
  }

  lemma HomeLoads(m: K.Mem, st: State, f: nat) returns (data: Block, m': K.Mem)
    requires Backs(m, st) && f < |st.files|
    ensures K.Load(m, K.Home(m.homes, f)) == (data, m') && Backs(m', st) && RecordIs(data, f, st.files[f])
    ensures m'.homes == m.homes && K.Home(m.homes, f) < st.nblocks == C.N(m'.cache)
    ensures data == K.Bytes(C.View(m'.cache)[K.Home(m.homes, f)])
  {
    HomeIsApart(st, m.homes, C.View(m.cache), f);
    StepShows(m.cache, C.Read(K.Home(m.homes, f)));
    data, m' := K.Load(m, K.Home(m.homes, f)).0, K.Load(m, K.Home(m.homes, f)).1;
  }

  lemma FieldShows(m: K.Mem, st: State, f: nat, k: nat) returns (m': K.Mem)
    requires Backs(m, st) && f < |st.files| && K.IsField(k)
    ensures K.Field(m, f, k) == (K.WordOf(st.files[f], k), m') && Backs(m', st)
  {
    var data;
    data, m' := HomeLoads(m, st, f);
  }

  lemma HomeSaves(m: K.Mem, st: State, f: nat, k: nat, v: nat, data: Block)
    requires Backs(m, st) && f < |st.files| && K.IsField(k) && v < WORD
    requires var h := K.Home(m.homes, f);
             h < C.N(m.cache) && data == PutWord(K.Bytes(C.View(m.cache)[h]), K.WordAt(f, k), v)
    ensures Backs(K.Save(m, K.Home(m.homes, f), data), WithField(st, f, k, v))
  {
    HomeIsApart(st, m.homes, C.View(m.cache), f);
    StepShows(m.cache, C.Write(K.Home(m.homes, f), K.BitsOf(data)));
    FieldHolds(st, m.homes, C.View(m.cache), f, k, v, data);
  }

  lemma SetFieldShows(m: K.Mem, st: State, f: nat, k: nat, v: nat)
    requires Backs(m, st) && f < |st.files| && K.IsField(k) && v < WORD
    ensures Backs(K.SetField(m, f, k, v), WithField(st, f, k, v))
  {
    var data, m1 := HomeLoads(m, st, f);
    HomeSaves(m1, st, f, k, v, PutWord(data, K.WordAt(f, k), v));
  }

  // ----- the first mount -----

  function ByteOfWord(v: nat, i: nat): Byte
  {
    if i == 0 then v % 0x100 else if i == 1 then v / 0x100 % 0x100
    else if i == 2 then v / 0x1_0000 % 0x100 else v / 0x100_0000 % 0x100
  }

  function WordBlock(words: seq<nat>): Block
    requires |words| == NINDIRECT
  {
    seq(BLKSIZE, p requires 0 <= p < BLKSIZE => ByteOfWord(words[p / 4], p % 4))
  }

  lemma ByteInBlock(words: seq<nat>, j: nat, i: nat)
    requires |words| == NINDIRECT && j < NINDIRECT && i < 4
    ensures WordBlock(words)[4 * j + i] == ByteOfWord(words[j], i)
  {
    assert (4 * j + i) / 4 == j && (4 * j + i) % 4 == i;
  }

  lemma WordInBlock(words: seq<nat>, j: nat)
    requires |words| == NINDIRECT && j < NINDIRECT && words[j] < WORD
    ensures GetWord(WordBlock(words), j) == words[j]
  {
    ByteInBlock(words, j, 0);
    ByteInBlock(words, j, 1);
    ByteInBlock(words, j, 2);
    ByteInBlock(words, j, 3);
    BytesOfWord(words[j]);
  }

  function RecordWord(files: seq<Inode>, f: nat, k: nat): nat
  {
    if f < |files| && K.IsField(k) then K.WordOf(files[f], k) else 0
  }

  /** The records of one block. */
  function RecordBlock(files: seq<Inode>, i: nat): Block
  {
    WordBlock(seq(NINDIRECT, w requires 0 <= w < NINDIRECT =>
      RecordWord(files, K.BLKFILES * i + w / K.RECORD, w % K.RECORD)))
  }

  lemma RecordInBlock(files: seq<Inode>, f: nat)
    requires f < |files| && forall k :: K.IsField(k) ==> K.WordOf(files[f], k) < WORD
    ensures RecordIs(RecordBlock(files, f / K.BLKFILES), f, files[f])
  {
    forall k | K.IsField(k)
      ensures GetWord(RecordBlock(files, f / K.BLKFILES), K.WordAt(f, k)) == K.WordOf(files[f], k)
    {
      var j := K.WordAt(f, k);
      assert j / K.RECORD == f % K.BLKFILES && j % K.RECORD == k;
      WordInBlock(seq(NINDIRECT, w requires 0 <= w < NINDIRECT =>
        RecordWord(files, K.BLKFILES * (f / K.BLKFILES) + w / K.RECORD, w % K.RECORD)), j);
    }
  }

  function BitmapBlock(st: State, b: nat): C.Bits
  {
    seq(C.BLKBITS, k requires 0 <= k < C.BLKBITS =>
      b >= 2 && (b - 2) * C.BLKBITS + k in st.free)
  }

  ghost function ReservedBlock(st: State, homes: seq<nat>, b: nat): C.Bits
  {
    if i :| 0 <= i < |homes| && homes[i] == b then K.BitsOf(RecordBlock(st.files, i)) else BitmapBlock(st, b)
  }

  /** The blocks of a disk that holds the file system. */
  ghost function Image(st: State, homes: seq<nat>): (mem: seq<C.Bits>)
    requires |st.blocks| == st.nblocks
    ensures |mem| == st.nblocks
  {
    seq(st.nblocks, b requires 0 <= b < st.nblocks =>
      if b in st.reserved then ReservedBlock(st, homes, b) else K.BitsOf(st.blocks[b]))
  }

  /** That disk, with nothing in the cache. */
  ghost function Mounted(st: State, homes: seq<nat>): K.Mem
    requires |st.blocks| == st.nblocks && C.Fits(st.nblocks)
  {
    var disk := Image(st, homes);
    K.Mem(homes, C.State(disk, disk, seq(|disk|, _ => false), seq(|disk|, _ => false), false))
  }

  lemma ImageBit(st: State, homes: seq<nat>, b: nat)
    requires |st.blocks| == st.nblocks && C.Fits(st.nblocks) && b < st.nblocks && Homes(st, homes)
    requires forall c :: 0 <= c < T.FirstData(st.nblocks) ==> c in st.reserved
    ensures C.FreeIn(Image(st, homes), b) <==> b in st.free
  {
    assert C.BitBlock(b) < T.FirstData(st.nblocks);
    assert (C.BitBlock(b) - 2) * C.BLKBITS + b % C.BLKBITS == b;
  }

  lemma FieldsFit(st: State, f: nat)
    requires Inv(st) && f < |st.files| && st.files[f].size < K.MAXSIZE
    ensures forall k :: K.IsField(k) ==> K.WordOf(st.files[f], k) < WORD
  {
    forall k: nat | K.IsField(k)
      ensures K.WordOf(st.files[f], k) < WORD
    {
      if k != K.SIZE {
        var o := if k == K.INDIRECT then IndirectOf(f) else DirectOf(f, k - K.DIRECT);
        assert IsOwner(st, o) && Name(st, o) == K.WordOf(st.files[f], k);
      }
    }
  }

  lemma ImageRecord(st: State, homes: seq<nat>, f: nat)
    requires Inv(st) && Homes(st, homes) && f < |st.files| && st.files[f].size < K.MAXSIZE
    ensures K.Home(homes, f) < st.nblocks && RecordIs(K.Bytes(Image(st, homes)[K.Home(homes, f)]), f, st.files[f])
  {
    var i := f / K.BLKFILES;
    assert i < |homes| && ReservedBlock(st, homes, homes[i]) == K.BitsOf(RecordBlock(st.files, i));
    BlockRoundTrip(RecordBlock(st.files, i));
    FieldsFit(st, f);
    RecordInBlock(st.files, f);
  }

  /** Every file system whose boot block, super block, bitmap and record blocks are reserved has such a disk. */
  lemma MountShows(st: State, homes: seq<nat>)
    requires Inv(st) && C.Fits(st.nblocks) && Homes(st, homes)
    requires forall b :: 0 <= b < T.FirstData(st.nblocks) ==> b in st.reserved
    requires forall f :: 0 <= f < |st.files| ==> st.files[f].size < K.MAXSIZE
    ensures Backs(Mounted(st, homes), st)
  {
    var mem := Image(st, homes);
    assert C.View(Mounted(st, homes).cache) == mem;
    forall b | 0 <= b < st.nblocks
      ensures C.FreeIn(mem, b) <==> b in st.free
    {
      ImageBit(st, homes, b);
    }
    forall b | 0 <= b < st.nblocks && b !in st.reserved
      ensures K.Bytes(mem[b]) == st.blocks[b]
    {
      BlockRoundTrip(st.blocks[b]);
    }
    forall f | 0 <= f < |st.files|
      ensures RecordIs(K.Bytes(mem[K.Home(homes, f)]), f, st.files[f])
    {
      ImageRecord(st, homes, f);
    }
  }
}

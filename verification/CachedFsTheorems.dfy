/** The file system over the cached disk, over every run: the same results as on values, no panic; and after fs_sync and
    a crash still the same. */
module CachedFsTheorems {
  import opened FsModel
  import opened FsOwnership
  import opened CachedState
  import opened CachedOps
  import F = FsTheorems
  import C = CacheModel
  import T = CacheTheorems
  import K = CachedFs

  // ----- every sequence of calls -----

  datatype Reply = Data(data: Result<seq<Byte>>) | Wrote(done: Result<()>) | Resized

  function Answer(st: State, op: F.Op): Reply
    requires op.f < |st.files|
  {
    match op
    case ReadOp(f, count, off) => Data(Read(st, f, count, off).r)
    case WriteOp(f, buf, off) => Wrote(Write(st, f, buf, off).r)
    case ResizeOp(_, _) => Resized
  }

  function Answers(st: State, ops: seq<F.Op>): seq<Reply>
    requires forall op :: op in ops ==> op.f < |st.files|
    decreases |ops|
  {
    if ops == [] then [] else [Answer(st, ops[0])] + Answers(F.Apply(st, ops[0]), ops[1..])
  }

  /** A call into the file system; or what may happen between two calls. */
  datatype Event =
    | Call(op: F.Op)
    | FlushBlock(b: nat)
    | Evict(b: nat)     // flush, then unmap
    | Sync              // fs_sync
    | Restart           // fs_sync, then a crash

  /** Files and blocks exist, and sizes fit into off_t. */
  predicate Possible(nfiles: nat, nblocks: nat, e: Event)
  {
    match e
    case Call(op) =>
      && op.f < nfiles
      && (op.WriteOp? ==> op.off + |op.buf| < K.MAXSIZE)
      && (op.ResizeOp? ==> op.newsize < K.MAXSIZE)
    case FlushBlock(b) => 0 < b < nblocks
    case Evict(b) => 0 < b < nblocks
    case Sync => true
    case Restart => true
  }

  predicate AllPossible(nfiles: nat, nblocks: nat, es: seq<Event>)
  {
    forall i :: 0 <= i < |es| ==> Possible(nfiles, nblocks, es[i])
  }

  function Crashed(m: K.Mem): K.Mem
  {
    m.(cache := T.Crash(m.cache))
  }

  function Restarted(m: K.Mem): K.Mem
  {
    Crashed(K.Do(m, C.SyncAll))
  }

  function After(m: K.Mem, e: Event): (m': K.Mem)
    ensures K.SameSizes(m, m')
  {
    match e
    case Call(op) =>
      (match op
       case ReadOp(f, count, off) => K.Read(m, f, count, off).m
       case WriteOp(f, buf, off) => K.Write(m, f, buf, off).m
       case ResizeOp(f, newsize) => K.SetSize(m, f, newsize))
    case FlushBlock(b) => K.Flush(m, b)
    case Evict(b) => if K.OnDisk(m, b) then K.Do(m, C.Evict(b)) else K.BadNumber(m)
    case Sync => K.Do(m, C.SyncAll)
    case Restart => Restarted(m)
  }

  /** What the caller sees of an event. */
  function Seen(m: K.Mem, e: Event): seq<Reply>
  {
    if !e.Call? then []
    else
      match e.op
      case ReadOp(f, count, off) => [Data(K.Read(m, f, count, off).r)]
      case WriteOp(f, buf, off) => [Wrote(K.Write(m, f, buf, off).r)]
      case ResizeOp(_, _) => [Resized]
  }

  function Run(m: K.Mem, es: seq<Event>): (r: (seq<Reply>, K.Mem))
    ensures K.SameSizes(m, r.1)
    decreases |es|
  {
    if es == [] then ([], m)
    else
      var (replies, m') := Run(After(m, es[0]), es[1..]);
      (Seen(m, es[0]) + replies, m')
  }

  function CallOf(e: Event): seq<F.Op>
  {
    if e.Call? then [e.op] else []
  }

  function Calls(es: seq<Event>): seq<F.Op>
  {
    if es == [] then [] else CallOf(es[0]) + Calls(es[1..])
  }

  lemma {:induction false} CallsPossible(nfiles: nat, nblocks: nat, es: seq<Event>)
    requires AllPossible(nfiles, nblocks, es)
    ensures forall op :: op in Calls(es) ==> op.f < nfiles
    ensures es != [] ==> Possible(nfiles, nblocks, es[0]) && AllPossible(nfiles, nblocks, es[1..])
  {
    if es != [] {
      assert forall i :: 0 <= i < |es[1..]| ==> es[1..][i] == es[i + 1];
      CallsPossible(nfiles, nblocks, es[1..]);
    }
  }

  /** After fs_sync a crash leaves everything in place. */
  lemma RestartShows(m: K.Mem, st: State)
    requires Backs(m, st)
    ensures Backs(Restarted(m), st)
  {
    StepShows(m.cache, C.SyncAll);
    T.SyncSurvivesCrash(m.cache);
    T.CrashShowsDisk(C.Sync(m.cache, 1));
  }

  lemma BetweenCalls(m: K.Mem, st: State, e: Event)
    requires Backs(m, st) && Possible(|st.files|, st.nblocks, e) && !e.Call?
    ensures Backs(After(m, e), st)
  {
    match e
    case FlushBlock(b) => FlushShows(m, st, b);
    case Evict(b) => StepShows(m.cache, C.Evict(b));
    case Sync => StepShows(m.cache, C.SyncAll);
    case Restart => RestartShows(m, st);
  }

  lemma CallShows(m: K.Mem, st: State, op: F.Op)
    requires Backs(m, st) && Inv(st) && Possible(|st.files|, st.nblocks, Call(op))
    ensures Backs(After(m, Call(op)), F.Apply(st, op)) && Seen(m, Call(op)) == [Answer(st, op)]
  {
    match op
    case ReadOp(f, count, off) => ReadShows(m, st, f, count, off);
    case WriteOp(f, buf, off) => var d, s := WriteShows(m, st, f, buf, off);
    case ResizeOp(f, newsize) => SetSizeShows(m, st, f, newsize);
  }

  /** Whatever is flushed, evicted, synced and restarted between the calls, every call returns what it returns on
      values, nothing panics, and the disk as it is seen goes on holding the file system. */
  lemma {:induction false} RunShows(m: K.Mem, st: State, es: seq<Event>)
    requires Backs(m, st) && Inv(st) && AllPossible(|st.files|, st.nblocks, es)
    ensures forall op :: op in Calls(es) ==> op.f < |st.files|
    ensures Run(m, es).0 == Answers(st, Calls(es)) && Backs(Run(m, es).1, F.Run(st, Calls(es)))
    ensures !Run(m, es).1.cache.panicked
    decreases |es|
  {
    CallsPossible(|st.files|, st.nblocks, es);
    if es != [] {
      var m1 := After(m, es[0]);
      if es[0].Call? {
        CallShows(m, st, es[0].op);
        F.ApplyKeeps(st, es[0].op);
        RunShows(m1, F.Apply(st, es[0].op), es[1..]);
        assert Calls(es)[0] == es[0].op && Calls(es)[1..] == Calls(es[1..]);
      } else {
        BetweenCalls(m, st, es[0]);
        RunShows(m1, st, es[1..]);
        assert Calls(es) == Calls(es[1..]);
      }
    }
  }

  /** So it is from the first mount of any file system on. */
  lemma MountedRunShows(st: State, homes: seq<nat>, es: seq<Event>)
    requires Inv(st) && C.Fits(st.nblocks) && Homes(st, homes) && AllPossible(|st.files|, st.nblocks, es)
    requires forall b :: 0 <= b < T.FirstData(st.nblocks) ==> b in st.reserved
    requires forall f :: 0 <= f < |st.files| ==> st.files[f].size < K.MAXSIZE
    ensures forall op :: op in Calls(es) ==> op.f < |st.files|
    ensures Run(Mounted(st, homes), es).0 == Answers(st, Calls(es))
  {
    MountShows(st, homes);
    RunShows(Mounted(st, homes), st, es);
  }

  lemma ReadAfterRestart(m: K.Mem, st: State, f: nat, count: nat, off: nat, bytes: seq<Byte>)
    requires Backs(m, st) && Inv(st) && f < |st.files| && Read(st, f, count, off).r == Ok(bytes)
    ensures K.Read(Restarted(m), f, count, off).r == Ok(bytes)
  {
    RestartShows(m, st);
    ReadShows(Restarted(m), st, f, count, off);
  }

  /** What was written is read back after fs_sync and a crash. */
  lemma WriteSurvivesRestart(m: K.Mem, st: State, f: nat, buf: seq<Byte>, off: nat)
    requires Backs(m, st) && Inv(st) && f < |st.files| && off + |buf| < K.MAXSIZE && Write(st, f, buf, off).r.Ok?
    ensures K.Write(m, f, buf, off).r.Ok?
    ensures K.Read(Restarted(K.Write(m, f, buf, off).m), f, |buf|, off).r == Ok(buf)
  {
    var s := F.WriteCorrect(st, f, buf, off);
    var d, s' := WriteShows(m, st, f, buf, off);
    F.WriteThenRead(st, f, buf, off);
    ReadAfterRestart(K.Write(m, f, buf, off).m, s.st, f, |buf|, off, buf);
  }

  // ----- crashes without fs_sync -----

  lemma InUseOnDisk(m: K.Mem, st: State, b: nat)
    requires Backs(m, st) && InUse(st, b) && st.nblocks <= C.BLKBITS
    ensures b < |Crashed(m).cache.disk| == st.nblocks && !C.FreeIn(Crashed(m).cache.disk, b)
  {
    InUseIsData(st, C.View(m.cache), b);
  }

  /** With a bitmap of one block, a crash at any point of any such run leaves no block that a file names marked free on
      the disk: it could be given away again. */
  lemma NamedIsInUseOnDisk(m: K.Mem, st: State, es: seq<Event>, o: Owner)
    requires Backs(m, st) && Inv(st) && AllPossible(|st.files|, st.nblocks, es) && st.nblocks <= C.BLKBITS
    requires forall op :: op in Calls(es) ==> op.f < |st.files|
    requires IsOwner(F.Run(st, Calls(es)), o) && Name(F.Run(st, Calls(es)), o) != 0
    ensures var b, disk := Name(F.Run(st, Calls(es)), o), Crashed(Run(m, es).1).cache.disk;
            b < |disk| && C.Fits(|disk|) && !C.FreeIn(disk, b)
  {
    RunShows(m, st, es);
    F.RunKeepsInv(st, Calls(es));
    var st' := F.Run(st, Calls(es));
    NamedInUse(st', o);
    InUseOnDisk(Run(m, es).1, st', Name(st', o));
  }
}

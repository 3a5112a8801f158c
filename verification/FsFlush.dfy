/** file_flush: which blocks of a file it writes back, and what that leaves on the disk under the block cache. */
module FsFlush {
  import opened FsModel
  import opened FsOwnership
  import opened FsData
  import opened FsTruncate
  import C = CacheModel
  import T = CacheTheorems

  predicate InDisk(n: nat, blocks: seq<nat>)
  {
    forall i :: 0 <= i < |blocks| ==> blocks[i] < n
  }

  /** The block that one round of the loop hands to flush_block, if any. */
  function FlushOne(st: State, f: nat, bno: nat): seq<nat>
    requires f < |st.files|
  {
    var w := Walk(st, f, bno, false);
    if w.r.Err? || SlotValue(st, f, w.r.value) == 0 then [] else [SlotValue(st, f, w.r.value)]
  }

  function FlushFrom(st: State, f: nat, bno: nat): seq<nat>
    requires f < |st.files|
    decreases NBlocks(st.files[f].size) - bno
  {
    if bno >= NBlocks(st.files[f].size) then [] else FlushOne(st, f, bno) + FlushFrom(st, f, bno + 1)
  }

  lemma UnfoldFlush(st: State, f: nat, bno: nat)
    requires f < |st.files| && bno < NBlocks(st.files[f].size)
    ensures FlushFrom(st, f, bno) == FlushOne(st, f, bno) + FlushFrom(st, f, bno + 1)
  {
  }

  function FlushIndirect(st: State, f: nat): seq<nat>
    requires f < |st.files|
  {
    if st.files[f].indirect != 0 then [st.files[f].indirect] else []
  }

  /** All blocks file_flush hands to flush_block; `home` is the block the file's record lies in. */
  function Flushed(st: State, f: nat, home: nat): seq<nat>
    requires f < |st.files|
  {
    FlushFrom(st, f, 0) + [home] + FlushIndirect(st, f)
  }

  lemma FlushOneIs(st: State, f: nat, bno: nat)
    requires f < |st.files|
    ensures FlushOne(st, f, bno) == if Walkable(st, f, bno) && Lookup(st, f, bno) != 0 then [Lookup(st, f, bno)] else []
  {
    if bno < NDIRECT + NINDIRECT && Walkable(st, f, bno) {
      assert SlotValue(st, f, SlotFor(bno)) == Lookup(st, f, bno);
    }
  }

  lemma LookupOnce(st: State, f: nat, c: nat, d: nat)
    requires Inv(st) && f < |st.files| && Lookup(st, f, c) == Lookup(st, f, d) != 0
    ensures c == d
  {
    assert IsOwner(st, OwnerOf(f, SlotFor(c))) && IsOwner(st, OwnerOf(f, SlotFor(d)));
  }

  lemma {:induction false} FlushFromIff(st: State, f: nat, bno: nat, c: nat)
    requires Inv(st) && f < |st.files| && Lookup(st, f, c) != 0
    ensures Lookup(st, f, c) in FlushFrom(st, f, bno) <==> bno <= c < NBlocks(st.files[f].size) && Walkable(st, f, c)
    decreases NBlocks(st.files[f].size) - bno
  {
    if bno < NBlocks(st.files[f].size) {
      FlushOneIs(st, f, bno);
      FlushFromIff(st, f, bno + 1, c);
      if Lookup(st, f, bno) == Lookup(st, f, c) {
        LookupOnce(st, f, bno, c);
      }
    }
  }

  /** The comment above file_flush promises the contents of the file.  A block of it is flushed exactly if it is within
      the file's size and the walk reaches it: blocks 1 to 9 are not while there is no indirect block. */
  lemma FlushesIff(st: State, f: nat, home: nat, c: nat)
    requires Inv(st) && f < |st.files| && home in st.reserved && Lookup(st, f, c) != 0
    ensures Lookup(st, f, c) in Flushed(st, f, home) <==> c < NBlocks(st.files[f].size) && Walkable(st, f, c)
  {
    FlushFromIff(st, f, 0, c);
    DataBlockIsApart(st, f, c);
    assert IsOwner(st, OwnerOf(f, SlotFor(c)));
  }

  lemma {:induction false} FlushFromHas(st: State, f: nat, bno: nat, b: nat)
    requires f < |st.files|
    ensures b in FlushFrom(st, f, bno)
            <==> exists c: nat :: && bno <= c < NBlocks(st.files[f].size) && Walkable(st, f, c)
                                  && Lookup(st, f, c) == b != 0
    decreases NBlocks(st.files[f].size) - bno
  {
    if bno < NBlocks(st.files[f].size) {
      FlushOneIs(st, f, bno);
      UnfoldFlush(st, f, bno);
      FlushFromHas(st, f, bno + 1, b);
    }
  }

  /** All that is flushed: the block of the file's record, the indirect block, and every block within the file's size
      that the walk reaches. */
  lemma FlushedIff(st: State, f: nat, home: nat, b: nat)
    requires f < |st.files|
    ensures b in Flushed(st, f, home)
            <==> || b == home
                 || b == st.files[f].indirect != 0
                 || exists c: nat :: c < NBlocks(st.files[f].size) && Walkable(st, f, c) && Lookup(st, f, c) == b != 0
  {
    FlushFromHas(st, f, 0, b);
  }

  lemma {:induction false} FlushFromInRange(st: State, f: nat, bno: nat)
    requires Inv(st) && f < |st.files|
    ensures InDisk(st.nblocks, FlushFrom(st, f, bno))
    decreases NBlocks(st.files[f].size) - bno
  {
    if bno < NBlocks(st.files[f].size) {
      FlushOneIs(st, f, bno);
      if Lookup(st, f, bno) != 0 {
        DataBlockIsApart(st, f, bno);
      }
      FlushFromInRange(st, f, bno + 1);
    }
  }

  lemma FlushedInRange(st: State, f: nat, home: nat)
    requires Inv(st) && f < |st.files| && home in st.reserved
    ensures InDisk(st.nblocks, Flushed(st, f, home))
  {
    FlushFromInRange(st, f, 0);
    assert Name(st, IndirectOf(f)) == st.files[f].indirect;
  }

  // ----- on the disk -----

  function FlushAll(s: C.State, blocks: seq<nat>): (s': C.State)
    requires C.Sized(s) && InDisk(C.N(s), blocks)
    ensures C.Sized(s') && C.N(s') == C.N(s)
    decreases |blocks|
  {
    if blocks == [] then s
    else FlushAll(C.FlushBlock(s, blocks[0]), blocks[1..])
  }

  lemma {:induction false} FlushAllShows(s: C.State, blocks: seq<nat>, b: nat)
    requires T.Coherent(s) && b < C.N(s) && InDisk(C.N(s), blocks)
    ensures T.Shows(FlushAll(s, blocks), C.View(s))
    ensures FlushAll(s, blocks).disk[b] == if b in blocks then C.View(s)[b] else s.disk[b]
    decreases |blocks|
  {
    if blocks != [] {
      T.FlushShows(s, blocks[0]);
      FlushAllShows(C.FlushBlock(s, blocks[0]), blocks[1..], b);
    }
  }

  /** So a changed block of the file reaches the disk exactly under that condition, whatever else is in the cache. */
  lemma FlushReachesDiskIff(st: State, f: nat, home: nat, c: nat, s: C.State)
    requires Inv(st) && f < |st.files| && home in st.reserved && Lookup(st, f, c) != 0
    requires T.Coherent(s) && C.N(s) == st.nblocks
    requires Lookup(st, f, c) < st.nblocks ==> s.disk[Lookup(st, f, c)] != C.View(s)[Lookup(st, f, c)]
    ensures Lookup(st, f, c) < st.nblocks && InDisk(st.nblocks, Flushed(st, f, home))
    ensures var s' := FlushAll(s, Flushed(st, f, home));
            && T.Shows(s', C.View(s))
            && (s'.disk[Lookup(st, f, c)] == C.View(s)[Lookup(st, f, c)]
                <==> c < NBlocks(st.files[f].size) && Walkable(st, f, c))
  {
    DataBlockIsApart(st, f, c);
    FlushedInRange(st, f, home);
    FlushesIff(st, f, home, c);
    FlushAllShows(s, Flushed(st, f, home), Lookup(st, f, c));
  }

  /** Of the changed blocks file_flush brings to the disk the record's, the indirect block, and the reachable blocks of
      the file, and no others. */
  lemma FlushedReachDiskIff(st: State, f: nat, home: nat, s: C.State, b: nat)
    requires Inv(st) && f < |st.files| && home in st.reserved && T.Coherent(s) && C.N(s) == st.nblocks
    requires b < st.nblocks && s.disk[b] != C.View(s)[b]
    ensures InDisk(st.nblocks, Flushed(st, f, home))
    ensures FlushAll(s, Flushed(st, f, home)).disk[b] == C.View(s)[b]
            <==> || b == home
                 || b == st.files[f].indirect != 0
                 || exists c: nat :: c < NBlocks(st.files[f].size) && Walkable(st, f, c) && Lookup(st, f, c) == b != 0
  {
    FlushedInRange(st, f, home);
    FlushedIff(st, f, home, b);
    FlushAllShows(s, Flushed(st, f, home), b);
  }
}

/** The file system's set of free blocks and the cached bitmap: the same allocator. */
module FsOnDisk {
  import opened FsModel
  import C = CacheModel
  import T = CacheTheorems
  import D = CacheDurable

  /** The bitmap in these blocks holds exactly the free blocks. */
  ghost predicate SameBitmap(st: State, mem: seq<C.Bits>)
  {
    && C.Fits(|mem|) && |mem| == st.nblocks && (forall b :: b in st.free ==> b < st.nblocks)
    && forall b :: 0 <= b < st.nblocks ==> (b in st.free <==> C.FreeIn(mem, b))
  }

  lemma {:induction false} SameFirstFree(st: State, mem: seq<C.Bits>, b: nat)
    requires SameBitmap(st, mem) && b <= st.nblocks
    ensures FirstFree(st.free, b, st.nblocks) == C.FirstFree(mem, b)
    decreases st.nblocks - b
  {
    if b < st.nblocks && b !in st.free {
      SameFirstFree(st, mem, b + 1);
    }
  }

  lemma BitMarked(st: State, mem: seq<C.Bits>, b: nat, free: bool)
    requires SameBitmap(st, mem) && b < st.nblocks
    ensures SameBitmap(st.(free := if free then st.free + {b} else st.free - {b}), C.Mark(mem, b, free))
  {
    var st' := st.(free := if free then st.free + {b} else st.free - {b});
    forall c | 0 <= c < st'.nblocks
      ensures c in st'.free <==> C.FreeIn(C.Mark(mem, b, free), c)
    {
      D.MarkBits(mem, b, free, c);
    }
  }

  /** alloc_block through the cache takes the block that the file system's allocator takes, and fails when that does. */
  lemma AllocAgrees(st: State, s: C.State)
    requires T.Coherent(s) && T.ReservedInUse(C.View(s)) && SameBitmap(st, C.View(s))
    ensures var a, (b, s') := Alloc(st), C.Alloc(s);
            && (if b < st.nblocks then a.r == Ok(b) else a.r == Err(NoDisk))
            && SameBitmap(a.st, C.View(s')) && !s'.panicked
  {
    SameFirstFree(st, C.View(s), 0);
    T.AllocShows(s);
    var b := C.Alloc(s).0;
    if b < st.nblocks {
      BitMarked(st, C.View(s), b, false);
    }
  }

  /** free_block through the cache. */
  lemma FreeAgrees(st: State, s: C.State, b: nat)
    requires T.Coherent(s) && T.ReservedInUse(C.View(s)) && SameBitmap(st, C.View(s)) && b < st.nblocks
    ensures SameBitmap(Free(st, b), C.View(C.SetFree(s, b, true))) && !C.SetFree(s, b, true).panicked
  {
    T.SetFreeShows(s, b, true);
    BitMarked(st, C.View(s), b, true);
  }
}

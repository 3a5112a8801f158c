/** The block cache in place: disk blocks, cached pages and their page-table bits, updated by faults and flushes. */
module BlockCache {
  import opened CacheModel
  import opened CacheTheorems

  lemma SearchEnds(s: State)
    requires Sized(s)
    ensures Search(s, N(s)) == (N(s), s)
  {
  }

  class Cache {
    const disk: array<Bits>
    const page: array<Bits>
    const mapped: array<bool>
    const dirty: array<bool>
    var panicked: bool
    ghost var sim: State

    ghost predicate Valid()
      reads this, disk, page, mapped, dirty
    {
      && disk != page && mapped != dirty
      && disk.Length == page.Length == mapped.Length == dirty.Length
      && Fits(disk.Length)
      && sim == State(disk[..], page[..], mapped[..], dirty[..], panicked)
    }

    /** What bc_init leaves: a disk with these blocks, and the super block alone in the cache. */
    constructor (blocks: seq<Bits>)
      requires Fits(|blocks|)
      ensures Valid() && fresh(disk) && fresh(page) && fresh(mapped) && fresh(dirty)
      ensures Shows(sim, blocks) && sim.disk == blocks
      ensures forall b :: 0 <= b < |blocks| ==> !sim.dirty[b] && (sim.mapped[b] <==> b == 1)
    {
      var d := new Bits[|blocks|](b requires 0 <= b < |blocks| => blocks[b]);
      var p := new Bits[|blocks|](b requires 0 <= b < |blocks| => blocks[b]);
      var m := new bool[|blocks|](b => b == 1);
      var w := new bool[|blocks|](_ => false);
      disk, page, mapped, dirty, panicked := d, p, m, w, false;
      sim := State(d[..], p[..], m[..], w[..], false);
      new;
      assert disk[..] == blocks;
      assert View(sim) == blocks;
    }

    // ----- the hardware: one block, one page, one page-table entry -----

    method MapClean(b: nat, data: Bits)
      requires Valid() && b < disk.Length
      modifies `sim, page, mapped, dirty
      ensures Valid()
      ensures sim == old(sim).(page := old(sim).page[b := data], mapped := old(sim).mapped[b := true],
              dirty := old(sim).dirty[b := false])
    {
      page[b] := data;
      mapped[b] := true;
      dirty[b] := false;
      sim := sim.(page := sim.page[b := data], mapped := sim.mapped[b := true], dirty := sim.dirty[b := false]);
    }

    method WriteBack(b: nat)
      requires Valid() && b < disk.Length
      modifies `sim, disk, dirty
      ensures Valid()
      ensures sim == old(sim).(disk := old(sim).disk[b := old(sim).page[b]], dirty := old(sim).dirty[b := false])
    {
      sim := sim.(disk := sim.disk[b := page[b]], dirty := sim.dirty[b := false]);
      disk[b] := page[b];
      dirty[b] := false;
    }

    method StorePage(b: nat, data: Bits)
      requires Valid() && b < disk.Length
      modifies `sim, page, dirty
      ensures Valid()
      ensures sim == old(sim).(page := old(sim).page[b := data], dirty := old(sim).dirty[b := true])
    {
      page[b] := data;
      dirty[b] := true;
      sim := sim.(page := sim.page[b := data], dirty := sim.dirty[b := true]);
    }

    method Unmap(b: nat)
      requires Valid() && b < disk.Length
      modifies `sim, mapped, dirty
      ensures Valid() && sim == CacheModel.Unmap(old(sim), b)
    {
      if panicked {
        return;
      }
      mapped[b] := false;
      dirty[b] := false;
      sim := CacheModel.Unmap(sim, b);
    }

    method PanicNow()
      requires Valid()
      modifies `sim, `panicked
      ensures Valid() && sim == old(sim).(panicked := true)
    {
      panicked := true;
      sim := sim.(panicked := true);
    }

    // ----- bc.c -----

    /** bc_pgfault: reading the block's bit may fault again. */
    method PageFault(b: nat)
      requires Valid() && b < disk.Length
      modifies `sim, `panicked, page, mapped, dirty
      ensures Valid() && sim == Fault(old(sim), b)
      decreases if b < 2 then 3 else b
    {
      MapClean(b, disk[b]);
      if !mapped[BitBlock(b)] {
        PageFault(BitBlock(b));
      }
      if page[BitBlock(b)][b % BLKBITS] {
        PanicNow();
      }
    }

    method Touch(b: nat)
      requires Valid() && b < disk.Length
      modifies `sim, `panicked, page, mapped, dirty
      ensures Valid() && sim == CacheModel.Touch(old(sim), b)
    {
      if !panicked && !mapped[b] {
        PageFault(b);
      }
    }

    method Store(b: nat, data: Bits)
      requires Valid() && b < disk.Length
      modifies `sim, `panicked, page, mapped, dirty
      ensures Valid() && sim == CacheModel.Store(old(sim), b, data)
    {
      Touch(b);
      if !panicked {
        StorePage(b, data);
      }
    }

    method FlushBlock(b: nat)
      requires Valid() && b < disk.Length
      modifies `sim, disk, dirty
      ensures Valid() && sim == CacheModel.FlushBlock(old(sim), b)
    {
      if !panicked && mapped[b] && dirty[b] {
        WriteBack(b);
      }
    }

    // ----- fs.c -----

    method FsSync()
      requires Valid()
      modifies `sim, disk, dirty
      ensures Valid() && sim == Sync(old(sim), 1)
    {
      var i := 1;
      while i < disk.Length
        invariant 1 <= i <= disk.Length && Valid()
        invariant Sync(sim, i) == Sync(old(sim), 1)
      {
        FlushBlock(i);
        i := i + 1;
      }
    }

    /** The bitmap bit of block b, faulting its bitmap block in. */
    method BlockIsFree(b: nat) returns (free: bool)
      requires Valid() && b < disk.Length
      modifies `sim, `panicked, page, mapped, dirty
      ensures Valid() && sim == CacheModel.Touch(old(sim), BitBlock(b)) && free == sim.page[BitBlock(b)][b % BLKBITS]
    {
      Touch(BitBlock(b));
      free := page[BitBlock(b)][b % BLKBITS];
    }

    method SetFree(b: nat, free: bool)
      requires Valid() && b < disk.Length
      modifies `sim, `panicked, page, mapped, dirty
      ensures Valid() && sim == CacheModel.SetFree(old(sim), b, free)
    {
      Touch(BitBlock(b));
      Store(BitBlock(b), page[BitBlock(b)][b % BLKBITS := free]);
    }

    /** The search from block b on ends with `target`. */
    ghost predicate Searching(b: nat, target: (nat, State))
      reads this, disk, page, mapped, dirty
    {
      Valid() && N(sim) == disk.Length && b <= disk.Length && Search(sim, b) == target
    }

    /** One round of alloc_block's search. */
    method Probe(b: nat, ghost target: (nat, State)) returns (stop: bool)
      requires b < disk.Length && Searching(b, target)
      modifies `sim, `panicked, page, mapped, dirty
      ensures if stop then Valid() && target == (b, sim) else Searching(b + 1, target)
    {
      var free := BlockIsFree(b);
      stop := panicked || free;
    }

    /** Clear the bit and flush the first bitmap block. */
    method Take(b: nat)
      requires Valid() && b < disk.Length
      modifies `sim, `panicked, disk, page, mapped, dirty
      ensures Valid() && sim == CacheModel.FlushBlock(CacheModel.SetFree(old(sim), b, false), 2)
    {
      SetFree(b, false);
      FlushBlock(2);
    }

    /** alloc_block's loop. */
    method FindFree() returns (b: nat)
      requires Valid()
      modifies `sim, `panicked, page, mapped, dirty
      ensures Valid() && Search(old(sim), 0) == (b, sim)
    {
      ghost var target := Search(sim, 0);
      b := 0;
      while b < disk.Length
        invariant b <= disk.Length
        invariant Searching(b, target)
      {
        var stop := Probe(b, target);
        if stop {
          return;
        }
        b := b + 1;
      }
      SearchEnds(sim);
    }

    /** alloc_block; the number of blocks stands for -E_NO_DISK. */
    method AllocBlock() returns (b: nat)
      requires Valid()
      modifies `sim, `panicked, disk, page, mapped, dirty
      ensures Valid() && (b, sim) == Alloc(old(sim))
    {
      b := FindFree();
      if b < disk.Length {
        Take(b);
      }
    }
  }
}

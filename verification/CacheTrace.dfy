/** The set-associative cache simulator of cs_2200/caching/prj5/cachesim.c over whole address traces. */
module CacheTrace {
  import opened Basics
  import opened LruStack
  import opened Shifts

  /** The three parameters of cache_init: 2^c bytes, 2^s blocks to a line, 2^b bytes to a block. */
  datatype Geometry = Geometry(c: nat, s: nat, b: nat) {
    /** Shifting a 64-bit address by 64 is undefined, so some tag bits must be left; so is shifting the int 1 by 31 or
        more, which counts the lines and the blocks of a line. */
    predicate Valid() { b + s <= c && c - s < 64 && c - b - s < 31 && s < 31 }
    function IndexSize(): nat requires Valid() { c - b - s }
    function TagSize(): nat requires Valid() { 64 - IndexSize() - b }
    function Lines(): (n: nat) requires Valid() ensures n > 0 { Pow2(IndexSize()) }
    function Ways(): (n: nat) ensures n > 0 { Pow2(s) }
  }

  // ----- get_tag and get_index on 64-bit addresses -----

  function GetTag(g: Geometry, addr: Word): nat
    requires g.Valid()
  {
    Shr(addr, g.IndexSize() + g.b)
  }

  /** The left shift drops the tag bits off the top of the 64-bit word. */
  function GetIndex(g: Geometry, addr: Word): nat
    requires g.Valid()
  {
    if g.TagSize() == 64 then 0 else Shr(Shr(Shl(addr, g.TagSize()), g.TagSize()), g.b)
  }

  /** The tag and the index are the high and the low part of the block number. */
  lemma TagAndIndexSplitBlockNumber(g: Geometry, addr: Word)
    requires g.Valid()
    ensures GetIndex(g, addr) == Shr(addr, g.b) % g.Lines() < g.Lines()
    ensures GetTag(g, addr) == Div(Shr(addr, g.b), g.Lines())
  {
    var p, q := Pow2(g.IndexSize()), Pow2(g.b);
    Pow2Adds(g.IndexSize(), g.b);
    DivThenMod(addr, p, q);
    if g.TagSize() == 64 {
      assert p == 1;
    } else {
      ShiftOutAndBack(addr, g.TagSize(), g.IndexSize() + g.b);
    }
  }

  /** Two addresses share a tag and an index exactly when they lie in the same block of memory. */
  lemma SameBlockIff(g: Geometry, x: Word, y: Word)
    requires g.Valid()
    ensures GetTag(g, x) == GetTag(g, y) && GetIndex(g, x) == GetIndex(g, y) <==> Shr(x, g.b) == Shr(y, g.b)
  {
    TagAndIndexSplitBlockNumber(g, x);
    TagAndIndexSplitBlockNumber(g, y);
    DivModDetermine(Shr(x, g.b), Shr(y, g.b), g.Lines());
  }

  // ----- whole traces -----

  datatype Access = Access(addr: Word, write: bool)

  /** The part of a trace that goes to one line. */
  function Project(g: Geometry, trace: seq<Access>, index: nat): seq<Use>
    requires g.Valid()
  {
    if trace == [] then []
    else
      var before, a := Project(g, trace[..|trace| - 1], index), trace[|trace| - 1];
      if GetIndex(g, a.addr) == index then before + [Use(GetTag(g, a.addr), a.write)] else before
  }

  /** An access hits when its block was used before and fewer than `Ways` other blocks of its line since. */
  ghost predicate Hits(g: Geometry, past: seq<Access>, addr: Word)
    requires g.Valid()
  {
    Reused(Project(g, past, GetIndex(g, addr)), g.Ways(), GetTag(g, addr))
  }

  /** A miss on a full line whose least recently used block was written while resident. */
  ghost predicate WritesBack(g: Geometry, past: seq<Access>, addr: Word)
    requires g.Valid()
  {
    var list := Contents(Project(g, past, GetIndex(g, addr)), g.Ways());
    !Hits(g, past, addr) && |list| == g.Ways() && list[|list| - 1].dirty
  }

  datatype Stats = Stats(accesses: nat, readCount: nat, readMisses: nat, writeCount: nat, writeMisses: nat, misses: nat,
                         writeBacks: nat)

  ghost function StatsOf(g: Geometry, trace: seq<Access>): Stats
    requires g.Valid()
  {
    if trace == [] then Stats(0, 0, 0, 0, 0, 0, 0)
    else
      var past, a := trace[..|trace| - 1], trace[|trace| - 1];
      var st := StatsOf(g, past);
      var miss := if Hits(g, past, a.addr) then 0 else 1;
      Stats(st.accesses + 1,
            st.readCount + if a.write then 0 else 1,
            st.readMisses + if a.write then 0 else miss,
            st.writeCount + if a.write then 1 else 0,
            st.writeMisses + if a.write then miss else 0,
            st.misses + miss,
            st.writeBacks + if WritesBack(g, past, a.addr) then 1 else 0)
  }

  // ----- what the counters count -----

  /** A kind of access, told from the accesses before it. */
  type Sort = (seq<Access>, Access) -> bool

  /** How many accesses of the trace are of this kind. */
  ghost function Times(trace: seq<Access>, of: Sort): nat
  {
    |set i: nat | i < |trace| && of(trace[..i], trace[i])|
  }

  lemma CountNext(before: set<nat>, after: set<nat>, n: nat, counts: bool)
    requires n !in before && after == before + if counts then {n} else {}
    ensures |after| == |before| + if counts then 1 else 0
  {
  }

  lemma SamePrefix(trace: seq<Access>, n: nat, i: nat)
    requires i < n <= |trace|
    ensures trace[..n][..i] == trace[..i] && trace[..n][i] == trace[i]
  {
  }

  lemma TimesNext(trace: seq<Access>, of: Sort)
    requires trace != []
    ensures var past, a := trace[..|trace| - 1], trace[|trace| - 1];
            Times(trace, of) == Times(past, of) + if of(past, a) then 1 else 0
  {
    var n := |trace| - 1;
    var past := trace[..n];
    var before := set i: nat | i < |past| && of(past[..i], past[i]);
    var after := set i: nat | i < |trace| && of(trace[..i], trace[i]);
    forall i: nat
      ensures i in after <==> i in before || (i == n && of(past, trace[n]))
    {
      if i < n {
        SamePrefix(trace, n, i);
      }
    }
    CountNext(before, after, n, of(past, trace[n]));
  }

  ghost function Reads(): Sort { (past: seq<Access>, a: Access) => !a.write }

  ghost function Writes(): Sort { (past: seq<Access>, a: Access) => a.write }

  ghost function Misses(g: Geometry): Sort
    requires g.Valid()
  {
    (past: seq<Access>, a: Access) => !Hits(g, past, a.addr)
  }

  ghost function WriteBacks(g: Geometry): Sort
    requires g.Valid()
  {
    (past: seq<Access>, a: Access) => WritesBack(g, past, a.addr)
  }

  ghost function Both(f: Sort, h: Sort): Sort { (past: seq<Access>, a: Access) => f(past, a) && h(past, a) }

  /** Each counter is the number of accesses of its kind. */
  lemma {:induction false} StatsCount(g: Geometry, trace: seq<Access>)
    requires g.Valid()
    ensures var st := StatsOf(g, trace);
            && st.accesses == |trace|
            && st.readCount == Times(trace, Reads()) && st.writeCount == Times(trace, Writes())
            && st.misses == Times(trace, Misses(g)) && st.writeBacks == Times(trace, WriteBacks(g))
            && st.readMisses == Times(trace, Both(Reads(), Misses(g)))
            && st.writeMisses == Times(trace, Both(Writes(), Misses(g)))
  {
    if trace != [] {
      StatsCount(g, trace[..|trace| - 1]);
      TimesNext(trace, Reads());
      TimesNext(trace, Writes());
      TimesNext(trace, Misses(g));
      TimesNext(trace, WriteBacks(g));
      TimesNext(trace, Both(Reads(), Misses(g)));
      TimesNext(trace, Both(Writes(), Misses(g)));
    } else {
      assert forall of: Sort :: Times(trace, of) == 0;
    }
  }

  /** Same block size and number of lines, at least as many blocks to a line. */
  predicate MoreAssociative(small: Geometry, large: Geometry)
  {
    small.Valid() && large.Valid() && small.b == large.b && small.IndexSize() == large.IndexSize() && small.s <= large.s
  }

  lemma SameAddressing(small: Geometry, large: Geometry, addr: Word)
    requires MoreAssociative(small, large)
    ensures GetIndex(small, addr) == GetIndex(large, addr) && GetTag(small, addr) == GetTag(large, addr)
  {
  }

  lemma {:induction false} SameProjection(small: Geometry, large: Geometry, trace: seq<Access>, index: nat)
    requires MoreAssociative(small, large)
    ensures Project(small, trace, index) == Project(large, trace, index)
  {
    if trace != [] {
      SameProjection(small, large, trace[..|trace| - 1], index);
      SameAddressing(small, large, trace[|trace| - 1].addr);
    }
  }

  /** Inclusion: after any trace every line of the larger cache holds all tags of that line of the smaller one. */
  lemma LinesIncluded(small: Geometry, large: Geometry, trace: seq<Access>, index: nat, tag: nat)
    requires MoreAssociative(small, large)
    ensures Resident(Contents(Project(small, trace, index), small.Ways()), tag)
            ==> Resident(Contents(Project(large, trace, index), large.Ways()), tag)
  {
    SameProjection(small, large, trace, index);
    Pow2Monotone(small.s, large.s);
    MoreWaysHoldMore(Project(small, trace, index), small.Ways(), large.Ways(), tag);
  }

  lemma ReusedMonotone(trace: seq<Use>, small: nat, large: nat, tag: nat)
    requires small <= large
    ensures Reused(trace, small, tag) ==> Reused(trace, large, tag)
  {
  }

  lemma HitsMonotone(small: Geometry, large: Geometry, past: seq<Access>, addr: Word)
    requires MoreAssociative(small, large)
    ensures Hits(small, past, addr) ==> Hits(large, past, addr)
  {
    SameAddressing(small, large, addr);
    var index, tag := GetIndex(small, addr), GetTag(small, addr);
    SameProjection(small, large, past, index);
    Pow2Monotone(small.s, large.s);
    ReusedMonotone(Project(small, past, index), small.Ways(), large.Ways(), tag);
  }

  /** So the number of misses never rises with associativity. */
  lemma {:induction false} MissesNeverRise(small: Geometry, large: Geometry, trace: seq<Access>)
    requires MoreAssociative(small, large)
    ensures StatsOf(large, trace).misses <= StatsOf(small, trace).misses
  {
    if trace != [] {
      var past, addr := trace[..|trace| - 1], trace[|trace| - 1].addr;
      MissesNeverRise(small, large, past);
      HitsMonotone(small, large, past, addr);
    }
  }
}

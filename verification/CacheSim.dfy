/** cachesim.c as it runs: one array of timestamped blocks per line, a clock and the statistics counters. */
module CacheSim {
  import opened LruStack
  import opened LruLine
  import opened Shifts
  import opened CacheTrace

  /** What one line holds after a history of accesses. */
  ghost predicate LineMeans(g: Geometry, line: seq<Block>, history: seq<Access>, i: nat)
    requires g.Valid()
  {
    && |line| == g.Ways()
    && LineOk(line, |history|)
    && ListOf(line, |history|) == Contents(Project(g, history, i), g.Ways())
  }

  lemma IdleLine(g: Geometry, line: seq<Block>, history: seq<Access>, a: Access, i: nat)
    requires g.Valid() && LineMeans(g, line, history, i) && GetIndex(g, a.addr) != i
    ensures LineMeans(g, line, history + [a], i)
  {
    assert (history + [a])[..|history|] == history;
    var n := |history|;
    assert BlockAt(line, n) == |line|;
  }

  lemma UsedLine(g: Geometry, line: seq<Block>, line': seq<Block>, history: seq<Access>, a: Access)
    requires g.Valid() && LineMeans(g, line, history, GetIndex(g, a.addr))
    requires |line'| == |line| && LineOk(line', |history| + 1)
    requires ListOf(line', |history| + 1) == Touch(ListOf(line, |history|), g.Ways(), Use(GetTag(g, a.addr), a.write))
    ensures LineMeans(g, line', history + [a], GetIndex(g, a.addr))
  {
    var i := GetIndex(g, a.addr);
    var past := Project(g, history, i);
    var u := Use(GetTag(g, a.addr), a.write);
    assert (history + [a])[..|history|] == history;
    assert Project(g, history + [a], i) == past + [u];
    assert (past + [u])[..|past|] == past;
  }

  /** What the list of the line says about the access is what the history says. */
  lemma OutcomeIsReuse(g: Geometry, line: seq<Block>, history: seq<Access>, addr: Word)
    requires g.Valid() && LineMeans(g, line, history, GetIndex(g, addr))
    ensures var list := ListOf(line, |history|);
            && (Resident(list, GetTag(g, addr)) <==> Hits(g, history, addr))
            && (!Resident(list, GetTag(g, addr)) && |list| == g.Ways() && list[|list| - 1].dirty
                <==> WritesBack(g, history, addr))
  {
    HitIffReused(Project(g, history, GetIndex(g, addr)), g.Ways(), GetTag(g, addr));
  }

  function Counted(st: Stats, write: bool, hit: bool, wroteBack: bool): Stats
  {
    var miss := if hit then 0 else 1;
    st.(accesses := st.accesses + 1,
        readCount := st.readCount + if write then 0 else 1,
        readMisses := st.readMisses + if write then 0 else miss,
        writeCount := st.writeCount + if write then 1 else 0,
        writeMisses := st.writeMisses + if write then miss else 0,
        misses := st.misses + miss,
        writeBacks := st.writeBacks + if wroteBack then 1 else 0)
  }

  lemma StatsStep(g: Geometry, history: seq<Access>, a: Access)
    requires g.Valid()
    ensures StatsOf(g, history + [a])
            == Counted(StatsOf(g, history), a.write, Hits(g, history, a.addr), WritesBack(g, history, a.addr))
  {
    assert (history + [a])[..|history|] == history;
  }

  class Cache {
    const g: Geometry
    const numLines: nat
    const numBlocks: nat
    const blocks: array2<Block>
    var stats: Stats
    var clock: nat
    ghost var history: seq<Access>

    ghost predicate Wired()
    {
      && g.Valid() && numLines == g.Lines() && numBlocks == g.Ways()
      && blocks.Length0 == numLines && blocks.Length1 == numBlocks
    }

    ghost function Line(i: nat): (line: seq<Block>)
      reads blocks
      requires Wired() && i < numLines
      ensures |line| == numBlocks
      ensures forall w :: 0 <= w < numBlocks ==> line[w] == blocks[i, w]
    {
      seq(numBlocks, w requires 0 <= w < numBlocks && Wired() && i < numLines reads blocks => blocks[i, w])
    }

    /** Every line is what its recency list says, and every counter is what the history says. */
    ghost predicate Valid()
      reads this, blocks
    {
      && Wired()
      && clock == |history|
      && stats == StatsOf(g, history)
      && forall i :: 0 <= i < numLines ==> LineMeans(g, Line(i), history, i)
    }

    /** cache_init: calloc leaves every block invalid. */
    constructor (geometry: Geometry)
      requires geometry.Valid()
      ensures Valid() && g == geometry && history == [] && fresh(blocks)
    {
      g, numLines, numBlocks := geometry, geometry.Lines(), geometry.Ways();
      blocks := new Block[geometry.Lines(), geometry.Ways()]((i, w) => Block(0, false, false, 0));
      stats := Stats(0, 0, 0, 0, 0, 0, 0);
      clock := 0;
      history := [];
      new;
      forall i | 0 <= i < numLines
        ensures LineMeans(g, Line(i), history, i)
      {
        NothingBefore(Line(i), 0);
      }
    }

    method GetHitBlock(i: nat, addr: Word) returns (w: nat)
      requires Wired() && i < numLines
      ensures w <= numBlocks
      ensures w < numBlocks ==> blocks[i, w].valid && blocks[i, w].tag == GetTag(g, addr)
      ensures forall v :: 0 <= v < w && blocks[i, v].valid ==> blocks[i, v].tag != GetTag(g, addr)
    {
      w := 0;
      while w < numBlocks && !(blocks[i, w].valid && blocks[i, w].tag == GetTag(g, addr))
        invariant w <= numBlocks
        invariant forall v :: 0 <= v < w && blocks[i, v].valid ==> blocks[i, v].tag != GetTag(g, addr)
      {
        w := w + 1;
      }
    }

    method GetEmptyBlock(i: nat) returns (w: nat)
      requires Wired() && i < numLines
      ensures w <= numBlocks
      ensures w < numBlocks ==> !blocks[i, w].valid
      ensures forall v :: 0 <= v < w ==> blocks[i, v].valid
    {
      w := 0;
      while w < numBlocks && blocks[i, w].valid
        invariant w <= numBlocks
        invariant forall v :: 0 <= v < w ==> blocks[i, v].valid
      {
        w := w + 1;
      }
    }

    method GetLruBlock(i: nat) returns (w: nat)
      requires Wired() && i < numLines
      ensures w < numBlocks && forall v :: 0 <= v < numBlocks ==> blocks[i, w].timestamp <= blocks[i, v].timestamp
      ensures forall v :: 0 <= v < w ==> blocks[i, w].timestamp < blocks[i, v].timestamp
    {
      w := 0;
      var minTime := blocks[i, 0].timestamp;
      for v := 1 to numBlocks
        invariant w < v && minTime == blocks[i, w].timestamp
        invariant forall u :: 0 <= u < v
                      ==> minTime <= blocks[i, u].timestamp && (u < w ==> minTime < blocks[i, u].timestamp)
      {
        if blocks[i, v].timestamp < minTime {
          w, minTime := v, blocks[i, v].timestamp;
        }
      }
    }

    /** The hit half of cache_access. */
    method HitBlock(i: nat, w: nat, write: bool)
      requires Wired() && i < numLines && LineOk(Line(i), clock) && w < numBlocks && blocks[i, w].valid
      modifies blocks
      ensures LineOk(Line(i), clock + 1)
      ensures ListOf(Line(i), clock + 1)
              == Touch(old(ListOf(Line(i), clock)), numBlocks, Use(old(blocks[i, w].tag), write))
      ensures forall j :: 0 <= j < numLines && j != i ==> Line(j) == old(Line(j))
    {
      ghost var line := Line(i);
      assert line[w].valid;
      HitLine(line, clock, w, write, numBlocks);
      SetBlock(i, w, blocks[i, w].(dirty := blocks[i, w].dirty || write, timestamp := clock), line);
    }

    /** The miss half of cache_access: an empty block if there is one, else the least recently used. */
    method LoadBlock(i: nat, write: bool, tag: nat) returns (wroteBack: bool)
      requires Wired() && i < numLines && LineOk(Line(i), clock)
      requires forall w :: 0 <= w < numBlocks && blocks[i, w].valid ==> blocks[i, w].tag != tag
      modifies blocks
      ensures LineOk(Line(i), clock + 1)
      ensures ListOf(Line(i), clock + 1) == Touch(old(ListOf(Line(i), clock)), numBlocks, Use(tag, write))
      ensures wroteBack <==> var list := old(ListOf(Line(i), clock)); |list| == numBlocks && list[|list| - 1].dirty
      ensures forall j :: 0 <= j < numLines && j != i ==> Line(j) == old(Line(j))
    {
      ghost var line := Line(i);
      FullIffAllValid(line, clock);
      var w := GetEmptyBlock(i);
      wroteBack := false;
      if w < numBlocks {
        assert !line[w].valid;
        FillLine(line, clock, w, Use(tag, write));
      } else {
        w := GetLruBlock(i);
        wroteBack := blocks[i, w].dirty;
        EvictLine(line, clock, w, Use(tag, write));
      }
      SetBlock(i, w, Block(clock, true, write, tag), line);
    }

    /** The part of cache_access that touches blocks. */
    method TouchLine(i: nat, write: bool, addr: Word) returns (hit: bool, wroteBack: bool)
      requires Wired() && i < numLines && LineOk(Line(i), clock)
      modifies blocks
      ensures LineOk(Line(i), clock + 1)
      ensures ListOf(Line(i), clock + 1) == Touch(old(ListOf(Line(i), clock)), numBlocks, Use(GetTag(g, addr), write))
      ensures hit <==> Resident(old(ListOf(Line(i), clock)), GetTag(g, addr))
      ensures wroteBack <==>
                var list := old(ListOf(Line(i), clock));
                !hit && |list| == numBlocks && list[|list| - 1].dirty
      ensures forall j :: 0 <= j < numLines && j != i ==> Line(j) == old(Line(j))
    {
      ghost var line := Line(i);
      TagInList(line, clock, clock, GetTag(g, addr));
      var w := GetHitBlock(i, addr);
      hit, wroteBack := w < numBlocks, false;
      if hit {
        HitBlock(i, w, write);
      } else {
        wroteBack := LoadBlock(i, write, GetTag(g, addr));
      }
    }

    /** The part of cache_access that counts. */
    method Count(write: bool, hit: bool, wroteBack: bool)
      requires hit ==> !wroteBack
      modifies this`stats
      ensures stats == Counted(old(stats), write, hit, wroteBack)
    {
      stats := stats.(accesses := stats.accesses + 1);
      if write {
        stats := stats.(writeCount := stats.writeCount + 1);
      } else {
        stats := stats.(readCount := stats.readCount + 1);
      }
      if !hit {
        stats := stats.(misses := stats.misses + 1);
        if write {
          stats := stats.(writeMisses := stats.writeMisses + 1);
        } else {
          stats := stats.(readMisses := stats.readMisses + 1);
        }
        if wroteBack {
          stats := stats.(writeBacks := stats.writeBacks + 1);
        }
      }
    }

    /** One access, as far as the lines are concerned. */
    method TouchCache(write: bool, addr: Word) returns (hit: bool, wroteBack: bool)
      requires Valid()
      modifies blocks
      ensures hit <==> Hits(g, history, addr)
      ensures wroteBack <==> WritesBack(g, history, addr)
      ensures hit ==> !wroteBack
      ensures forall j :: 0 <= j < numLines ==> LineMeans(g, Line(j), history + [Access(addr, write)], j)
    {
      ghost var a := Access(addr, write);
      var i := GetIndex(g, addr);
      TagAndIndexSplitBlockNumber(g, addr);
      ghost var line := Line(i);
      OutcomeIsReuse(g, line, history, addr);
      hit, wroteBack := TouchLine(i, write, addr);
      forall j | 0 <= j < numLines
        ensures LineMeans(g, Line(j), history + [a], j)
      {
        if j == i {
          UsedLine(g, line, Line(i), history, a);
        } else {
          ghost var before := old(Line(j));
          IdleLine(g, before, history, a, j);
          assert Line(j) == before;
        }
      }
    }

    /** cache_access: the counters grow exactly as the reuse-distance rule says, and every line stays the recency
        list of the accesses made to it. */
    method CacheAccess(write: bool, addr: Word)
      requires Valid()
      modifies this, blocks
      ensures Valid() && history == old(history) + [Access(addr, write)]
      ensures stats.misses == old(stats.misses) + if Hits(g, old(history), addr) then 0 else 1
    {
      ghost var a := Access(addr, write);
      var hit, wroteBack := TouchCache(write, addr);
      Count(write, hit, wroteBack);
      StatsStep(g, history, a);
      clock, history := clock + 1, history + [a];
    }

    /** One block of one line is overwritten. */
    method SetBlock(i: nat, w: nat, b: Block, ghost line: seq<Block>)
      requires Wired() && i < numLines && w < numBlocks && line == Line(i)
      modifies blocks
      ensures Line(i) == line[w := b]
      ensures forall j :: 0 <= j < numLines && j != i ==> Line(j) == old(Line(j))
    {
      blocks[i, w] := b;
    }
  }
}

/** One line of the simulated cache: blocks with timestamps, read as a recency list. */
module LruLine {
  import opened LruStack

  /** cache_block_t */
  datatype Block = Block(timestamp: nat, valid: bool, dirty: bool, tag: nat)

  predicate Stamped(b: Block, t: nat)
  {
    b.valid && b.timestamp == t
  }

  /** A block stamped at time t, or |line|. */
  ghost function BlockAt(line: seq<Block>, t: nat): (w: nat)
    ensures w <= |line|
    ensures w < |line| ==> Stamped(line[w], t)
    ensures w == |line| ==> forall v :: 0 <= v < |line| ==> !Stamped(line[v], t)
  {
    if v :| 0 <= v < |line| && Stamped(line[v], t) then v else |line|
  }

  /** The valid blocks stamped before `now`, latest first. */
  ghost function ListOf(line: seq<Block>, now: nat): seq<Entry>
  {
    if now == 0 then [] else Push(line, BlockAt(line, now - 1), ListOf(line, now - 1))
  }

  function Push(line: seq<Block>, w: nat, rest: seq<Entry>): seq<Entry>
  {
    if w < |line| then [Entry(line[w].tag, line[w].dirty)] + rest else rest
  }

  /** Timestamps are in the past and never shared, and neither are tags. */
  ghost predicate LineOk(line: seq<Block>, now: nat)
  {
    && (forall w :: 0 <= w < |line| && line[w].valid ==> line[w].timestamp < now)
    && (forall v, w {:trigger Apart(line[v], line[w])} :: 0 <= v < |line| && 0 <= w < |line| && v != w
            ==> Apart(line[v], line[w]))
  }

  predicate Apart(a: Block, b: Block)
  {
    a.valid && b.valid ==> a.tag != b.tag && a.timestamp != b.timestamp
  }

  lemma BlockAtIs(line: seq<Block>, now: nat, w: nat)
    requires LineOk(line, now) && w < |line| && line[w].valid
    ensures BlockAt(line, line[w].timestamp) == w
  {
    var v := BlockAt(line, line[w].timestamp);
    assert Stamped(line[w], line[w].timestamp);
    assert v != w ==> Apart(line[v], line[w]);
  }

  lemma SameBlockAt(line: seq<Block>, line': seq<Block>, now: nat, t: nat)
    requires LineOk(line, now) && |line'| == |line|
    requires forall u :: 0 <= u < |line| ==> (Stamped(line'[u], t) <==> Stamped(line[u], t))
    ensures BlockAt(line', t) == BlockAt(line, t)
  {
    var v, v' := BlockAt(line, t), BlockAt(line', t);
    if v < |line| {
      assert Stamped(line'[v], t);
      assert v != v' ==> Apart(line[v], line[v']);
    }
  }

  /** The list up to a time depends only on the blocks stamped before it. */
  lemma {:induction false} SameBefore(line: seq<Block>, line': seq<Block>, now: nat, n: nat)
    requires LineOk(line, now) && |line'| == |line|
    requires forall w :: 0 <= w < |line| ==> line[w] == line'[w] || (NotBefore(line[w], n) && NotBefore(line'[w], n))
    ensures ListOf(line', n) == ListOf(line, n)
  {
    if n > 0 {
      SameBefore(line, line', now, n - 1);
      SameBlockAt(line, line', now, n - 1);
      var v := BlockAt(line, n - 1);
      assert v < |line| ==> line'[v] == line[v];
    }
  }

  predicate NotBefore(b: Block, n: nat)
  {
    !b.valid || b.timestamp >= n
  }

  lemma {:induction false} TagInList(line: seq<Block>, now: nat, n: nat, tag: nat)
    requires LineOk(line, now) && n <= now
    ensures Resident(ListOf(line, n), tag)
            <==> exists w :: 0 <= w < |line| && line[w].valid && line[w].timestamp < n && line[w].tag == tag
  {
    if n > 0 {
      TagInList(line, now, n - 1, tag);
      var v := BlockAt(line, n - 1);
      if v < |line| {
        TagsOfCons(Entry(line[v].tag, line[v].dirty), ListOf(line, n - 1));
      }
      forall w | 0 <= w < |line| && line[w].valid && line[w].timestamp == n - 1
        ensures w == v
      {
        BlockAtIs(line, now, w);
      }
    }
  }

  /** `line'` is `line` with block w no longer stamped before n. */
  ghost predicate MovedPast(line: seq<Block>, line': seq<Block>, w: nat, n: nat)
  {
    w < |line| == |line'| && line[w].valid && NotBefore(line'[w], n) && SameElsewhere(line, line', w)
  }

  lemma BlockAtAfterMove(line: seq<Block>, line': seq<Block>, now: nat, t: nat, w: nat)
    requires LineOk(line, now) && MovedPast(line, line', w, t + 1)
    ensures BlockAt(line', t) == if line[w].timestamp == t then |line| else BlockAt(line, t)
    ensures line[w].timestamp == t ==> BlockAt(line, t) == w
  {
    BlockAtIs(line, now, w);
    if line[w].timestamp == t {
      forall u | 0 <= u < |line| && u != w
        ensures !Stamped(line'[u], t)
      {
        assert Apart(line[u], line[w]);
      }
    } else {
      SameBlockAt(line, line', now, t);
    }
  }

  lemma DropPush(line: seq<Block>, v: nat, rest: seq<Entry>, tag: nat)
    requires v < |line| ==> line[v].tag != tag
    ensures Drop(Push(line, v, rest), tag) == Push(line, v, Drop(rest, tag))
    ensures DirtyBit(Push(line, v, rest), tag) == DirtyBit(rest, tag)
  {
    if v < |line| {
      assert Push(line, v, rest)[1..] == rest;
    }
  }

  lemma DropTop(line: seq<Block>, w: nat, rest: seq<Entry>)
    requires w < |line|
    ensures Drop(Push(line, w, rest), line[w].tag) == rest
            && DirtyBit(Push(line, w, rest), line[w].tag) == line[w].dirty
  {
    assert Push(line, w, rest)[1..] == rest;
  }

  ghost predicate SameElsewhere(line: seq<Block>, line': seq<Block>, w: nat)
  {
    |line'| == |line| && forall u :: 0 <= u < |line| && u != w ==> line'[u] == line[u]
  }

  lemma SamePush(line: seq<Block>, line': seq<Block>, w: nat, v: nat, rest: seq<Entry>)
    requires SameElsewhere(line, line', w) && v != w
    ensures Push(line', v, rest) == Push(line, v, rest)
  {
  }

  /** One more time step in which neither line stamps block w. */
  lemma StepElsewhere(line: seq<Block>, line': seq<Block>, n: nat, w: nat, v: nat)
      returns (rest: seq<Entry>, rest': seq<Entry>)
    requires n > 0 && SameElsewhere(line, line', w)
    requires BlockAt(line, n - 1) == v && BlockAt(line', n - 1) == v && v != w
    ensures rest == ListOf(line, n - 1) && rest' == ListOf(line', n - 1)
    ensures ListOf(line, n) == Push(line, v, rest) && ListOf(line', n) == Push(line, v, rest')
  {
    rest, rest' := ListOf(line, n - 1), ListOf(line', n - 1);
    SamePush(line, line', w, v, rest');
  }

  /** Restamping block w takes its entry out of the list of older blocks. */
  lemma {:induction false} Restamped(line: seq<Block>, line': seq<Block>, now: nat, n: nat, w: nat)
    requires LineOk(line, now) && n <= now && MovedPast(line, line', w, n)
    ensures ListOf(line', n) == Drop(ListOf(line, n), line[w].tag)
  {
    if n > 0 {
      BlockAtAfterMove(line, line', now, n - 1, w);
      var v := BlockAt(line, n - 1);
      if line[w].timestamp == n - 1 {
        SameBefore(line, line', now, n - 1);
        DropTop(line, w, ListOf(line, n - 1));
      } else {
        Restamped(line, line', now, n - 1, w);
        assert v < |line| ==> Apart(line[v], line[w]);
        var rest, rest' := StepElsewhere(line, line', n, w, v);
        DropPush(line, v, rest, line[w].tag);
      }
    }
  }

  lemma {:induction false} DirtyInList(line: seq<Block>, now: nat, n: nat, w: nat)
    requires LineOk(line, now) && w < |line| && line[w].valid && line[w].timestamp < n <= now
    ensures DirtyBit(ListOf(line, n), line[w].tag) == line[w].dirty
  {
    var v, rest := BlockAt(line, n - 1), ListOf(line, n - 1);
    BlockAtIs(line, now, w);
    if line[w].timestamp == n - 1 {
      DropTop(line, w, rest);
    } else {
      DirtyInList(line, now, n - 1, w);
      assert v < |line| ==> Apart(line[v], line[w]);
      DropPush(line, v, rest, line[w].tag);
    }
  }

  /** Stamping block w with the current time keeps the line in order. */
  lemma StampKeepsOk(line: seq<Block>, now: nat, w: nat, b: Block)
    requires LineOk(line, now) && w < |line| && b.valid && b.timestamp == now
    requires forall v :: 0 <= v < |line| && v != w && line[v].valid ==> line[v].tag != b.tag
    ensures LineOk(line[w := b], now + 1)
  {
    var line' := line[w := b];
    forall u, v | 0 <= u < |line'| && 0 <= v < |line'| && u != v
      ensures Apart(line'[u], line'[v])
    {
      assert Apart(line[u], line[v]);
    }
  }

  lemma HitLine(line: seq<Block>, now: nat, w: nat, write: bool, ways: nat)
    requires ways > 0 && LineOk(line, now) && w < |line| && line[w].valid
    ensures var line' := line[w := line[w].(dirty := line[w].dirty || write, timestamp := now)];
            LineOk(line', now + 1)
            && ListOf(line', now + 1) == Touch(ListOf(line, now), ways, Use(line[w].tag, write))
  {
    var line' := line[w := line[w].(dirty := line[w].dirty || write, timestamp := now)];
    forall v | 0 <= v < |line| && v != w && line[v].valid
      ensures line[v].tag != line[w].tag
    {
      assert Apart(line[v], line[w]);
    }
    StampKeepsOk(line, now, w, line'[w]);
    Restamped(line, line', now, now, w);
    DirtyInList(line, now, now, w);
    BlockAtIs(line', now + 1, w);
    TagInList(line, now, now, line[w].tag);
  }

  // ----- how many blocks are valid -----

  ghost function ValidBefore(line: seq<Block>, n: nat): set<nat>
  {
    set w: nat | w < |line| && line[w].valid && line[w].timestamp < n
  }

  lemma ValidBeforeStep(line: seq<Block>, now: nat, n: nat)
    requires LineOk(line, now) && 0 < n <= now
    ensures var v := BlockAt(line, n - 1);
            |ValidBefore(line, n)| == |ValidBefore(line, n - 1)| + if v < |line| then 1 else 0
  {
    var v := BlockAt(line, n - 1);
    forall w | w in ValidBefore(line, n) && line[w].timestamp == n - 1
      ensures w == v
    {
      BlockAtIs(line, now, w);
    }
    if v < |line| {
      assert ValidBefore(line, n) == ValidBefore(line, n - 1) + {v};
    } else {
      assert ValidBefore(line, n) == ValidBefore(line, n - 1);
    }
  }

  lemma {:induction false} ListLength(line: seq<Block>, now: nat, n: nat)
    requires LineOk(line, now) && n <= now
    ensures |ListOf(line, n)| == |ValidBefore(line, n)|
  {
    if n == 0 {
      assert ValidBefore(line, 0) == {};
    } else {
      ListLength(line, now, n - 1);
      ValidBeforeStep(line, now, n);
    }
  }

  ghost function WaySet(n: nat): (s: set<nat>)
    ensures |s| == n && forall w :: w in s <==> 0 <= w < n
  {
    if n == 0 then {} else WaySet(n - 1) + {n - 1}
  }

  lemma {:induction false} SubsetSize(a: set<nat>, b: set<nat>)
    requires a <= b
    ensures |a| <= |b|
    decreases a
  {
    if x :| x in a {
      SubsetSize(a - {x}, b - {x});
    }
  }

  /** The list is full exactly when no block of the line is empty. */
  lemma FullIffAllValid(line: seq<Block>, now: nat)
    requires LineOk(line, now)
    ensures |ListOf(line, now)| <= |line|
    ensures |ListOf(line, now)| == |line| <==> forall w :: 0 <= w < |line| ==> line[w].valid
  {
    ListLength(line, now, now);
    var valid := ValidBefore(line, now);
    SubsetSize(valid, WaySet(|line|));
    if w :| 0 <= w < |line| && !line[w].valid {
      SubsetSize(valid, WaySet(|line|) - {w});
    } else {
      assert valid == WaySet(|line|);
    }
  }

  /** load_into_block on an empty block. */
  lemma FillLine(line: seq<Block>, now: nat, w: nat, u: Use)
    requires LineOk(line, now) && w < |line| && !line[w].valid
    requires forall v :: 0 <= v < |line| && line[v].valid ==> line[v].tag != u.tag
    ensures var line' := line[w := Block(now, true, u.write, u.tag)];
            LineOk(line', now + 1) && ListOf(line', now + 1) == Touch(ListOf(line, now), |line|, u)
  {
    var line' := line[w := Block(now, true, u.write, u.tag)];
    StampKeepsOk(line, now, w, line'[w]);
    SameBefore(line, line', now, now);
    BlockAtIs(line', now + 1, w);
    TagInList(line, now, now, u.tag);
    FullIffAllValid(line, now);
  }

  lemma PushSnoc(line: seq<Block>, v: nat, rest: seq<Entry>, e: Entry)
    ensures Push(line, v, rest + [e]) == Push(line, v, rest) + [e]
  {
  }

  /** The oldest block is the last of the list. */
  lemma {:induction false} OldestIsLast(line: seq<Block>, line': seq<Block>, now: nat, n: nat, w: nat)
      returns (all: seq<Entry>, kept: seq<Entry>)
    requires LineOk(line, now) && n <= now && MovedPast(line, line', w, n) && line[w].timestamp < n
    requires forall v :: 0 <= v < |line| ==> NotBefore(line[v], line[w].timestamp)
    ensures all == ListOf(line, n) && kept == ListOf(line', n)
    ensures all == kept + [Entry(line[w].tag, line[w].dirty)]
    decreases n
  {
    BlockAtAfterMove(line, line', now, n - 1, w);
    all, kept := ListOf(line, n), ListOf(line', n);
    var v, e := BlockAt(line, n - 1), Entry(line[w].tag, line[w].dirty);
    if line[w].timestamp == n - 1 {
      NothingBefore(line, n - 1);
      NothingBefore(line', n - 1);
    } else {
      var older, older' := OldestIsLast(line, line', now, n - 1, w);
      var rest, rest' := StepElsewhere(line, line', n, w, v);
      PushSnoc(line, v, older', e);
    }
  }

  lemma {:induction false} NothingBefore(line: seq<Block>, n: nat)
    requires forall w :: 0 <= w < |line| ==> NotBefore(line[w], n)
    ensures ListOf(line, n) == []
  {
    if n > 0 {
      NothingBefore(line, n - 1);
    }
  }

  /** load_into_block on the block with the oldest timestamp of a full line. */
  lemma EvictLine(line: seq<Block>, now: nat, w: nat, u: Use)
    requires LineOk(line, now) && w < |line|
    requires forall v :: 0 <= v < |line|
                 ==> line[v].valid && line[w].timestamp <= line[v].timestamp && line[v].tag != u.tag
    ensures |ListOf(line, now)| == |line| && ListOf(line, now)[|line| - 1].dirty == line[w].dirty
    ensures var line' := line[w := Block(now, true, u.write, u.tag)];
            LineOk(line', now + 1) && ListOf(line', now + 1) == Touch(ListOf(line, now), |line|, u)
  {
    var line' := line[w := Block(now, true, u.write, u.tag)];
    FullIffAllValid(line, now);
    var all, kept := OldestIsLast(line, line', now, now, w);
    StampKeepsOk(line, now, w, line'[w]);
    BlockAtIs(line', now + 1, w);
    TagInList(line, now, now, u.tag);
  }
}

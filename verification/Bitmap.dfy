/** The free-block bitmap of os_final_project/code/fs/fs.c: 32 blocks to a word, a set bit means free.
    A word is the sequence of its bits, so `|= 1 << k` and `&= ~(1 << k)` update bit k. */
module Bitmap {

  type Word = w: seq<bool> | |w| == 32 witness seq(32, _ => false)

  predicate Marked(words: seq<Word>, b: nat)
    requires b < 32 * |words|
  {
    words[b / 32][b % 32]
  }

  /** The set the bitmap stands for. */
  function FreeSet(words: seq<Word>, n: nat): set<nat>
    requires n <= 32 * |words|
  {
    set b: nat | b < n && Marked(words, b)
  }

  function SetBit(words: seq<Word>, b: nat, on: bool): (r: seq<Word>)
    requires b < 32 * |words|
    ensures |r| == |words|
  {
    words[b / 32 := words[b / 32][b % 32 := on]]
  }

  /** One bit stands for one block: setting it frees b and nothing else, clearing it takes b and nothing else. */
  lemma BitsAreBlocks(words: seq<Word>, n: nat, b: nat)
    requires n <= 32 * |words| && b < n
    ensures FreeSet(SetBit(words, b, true), n) == FreeSet(words, n) + {b}
    ensures FreeSet(SetBit(words, b, false), n) == FreeSet(words, n) - {b}
  {
    forall c: nat, on: bool | c < n
      ensures Marked(SetBit(words, b, on), c) == if c == b then on else Marked(words, c)
    {
      assert c == b <==> c / 32 == b / 32 && c % 32 == b % 32;
    }
  }

  lemma BitsPastEnd(words: seq<Word>, n: nat, b: nat)
    requires n <= b < 32 * |words|
    ensures FreeSet(SetBit(words, b, true), n) == FreeSet(words, n)
  {
    forall c: nat | c < n
      ensures Marked(SetBit(words, b, true), c) == Marked(words, c)
    {
      assert !(c / 32 == b / 32 && c % 32 == b % 32);
    }
  }
}

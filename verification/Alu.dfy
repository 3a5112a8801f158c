/** What the simulator's arithmetic means for registers that hold 16-bit words. */
module Alu {
  import opened Basics
  import opened Lc2200
  import opened Shifts

  const WORDSIZE: int := 65536

  predicate IsWord(n: int)
  {
    0 <= n < WORDSIZE
  }

  /** add is addition modulo 2^16, through the signed detour. */
  lemma AddIsModular(s: State, x: nat, y: nat, z: nat)
    requires Ok(s) && 0 < x < 16 && y < 16 && z < 16 && IsWord(s.regs[y]) && IsWord(s.regs[z])
    ensures DoAdd(s, x, y, z).regs[x] == (s.regs[y] + s.regs[z]) % WORDSIZE
  {
    Pow2Of16();
  }

  /** addi is addition modulo 2^16 exactly if it does not carry out; a carry leaves more than 16 bits behind. */
  lemma AddiIsModularIff(s: State, x: nat, y: nat, off: int)
    requires Ok(s) && 0 < x < 16 && y < 16 && IsWord(s.regs[y]) && -16 <= off < 16
    ensures DoAddi(s, x, y, off).regs[x] == (s.regs[y] + off) % WORDSIZE <==> s.regs[y] + off < WORDSIZE
    ensures IsWord(DoAddi(s, x, y, off).regs[x]) <==> s.regs[y] + off < WORDSIZE
  {
  }

  lemma HalfBit(n: nat, k: nat)
    requires k > 0
    ensures BitOf(n, k) <==> BitOf(n / 2, k - 1)
  {
    DivThenMod(n, Pow2(k - 1), 2);
  }

  lemma LowBit(n: int)
    ensures BitOf(n, 0) <==> n % 2 == 1
  {
    assert Pow2(0) == 1;
  }

  lemma Halves(h: nat, low: nat)
    requires low < 2
    ensures (2 * h + low) / 2 == h && (2 * h + low) % 2 == low
  {
  }

  lemma LowProduct(p: int, q: int)
    ensures (p % 2) * (q % 2) == if p % 2 == 1 && q % 2 == 1 then 1 else 0
  {
    if p % 2 == 1 {
      assert (p % 2) * (q % 2) == q % 2;
    } else {
      assert p % 2 == 0;
    }
  }

  lemma AndStep(a: nat, b: nat)
    requires And(a / 2, b / 2) >= 0
    ensures And(a, b) >= 0 && And(a, b) / 2 == And(a / 2, b / 2)
    ensures And(a, b) % 2 == if a % 2 == 1 && b % 2 == 1 then 1 else 0
  {
    var low := if a % 2 == 1 && b % 2 == 1 then 1 else 0;
    LowProduct(a, b);
    if a == 0 || b == 0 {
      assert And(a / 2, b / 2) == 0 && low == 0;
    } else {
      assert And(a, b) == 2 * And(a / 2, b / 2) + low;
    }
    Halves(And(a / 2, b / 2), low);
  }

  lemma {:induction false} AndIsNatural(a: nat, b: nat)
    ensures 0 <= And(a, b) <= a
    decreases a
  {
    if a > 0 && b > 0 {
      AndIsNatural(a / 2, b / 2);
      AndStep(a, b);
    }
  }

  /** And works bit by bit. */
  lemma {:induction false} AndBit(a: nat, b: nat, k: nat)
    ensures And(a, b) >= 0 && (BitOf(And(a, b), k) <==> BitOf(a, k) && BitOf(b, k))
    decreases k
  {
    AndIsNatural(a, b);
    AndIsNatural(a / 2, b / 2);
    AndStep(a, b);
    if k == 0 {
      LowBit(a);
      LowBit(b);
      LowBit(And(a, b));
    } else {
      AndBit(a / 2, b / 2, k - 1);
      HalfBit(a, k);
      HalfBit(b, k);
      HalfBit(And(a, b), k);
    }
  }

  /** Complementing k bits flips each of them. */
  lemma {:induction false} FlipBit(n: nat, k: nat, j: nat)
    requires n < Pow2(k) && j < k
    ensures BitOf(Pow2(k) - 1 - n, j) <==> !BitOf(n, j)
    decreases k
  {
    var m := Pow2(k) - 1 - n;
    assert m / 2 == Pow2(k - 1) - 1 - n / 2 && m % 2 == 1 - n % 2;
    if j == 0 {
      LowBit(n);
      LowBit(m);
    } else {
      FlipBit(n / 2, k - 1, j - 1);
      HalfBit(n, j);
      HalfBit(m, j);
    }
  }

  /** nand sets a bit of the result exactly where not both operands have it. */
  lemma NandIsBitwise(s: State, x: nat, y: nat, z: nat, k: nat)
    requires Ok(s) && 0 < x < 16 && y < 16 && z < 16 && IsWord(s.regs[y]) && IsWord(s.regs[z]) && k < 16
    ensures IsWord(DoNand(s, x, y, z).regs[x])
    ensures BitOf(DoNand(s, x, y, z).regs[x], k) <==> !(BitOf(s.regs[y], k) && BitOf(s.regs[z], k))
  {
    var a, b := s.regs[y], s.regs[z];
    Pow2Of16();
    AndIsNatural(a, b);
    AndBit(a, b, k);
    FlipBit(And(a, b), 16, k);
  }

  /** After every instruction register 0 is 0. */
  lemma ZeroStaysZero(s: State)
    requires Ok(s) && Step(s).Some?
    ensures Step(s).value.regs[0] == 0
  {
  }
}

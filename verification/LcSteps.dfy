/** What one machine word does on the LC-2200 simulator, in terms of the word's digits, the registers and the memory. */
module LcSteps {
  import opened Basics
  import opened Binary
  import opened Lc2200
  import opened Alu
  import opened Shifts

  // ----- the fields of a word -----

  /** Three digits of opcode, three registers of four digits each, and the last five digits as a signed number. */
  function Digits(w: nat): (d: Fields)
    ensures d.x < 16 && d.y < 16 && d.z < 16
  {
    Fields(w / 8192, w / 512 % 16, w / 32 % 16, w / 2 % 16, if w % 32 < 16 then w % 32 else w % 32 - 32)
  }

  lemma {:induction false} LeadingDigits(b: Bits, k: nat)
    requires k <= |b|
    ensures Val(b[..|b| - k]) == Val(b) / Pow2(k)
    decreases k
  {
    if k == 0 {
      assert b[..|b|] == b && Pow2(0) == 1;
    } else {
      var init := b[..|b| - 1];
      LeadingDigits(init, k - 1);
      assert init[..|init| - (k - 1)] == b[..|b| - k];
      assert Val(b) / 2 == Val(init);
      DivTwice(Val(b), 2, Pow2(k - 1));
    }
  }

  lemma DivTwice(n: nat, a: nat, b: nat)
    requires a > 0 && b > 0
    ensures a * b > 0 && n / (a * b) == n / a / b
  {
    MulAtLeast(a, b);
    var q, r := n / a, n % a;
    var q', r' := q / b, q % b;
    assert n == (q' * b + r') * a + r == q' * (a * b) + (r' * a + r) by {
      assert (q' * b) * a == q' * (a * b);
    }
    MulStep(r', b, a);
    DivNonNegative(n, a);
    DivNonNegative(q, b);
    DivModUnique(n, a * b, q', r' * a + r);
  }

  lemma {:induction false} TrailingDigits(b: Bits, k: nat)
    requires k <= |b|
    ensures Val(b[|b| - k..]) == Val(b) % Pow2(k)
    decreases k
  {
    if k == 0 {
      assert b[|b|..] == [] && Pow2(0) == 1;
    } else {
      var init, tail, last := b[..|b| - 1], b[|b| - k..], b[|b| - 1];
      TrailingDigits(init, k - 1);
      assert tail[..|tail| - 1] == init[|init| - (k - 1)..];
      ModTwice(Val(init), if last then 1 else 0, Pow2(k - 1));
    }
  }

  lemma ModTwice(n: nat, bit: nat, p: nat)
    requires bit < 2 && p > 0
    ensures (2 * n + bit) % (2 * p) == 2 * (n % p) + bit
  {
    DivNonNegative(n, p);
    assert n == (n / p) * p + n % p;
    assert (n / p) * (2 * p) == 2 * ((n / p) * p);
    DivModUnique(2 * n + bit, 2 * p, n / p, 2 * (n % p) + bit);
  }

  lemma Powers()
    ensures Pow2(1) == 2 && Pow2(4) == 16 && Pow2(5) == 32 && Pow2(9) == 512 && Pow2(13) == 8192
  {
    assert Pow2(5) == 32 && Pow2(9) == 16 * Pow2(5) && Pow2(13) == 16 * Pow2(9);
  }

  /** n digits of the word from digit lo on, its first digit being number 0. */
  lemma DigitsOf(b: Bits, lo: nat, n: nat)
    requires |b| == 16 && lo + n <= 16
    ensures Val(b[lo..lo + n]) == Val(b) / Pow2(16 - lo - n) % Pow2(n)
  {
    var lead := b[..16 - (16 - lo - n)];
    LeadingDigits(b, 16 - lo - n);
    TrailingDigits(lead, n);
    assert lead[|lead| - n..] == b[lo..lo + n];
  }

  lemma FieldIs(b: Bits, lo: nat, p: nat)
    requires |b| == 16 && lo + 4 <= 16 && p == Pow2(12 - lo)
    ensures Field(b, lo) == Val(b) / p % 16
  {
    Powers();
    DigitsOf(b, lo, 4);
  }

  lemma DecodesTo(w: nat)
    requires w < 65536
    ensures Decode(Format(w, 16)) == Digits(w)
  {
    var b := Format(w, 16);
    Pow2Of16();
    Powers();
    FormatWidth(w, 16);
    FormatThenRead(w, 16);
    LeadingDigits(b, 13);
    FieldIs(b, 3, 512);
    FieldIs(b, 7, 32);
    FieldIs(b, 11, 2);
    TrailingDigits(b, 5);
    OffsetSign(w % 32);
  }

  lemma OffsetSign(n: nat)
    requires n < 32
    ensures Imm5(n) == if n < 16 then n else n - 32
  {
    assert Pow2(4) == 16;
  }

  /** The machine stands at a 16-bit word with these fields. */
  ghost predicate At(s: State, d: Fields)
  {
    Ok(s) && exists w: nat :: w < 65536 && Access(s.mem, s.pc) == w && d == Digits(w)
  }

  lemma Fetched(s: State, d: Fields) returns (s': State)
    requires At(s, d)
    ensures d.x < 16 && d.y < 16 && d.z < 16 && Step(s) == Some(s') && s' == Perform(s, d)
    ensures Ok(s') && s'.regs[0] == 0
  {
    var w: nat :| w < 65536 && Access(s.mem, s.pc) == w && d == Digits(w);
    DecodesTo(w);
    ZeroStaysZero(s);
    s' := Step(s).value;
  }

  // ----- the instructions -----

  /** All registers but number r, and but register 0, keep their values. */
  predicate KeepsRegisters(s: State, s': State, r: nat)
    requires Ok(s) && Ok(s')
  {
    forall i :: 0 < i < 16 && i != r ==> s'.regs[i] == s.regs[i]
  }

  /** On to the next word, with nothing changed but register r. */
  predicate Computes(s: State, s': State, r: nat)
    requires Ok(s) && Ok(s')
  {
    s'.pc == s.pc + 1 && s'.mem == s.mem && s'.halted == s.halted && KeepsRegisters(s, s', r)
  }

  lemma AddStep(s: State, d: Fields) returns (s': State)
    requires At(s, d) && d.op == 0
    ensures d.x < 16 && d.y < 16 && d.z < 16
    ensures Step(s) == Some(s') && Ok(s') && Computes(s, s', d.x)
    ensures d.x > 0 && IsWord(s.regs[d.y]) && IsWord(s.regs[d.z])
            ==> s'.regs[d.x] == (s.regs[d.y] + s.regs[d.z]) % 65536
  {
    s' := Fetched(s, d);
    if d.x > 0 && IsWord(s.regs[d.y]) && IsWord(s.regs[d.z]) {
      AddIsModular(s, d.x, d.y, d.z);
    }
  }

  lemma NandStep(s: State, d: Fields, k: nat) returns (s': State)
    requires At(s, d) && d.op == 1 && k < 16
    ensures d.x < 16 && d.y < 16 && d.z < 16
    ensures Step(s) == Some(s') && Ok(s') && Computes(s, s', d.x)
    ensures d.x > 0 && IsWord(s.regs[d.y]) && IsWord(s.regs[d.z])
            ==> IsWord(s'.regs[d.x])
                && (BitOf(s'.regs[d.x], k) <==> !(BitOf(s.regs[d.y], k) && BitOf(s.regs[d.z], k)))
  {
    s' := Fetched(s, d);
    if d.x > 0 && IsWord(s.regs[d.y]) && IsWord(s.regs[d.z]) {
      NandIsBitwise(s, d.x, d.y, d.z, k);
    }
  }

  lemma AddiStep(s: State, d: Fields) returns (s': State)
    requires At(s, d) && d.op == 2
    ensures d.x < 16 && d.y < 16 && d.z < 16
    ensures Step(s) == Some(s') && Ok(s') && Computes(s, s', d.x)
    ensures d.x > 0 && 0 <= s.regs[d.y] + d.off ==> s'.regs[d.x] == s.regs[d.y] + d.off
    ensures d.x > 0 && s.regs[d.y] + d.off < 0 ==> s'.regs[d.x] == s.regs[d.y] + d.off + 65536
  {
    s' := Fetched(s, d);
  }

  /** An address never written holds 0. */
  lemma LoadStep(s: State, d: Fields) returns (s': State)
    requires At(s, d) && d.op == 3
    ensures d.x < 16 && d.y < 16 && d.z < 16
    ensures Step(s) == Some(s') && Ok(s') && Computes(s, s', d.x)
    ensures var a := s.regs[d.y] + d.off;
            d.x > 0 ==> (a in s.mem ==> s'.regs[d.x] == s.mem[a]) && (a !in s.mem ==> s'.regs[d.x] == 0)
  {
    s' := Fetched(s, d);
  }

  lemma StoreStep(s: State, d: Fields) returns (s': State)
    requires At(s, d) && d.op == 4
    ensures d.x < 16 && d.y < 16 && d.z < 16
    ensures Step(s) == Some(s') && Ok(s') && KeepsRegisters(s, s', 0) && s'.pc == s.pc + 1 && s'.halted == s.halted
    ensures var a := s.regs[d.y] + d.off;
            && a in s'.mem && s'.mem[a] == s.regs[d.x]
            && forall b :: b != a ==> (b in s'.mem <==> b in s.mem) && (b in s.mem ==> s'.mem[b] == s.mem[b])
  {
    s' := Fetched(s, d);
  }

  lemma BranchStep(s: State, d: Fields) returns (s': State)
    requires At(s, d) && d.op == 5
    ensures d.x < 16 && d.y < 16 && d.z < 16
    ensures Step(s) == Some(s') && Ok(s') && KeepsRegisters(s, s', 0) && s'.mem == s.mem && s'.halted == s.halted
    ensures s.regs[d.x] == s.regs[d.y] ==> s'.pc == s.pc + 1 + d.off
    ensures s.regs[d.x] != s.regs[d.y] ==> s'.pc == s.pc + 1
  {
    s' := Fetched(s, d);
  }

  /** With one register for both, the jump goes to the link just stored. */
  lemma JumpStep(s: State, d: Fields) returns (s': State)
    requires At(s, d) && d.op == 6
    ensures d.x < 16 && d.y < 16 && d.z < 16
    ensures Step(s) == Some(s') && Ok(s') && KeepsRegisters(s, s', d.y) && s'.mem == s.mem && s'.halted == s.halted
    ensures d.y > 0 ==> s'.regs[d.y] == s.pc + 1
    ensures d.x != d.y ==> s'.pc == s.regs[d.x]
    ensures d.x == d.y ==> s'.pc == s.pc + 1
  {
    s' := Fetched(s, d);
  }

  lemma HaltStep(s: State, d: Fields) returns (s': State)
    requires At(s, d) && d.op == 7
    ensures d.x < 16 && d.y < 16 && d.z < 16
    ensures Step(s) == Some(s') && Ok(s') && KeepsRegisters(s, s', 0) && s'.mem == s.mem
    ensures s'.pc == s.pc && s'.halted
  {
    s' := Fetched(s, d);
  }

  /** A halted machine stays as it is; any other goes on from its next step. */
  lemma {:induction false} HaltedStays(s: State, k: nat)
    requires Ok(s) && s.halted
    ensures RunFor(s, k) == Some(s)
  {
    if k > 0 {
      HaltedStays(s, k - 1);
    }
  }

  lemma RunGoesOn(s: State, k: nat)
    requires Ok(s) && !s.halted && k > 0
    ensures RunFor(s, k) == if Step(s).None? then None else RunFor(Step(s).value, k - 1)
  {
  }
}

/** Shifts of 64-bit unsigned words as arithmetic. */
module Shifts {
  import opened Basics

  const WORDS: nat := 0x1_0000_0000_0000_0000
  type Word = a: nat | a < WORDS

  lemma {:induction false} MulAtLeast(d: nat, n: nat)
    requires d >= 1
    ensures d * n >= n
  {
    if d > 1 {
      MulAtLeast(d - 1, n);
      assert d * n == (d - 1) * n + n;
    }
  }

  lemma MulStep(x: int, y: int, n: nat)
    requires x < y
    ensures x * n + n <= y * n
  {
    MulAtLeast(y - x, n);
    assert (y - x) * n == y * n - x * n;
  }

  lemma DivModUnique(a: nat, n: nat, q: nat, r: nat)
    requires n > 0 && a == q * n + r && r < n
    ensures a / n == q && a % n == r
  {
    var q', r' := a / n, a % n;
    assert a == q' * n + r' && 0 <= r' < n;
    if q < q' {
      MulStep(q, q', n);
    } else if q' < q {
      MulStep(q', q, n);
    }
  }

  lemma DivNonNegative(a: nat, n: nat)
    requires n > 0
    ensures a / n >= 0
  {
    var q := a / n;
    assert a == q * n + a % n;
    if q < 0 {
      MulStep(q, 0, n);
    }
  }

  function Div(a: nat, n: nat): (q: nat)
    requires n > 0
    ensures q == a / n
  {
    DivNonNegative(a, n);
    a / n
  }

  lemma DivModDetermine(a: nat, b: nat, n: nat)
    requires n > 0
    ensures a == b <==> Div(a, n) == Div(b, n) && a % n == b % n
  {
    assert a == n * Div(a, n) + a % n && b == n * Div(b, n) + b % n;
  }

  /** `a >> k` */
  function Shr(a: nat, k: nat): nat { Div(a, Pow2(k)) }

  /** `a << k` on 64 bits */
  function Shl(a: Word, k: nat): Word { a * Pow2(k) % WORDS }

  lemma {:induction false} Pow2Adds(m: nat, n: nat)
    ensures Pow2(m + n) == Pow2(m) * Pow2(n)
  {
    if m > 0 {
      Pow2Adds(m - 1, n);
      assert 2 * (Pow2(m - 1) * Pow2(n)) == (2 * Pow2(m - 1)) * Pow2(n);
    }
  }

  lemma {:induction false} Pow2Monotone(m: nat, n: nat)
    requires m <= n
    ensures Pow2(m) <= Pow2(n)
  {
    if m < n {
      Pow2Monotone(m, n - 1);
    }
  }

  lemma Pow2Of64()
    ensures Pow2(64) == WORDS
  {
    Pow2Of16();
    Pow2Adds(16, 16);
    Pow2Adds(32, 32);
  }

  lemma Below(r: nat, q: nat, p: nat)
    requires r < q && p > 0
    ensures r * p < p * q && p * q > 0
  {
    MulAtLeast(q - r, p);
    assert (q - r) * p == p * q - r * p;
    MulAtLeast(q, p);
  }

  lemma ScaledMod(a: nat, p: nat, q: nat)
    requires p > 0 && q > 0
    ensures p * q > 0 && a * p % (p * q) == (a % q) * p
  {
    var k, r := Div(a, q), a % q;
    Below(r, q, p);
    assert a * p == k * (p * q) + r * p by {
      assert a == q * k + r;
      assert (q * k + r) * p == k * (p * q) + r * p;
    }
    DivModUnique(a * p, p * q, k, r * p);
  }

  /** Dividing by q and then by p leaves the remainder l of the second division above the remainder r of the first. */
  lemma TwoDivisions(h: int, l: int, r: int, p: nat, q: nat)
    requires 0 <= l < p && 0 <= r < q
    ensures p * q > 0 && q * (p * h + l) + r == h * (p * q) + (l * q + r) && 0 <= l * q + r < p * q
  {
    Below(l, p, q);
    MulAtLeast(p - l, q);
    assert (p - l) * q == p * q - l * q;
    assert q * (p * h + l) == h * (p * q) + l * q;
  }

  lemma DivThenMod(a: nat, p: nat, q: nat)
    requires p > 0 && q > 0
    ensures p * q > 0 && Div(a % (p * q), q) == Div(a, q) % p && Div(a, p * q) == Div(Div(a, q), p)
  {
    var k, r := Div(a, q), a % q;
    var h, l := Div(k, p), k % p;
    TwoDivisions(h, l, r, p, q);
    var m, s := p * q, l * q + r;
    assert a == h * m + s;
    DivModUnique(a, m, h, s);
    DivModUnique(s, q, l, r);
  }

  /** Shifting k bits off the top and back keeps the low 64 - k bits. */
  lemma ShiftOutAndBack(a: Word, k: nat, n: nat)
    requires k + n == 64
    ensures Shr(Shl(a, k), k) == a % Pow2(n)
  {
    Pow2Of64();
    Pow2Adds(k, n);
    ScaledMod(a, Pow2(k), Pow2(n));
    DivModUnique((a % Pow2(n)) * Pow2(k), Pow2(k), a % Pow2(n), 0);
  }
}

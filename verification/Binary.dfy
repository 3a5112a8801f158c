/** Binary numerals as the LC-2200 tools write and read them: format(n, '0wb') and int(s, 2). */
module Binary {
  import opened Basics

  type Bits = seq<bool>

  /** At least `w` digits, and as many as the number needs. */
  function Format(n: nat, w: nat): (b: Bits)
    ensures |b| >= 1 && |b| >= w
    decreases n + w
  {
    if n < 2 && w <= 1 then [n == 1]
    else Format(n / 2, if w > 0 then w - 1 else 0) + [n % 2 == 1]
  }

  function Val(b: Bits): nat
  {
    if b == [] then 0 else 2 * Val(b[..|b| - 1]) + if b[|b| - 1] then 1 else 0
  }

  /** Reading back a formatted number. */
  lemma {:induction false} FormatThenRead(n: nat, w: nat)
    ensures Val(Format(n, w)) == n
    decreases n + w
  {
    if n < 2 && w <= 1 {
      assert Val([n == 1]) == n by {
        assert [n == 1][..0] == [];
      }
    } else {
      var w' := if w > 0 then w - 1 else 0;
      FormatThenRead(n / 2, w');
      var b := Format(n, w);
      assert b[..|b| - 1] == Format(n / 2, w');
    }
  }

  lemma {:induction false} ReadIsBounded(b: Bits)
    ensures Val(b) < Pow2(|b|)
    ensures |b| >= 1 && b[0] ==> Val(b) >= Pow2(|b| - 1)
  {
    if b != [] {
      ReadIsBounded(b[..|b| - 1]);
    }
  }

  /** A word of the full width, or a wider one without leading zeros, is formatted back digit for digit. */
  lemma {:induction false} ReadThenFormat(b: Bits, w: nat)
    requires |b| >= 1 && (|b| == w || (|b| > w && b[0]))
    ensures Format(Val(b), w) == b
  {
    var init := b[..|b| - 1];
    if |b| == 1 {
      assert init == [];
    } else {
      ReadIsBounded(init);
      ReadThenFormat(init, if w > 0 then w - 1 else 0);
      assert b == init + [b[|b| - 1]];
    }
  }

  lemma {:induction false} FormatWidth(n: nat, w: nat)
    requires w >= 1
    ensures |Format(n, w)| == w <==> n < Pow2(w)
  {
    if w == 1 {
      assert Pow2(1) == 2;
      assert n >= 2 ==> |Format(n / 2, 0)| >= 1;
    } else {
      FormatWidth(n / 2, w - 1);
    }
  }
}

/** Bitwise AND and OR of naturals, and the facts that let a packed word be
    read field by field. */
module Bits {

  function Pow2(k: nat): (p: nat)
    ensures p > 0
  {
    if k == 0 then 1 else 2 * Pow2(k - 1)
  }

  /** The powers that word layouts use. */
  lemma Powers()
    ensures Pow2(12) == 0x1000 && Pow2(52) == 0x10_0000_0000_0000
    ensures Pow2(8) == 0x100 && Pow2(24) == 0x100_0000 && Pow2(32) == 0x1_0000_0000 && Pow2(62) == 0x4000_0000_0000_0000
  {
    assert Pow2(12) == 0x1000;
    assert Pow2(24) == 0x1000 * Pow2(12);
    assert Pow2(36) == 0x1000 * Pow2(24);
    assert Pow2(48) == 0x1000 * Pow2(36);
    assert Pow2(52) == 0x10 * Pow2(48);
    assert Pow2(60) == 0x1000 * Pow2(48);
    assert Pow2(32) == 0x100 * Pow2(24);
  }

  /** Left shift by `k` digits. */
  function Shl(x: nat, k: nat): nat
  {
    if k == 0 then x else 2 * Shl(x, k - 1)
  }

  function And(x: nat, y: nat): nat
  {
    if x == 0 || y == 0 then 0
    else 2 * And(x / 2, y / 2) + Digit(x % 2 == 1 && y % 2 == 1)
  }

  function Or(x: nat, y: nat): nat
  {
    if x == 0 then y
    else if y == 0 then x
    else 2 * Or(x / 2, y / 2) + Digit(x % 2 == 1 || y % 2 == 1)
  }

  function Digit(b: bool): nat
  {
    if b then 1 else 0
  }

  lemma {:induction false} ShlIsProduct(x: nat, k: nat)
    ensures Shl(x, k) == x * Pow2(k)
  {
    if k > 0 {
      ShlIsProduct(x, k - 1);
      assert x * (2 * Pow2(k - 1)) == 2 * (x * Pow2(k - 1));
    }
  }

  lemma OrZero(x: nat)
    ensures Or(x, 0) == x && Or(0, x) == x
  {
  }

  /** One binary digit at a time, with no special case for zero. */
  lemma AndDigit(x: nat, y: nat)
    ensures And(x, y) == 2 * And(x / 2, y / 2) + Digit(x % 2 == 1 && y % 2 == 1)
  {
    if x == 0 || y == 0 {
      assert And(x / 2, y / 2) == 0;
    }
  }

  lemma OrDigit(x: nat, y: nat)
    ensures Or(x, y) == 2 * Or(x / 2, y / 2) + Digit(x % 2 == 1 || y % 2 == 1)
  {
    OrZero(x / 2);
    OrZero(y / 2);
  }

  /** AND acts on the digits above and below any position separately. */
  lemma {:induction false} AndJoin(hi: nat, lo: nat, hi': nat, lo': nat, k: nat)
    requires lo < Pow2(k) && lo' < Pow2(k)
    ensures And(Shl(hi, k) + lo, Shl(hi', k) + lo') == Shl(And(hi, hi'), k) + And(lo, lo')
    decreases k
  {
    if k > 0 {
      AndDigit(Shl(hi, k) + lo, Shl(hi', k) + lo');
      AndDigit(lo, lo');
      AndJoin(hi, lo / 2, hi', lo' / 2, k - 1);
      assert (Shl(hi, k) + lo) / 2 == Shl(hi, k - 1) + lo / 2;
      assert (Shl(hi', k) + lo') / 2 == Shl(hi', k - 1) + lo' / 2;
    }
  }

  lemma {:induction false} OrJoin(hi: nat, lo: nat, hi': nat, lo': nat, k: nat)
    requires lo < Pow2(k) && lo' < Pow2(k)
    ensures Or(Shl(hi, k) + lo, Shl(hi', k) + lo') == Shl(Or(hi, hi'), k) + Or(lo, lo')
    decreases k
  {
    if k > 0 {
      OrDigit(Shl(hi, k) + lo, Shl(hi', k) + lo');
      OrDigit(lo, lo');
      OrJoin(hi, lo / 2, hi', lo' / 2, k - 1);
      assert (Shl(hi, k) + lo) / 2 == Shl(hi, k - 1) + lo / 2;
      assert (Shl(hi', k) + lo') / 2 == Shl(hi', k - 1) + lo' / 2;
    }
  }

  /** A mask of `k` ones keeps every number below `2^k` as it is. */
  lemma {:induction false} AndOnes(x: nat, k: nat)
    requires x < Pow2(k)
    ensures And(x, Pow2(k) - 1) == x
    decreases k
  {
    if k > 0 {
      AndDigit(x, Pow2(k) - 1);
      AndOnes(x / 2, k - 1);
      assert (Pow2(k) - 1) / 2 == Pow2(k - 1) - 1;
    }
  }

  /** A mask of `k` ones drops every digit from position `k` up. */
  lemma AndLow(hi: nat, lo: nat, k: nat)
    requires lo < Pow2(k)
    ensures And(Shl(hi, k) + lo, Pow2(k) - 1) == lo
  {
    ShlIsProduct(0, k);
    AndJoin(hi, lo, 0, Pow2(k) - 1, k);
    AndOnes(lo, k);
  }

  // ---- the two lowest digits, read, set and cleared ---------------------

  lemma LowestDigit(q: nat, s: nat)
    requires s < 2
    ensures And(2 * q + s, 1) == s && Or(2 * q + s, 1) == 2 * q + 1
  {
    AndDigit(2 * q + s, 1);
    OrDigit(2 * q + s, 1);
    OrZero(q);
  }

  lemma SecondDigit(q: nat, f: nat, s: nat)
    requires f < 2 && s < 2
    ensures And(4 * q + 2 * f + s, 2) == 2 * f
    ensures And(4 * q + 2 * f + s, 3) == 2 * f + s
    ensures Or(4 * q + 2 * f + s, 2) == 4 * q + 2 + s
  {
    var w := 4 * q + 2 * f + s;
    assert w / 2 == 2 * q + f;
    AndDigit(w, 2);
    AndDigit(w, 3);
    OrDigit(w, 2);
    LowestDigit(q, f);
  }

  /** A mask of `k` ones over a zero over a one clears the second digit only. */
  lemma SecondDigitCleared(q: nat, f: nat, s: nat, k: nat)
    requires q < Pow2(k) && f < 2 && s < 2
    ensures And(4 * q + 2 * f + s, 4 * (Pow2(k) - 1) + 1) == 4 * q + s
  {
    var w, ones := 4 * q + 2 * f + s, Pow2(k) - 1;
    assert w / 2 == 2 * q + f && (4 * ones + 1) / 2 == 2 * ones;
    AndDigit(w, 4 * ones + 1);
    AndDigit(2 * q + f, 2 * ones);
    AndOnes(q, k);
  }
}

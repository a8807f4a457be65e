/**
 Bitwise operators on unbounded naturals, defined digit by digit, and the lemmas that turn the masks,
 shifts and single-bit updates of the driver into arithmetic on fields.
 */
module Bits {
  import opened Arithmetic

  function Pow2(n: nat): (p: nat)
    ensures p > 0
  {
    if n == 0 then 1 else 2 * Pow2(n - 1)
  }

  function And(x: nat, y: nat): nat {
    if x == 0 || y == 0 then 0
    else 2 * And(x / 2, y / 2) + (if x % 2 == 1 && y % 2 == 1 then 1 else 0)
  }

  function Or(x: nat, y: nat): nat {
    if x == 0 then y
    else if y == 0 then x
    else 2 * Or(x / 2, y / 2) + (if x % 2 == 1 || y % 2 == 1 then 1 else 0)
  }

  function Xor(x: nat, y: nat): nat {
    if x == 0 then y
    else if y == 0 then x
    else 2 * Xor(x / 2, y / 2) + (if x % 2 != y % 2 then 1 else 0)
  }

  function Shl(x: nat, k: nat): (r: nat)
    ensures x > 0 ==> r > 0
  {
    if k == 0 then x else 2 * Shl(x, k - 1)
  }

  function Shr(x: nat, k: nat): nat {
    if k == 0 then x else Shr(x / 2, k - 1)
  }

  /** The w low bits of x. */
  function Low(x: nat, w: nat): nat {
    if w == 0 then 0 else 2 * Low(x / 2, w - 1) + x % 2
  }

  predicate Bit(x: nat, k: nat) {
    Shr(x, k) % 2 == 1
  }

  // ----- one step of each operator

  lemma AndStep(x: nat, y: nat)
    ensures And(x, y) == 2 * And(x / 2, y / 2) + (if x % 2 == 1 && y % 2 == 1 then 1 else 0)
  {
  }

  lemma OrStep(x: nat, y: nat)
    ensures Or(x, y) == 2 * Or(x / 2, y / 2) + (if x % 2 == 1 || y % 2 == 1 then 1 else 0)
  {
    if x == 0 {
      assert Or(0, y / 2) == y / 2;
    } else if y == 0 {
      OrZero(x / 2);
    }
  }

  lemma OrZero(x: nat)
    ensures Or(x, 0) == x && Or(0, x) == x && Xor(x, 0) == x && Xor(0, x) == x
  {
  }

  lemma XorStep(x: nat, y: nat)
    ensures Xor(x, y) == 2 * Xor(x / 2, y / 2) + (if x % 2 != y % 2 then 1 else 0)
  {
    OrZero(x / 2);
    OrZero(y / 2);
  }

  lemma AndZero(x: nat)
    ensures And(x, 0) == 0
  {
  }

  // ----- powers of two and fields

  lemma {:induction false} Pow2Add(a: nat, b: nat)
    ensures Pow2(a + b) == Shl(Pow2(b), a)
  {
    if a != 0 { Pow2Add(a - 1, b); }
  }

  lemma {:induction false} Pow2Monotone(a: nat, b: nat)
    requires a <= b
    ensures Pow2(a) <= Pow2(b)
  {
    if a < b { Pow2Monotone(a, b - 1); }
  }

  /** The powers the register map uses. */
  lemma Pow2Values()
    ensures Pow2(4) == 0x10 && Pow2(5) == 0x20 && Pow2(8) == 0x100 && Pow2(12) == 0x1000 && Pow2(15) == 0x8000
    ensures Pow2(16) == 0x1_0000 && Pow2(31) == 0x8000_0000 && Pow2(32) == 0x1_0000_0000
  {
    assert Pow2(4) == 0x10;
    assert Pow2(8) == 0x100;
    assert Pow2(12) == 0x1000;
    assert Pow2(16) == 0x1_0000;
    assert Pow2(20) == 0x10_0000;
    assert Pow2(24) == 0x100_0000;
    assert Pow2(28) == 0x1000_0000;
  }

  lemma {:induction false} ShlIsProduct(x: nat, k: nat)
    ensures Shl(x, k) == x * Pow2(k)
  {
    if k != 0 {
      ShlIsProduct(x, k - 1);
      assert x * (2 * Pow2(k - 1)) == 2 * (x * Pow2(k - 1));
    }
  }

  /** Every number is its w low bits plus the rest, and no other split exists. */
  lemma {:induction false} SplitAt(x: nat, w: nat)
    ensures x == Shl(Shr(x, w), w) + Low(x, w)
    ensures Low(x, w) < Pow2(w)
  {
    if w != 0 { SplitAt(x / 2, w - 1); }
  }

  lemma {:induction false} SplitUnique(hi: nat, lo: nat, w: nat)
    requires lo < Pow2(w)
    ensures Shr(Shl(hi, w) + lo, w) == hi && Low(Shl(hi, w) + lo, w) == lo
  {
    if w != 0 {
      SplitUnique(hi, lo / 2, w - 1);
      assert (Shl(hi, w) + lo) / 2 == Shl(hi, w - 1) + lo / 2;
    }
  }

  /** The low bits and the rest as remainder and quotient. */
  lemma LowIsMod(x: nat, w: nat, m: nat)
    requires m == Pow2(w)
    ensures Low(x, w) == x % m && Shr(x, w) == x / m
  {
    SplitAt(x, w);
    ShlIsProduct(Shr(x, w), w);
    DivUnique(x, m, Shr(x, w), Low(x, w));
  }

  lemma {:induction false} LowOfLow(x: nat, v: nat, w: nat)
    requires w <= v
    ensures Low(Low(x, v), w) == Low(x, w)
  {
    if w != 0 {
      LowOfLow(x / 2, v - 1, w - 1);
      assert Low(x, v) / 2 == Low(x / 2, v - 1) && Low(x, v) % 2 == x % 2;
    }
  }

  lemma {:induction false} ShrShr(x: nat, a: nat, b: nat)
    ensures Shr(Shr(x, a), b) == Shr(x, a + b)
  {
    if a != 0 { ShrShr(x / 2, a - 1, b); }
  }

  // ----- masks

  /** Masking with the w low ones keeps the w low bits. */
  lemma {:induction false} AndMask(x: nat, w: nat)
    ensures And(x, Pow2(w) - 1) == Low(x, w)
  {
    if w == 0 {
      AndZero(x);
    } else {
      AndMask(x / 2, w - 1);
      AndStep(x, Pow2(w) - 1);
      assert (Pow2(w) - 1) / 2 == Pow2(w - 1) - 1;
    }
  }

  /** A field mask, w ones moved up by k, keeps that field in place. */
  lemma {:induction false} AndField(x: nat, w: nat, k: nat)
    ensures And(x, Shl(Pow2(w) - 1, k)) == Shl(Low(Shr(x, k), w), k)
  {
    var m := Pow2(w) - 1;
    if k == 0 {
      AndMask(x, w);
    } else {
      AndField(x / 2, w, k - 1);
      AndStep(x, Shl(m, k));
      assert Shl(m, k) / 2 == Shl(m, k - 1);
    }
  }

  /** Extracting a field: mask in place, then shift down. */
  lemma GetField(x: nat, w: nat, k: nat)
    ensures Shr(And(x, Shl(Pow2(w) - 1, k)), k) == Low(Shr(x, k), w)
  {
    AndField(x, w, k);
    SplitUnique(Low(Shr(x, k), w), 0, k);
  }

  /** Complementary masks split a number in two. */
  lemma {:induction false} AndComplement(x: nat, m: nat, w: nat)
    requires x < Pow2(w) && m < Pow2(w)
    ensures And(x, m) + And(x, Pow2(w) - 1 - m) == x
  {
    if w == 0 {
      AndZero(0);
    } else {
      var c := Pow2(w) - 1 - m;
      AndComplement(x / 2, m / 2, w - 1);
      assert c / 2 == Pow2(w - 1) - 1 - m / 2;
      AndStep(x, m);
      AndStep(x, c);
    }
  }

  // ----- single bits

  lemma AndBit(x: nat, k: nat)
    ensures And(x, Pow2(k)) == if Bit(x, k) then Pow2(k) else 0
  {
    AndField(x, 1, k);
    Pow2Add(k, 0);
    SplitUnique(0, 0, k);
    assert Pow2(1) == 2 && Pow2(0) == 1;
    assert Low(Shr(x, k), 1) == Shr(x, k) % 2;
    ShlIsProduct(0, k);
  }

  lemma {:induction false} OrBit(x: nat, k: nat)
    ensures Or(x, Pow2(k)) == if Bit(x, k) then x else x + Pow2(k)
  {
    if k == 0 {
      OrStep(x, 1);
      OrZero(x / 2);
    } else {
      OrBit(x / 2, k - 1);
      OrStep(x, Pow2(k));
    }
  }

  lemma {:induction false} XorBit(x: nat, k: nat)
    ensures Xor(x, Pow2(k)) == if Bit(x, k) then x - Pow2(k) else x + Pow2(k)
  {
    var p := Pow2(k);
    XorStep(x, p);
    if k == 0 {
      OrZero(x / 2);
    } else {
      assert p / 2 == Pow2(k - 1) && p % 2 == 0;
      XorBit(x / 2, k - 1);
      assert Bit(x, k) == Bit(x / 2, k - 1);
    }
  }

  // ----- disjoint fields

  lemma {:induction false} OrDisjoint(hi: nat, lo: nat, w: nat)
    requires lo < Pow2(w)
    ensures Or(Shl(hi, w), lo) == Shl(hi, w) + lo
    ensures Or(lo, Shl(hi, w)) == Shl(hi, w) + lo
  {
    var h := Shl(hi, w);
    if w == 0 {
      OrZero(hi);
    } else {
      OrDisjoint(hi, lo / 2, w - 1);
      OrStep(h, lo);
      OrStep(lo, h);
      assert h / 2 == Shl(hi, w - 1);
    }
  }
}

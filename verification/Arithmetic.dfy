/**
 Greatest common divisor, least common multiple and the fold of the latter over a list, with the
 divisibility facts the sampling-rate proofs rest on.
 */
module Arithmetic {

  predicate Divides(d: nat, x: nat) {
    if d == 0 then x == 0 else x % d == 0
  }

  lemma DividesIntro(d: nat, k: nat, x: nat)
    requires x == k * d
    ensures Divides(d, x)
  {
    if d > 0 {
      DivExact(x, d, k);
    }
  }

  lemma DividesElim(d: nat, x: nat) returns (k: nat)
    requires Divides(d, x)
    ensures x == k * d
  {
    if d == 0 {
      k := 0;
    } else {
      k := x / d;
      assert x == d * (x / d) + x % d;
    }
  }

  lemma MulLess(a: int, b: int, m: int)
    requires a < b && m > 0
    ensures a * m + m <= b * m
  {
    assert (b - a - 1) * m >= 0;
    assert (b - a - 1) * m == b * m - a * m - m;
  }

  lemma QuotientUnique(m: int, q: int, r: int, q': int, r': int)
    requires 0 <= r < m && 0 <= r' < m && q * m + r == q' * m + r'
    ensures q == q' && r == r'
  {
    if q < q' {
      MulLess(q, q', m);
    } else if q' < q {
      MulLess(q', q, m);
    }
  }

  lemma DivMod(x: int, m: int)
    requires m > 0
    ensures x == (x / m) * m + x % m && 0 <= x % m < m
  {
  }

  lemma DivUnique(x: int, m: int, q: int, r: int)
    requires m > 0 && 0 <= r < m && x == q * m + r
    ensures x / m == q && x % m == r
  {
    DivMod(x, m);
    QuotientUnique(m, x / m, x % m, q, r);
  }

  /** Reducing modulo a multiple of m first changes nothing modulo m. */
  lemma ModMultiple(x: int, m: int, k: int)
    requires m > 0 && k > 0 && m * k > 0
    ensures (x % (m * k)) % m == x % m
  {
    var q, r := x / (m * k), x % (m * k);
    DivMod(x, m * k);
    DivMod(r, m);
    assert q * (m * k) == (q * k) * m;
    assert (q * k) * m + (r / m) * m == (q * k + r / m) * m;
    DivUnique(x, m, q * k + r / m, r % m);
  }

  lemma DivExact(x: int, d: int, k: int)
    requires d > 0 && x == k * d
    ensures x / d == k && x % d == 0
  {
    DivUnique(x, d, k, 0);
  }

  lemma DividesTransitive(a: nat, b: nat, c: nat)
    requires Divides(a, b) && Divides(b, c)
    ensures Divides(a, c)
  {
    var k := DividesElim(a, b);
    var l := DividesElim(b, c);
    assert c == (l * k) * a by {
      assert l * (k * a) == (l * k) * a;
    }
    DividesIntro(a, l * k, c);
  }

  /** Greatest common divisor, by Euclid's subtractions. */
  function Gcd(a: nat, b: nat): (g: nat)
    ensures a > 0 || b > 0 ==> g > 0
    decreases a + b
  {
    if b == 0 then a
    else if a == 0 then b
    else if a >= b then Gcd(a - b, b)
    else Gcd(a, b - a)
  }

  /** std::lcm: zero when either argument is zero. */
  function Lcm(a: nat, b: nat): nat {
    if a == 0 || b == 0 then 0 else a / Gcd(a, b) * b
  }

  /** g divides a and b, with the given cofactors, and is an integer combination of them. */
  ghost predicate Combination(a: nat, b: nat, g: nat, x: int, y: int, a': nat, b': nat) {
    && a == a' * g && b == b' * g && x * a + y * b == g
    && (a > 0 ==> a' > 0) && (b > 0 ==> b' > 0)
  }

  lemma {:induction false} Bezout(a: nat, b: nat) returns (x: int, y: int, a': nat, b': nat)
    ensures Combination(a, b, Gcd(a, b), x, y, a', b')
    decreases a + b
  {
    hide Combination;
    if b == 0 {
      x, y, a', b' := 1, 0, 1, 0;
      CombinationTrivial(a);
    } else if a == 0 {
      x, y, a', b' := 0, 1, 0, 1;
      CombinationTrivial(b);
    } else if a >= b {
      x, y, a', b' := Bezout(a - b, b);
      CombinationAddLeft(a - b, b, Gcd(a, b), x, y, a', b');
      y, a' := y - x, a' + b';
    } else {
      x, y, a', b' := Bezout(a, b - a);
      CombinationAddRight(a, b - a, Gcd(a, b), x, y, a', b');
      x, b' := x - y, b' + a';
    }
  }

  lemma CombinationTrivial(a: nat)
    ensures Combination(a, 0, a, 1, 0, 1, 0) && Combination(0, a, a, 0, 1, 0, 1)
  {
  }

  lemma CombinationAddLeft(c: nat, b: nat, g: nat, x: int, y: int, c': nat, b': nat)
    requires Combination(c, b, g, x, y, c', b')
    ensures Combination(c + b, b, g, x, y - x, c' + b', b')
  {
    Distribute(c', b', g);
    Regroup(x, y, c, b);
  }

  lemma CombinationAddRight(a: nat, c: nat, g: nat, x: int, y: int, a': nat, c': nat)
    requires Combination(a, c, g, x, y, a', c')
    ensures Combination(a, c + a, g, x - y, y, a', c' + a')
  {
    Distribute(c', a', g);
    Regroup(y, x, c, a);
  }

  lemma Distribute(a: int, b: int, m: int)
    ensures (a + b) * m == a * m + b * m
  {
  }

  lemma Associate(k: int, a: int, d: int)
    ensures k * (a * d) == k * a * d
  {
  }

  lemma Regroup(x: int, y: int, c: int, b: int)
    ensures x * (c + b) + (y - x) * b == x * c + y * b
  {
  }

  /** A common multiple that divides every other common multiple. */
  ghost predicate IsLcm(m: nat, a: nat, b: nat) {
    && Divides(a, m) && Divides(b, m)
    && forall x: nat :: Divides(a, x) && Divides(b, x) ==> Divides(m, x)
  }

  lemma LcmIsLeast(a: nat, b: nat)
    ensures IsLcm(Lcm(a, b), a, b)
  {
    if a == 0 || b == 0 {
      assert Divides(a, 0) && Divides(b, 0);
    } else {
      var x, y, a', b' := Bezout(a, b);
      var g := Gcd(a, b);
      LcmByCofactor(a, b, g, x, y, a', b');
      forall c: nat | Divides(a, c) && Divides(b, c)
        ensures Divides(Lcm(a, b), c)
      {
        CommonMultiple(a, b, g, a', x, y, c);
      }
    }
  }

  lemma LcmByCofactor(a: nat, b: nat, g: nat, x: int, y: int, a': nat, b': nat)
    requires a > 0 && b > 0 && g > 0 && Combination(a, b, g, x, y, a', b')
    ensures a / g * b == a' * b
    ensures Divides(a, a' * b) && Divides(b, a' * b)
  {
    DivExact(a, g, a');
    DividesIntro(b, a', a' * b);
    Swap(a', b', g);
    DividesIntro(a, b', a' * b);
  }

  lemma Swap(a: int, b: int, g: int)
    ensures a * (b * g) == b * (a * g)
  {
  }

  /** With x*a + y*b = g, every common multiple of a and b is a multiple of a*b/g. */
  lemma CommonMultiple(a: nat, b: nat, g: nat, a': nat, x: int, y: int, c: nat)
    requires a > 0 && b > 0 && g > 0 && a' > 0 && a == a' * g && x * a + y * b == g
    requires Divides(a, c) && Divides(b, c)
    ensures Divides(a' * b, c)
  {
    var k := DividesElim(a, c);
    var l := DividesElim(b, c);
    var m, z := a' * b, x * l + y * k;
    MulPositive(a', b);
    assert g * c == g * (z * m) by {
      calc {
        g * c;
        (x * a + y * b) * c;
        x * a * c + y * b * c;
        x * a * (l * b) + y * b * (k * a);
        (x * l + y * k) * (a * b);
        z * (a' * g * b);
        g * (z * m);
      }
    }
    MulCancel(g, c, z * m);
    MulNonNegative(z, m, c);
    DividesIntro(m, z, c);
  }

  lemma MulNonNegative(z: int, m: nat, c: nat)
    requires m > 0 && z * m == c
    ensures z >= 0
  {
    if z < 0 { MulLess(z, 0, m); }
  }

  lemma MulCancel(g: int, x: int, y: int)
    requires g != 0 && g * x == g * y
    ensures x == y
  {
    assert g * (x - y) == 0;
  }

  lemma MulPositive(x: int, y: int)
    requires x > 0 && y > 0
    ensures x * y > 0
  {
  }

  lemma LcmZero(a: nat, b: nat)
    ensures Lcm(a, b) == 0 <==> a == 0 || b == 0
  {
    if a != 0 && b != 0 {
      var x, y, a', b' := Bezout(a, b);
      DivExact(a, Gcd(a, b), a');
      MulPositive(a', b);
    }
  }

  /** Left fold of lcm over a list, from 1. */
  function LcmAll(s: seq<nat>): nat {
    if s == [] then 1 else Lcm(LcmAll(s[..|s| - 1]), s[|s| - 1])
  }

  /** The fold divides x exactly when every element does. */
  lemma {:induction false} LcmAllLeast(s: seq<nat>, x: nat)
    ensures Divides(LcmAll(s), x) <==> forall i :: 0 <= i < |s| ==> Divides(s[i], x)
  {
    if s != [] {
      var n := |s| - 1;
      var p, m := LcmAll(s[..n]), LcmAll(s);
      LcmAllLeast(s[..n], x);
      LcmIsLeast(p, s[n]);
      if Divides(m, x) {
        DividesTransitive(p, m, x);
        DividesTransitive(s[n], m, x);
        forall i | 0 <= i < |s| ensures Divides(s[i], x) {
          if i < n { assert s[..n][i] == s[i]; }
        }
      }
      if forall i :: 0 <= i < |s| ==> Divides(s[i], x) {
        forall i | 0 <= i < n ensures Divides(s[..n][i], x) {
          assert s[..n][i] == s[i];
        }
      }
    }
  }

  lemma DividesRefl(x: nat)
    ensures Divides(x, x)
  {
    DividesIntro(x, 1, x);
  }

  /** The fold vanishes exactly when some element is zero. */
  lemma {:induction false} LcmAllZero(s: seq<nat>)
    ensures LcmAll(s) == 0 <==> exists i :: 0 <= i < |s| && s[i] == 0
  {
    if s != [] {
      var n := |s| - 1;
      LcmAllZero(s[..n]);
      LcmZero(LcmAll(s[..n]), s[n]);
      assert forall i :: 0 <= i < n ==> s[..n][i] == s[i];
    }
  }
}

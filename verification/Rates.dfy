/**
 Sampling rates: the timebase as a least common multiple, the frame divider of each core, how often a
 divider fires over a window of frames, and the search for the timebase divider.
 */
module Rates {
  import opened Arithmetic

  /** Frame divider of a core; a core without a rate of its own runs in every frame. */
  function Divider(timebase: nat, frequency: nat): nat {
    if frequency == 0 then 1 else timebase / frequency
  }

  ghost predicate AllZero(s: seq<nat>) {
    forall i :: 0 <= i < |s| ==> s[i] == 0
  }

  ghost predicate AllNonzero(s: seq<nat>) {
    forall i :: 0 <= i < |s| ==> s[i] != 0
  }

  // ----- the fold in the types of the code

  /** std::lcm works on uint32_t, and each of its results must be representable there. */
  ghost predicate FoldDefined(frequencies: seq<nat>) {
    forall i :: 0 <= i <= |frequencies| ==> StepDefined(frequencies, i)
  }

  predicate StepDefined(frequencies: seq<nat>, i: nat)
    requires i <= |frequencies|
  {
    LcmAll(frequencies[..i]) < 0x1_0000_0000
  }

  /** The running value of the fold is an int, so a result from 2^31 up is kept as a negative number. */
  function Stored(x: nat): int
    requires x < 0x1_0000_0000
  {
    if x < 0x8000_0000 then x else x - 0x1_0000_0000
  }

  /** With nonzero rates the fold is defined exactly when its result is representable. */
  lemma FoldDefinedIff(frequencies: seq<nat>)
    requires AllNonzero(frequencies)
    ensures FoldDefined(frequencies) <==> LcmAll(frequencies) < 0x1_0000_0000
  {
    assert frequencies[..|frequencies|] == frequencies;
    forall i | 0 <= i <= |frequencies| ensures LcmAll(frequencies[..i]) <= LcmAll(frequencies) {
      var p, m := LcmAll(frequencies[..i]), LcmAll(frequencies);
      DividesRefl(m);
      LcmAllLeast(frequencies, m);
      LcmAllLeast(frequencies[..i], m);
      LcmAllZero(frequencies);
      DividesAtMost(p, m);
    }
    if FoldDefined(frequencies) { assert StepDefined(frequencies, |frequencies|); }
  }

  lemma DividesAtMost(d: nat, x: nat)
    requires Divides(d, x) && x > 0
    ensures d <= x
  {
    var k := DividesElim(d, x);
    if d > x { QuotientUnique(d, k, 0, 0, x); }
  }

  /** Two cores at 50000 and 50001 Hz: the timebase the code works with is negative. */
  lemma StoredNegative()
    ensures AllNonzero([50000, 50001]) && FoldDefined([50000, 50001])
    ensures LcmAll([50000, 50001]) == 2500050000 && Stored(2500050000) < 0
  {
    var s := [50000, 50001];
    assert s[..1] == [50000] && [50000][..0] == [];
    GcdOfOne(50000);
    assert LcmAll([]) == 1;
    assert LcmAll([50000]) == 50000;
    GcdOfNext(50000);
    FoldDefinedIff(s);
  }

  lemma FactorOfOne(a: int, g: nat)
    requires a * g == 1
    ensures g == 1
  {
    if g > 1 { QuotientUnique(g, a, 0, 0, 1); }
  }

  lemma GcdOfOne(b: nat)
    requires b > 0
    ensures Gcd(1, b) == 1
  {
    hide Gcd;
    var x, y, a', b' := Bezout(1, b);
    FactorOfOne(a', Gcd(1, b));
  }

  lemma GcdOfNext(a: nat)
    requires a > 0
    ensures Gcd(a, a + 1) == 1
  {
    hide Gcd;
    var x, y, a', b' := Bezout(a, a + 1);
    var g: nat := Gcd(a, a + 1);
    var m: int := a';
    Distribute(b', -m, g);
    FactorOfOne(b' - m, g);
  }

  // ----- dividers

  /** With nonzero rates, divider times rate is the timebase, and the timebase is the least for which that can be. */
  lemma {:induction false} DividerExact(frequencies: seq<nat>, k: nat)
    requires AllNonzero(frequencies) && k < |frequencies|
    ensures Divider(LcmAll(frequencies), frequencies[k]) * frequencies[k] == LcmAll(frequencies)
    ensures Divider(LcmAll(frequencies), frequencies[k]) >= 1
  {
    var t := LcmAll(frequencies);
    DividesRefl(t);
    LcmAllLeast(frequencies, t);
    LcmAllZero(frequencies);
    var d := DividesElim(frequencies[k], t);
    DivExact(t, frequencies[k], d);
  }

  /**
   The programmed value divider-1 never wraps exactly when the rates are all zero or all nonzero: one
   zero among nonzero rates makes the timebase zero and every other divider with it.
   */
  lemma DividersPositive(frequencies: seq<nat>)
    ensures (forall k :: 0 <= k < |frequencies| ==> Divider(LcmAll(frequencies), frequencies[k]) >= 1)
       <==> AllZero(frequencies) || AllNonzero(frequencies)
  {
    LcmAllZero(frequencies);
    if AllNonzero(frequencies) {
      forall k | 0 <= k < |frequencies| ensures Divider(LcmAll(frequencies), frequencies[k]) >= 1 {
        DividerExact(frequencies, k);
      }
    }
    if i, j :| 0 <= i < |frequencies| && 0 <= j < |frequencies| && frequencies[i] == 0 && frequencies[j] != 0 {
      assert LcmAll(frequencies) == 0;
      assert 0 / frequencies[j] == 0;
      assert Divider(LcmAll(frequencies), frequencies[j]) == 0;
    }
  }

  /** The rates of the cores that have one. */
  function Rated(frequencies: seq<nat>): seq<nat> {
    if frequencies == [] then []
    else
      var n := |frequencies| - 1;
      Rated(frequencies[..n]) + (if frequencies[n] != 0 then [frequencies[n]] else [])
  }

  lemma {:induction false} RatedNonzero(frequencies: seq<nat>)
    ensures AllNonzero(Rated(frequencies)) && LcmAll(Rated(frequencies)) >= 1
    ensures AllNonzero(frequencies) ==> Rated(frequencies) == frequencies
  {
    if frequencies != [] {
      RatedNonzero(frequencies[..|frequencies| - 1]);
      assert AllNonzero(frequencies) ==> AllNonzero(frequencies[..|frequencies| - 1]);
    }
    LcmAllZero(Rated(frequencies));
  }

  // ----- firing counts

  /** Number of frames of [from, from + n) in which a core of divider d fires. */
  function Firings(d: nat, from: nat, n: nat): nat {
    if n == 0 then 0 else Firings(d, from, n - 1) + (if Divides(d, from + n - 1) then 1 else 0)
  }

  lemma {:induction false} FiringsSplit(d: nat, from: nat, m: nat, n: nat)
    ensures Firings(d, from, m + n) == Firings(d, from, m) + Firings(d, from + m, n)
  {
    if n != 0 { FiringsSplit(d, from, m, n - 1); }
  }

  lemma {:induction false} NoFirings(d: nat, from: nat, n: nat)
    requires forall f :: from <= f < from + n ==> !Divides(d, f)
    ensures Firings(d, from, n) == 0
  {
    if n != 0 { NoFirings(d, from, n - 1); }
  }

  /** The one multiple of d in a window of d frames. */
  lemma NextMultiple(d: nat, from: nat) returns (x: nat)
    requires d > 0
    ensures from <= x < from + d && Divides(d, x)
    ensures forall f: nat :: from <= f < from + d && Divides(d, f) ==> f == x
  {
    var q, r := from / d, from % d;
    DivMod(from, d);
    var k := if r == 0 then q else q + 1;
    x := k * d;
    assert (q + 1) * d == q * d + d;
    DividesIntro(d, k, x);
    forall f: nat | from <= f < from + d && Divides(d, f) ensures f == x {
      var l := DividesElim(d, f);
      if l < k { MulLess(l, k, d); }
      if k < l { MulLess(k, l, d); }
    }
  }

  lemma {:induction false} EveryFrame(from: nat, n: nat)
    ensures Firings(1, from, n) == n
  {
    if n != 0 { EveryFrame(from, n - 1); }
  }

  lemma OnePerDivider(d: nat, from: nat)
    requires d > 0
    ensures Firings(d, from, d) == 1
  {
    var x := NextMultiple(d, from);
    FiringsSplit(d, from, x - from, from + d - x);
    FiringsSplit(d, x, 1, from + d - x - 1);
    NoFirings(d, from, x - from);
    NoFirings(d, x + 1, from + d - x - 1);
    assert Firings(d, x, 1) == Firings(d, x, 0) + 1;
  }

  lemma {:induction false} FiringsPerWindow(d: nat, from: nat, m: nat)
    requires d > 0
    ensures Firings(d, from, m * d) == m
    decreases m
  {
    if m != 0 {
      assert m * d == d + (m - 1) * d;
      FiringsSplit(d, from, d, (m - 1) * d);
      OnePerDivider(d, from);
      FiringsPerWindow(d, from + d, m - 1);
    }
  }

  /**
   Exact rates over every run: in any window of `timebase` consecutive frames, wherever it starts, each
   core fires exactly as many times as its sampling frequency says.
   */
  lemma ExactRate(frequencies: seq<nat>, k: nat, from: nat)
    requires AllNonzero(frequencies) && k < |frequencies|
    ensures Firings(Divider(LcmAll(frequencies), frequencies[k]), from, LcmAll(frequencies)) == frequencies[k]
  {
    DividerExact(frequencies, k);
    var d := Divider(LcmAll(frequencies), frequencies[k]);
    assert frequencies[k] * d == d * frequencies[k];
    FiringsPerWindow(d, from, frequencies[k]);
  }

  // ----- timebase divider

  /**
   A core whose maximum frequency, the clock over its length, is below the divided timebase. A core of no
   length has no limit.
   */
  predicate TooFast(timebase: nat, divider: nat, length: nat, clock: real)
    requires divider > 0 && clock > 0.0
  {
    length > 0 && timebase as real / divider as real > clock / length as real
  }

  /** The same test without divisions. */
  lemma TooFastProduct(timebase: nat, divider: nat, length: nat, clock: real)
    requires divider > 0 && clock > 0.0
    ensures TooFast(timebase, divider, length, clock) <==> (timebase * length) as real > clock * divider as real
  {
    assert clock * divider as real > 0.0;
    if length > 0 {
      CrossMultiply(timebase as real, divider as real, clock, length as real);
      assert (timebase * length) as real == timebase as real * length as real;
    }
  }

  lemma CrossMultiply(a: real, b: real, c: real, d: real)
    requires b > 0.0 && d > 0.0
    ensures a / b > c / d <==> a * d > c * b
  {
    var x, y := a / b, c / d;
    assert x * b == a && y * d == c;
    assert a * d - c * b == (x - y) * (b * d);
    assert b * d > 0.0;
    if x > y {
      assert (x - y) * (b * d) > 0.0;
    } else {
      assert (y - x) * (b * d) >= 0.0;
    }
  }

  /** A larger divider never brings a core back over its limit. */
  lemma TooFastMonotone(timebase: nat, divider: nat, larger: nat, length: nat, clock: real)
    requires 0 < divider <= larger && clock > 0.0
    ensures TooFast(timebase, larger, length, clock) ==> TooFast(timebase, divider, length, clock)
  {
    TooFastProduct(timebase, divider, length, clock);
    TooFastProduct(timebase, larger, length, clock);
    assert clock * (larger - divider) as real >= 0.0;
    assert clock * larger as real == clock * divider as real + clock * (larger - divider) as real;
  }

  /** Bound on the dividers that are still too small, for the search to end. */
  function SearchBound(timebase: nat, length: nat, clock: real): int
    requires clock > 0.0
  {
    ((timebase * length) as real / clock).Floor
  }

  lemma TooFastBound(timebase: nat, divider: nat, length: nat, clock: real)
    requires divider > 0 && clock > 0.0
    ensures TooFast(timebase, divider, length, clock) ==> divider <= SearchBound(timebase, length, clock)
  {
    TooFastProduct(timebase, divider, length, clock);
    var q := (timebase * length) as real / clock;
    assert q * clock == (timebase * length) as real;
    if TooFast(timebase, divider, length, clock) {
      if q <= divider as real {
        assert q * clock <= divider as real * clock;
      }
    }
  }

  /** One core with a rate of its own, as far as the search looks at it. */
  datatype RatedCore = RatedCore(frequency: nat, length: nat)

  /** No core with a rate of its own exceeds its maximum frequency at this divider. */
  ghost predicate Slow(cores: seq<RatedCore>, timebase: nat, divider: nat, clock: real)
    requires divider > 0 && clock > 0.0
  {
    forall k :: 0 <= k < |cores| && cores[k].frequency != 0 ==> !TooFast(timebase, divider, cores[k].length, clock)
  }

  /** The least divider from `start` up that is slow enough for all cores. */
  ghost predicate IsLeastDivider(cores: seq<RatedCore>, timebase: nat, start: nat, divider: nat, clock: real)
    requires start > 0 && clock > 0.0
  {
    && start <= divider && Slow(cores, timebase, divider, clock)
    && forall d :: start <= d < divider ==> !Slow(cores, timebase, d, clock)
  }

  /** Raising the divider for one more core keeps it least. */
  lemma LeastDividerStep(cores: seq<RatedCore>, timebase: nat, start: nat, before: nat, after: nat, clock: real, k: nat)
    requires start > 0 && clock > 0.0 && k < |cores| && cores[k].frequency != 0 && before <= after
    requires IsLeastDivider(cores[..k], timebase, start, before, clock)
    requires !TooFast(timebase, after, cores[k].length, clock)
    requires after > before ==> TooFast(timebase, after - 1, cores[k].length, clock)
    ensures IsLeastDivider(cores[..k + 1], timebase, start, after, clock)
  {
    hide TooFast;
    var earlier, next := cores[..k], cores[..k + 1];
    forall i | 0 <= i < k && cores[i].frequency != 0
      ensures !TooFast(timebase, after, cores[i].length, clock)
    {
      assert earlier[i] == cores[i];
      TooFastMonotone(timebase, before, after, cores[i].length, clock);
    }
    forall d | start <= d < after ensures !Slow(next, timebase, d, clock) {
      if d < before {
        assert !Slow(earlier, timebase, d, clock);
        var i :| 0 <= i < |earlier| && earlier[i].frequency != 0 && TooFast(timebase, d, earlier[i].length, clock);
        assert next[i] == earlier[i];
      } else {
        TooFastMonotone(timebase, d, after - 1, cores[k].length, clock);
        assert next[k] == cores[k];
      }
    }
  }

  /** A search that starts where one ended changes nothing: the divider found is the only candidate. */
  lemma LeastDividerStays(cores: seq<RatedCore>, timebase: nat, start: nat, divider: nat, again: nat, clock: real)
    requires start > 0 && clock > 0.0
    requires IsLeastDivider(cores, timebase, start, divider, clock)
    requires IsLeastDivider(cores, timebase, divider, again, clock)
    ensures again == divider
  {
    hide TooFast;
    assert Slow(cores, timebase, divider, clock);
  }
}

/**
 The unbounded run the sequencer drives: frame f lasts P cycles from f*P, and core k is active in it, for
 its length from its offset, when its divider divides f.
 */
module FrameRun {
  import opened Arithmetic
  import opened Schedule

  datatype Core = Core(divider: nat, shift: nat, length: nat)

  predicate Fires(c: Core, f: nat) {
    Divides(c.divider, f)
  }

  function Begin(c: Core, f: nat, period: nat): nat {
    f * period + c.shift
  }

  function End(c: Core, f: nat, period: nat): nat {
    Begin(c, f, period) + c.length
  }

  /** Two activations are separated by the guard gap, whichever comes first. */
  predicate Apart(c: Core, f: nat, d: Core, g: nat, period: nat) {
    || End(c, f, period) + GUARD <= Begin(d, g, period)
    || End(d, g, period) + GUARD <= Begin(c, f, period)
  }

  /** No two distinct activations, in any frames, come closer than the guard gap. */
  ghost predicate SafeForever(cores: seq<Core>, period: nat) {
    forall i, j, f: nat, g: nat ::
      0 <= i < |cores| && 0 <= j < |cores| && Fires(cores[i], f) && Fires(cores[j], g) && (i != j || f != g)
      ==> Apart(cores[i], f, cores[j], g, period)
  }

  /** The cores as programmed: offsets from some sort of the slots, lengths from the programs. */
  ghost predicate Programmed(cores: seq<Core>, data: seq<SlotData>, v: seq<SlotData>) {
    && |cores| == |data| > 0
    && ShiftsOf(data, v, seq(|cores|, k requires 0 <= k < |cores| => cores[k].shift))
    && forall k :: 0 <= k < |cores| ==> cores[k].divider > 0 && cores[k].length == data[k].length
  }

  lemma ShiftInSort(cores: seq<Core>, data: seq<SlotData>, v: seq<SlotData>, k: nat) returns (i: nat)
    requires Programmed(cores, data, v) && DistinctNames(data) && k < |cores|
    ensures i < |v| == |data| && v[i] == data[k] && cores[k].shift == StartOffset(v, i)
  {
    i := IndexInSort(data, v, k);
    DistinctOfPermutation(data, v, (d: SlotData) => d.name);
    StartTableLookup(v, i);
    assert |multiset(v)| == |multiset(data)|;
    var shifts := seq(|cores|, k requires 0 <= k < |cores| => cores[k].shift);
    assert shifts[k] == cores[k].shift;
  }

  lemma ShiftRange(cores: seq<Core>, data: seq<SlotData>, v: seq<SlotData>, k: nat)
    requires Programmed(cores, data, v) && DistinctNames(data) && k < |cores|
    ensures FIRST_START <= cores[k].shift
    ensures cores[k].shift + cores[k].length + GUARD <= FIRST_START + Total(data)
  {
    var i := ShiftInSort(cores, data, v, k);
    StartMonotone(v, i, |v|);
    assert v[..|v|] == v;
    SumOfPermutation(v, data, (_: SlotData) => true);
  }

  /** Two cores of one frame. */
  lemma SameFrameApart(cores: seq<Core>, data: seq<SlotData>, v: seq<SlotData>, i: nat, j: nat, f: nat, period: nat)
    requires Programmed(cores, data, v) && DistinctNames(data) && i < |cores| && j < |cores| && i != j
    ensures Apart(cores[i], f, cores[j], f, period)
  {
    var a := ShiftInSort(cores, data, v, i);
    var b := ShiftInSort(cores, data, v, j);
    assert data[i].name != data[j].name;
    if a < b {
      StartMonotone(v, a, b);
    } else {
      StartMonotone(v, b, a);
    }
  }

  /** Any two cores of different frames, once the period holds all slots. */
  lemma LaterFrameApart(cores: seq<Core>, data: seq<SlotData>, v: seq<SlotData>, i: nat, j: nat, f: nat, g: nat,
                        period: nat)
    requires Programmed(cores, data, v) && DistinctNames(data) && i < |cores| && j < |cores|
    requires f < g && Total(data) <= period
    ensures End(cores[i], f, period) + GUARD <= Begin(cores[j], g, period)
  {
    ShiftRange(cores, data, v, i);
    ShiftRange(cores, data, v, j);
    if period > 0 { MulLess(f, g, period); }
  }

  /**
   Schedule safety over every run: with a period of at least the sum of all slots, the cores never come
   closer than the guard gap exactly when the program names are distinct.
   */
  lemma SafeIffDistinctNames(cores: seq<Core>, data: seq<SlotData>, v: seq<SlotData>, period: nat)
    requires Programmed(cores, data, v) && Total(data) <= period
    ensures SafeForever(cores, period) <==> DistinctNames(data)
  {
    if DistinctNames(data) {
      forall i, j, f: nat, g: nat |
        0 <= i < |cores| && 0 <= j < |cores| && Fires(cores[i], f) && Fires(cores[j], g) && (i != j || f != g)
        ensures Apart(cores[i], f, cores[j], g, period)
      {
        if f == g {
          SameFrameApart(cores, data, v, i, j, f, period);
        } else if f < g {
          LaterFrameApart(cores, data, v, i, j, f, g, period);
        } else {
          LaterFrameApart(cores, data, v, j, i, g, f, period);
        }
      }
    } else {
      var key := (d: SlotData) => d.name;
      var i, j :| 0 <= i < j < |data| && key(data[i]) == key(data[j]);
      SameNameCollides(cores, data, v, i, j, period);
    }
  }

  /** Two programs of one name get one offset, and collide in frame 0. */
  lemma SameNameCollides(cores: seq<Core>, data: seq<SlotData>, v: seq<SlotData>, i: nat, j: nat, period: nat)
    requires Programmed(cores, data, v) && i < j < |data| && data[i].name == data[j].name
    ensures Fires(cores[i], 0) && Fires(cores[j], 0) && !Apart(cores[i], 0, cores[j], 0, period)
  {
    var shifts := seq(|cores|, k requires 0 <= k < |cores| => cores[k].shift);
    assert shifts[i] == shifts[j];
  }

  // ----- the exact condition, for any dividers and any period

  /** Frames of two cores can be m apart when the common divisor of their dividers divides m. */
  lemma FramesApart(a: nat, b: nat, m: nat) returns (f: nat)
    requires a > 0 && b > 0 && Divides(Gcd(a, b), m)
    ensures Divides(a, f) && Divides(b, f + m)
  {
    hide Gcd, Divides;
    var x, y, _, _ := Bezout(a, b);
    var k := DividesElim(Gcd(a, b), m);
    ScaleCombination(a, b, x, y, k);
    var u, v := ShiftCombination(a, b, k * x, k * y, m);
    f := u * a;
    DividesIntro(a, u, f);
    DividesIntro(b, v, f + m);
  }

  lemma ScaleCombination(a: int, b: int, x: int, y: int, k: int)
    ensures (k * x) * a + (k * y) * b == k * (x * a + y * b)
  {
    Associate(k, x, a);
    Associate(k, y, b);
    Distribute(x * a, y * b, k);
  }

  /** A combination of a and b with integer factors, as a difference of two natural multiples. */
  lemma ShiftCombination(a: nat, b: nat, x: int, y: int, m: nat) returns (u: nat, v: nat)
    requires a > 0 && b > 0 && x * a + y * b == m
    ensures u * a + m == v * b
  {
    var t := (if x < 0 then -x else x) + (if y < 0 then -y else y);
    GrowsBy(t, b);
    GrowsBy(t, a);
    var p, q := t * b, t * a;
    u, v := p - x, q + y;
    assert p * a == q * b by {
      Swap(t, a, b);
      Associate(t, b, a);
      Associate(t, a, b);
    }
    Distribute(p, -x, a);
    Distribute(q, y, b);
  }

  lemma GrowsBy(t: nat, b: nat)
    requires b > 0
    ensures t * b >= t
  {
    assert t * (b - 1) >= 0;
  }

  lemma DifferenceDivides(a: nat, b: nat, f: nat, g: nat)
    requires a > 0 && b > 0 && Divides(a, f) && Divides(b, g) && f <= g
    ensures Divides(Gcd(a, b), g - f)
  {
    hide Gcd, Divides;
    var d := Gcd(a, b);
    var x, y, a', b' := Bezout(a, b);
    DividesIntro(d, a', a);
    DividesIntro(d, b', b);
    DividesTransitive(d, a, f);
    DividesTransitive(d, b, g);
    var k := DividesElim(d, f);
    var l := DividesElim(d, g);
    if l < k { MulLess(l, k, d); }
    Distribute(l - k, k, d);
    DividesIntro(d, l - k, g - f);
  }

  /** Only the distance of the frames matters. */
  lemma ApartShifts(c: Core, f: nat, d: Core, m: nat, period: nat)
    ensures Apart(c, f, d, f + m, period) <==> Apart(c, 0, d, m, period)
  {
    Distribute(f, m, period);
  }

  /**
   The frame distances that need looking at: those shorter than the sum of the slots, or a single one when
   frames take no time and all distances are alike.
   */
  function Horizon(c: Core, d: Core, period: nat, total: nat): nat {
    if period == 0 then Gcd(c.divider, d.divider) else total / period
  }

  /**
   The condition a caller can check: for every two cores, and every number of frames m up to the horizon by
   which a start of the one can follow a start of the other, the two activations are apart.
   */
  predicate GapsKept(cores: seq<Core>, period: nat, total: nat) {
    forall i, j, m: nat |
      0 <= i < |cores| && 0 <= j < |cores| && 0 < m <= Horizon(cores[i], cores[j], period, total)
      && Divides(Gcd(cores[i].divider, cores[j].divider), m) :: Apart(cores[i], 0, cores[j], m, period)
  }

  /** The run is safe for ever, whatever the dividers and the period, exactly when the gaps are kept. */
  lemma SafeIffGapsKept(cores: seq<Core>, data: seq<SlotData>, v: seq<SlotData>, period: nat)
    requires Programmed(cores, data, v) && DistinctNames(data)
    ensures SafeForever(cores, period) <==> GapsKept(cores, period, Total(data))
  {
    hide Sum, Gcd, Apart, Divides, DistinctNames, ShiftsOf, Horizon;
    if SafeForever(cores, period) {
      forall i, j, m: nat |
        0 <= i < |cores| && 0 <= j < |cores| && 0 < m <= Horizon(cores[i], cores[j], period, Total(data))
        && Divides(Gcd(cores[i].divider, cores[j].divider), m)
        ensures Apart(cores[i], 0, cores[j], m, period)
      {
        var f := FramesApart(cores[i].divider, cores[j].divider, m);
        assert Fires(cores[i], f) && Fires(cores[j], f + m);
        ApartShifts(cores[i], f, cores[j], m, period);
      }
    }
    if GapsKept(cores, period, Total(data)) {
      forall i, j, f: nat, g: nat |
        0 <= i < |cores| && 0 <= j < |cores| && Fires(cores[i], f) && Fires(cores[j], g) && (i != j || f != g)
        ensures Apart(cores[i], f, cores[j], g, period)
      {
        if f == g {
          SameFrameApart(cores, data, v, i, j, f, period);
        } else if f < g {
          KeptApart(cores, data, v, i, j, f, g, period);
        } else {
          KeptApart(cores, data, v, j, i, g, f, period);
          ApartSymmetric(cores[j], g, cores[i], f, period);
        }
      }
    }
  }

  lemma ApartSymmetric(c: Core, f: nat, d: Core, g: nat, period: nat)
    ensures Apart(c, f, d, g, period) == Apart(d, g, c, f, period)
  {
  }

  lemma KeptApart(cores: seq<Core>, data: seq<SlotData>, v: seq<SlotData>, i: nat, j: nat, f: nat, g: nat, period: nat)
    requires Programmed(cores, data, v) && DistinctNames(data) && i < |cores| && j < |cores| && f < g
    requires Fires(cores[i], f) && Fires(cores[j], g) && GapsKept(cores, period, Total(data))
    ensures Apart(cores[i], f, cores[j], g, period)
  {
    hide Sum, Gcd, Divides, DistinctNames, ShiftsOf;
    var c, d, m := cores[i], cores[j], g - f;
    ApartShifts(c, f, d, m, period);
    DifferenceDivides(c.divider, d.divider, f, g);
    if period == 0 {
      DividesRefl(Gcd(c.divider, d.divider));
      assert Apart(c, 0, d, Gcd(c.divider, d.divider), 0);
    } else if m * period >= Total(data) {
      ShiftRange(cores, data, v, i);
      ShiftRange(cores, data, v, j);
    } else {
      QuotientAtLeast(m, period, Total(data));
    }
  }

  lemma QuotientAtLeast(m: nat, period: nat, total: nat)
    requires period > 0 && m * period <= total
    ensures m <= total / period
  {
    DivMod(total, period);
    if total / period < m { MulLess(total / period, m, period); }
  }

  /** Where a point of the frame falls among the slots. */
  lemma {:induction false} SlotHolding(v: seq<SlotData>, n: nat, t: nat) returns (i: nat)
    requires n <= |v| && FIRST_START <= t < StartOffset(v, n)
    ensures i < n && StartOffset(v, i) <= t < StartOffset(v, i + 1)
  {
    if n > 0 && StartOffset(v, n - 1) <= t {
      i := n - 1;
    } else {
      assert n > 0;
      i := SlotHolding(v, n - 1, t);
    }
  }

  lemma IndexInList(data: seq<SlotData>, v: seq<SlotData>, i: nat) returns (k: nat)
    requires multiset(v) == multiset(data) && DistinctNames(data) && i < |v|
    ensures k < |data| && data[k] == v[i]
    ensures forall j :: 0 <= j < |v| && v[j] == data[k] ==> j == i
  {
    k := IndexInSort(v, data, i);
    DistinctOfPermutation(data, v, (d: SlotData) => d.name);
  }

  lemma StartOfFirst(v: seq<SlotData>)
    ensures StartOffset(v, 0) == FIRST_START
  {
  }

  lemma OverlapNextFrame(held: Core, first: Core, f: nat, period: nat)
    requires held.shift <= first.shift + period < held.shift + held.length + GUARD
    ensures !Apart(held, f, first, f + 1, period)
  {
    Distribute(f, 1, period);
  }

  /**
   A period shorter than the sum of the slots ends inside some core's slot. If that core ever fires in the
   frame before one of the first core's, the first core starts before its guard gap is over.
   */
  lemma ShortPeriodCollides(cores: seq<Core>, data: seq<SlotData>, v: seq<SlotData>, period: nat)
    returns (first: nat, held: nat)
    requires Programmed(cores, data, v) && DistinctNames(data) && period < Total(data)
    ensures first < |data| == |v| && held < |data| && data[first] == v[0]
    ensures Gcd(cores[held].divider, cores[first].divider) == 1 ==> !SafeForever(cores, period)
  {
    hide Sum, Apart, Gcd;
    StartOfFirst(v);
    SumOfPermutation(v, data, (_: SlotData) => true);
    assert v[..|v|] == v && |multiset(v)| == |multiset(data)|;
    var i := SlotHolding(v, |v|, FIRST_START + period);
    StartStep(v, i);
    held := IndexInList(data, v, i);
    first := IndexInList(data, v, 0);
    var i' := ShiftInSort(cores, data, v, held);
    var f' := ShiftInSort(cores, data, v, first);
    assert cores[first].shift == FIRST_START && cores[held].shift == StartOffset(v, i);
    if Gcd(cores[held].divider, cores[first].divider) == 1 {
      DividesIntro(1, 1, 1);
      var f := FramesApart(cores[held].divider, cores[first].divider, 1);
      OverlapNextFrame(cores[held], cores[first], f, period);
      assert Fires(cores[held], f) && Fires(cores[first], f + 1);
    }
  }

  /**
   The period bound is exact for every system whose first core runs in every frame (all equal rates in
   particular): the run is safe exactly when the period holds all slots.
   */
  lemma SafeIffPeriod(cores: seq<Core>, data: seq<SlotData>, v: seq<SlotData>, period: nat, first: nat)
    requires Programmed(cores, data, v) && DistinctNames(data)
    requires first < |cores| && |v| > 0 && data[first] == v[0] && cores[first].divider == 1
    ensures SafeForever(cores, period) <==> Total(data) <= period
  {
    if Total(data) <= period {
      SafeIffDistinctNames(cores, data, v, period);
    } else {
      var first', held := ShortPeriodCollides(cores, data, v, period);
      assert first' == first by { OnlyIndex(data, first', first); }
      GcdOne(cores[held].divider);
    }
  }

  lemma {:induction false} GcdOne(b: nat)
    requires b > 0
    ensures Gcd(b, 1) == 1
    decreases b
  {
    if b > 1 { GcdOne(b - 1); }
  }

  lemma OnlyIndex(data: seq<SlotData>, a: nat, b: nat)
    requires DistinctNames(data) && a < |data| && b < |data| && data[a] == data[b]
    ensures a == b
  {
    var key := (d: SlotData) => d.name;
    assert key(data[a]) == key(data[b]);
  }
}

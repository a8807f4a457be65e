/**
 The sequencer and enable-generator registers: a divisor and a threshold per core, the frame period and the
 enable word.
 */
module Sequencer {
  import opened Bits
  import opened Operations
  import opened Specification
  import opened RegisterLog
  import opened Effects

  const MAX_CORES: nat := 32

  function Divisor(layout: Layout, i: nat): nat {
    layout.controller + layout.sequencerOffset + 4 + 4 * i
  }

  function Threshold(layout: Layout, i: nat): nat {
    layout.controller + layout.timebaseOffset + 8 + 4 * i
  }

  function PeriodRegister(layout: Layout): nat {
    layout.controller + layout.timebaseOffset + 4
  }

  function EnableRegister(layout: Layout): nat {
    layout.controller + layout.sequencerOffset
  }

  // ----- the enable word

  /** std::bitset::to_ulong. */
  function ToUlong(bits: seq<bool>): nat {
    if bits == [] then 0
    else ToUlong(bits[..|bits| - 1]) + (if bits[|bits| - 1] then Pow2(|bits| - 1) else 0)
  }

  function FirstBits(n: nat): seq<bool> {
    seq(MAX_CORES, i requires i >= 0 => i < n)
  }

  lemma {:induction false} LowOnes(bits: seq<bool>, n: nat)
    requires n <= |bits| && forall i :: 0 <= i < |bits| ==> bits[i] == (i < n)
    ensures ToUlong(bits) == Pow2(n) - 1
  {
    if bits != [] {
      LowOnes(bits[..|bits| - 1], if n == |bits| then n - 1 else n);
    }
  }

  /** n enabled cores make the enable word 2^n - 1. */
  lemma EnableWord(n: nat)
    requires n <= MAX_CORES
    ensures ToUlong(FirstBits(n)) == Pow2(n) - 1
    ensures ToUlong(FirstBits(n)) < 0x1_0000_0000
  {
    LowOnes(FirstBits(n), n);
    Pow2Monotone(n, 32);
    Pow2Values();
  }

  // ----- programming

  /** `divisor - 1` in 32-bit unsigned arithmetic. */
  function DivisorWord(divider: nat): Word {
    var d: int := divider;
    Wrap32(d - 1)
  }

  function CoreEffects(layout: Layout, dividers: seq<nat>, shifts: seq<Word>, n: nat): seq<Effect>
    requires n <= |dividers| && n <= |shifts|
  {
    if n == 0 then []
    else
      CoreEffects(layout, dividers, shifts, n - 1)
      + [Write(Divisor(layout, n - 1), DivisorWord(dividers[n - 1])), Write(Threshold(layout, n - 1), shifts[n - 1])]
  }

  function SequencerEffects(layout: Layout, dividers: seq<nat>, shifts: seq<Word>, period: Word): seq<Effect>
    requires |dividers| == |shifts|
  {
    CoreEffects(layout, dividers, shifts, |dividers|)
    + [Write(PeriodRegister(layout), period), Write(EnableRegister(layout), Wrap32(ToUlong(FirstBits(|dividers|))))]
  }

  /** The two register windows do not overlap. */
  predicate WindowsDisjoint(layout: Layout) {
    || layout.sequencerOffset + 4 + 4 * MAX_CORES <= layout.timebaseOffset
    || layout.timebaseOffset + 8 + 4 * MAX_CORES <= layout.sequencerOffset
  }

  lemma StoresOfPair(e: Effect, f: Effect)
    requires e.Write? && f.Write?
    ensures Stores([e, f]) == [Store(e.address, e.value), Store(f.address, f.value)]
  {
    StoresOfWrites([e, f]);
  }

  /** After the loop, each core's two registers hold its own values. */
  lemma {:induction false} CoreRegisters(layout: Layout, dividers: seq<nat>, shifts: seq<Word>, n: nat, i: nat)
    requires i < n <= |dividers| && n <= |shifts| && n <= MAX_CORES && WindowsDisjoint(layout)
    ensures var log := Stores(CoreEffects(layout, dividers, shifts, n));
      && ReadBack(log, Divisor(layout, i)) == Some(DivisorWord(dividers[i]))
      && ReadBack(log, Threshold(layout, i)) == Some(shifts[i])
  {
    hide ReadBack, Stores, DivisorWord, Wrap32;
    var earlier := CoreEffects(layout, dividers, shifts, n - 1);
    var d := Write(Divisor(layout, n - 1), DivisorWord(dividers[n - 1]));
    var t := Write(Threshold(layout, n - 1), shifts[n - 1]);
    StoresAppend(earlier, [d, t]);
    StoresOfPair(d, t);
    TwoStores(Stores(earlier), Store(d.address, d.value), Store(t.address, t.value), Divisor(layout, i));
    TwoStores(Stores(earlier), Store(d.address, d.value), Store(t.address, t.value), Threshold(layout, i));
    if i < n - 1 { CoreRegisters(layout, dividers, shifts, n - 1, i); }
  }

  lemma TwoStores(log: seq<Store>, s: Store, t: Store, a: nat)
    ensures ReadBack(log + [s, t], a)
         == if t.address == a then Some(t.value) else if s.address == a then Some(s.value) else ReadBack(log, a)
  {
    assert log + [s, t] == log + [s] + [t];
    ReadBackStep(log + [s], t, a);
    ReadBackStep(log, s, a);
  }

  /** Every sequencer register reads back as intended: divisors, thresholds, period and enable word. */
  lemma {:induction false} SequencerReadsBack(layout: Layout, dividers: seq<nat>, shifts: seq<Word>, period: Word)
    requires |dividers| == |shifts| <= MAX_CORES && WindowsDisjoint(layout)
    ensures var log := Stores(SequencerEffects(layout, dividers, shifts, period));
      && (forall i :: 0 <= i < |dividers| ==>
            && ReadBack(log, Divisor(layout, i)) == Some(DivisorWord(dividers[i]))
            && ReadBack(log, Threshold(layout, i)) == Some(shifts[i]))
      && ReadBack(log, PeriodRegister(layout)) == Some(period)
      && ReadBack(log, EnableRegister(layout)) == Some(Pow2(|dividers|) - 1)
  {
    hide ReadBack, Stores, DivisorWord, Wrap32, CoreEffects, ToUlong, FirstBits;
    var n := |dividers|;
    var loop := CoreEffects(layout, dividers, shifts, n);
    var enable := Wrap32(ToUlong(FirstBits(n)));
    var p, e := Write(PeriodRegister(layout), period), Write(EnableRegister(layout), enable);
    EnableWord(n);
    WrapSmall(ToUlong(FirstBits(n)));
    StoresAppend(loop, [p, e]);
    StoresOfPair(p, e);
    var s, t := Store(p.address, period), Store(e.address, enable);
    TwoStores(Stores(loop), s, t, p.address);
    TwoStores(Stores(loop), s, t, e.address);
    forall i | 0 <= i < n
      ensures ReadBack(Stores(loop) + [s, t], Divisor(layout, i)) == Some(DivisorWord(dividers[i]))
      ensures ReadBack(Stores(loop) + [s, t], Threshold(layout, i)) == Some(shifts[i])
    {
      TwoStores(Stores(loop), s, t, Divisor(layout, i));
      TwoStores(Stores(loop), s, t, Threshold(layout, i));
      CoreRegisters(layout, dividers, shifts, n, i);
    }
  }

  lemma WrapSmall(x: nat)
    requires x < 0x1_0000_0000
    ensures Wrap32(x) == x
  {
  }

  /** The sequencer's stores stay in its two windows. */
  lemma {:induction false} CoreEffectsInside(layout: Layout, dividers: seq<nat>, shifts: seq<Word>, n: nat)
    requires n <= |dividers| && n <= |shifts| && n <= MAX_CORES
    ensures InWindows(layout, Stores(CoreEffects(layout, dividers, shifts, n)))
  {
    hide Stores, DivisorWord, Wrap32;
    if n == 0 {
      StoresNone();
    } else {
      CoreEffectsInside(layout, dividers, shifts, n - 1);
      var d := Write(Divisor(layout, n - 1), DivisorWord(dividers[n - 1]));
      var t := Write(Threshold(layout, n - 1), shifts[n - 1]);
      StoresAppend(CoreEffects(layout, dividers, shifts, n - 1), [d, t]);
      StoresOfPair(d, t);
    }
  }

  ghost predicate InWindows(layout: Layout, log: seq<Store>) {
    var s, t := layout.controller + layout.sequencerOffset, layout.controller + layout.timebaseOffset;
    forall i :: 0 <= i < |log| ==>
      || s <= log[i].address < s + 4 + 4 * MAX_CORES
      || t <= log[i].address < t + 8 + 4 * MAX_CORES
  }

  lemma SequencerInside(layout: Layout, dividers: seq<nat>, shifts: seq<Word>, period: Word)
    requires |dividers| == |shifts| <= MAX_CORES
    ensures InWindows(layout, Stores(SequencerEffects(layout, dividers, shifts, period)))
  {
    hide Stores, DivisorWord, Wrap32, CoreEffects, ToUlong, FirstBits;
    var n := |dividers|;
    CoreEffectsInside(layout, dividers, shifts, n);
    var p, e := Write(PeriodRegister(layout), period), Write(EnableRegister(layout), Wrap32(ToUlong(FirstBits(n))));
    StoresAppend(CoreEffects(layout, dividers, shifts, n), [p, e]);
    StoresOfPair(p, e);
  }
}

/**
 The noise generator: one output register per channel of every random input, in deployment order, behind a
 register with their number.
 */
module NoiseGenerator {
  import opened Operations
  import opened Specification
  import opened RegisterLog
  import opened Effects
  import opened CoreInputs
  import opened ConstantEngine

  /** Bus addresses of the channels of a random input. */
  function RandomDests(input: Input, count: nat): seq<Word> {
    if input.source.Random? then seq(count, j requires j >= 0 => Dest(input, j)) else []
  }

  function CoreDests(ins: seq<Input>, channels: nat): seq<Word> {
    if ins == [] then []
    else CoreDests(ins[..|ins| - 1], channels) + RandomDests(ins[|ins| - 1], Width(ins[|ins| - 1], channels))
  }

  /** Bus addresses of all random channels of a system, core by core. */
  function AllDests(spec: Spec, ps: seq<Program>): (dests: seq<Word>)
    ensures |dests| == RandomsInPrograms(spec, ps)
  {
    if ps == [] then []
    else
      var p := ps[|ps| - 1];
      DestsCount(Inputs(spec, p.name), p.channels);
      AllDests(spec, ps[..|ps| - 1]) + CoreDests(Inputs(spec, p.name), p.channels)
  }

  lemma {:induction false} DestsCount(ins: seq<Input>, channels: nat)
    ensures |CoreDests(ins, channels)| == RandomsIn(ins, channels)
  {
    hide Width;
    if ins != [] { DestsCount(ins[..|ins| - 1], channels); }
  }

  function Output(noise: nat, i: nat): nat {
    noise + 4 * (i + 1)
  }

  /** Of the first `randoms` outputs, the effects write those from `active` on with the given addresses. */
  ghost predicate Writes(es: seq<Effect>, noise: nat, active: nat, dests: seq<Word>, randoms: nat) {
    && ReadBack(Stores(es), noise) == None
    && forall i: nat :: i < randoms ==>
         ReadBack(Stores(es), Output(noise, i))
         == if active <= i < active + |dests| then Some(dests[i - active]) else None
  }

  lemma WritesAppend(es: seq<Effect>, fs: seq<Effect>, noise: nat, active: nat, a: seq<Word>, b: seq<Word>,
                     randoms: nat)
    requires Writes(es, noise, active, a, randoms) && Writes(fs, noise, active + |a|, b, randoms)
    ensures Writes(es + fs, noise, active, a + b, randoms)
  {
    hide Stores, ReadBack, Output;
    StoresAppend(es, fs);
    ReadBackAppend(Stores(es), Stores(fs), noise);
    forall i: nat | i < randoms
      ensures ReadBack(Stores(es + fs), Output(noise, i))
           == if active <= i < active + |a + b| then Some((a + b)[i - active]) else None
    {
      ReadBackAppend(Stores(es), Stores(fs), Output(noise, i));
    }
  }

  /** The engine's registers keep off the noise generator's. */
  predicate EngineClear(base: nat, noise: nat, randoms: nat) {
    base + ENGINE_SIZE <= noise || noise + 4 * (randoms + 1) <= base
  }

  lemma WritesNothing(es: seq<Effect>, noise: nat, active: nat, randoms: nat)
    requires Outside(Stores(es), noise, noise + 4 * (randoms + 1))
    ensures Writes(es, noise, active, [], randoms)
  {
    ReadBackMissing(Stores(es), noise);
    forall i: nat | i < randoms ensures ReadBack(Stores(es), Output(noise, i)) == None {
      ReadBackMissing(Stores(es), Output(noise, i));
    }
  }

  lemma StoresNothing(es: seq<Effect>, noise: nat, active: nat, randoms: nat)
    requires Stores(es) == []
    ensures Writes(es, noise, active, [], randoms)
  {
    WritesNothing(es, noise, active, randoms);
  }

  lemma OneWrite(noise: nat, active: nat, dest: Word, randoms: nat)
    ensures Writes([Write(Output(noise, active), dest)], noise, active, [dest], randoms)
  {
    var e := Write(Output(noise, active), dest);
    StoresOne(e);
    assert [StoresOf(e)[0]][..0] == [];
  }

  lemma SetupWrites(layout: Layout, p: Program, input: Input, constant: nat, channel: nat, value: Word,
                    multichannel: bool, active: nat, randoms: nat)
    requires EngineClear(EngineBase(layout, p.index), layout.noiseGenerator, randoms)
    ensures Writes(SetupEffects(layout, p, input, constant, channel, value, multichannel, active),
                   layout.noiseGenerator, active,
                   if input.source.Random? then [Dest(input, channel)] else [], randoms)
  {
    hide EngineBase, Dest, Selector, InputPath, RandomName, Writes, ReadBack, Stores;
    var es := SetupEffects(layout, p, input, constant, channel, value, multichannel, active);
    var noise := layout.noiseGenerator;
    StoresNone();
    if IsConstant(input) {
      assert es == [es[0]] + [es[1]];
      StoresAppend([es[0]], [es[1]]);
      StoresOne(es[0]);
      StoresOne(es[1]);
      WritesNothing(es, noise, active, randoms);
    } else if input.source.Random? {
      assert es == [es[0]] + ([es[1]] + [es[2]]);
      StoresAppend([es[1]], [es[2]]);
      StoresOne(es[1]);
      StoresOne(es[2]);
      OneWrite(noise, active, Dest(input, channel), randoms);
      StoresNothing([es[1]] + [es[2]], noise, active + 1, randoms);
      WritesAppend([es[0]], [es[1]] + [es[2]], noise, active, [Dest(input, channel)], [], randoms);
      assert [Dest(input, channel)] + [] == [Dest(input, channel)];
    } else {
      WritesNothing(es, noise, active, randoms);
    }
  }

  lemma TouchWrites(path: string, index: nat, noise: nat, active: nat, randoms: nat)
    ensures Writes([TouchInput(path, index)], noise, active, [], randoms)
  {
    StoresOne(TouchInput(path, index));
    StoresNothing([TouchInput(path, index)], noise, active, randoms);
  }

  lemma DestsStep(input: Input, j: nat)
    ensures RandomDests(input, 0) == [] && |RandomDests(input, j)| == RandomsBefore(input, j)
    ensures RandomDests(input, j + 1) == RandomDests(input, j) + (if input.source.Random? then [Dest(input, j)] else [])
  {
    hide Dest;
  }

  lemma {:induction false} MultiWrites(layout: Layout, p: Program, input: Input, constant: nat, count: nat,
                                       active: nat, randoms: nat)
    requires EngineClear(EngineBase(layout, p.index), layout.noiseGenerator, randoms)
    ensures Writes(MultiEffects(layout, p, input, constant, count, active), layout.noiseGenerator, active,
                   RandomDests(input, count), randoms)
  {
    hide SetupEffects, EngineBase, Dest, InputPath, ValueOf, Writes, RandomDests;
    var noise := layout.noiseGenerator;
    if count == 0 {
      DestsStep(input, 0);
      StoresNone();
      StoresNothing([], noise, active, randoms);
    } else {
      var j := count - 1;
      DestsStep(input, j);
      MultiWrites(layout, p, input, constant, j, active, randoms);
      var earlier := MultiEffects(layout, p, input, constant, j, active);
      var own := SetupEffects(layout, p, input, constant, j, ValueOf(input, j), true, active + RandomsBefore(input, j));
      SetupWrites(layout, p, input, constant, j, ValueOf(input, j), true, active + RandomsBefore(input, j), randoms);
      var dest := if input.source.Random? then [Dest(input, j)] else [];
      WritesAppend(earlier, own, noise, active, RandomDests(input, j), dest, randoms);
      var touch := TouchInput(InputPath(p.name, input.name, j, true), p.index);
      var all := RandomDests(input, count);
      TouchWrites(touch.path, p.index, noise, active + |all|, randoms);
      WritesAppend(earlier + own, [touch], noise, active, all, [], randoms);
      assert all + [] == all && earlier + own + [] == earlier + own;
    }
  }

  lemma InputWrites(layout: Layout, p: Program, input: Input, constant: nat, active: nat, randoms: nat)
    requires EngineClear(EngineBase(layout, p.index), layout.noiseGenerator, randoms)
    ensures Writes(InputEffects(layout, p, input, constant, active), layout.noiseGenerator, active,
                   RandomDests(input, Width(input, p.channels)), randoms)
  {
    hide MultiEffects, SetupEffects, Loops, ValueOf, LastPath, EngineBase, Writes, Dest;
    var noise, dests := layout.noiseGenerator, RandomDests(input, Width(input, p.channels));
    var touch := TouchInput(LastPath(p, input), p.index);
    TouchWrites(touch.path, p.index, noise, active + |dests|, randoms);
    var main := if p.channels > 1 then MultiEffects(layout, p, input, constant, Loops(input, p.channels), active)
                else SetupEffects(layout, p, input, constant, 0, ValueOf(input, 0), false, active);
    if p.channels > 1 {
      MultiWrites(layout, p, input, constant, Loops(input, p.channels), active, randoms);
    } else {
      SetupWrites(layout, p, input, constant, 0, ValueOf(input, 0), false, active, randoms);
      assert dests == if input.source.Random? then [Dest(input, 0)] else [];
    }
    WritesAppend(main, [touch], noise, active, dests, [], randoms);
    assert dests + [] == dests;
  }

  lemma {:induction false} InputsWrites(layout: Layout, p: Program, ins: seq<Input>, active: nat, randoms: nat)
    requires EngineClear(EngineBase(layout, p.index), layout.noiseGenerator, randoms)
    ensures Writes(InputsEffects(layout, p, ins, active), layout.noiseGenerator, active, CoreDests(ins, p.channels),
                   randoms)
  {
    hide InputEffects, EngineBase, Writes, RandomDests, Width, ConstantsIn, RandomsIn;
    if ins == [] {
      StoresNone();
      StoresNothing([], layout.noiseGenerator, active, randoms);
    } else {
      var earlier, last := ins[..|ins| - 1], ins[|ins| - 1];
      InputsWrites(layout, p, earlier, active, randoms);
      DestsCount(earlier, p.channels);
      InputWrites(layout, p, last, ConstantsIn(earlier), active + RandomsIn(earlier, p.channels), randoms);
      WritesAppend(InputsEffects(layout, p, earlier, active),
                   InputEffects(layout, p, last, ConstantsIn(earlier), active + RandomsIn(earlier, p.channels)),
                   layout.noiseGenerator, active, CoreDests(earlier, p.channels),
                   RandomDests(last, Width(last, p.channels)), randoms);
    }
  }

  /** The generator after a list of effects: the outputs in use, and their number. */
  ghost predicate Holds(log: seq<Store>, noise: nat, dests: seq<Word>, randoms: nat) {
    && ReadBack(log, noise) == (if |dests| > 0 then Some(Wrap32(|dests|)) else None)
    && forall i: nat :: i < randoms ==>
         ReadBack(log, Output(noise, i)) == if i < |dests| then Some(dests[i]) else None
  }

  lemma ProgramHolds(log: seq<Store>, layout: Layout, p: Program, ins: seq<Input>, dests: seq<Word>, randoms: nat)
    requires EngineClear(EngineBase(layout, p.index), layout.noiseGenerator, randoms)
    requires Holds(log, layout.noiseGenerator, dests, randoms)
    ensures Holds(log + Stores(ProgramInputEffects(layout, p, ins, |dests|)), layout.noiseGenerator,
                  dests + CoreDests(ins, p.channels), randoms)
  {
    hide InputsEffects, EngineBase, Stores, ReadBack, Wrap32;
    var noise, own, all := layout.noiseGenerator, CoreDests(ins, p.channels), dests + CoreDests(ins, p.channels);
    DestsCount(ins, p.channels);
    InputsWrites(layout, p, ins, |dests|, randoms);
    var es := InputsEffects(layout, p, ins, |dests|);
    var count := Write(noise, Wrap32(|all|));
    StoresAppend(es, [count]);
    StoresOne(count);
    StoresNone();
    StoresAppend(es, []);
    var last := if |all| > 0 then [Store(noise, Wrap32(|all|))] else [];
    assert Stores(ProgramInputEffects(layout, p, ins, |dests|)) == Stores(es) + last;
    assert log + (Stores(es) + last) == log + Stores(es) + last;
    CountRead(log, Stores(es), noise, |all|);
    forall i: nat | i < randoms
      ensures ReadBack(log + Stores(es) + last, Output(noise, i)) == if i < |all| then Some(all[i]) else None
    {
      OutputRead(log, Stores(es), noise, |all|, i);
    }
  }

  lemma CountRead(log: seq<Store>, own: seq<Store>, noise: nat, count: nat)
    ensures var last := if count > 0 then [Store(noise, Wrap32(count))] else [];
      ReadBack(log + own + last, noise)
      == if count > 0 then Some(Wrap32(count)) else ReadBack(log + own, noise)
    ensures ReadBack(log + own, noise)
         == if ReadBack(own, noise).Some? then ReadBack(own, noise) else ReadBack(log, noise)
  {
    hide Wrap32, ReadBack;
    ReadBackAppend(log, own, noise);
    ReadBackStep(log + own, Store(noise, Wrap32(count)), noise);
    assert log + own + [] == log + own;
  }

  lemma OutputRead(log: seq<Store>, own: seq<Store>, noise: nat, count: nat, i: nat)
    ensures var last := if count > 0 then [Store(noise, Wrap32(count))] else [];
      ReadBack(log + own + last, Output(noise, i))
      == if ReadBack(own, Output(noise, i)).Some? then ReadBack(own, Output(noise, i))
         else ReadBack(log, Output(noise, i))
  {
    hide Wrap32, ReadBack;
    ReadBackAppend(log, own, Output(noise, i));
    ReadBackStep(log + own, Store(noise, Wrap32(count)), Output(noise, i));
    assert log + own + [] == log + own;
  }

  /** After the inputs of all cores the generator holds every random channel's address, in order. */
  lemma {:induction false} AllHold(layout: Layout, spec: Spec, ps: seq<Program>, randoms: nat)
    requires forall p :: p in ps ==> EngineClear(EngineBase(layout, p.index), layout.noiseGenerator, randoms)
    ensures Holds(Stores(AllInputEffects(layout, spec, ps)), layout.noiseGenerator, AllDests(spec, ps), randoms)
  {
    hide ProgramInputEffects, EngineBase, Stores, Holds, EngineClear, CoreDests, RandomsInPrograms;
    if ps == [] {
      StoresNone();
      NothingHeld(layout.noiseGenerator, randoms);
    } else {
      var earlier, p := ps[..|ps| - 1], ps[|ps| - 1];
      AllHold(layout, spec, earlier, randoms);
      var own := ProgramInputEffects(layout, p, Inputs(spec, p.name), RandomsInPrograms(spec, earlier));
      StoresAppend(AllInputEffects(layout, spec, earlier), own);
      ProgramHolds(Stores(AllInputEffects(layout, spec, earlier)), layout, p, Inputs(spec, p.name),
                   AllDests(spec, earlier), randoms);
    }
  }

  lemma NothingHeld(noise: nat, randoms: nat)
    ensures Holds([], noise, [], randoms)
  {
  }
}

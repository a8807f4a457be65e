/**
 The table of inputs for the simulation: after a deployment the path of every constant channel leads to the
 slot that holds it.
 */
module DeployedInputLabels {
  import opened Specification
  import opened Effects
  import opened DmaTable
  import opened CoreInputs
  import opened Deployment
  import opened Regions
  import opened FinalLog
  import opened DeployedConstants

  // ----- one path under a list of effects

  predicate Mentions(e: Effect, path: string) {
    (e.LabelInput? || e.TouchInput?) && e.path == path
  }

  function LastMention(es: seq<Effect>, path: string): Option<Effect> {
    if es == [] then None
    else if Mentions(es[|es| - 1], path) then Some(es[|es| - 1])
    else LastMention(es[..|es| - 1], path)
  }

  lemma {:induction false} LastMentionAppend(es: seq<Effect>, fs: seq<Effect>, path: string)
    ensures LastMention(es + fs, path)
         == if LastMention(fs, path).Some? then LastMention(fs, path) else LastMention(es, path)
  {
    hide Mentions;
    if fs == [] {
      assert es + fs == es;
    } else {
      LastMentionAppend(es, fs[..|fs| - 1], path);
      assert (es + fs)[..|es + fs| - 1] == es + fs[..|fs| - 1];
    }
  }

  lemma {:induction false} LastMentionIn(es: seq<Effect>, path: string)
    ensures LastMention(es, path).Some? ==>
      LastMention(es, path).value in es && Mentions(LastMention(es, path).value, path)
    ensures LastMention(es, path).None? ==> forall e :: e in es ==> !Mentions(e, path)
  {
    hide Mentions;
    if es != [] {
      LastMentionIn(es[..|es| - 1], path);
      assert es == es[..|es| - 1] + [es[|es| - 1]];
    }
  }

  /** When all that is said of a path agrees, so does the table. */
  lemma {:induction false} LabelAfter(d: Deployed, es: seq<Effect>, path: string, entry: TbInput, index: nat)
    requires path !in d.inputLabels
    requires forall e :: e in es && e.LabelInput? && e.path == path ==> e.entry == entry
    requires forall e :: e in es && e.TouchInput? && e.path == path ==> e.coreIndex == index
    ensures var labels, last := ApplyAll(d, es).inputLabels, LastMention(es, path);
      && (path in labels <==> LabelInput(path, entry) in es)
      && (path in labels ==> last.Some?)
      && (path in labels ==> labels[path] == if last.value.TouchInput? then entry.(coreIndex := index) else entry)
  {
    hide Apply, Mentions;
    if es != [] {
      var n := |es| - 1;
      LabelAfter(d, es[..n], path, entry, index);
      MentionStep(ApplyAll(d, es[..n]), es[n], path);
      assert es == es[..n] + [es[n]];
    }
  }

  lemma MentionStep(d: Deployed, e: Effect, path: string)
    ensures var before, after := d.inputLabels, Apply(d, e).inputLabels;
      && (!Mentions(e, path) ==> (path in after <==> path in before))
      && (!Mentions(e, path) && path in before ==> after[path] == before[path])
      && (Mentions(e, path) && e.LabelInput? ==> path in after && after[path] == e.entry)
      && (Mentions(e, path) && e.TouchInput? ==>
            (path in after <==> path in before)
            && (path in before ==> after[path] == before[path].(coreIndex := e.coreIndex)))
    ensures Mentions(e, path) <==> (e.LabelInput? || e.TouchInput?) && e.path == path
  {
  }

  // ----- every label is followed by its core index

  ghost predicate Settled(es: seq<Effect>) {
    forall path :: LastMention(es, path).Some? ==> LastMention(es, path).value.TouchInput?
  }

  lemma SettledAppend(es: seq<Effect>, fs: seq<Effect>)
    requires Settled(es) && Settled(fs)
    ensures Settled(es + fs)
  {
    hide LastMention;
    forall path | LastMention(es + fs, path).Some? ensures LastMention(es + fs, path).value.TouchInput? {
      LastMentionAppend(es, fs, path);
    }
  }

  lemma SettledQuiet(es: seq<Effect>)
    requires forall e :: e in es ==> !e.LabelInput?
    ensures Settled(es)
  {
    hide LastMention;
    forall path | LastMention(es, path).Some? ensures LastMention(es, path).value.TouchInput? {
      LastMentionIn(es, path);
    }
  }

  /** Setting up a channel and touching its own path. */
  lemma SettledChannel(layout: Layout, p: Program, input: Input, constant: nat, channel: nat, value: Word,
                       multichannel: bool, active: nat)
    ensures Settled(SetupEffects(layout, p, input, constant, channel, value, multichannel, active)
                    + [TouchInput(InputPath(p.name, input.name, channel, multichannel), p.index)])
  {
    hide InputPath, LastMention;
    var es := SetupEffects(layout, p, input, constant, channel, value, multichannel, active);
    var own := InputPath(p.name, input.name, channel, multichannel);
    var touch := TouchInput(own, p.index);
    forall path | LastMention(es + [touch], path).Some? ensures LastMention(es + [touch], path).value.TouchInput? {
      LastMentionIn(es + [touch], path);
      LastMentionAppend(es, [touch], path);
      LastMentionIn(es, path);
      LastMentionIn([touch], path);
      assert path == own ==> Mentions(touch, path) && touch in [touch];
    }
  }

  lemma RandomQuiet(layout: Layout, p: Program, input: Input, constant: nat, channel: nat, value: Word,
                    multichannel: bool, active: nat)
    requires !IsConstant(input)
    ensures forall e :: e in SetupEffects(layout, p, input, constant, channel, value, multichannel, active) ==>
      !e.LabelInput?
  {
    hide InputPath, RandomName, Dest;
  }

  lemma {:induction false} MultiSettled(layout: Layout, p: Program, input: Input, constant: nat, count: nat,
                                        active: nat)
    ensures Settled(MultiEffects(layout, p, input, constant, count, active))
  {
    hide SetupEffects, InputPath, ValueOf, Settled;
    if count == 0 {
      SettledQuiet([]);
    } else {
      var j := count - 1;
      var earlier := MultiEffects(layout, p, input, constant, j, active);
      var own := SetupEffects(layout, p, input, constant, j, ValueOf(input, j), true, active + RandomsBefore(input, j));
      var touch := TouchInput(InputPath(p.name, input.name, j, true), p.index);
      MultiSettled(layout, p, input, constant, j, active);
      if TouchesInLoop(input) {
        SettledChannel(layout, p, input, constant, j, ValueOf(input, j), true, active + RandomsBefore(input, j));
        SettledAppend(earlier, own + [touch]);
        assert earlier + own + [touch] == earlier + (own + [touch]);
      } else {
        RandomQuiet(layout, p, input, constant, j, ValueOf(input, j), true, active + RandomsBefore(input, j));
        SettledQuiet(own);
        SettledAppend(earlier, own);
        assert earlier + own + [] == earlier + own;
      }
    }
  }

  lemma InputSettled(layout: Layout, p: Program, input: Input, constant: nat, active: nat)
    ensures Settled(InputEffects(layout, p, input, constant, active))
  {
    hide SetupEffects, MultiEffects, ValueOf, Settled, Loops;
    if p.channels > 1 {
      var touch := TouchInput(LastPath(p, input), p.index);
      MultiSettled(layout, p, input, constant, Loops(input, p.channels), active);
      SettledQuiet([touch]);
      SettledAppend(MultiEffects(layout, p, input, constant, Loops(input, p.channels), active), [touch]);
    } else {
      SettledChannel(layout, p, input, constant, 0, ValueOf(input, 0), false, active);
    }
  }

  lemma {:induction false} InputsSettled(layout: Layout, p: Program, ins: seq<Input>, active: nat)
    ensures Settled(InputsEffects(layout, p, ins, active))
  {
    hide InputEffects, Settled, RandomsIn, ConstantsIn;
    if ins == [] {
      SettledQuiet([]);
    } else {
      var earlier := ins[..|ins| - 1];
      InputsSettled(layout, p, earlier, active);
      InputSettled(layout, p, ins[|ins| - 1], ConstantsIn(earlier), active + RandomsIn(earlier, p.channels));
      SettledAppend(InputsEffects(layout, p, earlier, active),
                    InputEffects(layout, p, ins[|ins| - 1], ConstantsIn(earlier),
                                 active + RandomsIn(earlier, p.channels)));
    }
  }

  lemma {:induction false} AllSettled(layout: Layout, spec: Spec, ps: seq<Program>)
    ensures Settled(AllInputEffects(layout, spec, ps))
  {
    hide InputsEffects, Settled, RandomsIn, RandomsInPrograms;
    if ps == [] {
      SettledQuiet([]);
    } else {
      var earlier, p := ps[..|ps| - 1], ps[|ps| - 1];
      var active, ins := RandomsInPrograms(spec, earlier), Inputs(spec, p.name);
      var total := active + RandomsIn(ins, p.channels);
      var count := if total > 0 then [Write(layout.noiseGenerator, Wrap32(total))] else [];
      AllSettled(layout, spec, earlier);
      InputsSettled(layout, p, ins, active);
      SettledQuiet(count);
      SettledAppend(InputsEffects(layout, p, ins, active), count);
      SettledAppend(AllInputEffects(layout, spec, earlier), InputsEffects(layout, p, ins, active) + count);
    }
  }

  // ----- every constant channel is labelled

  lemma {:induction false} LabelInMulti(layout: Layout, p: Program, input: Input, constant: nat, count: nat,
                                        active: nat, j: nat)
    requires IsConstant(input) && j < count
    ensures ChannelLabel(layout, p, input, constant, j, true) in MultiEffects(layout, p, input, constant, count, active)
  {
    hide InputPath, ValueOf, Dest, Selector, EngineBase;
    if j < count - 1 {
      LabelInMulti(layout, p, input, constant, count - 1, active, j);
    } else {
      var own := SetupEffects(layout, p, input, constant, j, ValueOf(input, j), true, active + RandomsBefore(input, j));
      assert own[0] == ChannelLabel(layout, p, input, constant, j, true);
    }
  }

  function ChannelLabel(layout: Layout, p: Program, input: Input, constant: nat, j: nat, multichannel: bool): Effect {
    var m := Metadata(layout, p, input, constant, j);
    LabelInput(InputPath(p.name, input.name, j, multichannel), TbInput(m.base + CONST_LSB, m.dest, m.selector, 0))
  }

  lemma LabelInInput(layout: Layout, p: Program, input: Input, constant: nat, active: nat, j: nat)
    requires IsConstant(input) && j < Width(input, p.channels)
    ensures ChannelLabel(layout, p, input, constant, j, p.channels > 1)
         in InputEffects(layout, p, input, constant, active)
  {
    hide MultiEffects, ValueOf, LastPath, Loops, InputPath, Dest, Selector, EngineBase;
    if p.channels > 1 {
      LabelInMulti(layout, p, input, constant, Loops(input, p.channels), active, j);
    } else {
      var own := SetupEffects(layout, p, input, constant, 0, ValueOf(input, 0), false, active);
      assert own[0] == ChannelLabel(layout, p, input, constant, j, false);
    }
  }

  lemma {:induction false} LabelInInputs(layout: Layout, p: Program, ins: seq<Input>, n: nat, active: nat, i: nat,
                                         j: nat)
    requires i < n <= |ins| && IsConstant(ins[i]) && j < Width(ins[i], p.channels)
    ensures ChannelLabel(layout, p, ins[i], ConstantsIn(ins[..i]), j, p.channels > 1)
         in InputsEffects(layout, p, ins[..n], active)
  {
    hide InputEffects, IsConstant, Width, ChannelLabel, ConstantsIn, RandomsIn;
    var m := n - 1;
    assert ins[..n][..m] == ins[..m];
    if i < m {
      LabelInInputs(layout, p, ins, m, active, i, j);
    } else {
      LabelInInput(layout, p, ins[m], ConstantsIn(ins[..m]), active + RandomsIn(ins[..m], p.channels), j);
    }
  }

  lemma {:induction false} LabelInAll(layout: Layout, spec: Spec, ps: seq<Program>, n: nat, k: nat, i: nat, j: nat)
    requires k < n <= |ps| && i < |Inputs(spec, ps[k].name)|
    requires IsConstant(Inputs(spec, ps[k].name)[i]) && j < Width(Inputs(spec, ps[k].name)[i], ps[k].channels)
    ensures var ins := Inputs(spec, ps[k].name);
      ChannelLabel(layout, ps[k], ins[i], ConstantsIn(ins[..i]), j, ps[k].channels > 1)
      in AllInputEffects(layout, spec, ps[..n])
  {
    hide InputsEffects, IsConstant, Width, ChannelLabel, ConstantsIn, RandomsIn, RandomsInPrograms;
    var m := n - 1;
    assert ps[..n][..m] == ps[..m];
    if k < m {
      LabelInAll(layout, spec, ps, m, k, i, j);
    } else {
      var ins := Inputs(spec, ps[m].name);
      assert ins[..|ins|] == ins;
      LabelInInputs(layout, ps[m], ins, |ins|, RandomsInPrograms(spec, ps[..m]), i, j);
    }
  }

  // ----- the table

  function PathAt(spec: Spec, k: nat, i: nat, j: nat): string
    requires k < |spec.programs| && i < |Inputs(spec, spec.programs[k].name)|
  {
    InputPath(spec.programs[k].name, InputAt(spec, k, i).name, j, spec.programs[k].channels > 1)
  }

  /** Constant channels have paths of their own, which no other core uses for any of its inputs. */
  ghost predicate DistinctPaths(spec: Spec) {
    && (forall k, i, j, k', i', j' |
          && IsChannel(spec, k, i, j) && IsChannel(spec, k', i', j')
          && PathAt(spec, k, i, j) == PathAt(spec, k', i', j') ::
          k == k' && i == i' && j == j')
    && (forall k, i, j, k' |
          IsChannel(spec, k, i, j) && 0 <= k' < |spec.programs|
          && Touches(spec.programs[k'], Inputs(spec, spec.programs[k'].name), PathAt(spec, k, i, j)) ::
          k' == k)
  }

  lemma OneEntry(c: Config, spec: Spec, k: nat, i: nat, j: nat, e: Effect)
    requires DistinctPaths(spec) && IsChannel(spec, k, i, j) && e in AllInputEffects(c.layout, spec, spec.programs)
    ensures Mentions(e, PathAt(spec, k, i, j)) && e.LabelInput? ==>
      e.entry == EntryOf(c.layout, spec.programs[k], Inputs(spec, spec.programs[k].name), i, j)
    ensures Mentions(e, PathAt(spec, k, i, j)) && e.TouchInput? ==> e.coreIndex == spec.programs[k].index
  {
    hide AllInputEffects, RandomLabel, IsConstant, Width, InputPath, EntryOf, Touches, RandomsInPrograms,
      DistinctPaths;
    var ps := spec.programs;
    assert ps[..|ps|] == ps;
    var k' := InputPhaseIsInput(c.layout, spec, |ps|, RandomsInPrograms(spec, ps), e);
    var ins := Inputs(spec, ps[k'].name);
    if Mentions(e, PathAt(spec, k, i, j)) {
      if e.LabelInput? {
        var i': nat, j': nat :| i' < |ins| && IsConstantLabel(c.layout, ps[k'], ins, i', j', e.path, e.entry);
        assert IsChannel(spec, k', i', j') && PathAt(spec, k', i', j') == e.path;
        PathsDiffer(spec, k, i, j, k', i', j');
      } else {
        OwnTouch(spec, k, i, j, k');
      }
    }
  }

  lemma PathsDiffer(spec: Spec, k: nat, i: nat, j: nat, k': nat, i': nat, j': nat)
    requires DistinctPaths(spec) && IsChannel(spec, k, i, j) && IsChannel(spec, k', i', j')
    requires PathAt(spec, k, i, j) == PathAt(spec, k', i', j')
    ensures k == k' && i == i' && j == j'
  {
    hide PathAt, IsChannel, Touches;
  }

  lemma OwnTouch(spec: Spec, k: nat, i: nat, j: nat, k': nat)
    requires DistinctPaths(spec) && IsChannel(spec, k, i, j) && k' < |spec.programs|
    requires Touches(spec.programs[k'], Inputs(spec, spec.programs[k'].name), PathAt(spec, k, i, j))
    ensures k' == k
  {
    hide PathAt, IsChannel, Touches;
  }

  /**
   For the simulation, the path of each channel of each constant names the value register of its core's
   engine, its destination, its selector and its core.
   */
  lemma InputsLabelled(c: Config, spec: Spec, ivs: InitialValues, inputs: seq<InputMetadata>, k: nat, i: nat, j: nat)
    requires Accepted(c, spec, ivs) && DistinctPaths(spec) && IsChannel(spec, k, i, j)
    ensures var labels := ApplyAll(Deployed([], map[], map[], inputs, 0),
                                   DeployPhase(c, spec, ivs).effects).inputLabels;
      var path, m := PathAt(spec, k, i, j), ConstantAt(c.layout, spec, k, i, j);
      path in labels && labels[path] == TbInput(m.base + CONST_LSB, m.dest, m.selector, spec.programs[k].index)
  {
    hide Deployable, MemoriesDefined, InitialsReady, Connected, LoadEffects, DmaPhase, MemoryPhase,
      SequencerPhase, CorePhase, AllInputEffects, DeployPhase, IsConstant, Width, InputPath,
      ApplyAll, Settled, LastMention, DistinctPaths, Touches, ConstantsIn, Mentions, Metadata;
    var ps, es := spec.programs, DeployPhase(c, spec, ivs).effects;
    var path := PathAt(spec, k, i, j);
    var entry := EntryOf(c.layout, ps[k], Inputs(spec, ps[k].name), i, j);
    OnlyInputsMention(c, spec, ivs);
    forall e | e in es && (e.LabelInput? || e.TouchInput?) && e.path == path
      ensures e.LabelInput? ==> e.entry == entry
      ensures e.TouchInput? ==> e.coreIndex == ps[k].index
    {
      MentionsOwn(e, path);
      OneEntry(c, spec, k, i, j, e);
    }
    LabelInAll(c.layout, spec, ps, |ps|, k, i, j);
    assert ps[..|ps|] == ps;
    LabelAfter(Deployed([], map[], map[], inputs, 0), es, path, entry, ps[k].index);
    DeploySettled(c, spec, ivs);
    SettledAt(es, path);
  }

  lemma {:induction false} InputLabelKeys(d: Deployed, es: seq<Effect>, path: string)
    ensures path in ApplyAll(d, es).inputLabels
       <==> path in d.inputLabels || exists entry :: LabelInput(path, entry) in es
  {
    hide Apply;
    if es != [] {
      var n := |es| - 1;
      InputLabelKeys(d, es[..n], path);
      KeyStep(ApplyAll(d, es[..n]), es[n], path);
      assert es == es[..n] + [es[n]];
      assert forall entry ::
        LabelInput(path, entry) in es <==> LabelInput(path, entry) in es[..n] || es[n] == LabelInput(path, entry);
    }
  }

  lemma KeyStep(d: Deployed, e: Effect, path: string)
    ensures path in Apply(d, e).inputLabels <==> path in d.inputLabels || (e.LabelInput? && e.path == path)
    ensures e.LabelInput? && e.path == path ==> e == LabelInput(path, e.entry)
  {
  }

  /** ... and no other path is in the table. */
  lemma OnlyInputsLabelled(c: Config, spec: Spec, ivs: InitialValues, inputs: seq<InputMetadata>, path: string)
    requires Accepted(c, spec, ivs)
    requires path in ApplyAll(Deployed([], map[], map[], inputs, 0), DeployPhase(c, spec, ivs).effects).inputLabels
    ensures exists k, i, j :: IsChannel(spec, k, i, j) && path == PathAt(spec, k, i, j)
  {
    hide Deployable, DeployPhase, ApplyAll, AllInputEffects, RandomLabel, IsConstant, Width, InputPath, EntryOf,
      Touches, RandomsInPrograms;
    var ps, es := spec.programs, DeployPhase(c, spec, ivs).effects;
    InputLabelKeys(Deployed([], map[], map[], inputs, 0), es, path);
    var entry :| LabelInput(path, entry) in es;
    OnlyInputsMention(c, spec, ivs);
    assert ps[..|ps|] == ps;
    var k := InputPhaseIsInput(c.layout, spec, |ps|, RandomsInPrograms(spec, ps), LabelInput(path, entry));
    var ins := Inputs(spec, ps[k].name);
    var i: nat, j: nat :| i < |ins| && IsConstantLabel(c.layout, ps[k], ins, i, j, path, entry);
    assert IsChannel(spec, k, i, j) && path == PathAt(spec, k, i, j);
  }

  lemma MentionsOwn(e: Effect, path: string)
    requires (e.LabelInput? || e.TouchInput?) && e.path == path
    ensures Mentions(e, path)
  {
  }

  lemma SettledAt(es: seq<Effect>, path: string)
    requires Settled(es) && LastMention(es, path).Some?
    ensures LastMention(es, path).value.TouchInput?
  {
  }

  lemma OnlyInputsMention(c: Config, spec: Spec, ivs: InitialValues)
    requires Accepted(c, spec, ivs)
    ensures forall e :: e in AllInputEffects(c.layout, spec, spec.programs) ==> e in DeployPhase(c, spec, ivs).effects
    ensures forall e :: e in DeployPhase(c, spec, ivs).effects && (e.LabelInput? || e.TouchInput?) ==>
      e in AllInputEffects(c.layout, spec, spec.programs)
  {
    hide Deployable, MemoriesDefined, InitialsReady, Connected, LoadEffects, DmaPhase, MemoryPhase,
      SequencerPhase, CorePhase, AllInputEffects, DeployPhase;
    AcceptedParts(c, spec, ivs);
    DeployParts(c, spec, ivs);
    PhasesPlain(c, spec, ivs);
  }

  lemma DeploySettled(c: Config, spec: Spec, ivs: InitialValues)
    requires Accepted(c, spec, ivs)
    ensures Settled(DeployPhase(c, spec, ivs).effects)
  {
    hide Deployable, MemoriesDefined, InitialsReady, Connected, LoadEffects, DmaPhase, MemoryPhase,
      SequencerPhase, CorePhase, AllInputEffects, DeployPhase, Settled;
    AcceptedParts(c, spec, ivs);
    DeployParts(c, spec, ivs);
    PhasesPlain(c, spec, ivs);
    var n, ps := |spec.programs|, spec.programs;
    var early := LoadEffects(c.layout, ps) + DmaPhase(c, spec, Connected(spec, ivs), n).effects;
    var memory, inputs := MemoryPhase(c, spec, n), AllInputEffects(c.layout, spec, ps);
    var sequencer, cores := SequencerPhase(c, ps), CorePhase(c, ps, n);
    AllSettled(c.layout, spec, ps);
    SettledQuiet(early);
    SettledQuiet(memory);
    SettledQuiet(sequencer);
    SettledQuiet(cores);
    SettledAppend(memory, inputs);
    SettledAppend(memory + inputs, sequencer);
    SettledAppend(memory + inputs + sequencer, cores);
    SettledAppend(early, memory + inputs + sequencer + cores);
  }
}

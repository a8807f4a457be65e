/**
 The constant engines after a whole deployment and any later run of set_input calls.
 */
module DeployedConstants {
  import opened Specification
  import opened RegisterLog
  import opened Effects
  import opened DmaTable
  import opened CoreMemory
  import opened CoreInputs
  import opened ConstantEngine
  import opened Sequencer
  import opened Deployment
  import opened Regions
  import opened FinalLog

  // ----- phases that set no constant

  ghost predicate Plain(es: seq<Effect>) {
    forall e :: e in es ==> !e.SetConstant? && !e.UpdateConstant?
  }

  ghost predicate OnlyLoads(es: seq<Effect>) {
    forall e :: e in es ==> e.Load?
  }

  ghost predicate OnlyWrites(es: seq<Effect>) {
    forall e :: e in es ==> e.Write?
  }

  ghost predicate WritesAndLabels(es: seq<Effect>) {
    forall e :: e in es ==> e.Write? || e.LabelBus?
  }

  lemma {:induction false} PlainCommands(es: seq<Effect>)
    requires Plain(es)
    ensures Commands(es) == []
  {
    if es != [] {
      PlainCommands(es[..|es| - 1]);
      assert es[|es| - 1] in es;
    }
  }

  lemma PlainKeepsOff(es: seq<Effect>, base: nat)
    requires Plain(es) && KeepsOut(es, base, base + ENGINE_SIZE)
    ensures AllKeepOff(es, base)
  {
    forall e | e in es ensures KeepsOff(e, base) {
      if e.Write? {
        assert Outside(StoresOf(e), base, base + ENGINE_SIZE);
        assert StoresOf(e)[0].address == e.address;
      }
    }
  }

  lemma {:induction false} LoadsPlain(layout: Layout, ps: seq<Program>)
    ensures OnlyLoads(LoadEffects(layout, ps))
  {
    if ps != [] { LoadsPlain(layout, ps[..|ps| - 1]); }
  }

  lemma {:induction false} TablePlain(es: seq<Slot>, dma: nat, channels: nat, ivs: InitialValues)
    requires InitialsDefined(es, ivs)
    ensures WritesAndLabels(TableRun(es, dma, channels, ivs).effects)
  {
    hide InRange, InitialDefined, Mapping, Format, BusKey, SignalName, Wrap32, Initial;
    if es != [] {
      var n := |es| - 1;
      TablePlain(es[..n], dma, channels, ivs);
      if TableRun(es[..n], dma, channels, ivs).ok && InRange(es[n]) {
        EntryPlain(es[n], dma, n, channels, ivs);
      }
    }
  }

  lemma EntryPlain(e: Slot, dma: nat, io: nat, channels: nat, ivs: InitialValues)
    requires InitialDefined(e, ivs)
    ensures WritesAndLabels(EntryEffects(e, dma, io, channels, ivs))
  {
    hide Mapping, Format, BusKey, SignalName, Wrap32;
  }

  lemma {:induction false} DmaPlain(c: Config, spec: Spec, ivs: InitialValues, n: nat)
    requires InitialsReady(spec, ivs) && n <= |spec.programs|
    ensures WritesAndLabels(DmaPhase(c, spec, ivs, n).effects)
  {
    hide TableRun, InitialsReady, Entries, DmaBase, Recorded;
    if n != 0 {
      var p := spec.programs[n - 1];
      DmaPlain(c, spec, ivs, n - 1);
      EntriesReady(spec, p, ivs);
      TablePlain(Entries(spec.slots, p.name), DmaBase(c.layout, Recorded(spec.programs, p).index), p.channels, ivs);
    }
  }

  lemma {:induction false} InitsPlain(inits: seq<MemoryInit>, base: nat, channels: nat)
    requires AllDefined(inits, channels)
    ensures OnlyWrites(MemoryEffects(inits, base, channels))
  {
    hide WordAddress;
    if inits != [] { InitsPlain(inits[..|inits| - 1], base, channels); }
  }

  lemma {:induction false} MemoryPlain(c: Config, spec: Spec, n: nat)
    requires MemoriesDefined(spec) && n <= |spec.programs|
    ensures OnlyWrites(MemoryPhase(c, spec, n))
  {
    hide MemoryEffects, Memories, ControlBase, Recorded;
    if n != 0 {
      var p := spec.programs[n - 1];
      MemoryPlain(c, spec, n - 1);
      InitsPlain(Memories(spec, p.name), ControlBase(c.layout, Recorded(spec.programs, p).index), p.channels);
    }
  }

  lemma {:induction false} CoreEffectsPlain(layout: Layout, dividers: seq<nat>, shifts: seq<Word>, n: nat)
    requires n <= |dividers| && n <= |shifts|
    ensures OnlyWrites(CoreEffects(layout, dividers, shifts, n))
  {
    hide DivisorWord;
    if n != 0 { CoreEffectsPlain(layout, dividers, shifts, n - 1); }
  }

  lemma SequencerEffectsPlain(layout: Layout, dividers: seq<nat>, shifts: seq<Word>, period: Word)
    requires |dividers| == |shifts|
    ensures OnlyWrites(SequencerEffects(layout, dividers, shifts, period))
  {
    hide ToUlong, FirstBits, CoreEffects;
    CoreEffectsPlain(layout, dividers, shifts, |dividers|);
  }

  lemma SequencerPlain(c: Config, ps: seq<Program>)
    requires Convertible(c.clock, Timebase(ps))
    ensures OnlyWrites(SequencerPhase(c, ps))
  {
    hide SequencerEffects, OnlyWrites;
    SequencerEffectsPlain(c.layout, Dividers(ps), Shifts(c.sort, SlotsOf(c, ps)),
                          Period(c.clock, Timebase(ps), MinTimebase(SlotsOf(c, ps))));
  }

  lemma {:induction false} CoresPlain(c: Config, ps: seq<Program>, n: nat)
    requires n <= |ps|
    ensures OnlyWrites(CorePhase(c, ps, n))
  {
    hide RunChannels;
    if n != 0 { CoresPlain(c, ps, n - 1); }
  }

  // ----- what the engine of core k sees

  /** All phases but the inputs stay off the engine of a core whose table and memory spare it. */
  lemma BlocksKeepOff(c: Config, spec: Spec, ivs: InitialValues, k: nat)
    requires Fitted(c, spec, ivs) && k < |spec.programs| && EngineSpared(c.layout, spec, spec.programs[k])
    ensures MemoriesDefined(spec) && InitialsReady(spec, Connected(spec, ivs))
    ensures Convertible(c.clock, Timebase(spec.programs))
    ensures var n, base := |spec.programs|, EngineBase(c.layout, spec.programs[k].index);
      && KeepsOut(LoadEffects(c.layout, spec.programs), base, base + ENGINE_SIZE)
      && KeepsOut(DmaPhase(c, spec, Connected(spec, ivs), n).effects, base, base + ENGINE_SIZE)
      && KeepsOut(MemoryPhase(c, spec, n), base, base + ENGINE_SIZE)
      && KeepsOut(SequencerPhase(c, spec.programs), base, base + ENGINE_SIZE)
      && KeepsOut(CorePhase(c, spec.programs, n), base, base + ENGINE_SIZE)
  {
    hide Accepted, Placed, MemoriesDefined, InitialsReady, Connected, Concat, TableLog, MemoryStores,
      Project, KeepsOut, Stores, LoadEffects, DmaPhase, MemoryPhase, SequencerPhase, CorePhase, Outside,
      RandomsInPrograms, WordsOutside, Entries, Memories, RunChannels, TableSpan, EntriesInRange;
    FittedParts(c, spec, ivs);
    var n, ps, layout := |spec.programs|, spec.programs, c.layout;
    var lo, hi := EngineBase(layout, ps[k].index), EngineBase(layout, ps[k].index) + ENGINE_SIZE;
    BlocksFromCore(c, spec, ivs, k, layout.coresInputs, layout.coresInputs + ENGINE_SIZE);
    EngineUnwritten(c, spec, ivs, k);
    EngineInArea(layout, ps[k].index);
    SequencerUnseen(c, spec, lo, hi);
    LoadsStoreNothing(layout, ps);
    DmaPhaseStores(c, spec, Connected(spec, ivs), n);
    MemoryPhaseStores(c, spec, n);
    CorePhaseStores(c, ps, n);
    NothingStored(lo, hi);
    SeenNothing(LoadEffects(layout, ps), lo, hi);
    SeenNothing(DmaPhase(c, spec, Connected(spec, ivs), n).effects, lo, hi);
    SeenNothing(MemoryPhase(c, spec, n), lo, hi);
    SeenNothing(SequencerPhase(c, ps), lo, hi);
    SeenNothing(CorePhase(c, ps, n), lo, hi);
  }

  /** A core's own table, memory and register are not seen from its engine. */
  lemma EngineUnwritten(c: Config, spec: Spec, ivs: InitialValues, k: nat)
    requires Fitted(c, spec, ivs) && k < |spec.programs| && EngineSpared(c.layout, spec, spec.programs[k])
    ensures MemoriesDefined(spec) && InitialsReady(spec, Connected(spec, ivs)) && EntriesInRange(spec)
    ensures var n, base := |spec.programs|, EngineBase(c.layout, spec.programs[k].index);
      && Project(DmaBlocks(c, spec, Connected(spec, ivs), n)[k], base, base + ENGINE_SIZE) == []
      && Project(MemoryBlocks(c, spec, n)[k], base, base + ENGINE_SIZE) == []
      && Project(CoreBlocks(c, spec.programs, n)[k], base, base + ENGINE_SIZE) == []
  {
    hide Accepted, Placed, InitialsReady, Connected, TableLog, MemoryStores, Project, WordsOutside,
      RandomsInPrograms, Entries, Memories, RunChannels, TableSpan;
    FittedParts(c, spec, ivs);
    var n, p, layout := |spec.programs|, spec.programs[k], c.layout;
    var lo, hi := layout.coresInputs, layout.coresInputs + ENGINE_SIZE;
    var base := ControlBase(layout, p.index);
    assert p in spec.programs;
    DmaBlockInside(c, spec, Connected(spec, ivs), n, k);
    ProjectOutside(DmaBlocks(c, spec, Connected(spec, ivs), n)[k], base + lo, base + hi);
    MemoryOutside(Memories(spec, p.name), base, p.channels, lo, hi);
    ProjectOutside(MemoryBlocks(c, spec, n)[k], base + lo, base + hi);
    OwnRegisterElsewhere(c, spec.programs, k, lo, hi);
  }

  lemma NothingStored(lo: nat, hi: nat)
    ensures Project([], lo, hi) == []
  {
  }

  lemma SeenNothing(es: seq<Effect>, lo: nat, hi: nat)
    requires Project(Stores(es), lo, hi) == []
    ensures KeepsOut(es, lo, hi)
  {
    NothingProjected(Stores(es), lo, hi);
    StoresOutside(es, lo, hi);
  }

  /** The inputs of other cores stay off this one's engine, and random inputs off all. */
  lemma InputsKeepOff(c: Config, spec: Spec, k: nat)
    requires SmallIndices(spec) && LayoutClear(c.layout, RandomsInPrograms(spec, spec.programs))
    requires k < |spec.programs|
    ensures AllKeepOff(AllInputEffects(c.layout, spec, spec.programs), EngineBase(c.layout, spec.programs[k].index))
  {
    hide RandomsInPrograms, AllInputEffects, RandomLabel, ConstantLabel, Touches;
    var ps, layout, randoms := spec.programs, c.layout, RandomsInPrograms(spec, spec.programs);
    var base := EngineBase(layout, ps[k].index);
    assert ps[..|ps|] == ps;
    EngineInArea(layout, ps[k].index);
    forall e | e in AllInputEffects(layout, spec, ps) ensures KeepsOff(e, base) {
      var j := InputPhaseIsInput(layout, spec, |ps|, randoms, e);
      if ps[j].index != ps[k].index { BlocksApart(layout, ps[j].index, ps[k].index); }
    }
  }

  /** The whole deployment stays off core k's engine except to set its constants, and those are its inputs. */
  lemma {:induction false} EngineSees(c: Config, spec: Spec, ivs: InitialValues, k: nat)
    requires Fitted(c, spec, ivs) && k < |spec.programs| && EngineSpared(c.layout, spec, spec.programs[k])
    ensures AllKeepOff(DeployPhase(c, spec, ivs).effects, EngineBase(c.layout, spec.programs[k].index))
  {
    hide Deployable, MemoriesDefined, InitialsReady, Connected, LoadEffects, DmaPhase, MemoryPhase, EngineSpared,
      SequencerPhase, CorePhase, AllInputEffects, DeployPhase, KeepsOut, KeepsOff, Placed, LayoutClear, EngineBase;
    FittedParts(c, spec, ivs);
    DeployParts(c, spec, ivs);
    var n, ps, base := |spec.programs|, spec.programs, EngineBase(c.layout, spec.programs[k].index);
    BlocksKeepOff(c, spec, ivs, k);
    PhasesPlain(c, spec, ivs);
    InputsKeepOff(c, spec, k);
    PlainKeepsOff(LoadEffects(c.layout, ps), base);
    PlainKeepsOff(DmaPhase(c, spec, Connected(spec, ivs), n).effects, base);
    PlainKeepsOff(MemoryPhase(c, spec, n), base);
    PlainKeepsOff(SequencerPhase(c, ps), base);
    PlainKeepsOff(CorePhase(c, ps, n), base);
  }

  lemma PhasesPlain(c: Config, spec: Spec, ivs: InitialValues)
    requires Accepted(c, spec, ivs)
    ensures MemoriesDefined(spec) && InitialsReady(spec, Connected(spec, ivs))
    ensures OnlyLoads(LoadEffects(c.layout, spec.programs))
    ensures WritesAndLabels(DmaPhase(c, spec, Connected(spec, ivs), |spec.programs|).effects)
    ensures OnlyWrites(MemoryPhase(c, spec, |spec.programs|)) && OnlyWrites(SequencerPhase(c, spec.programs))
    ensures OnlyWrites(CorePhase(c, spec.programs, |spec.programs|))
  {
    hide Plain, OnlyLoads, OnlyWrites, WritesAndLabels, LoadEffects, DmaPhase, MemoryPhase, SequencerPhase, CorePhase,
      InitialsReady, ScheduleDefined;
    AcceptedParts(c, spec, ivs);
    LoadsPlain(c.layout, spec.programs);
    DmaPlain(c, spec, Connected(spec, ivs), |spec.programs|);
    MemoryPlain(c, spec, |spec.programs|);
    SequencerPlain(c, spec.programs);
    CoresPlain(c, spec.programs, |spec.programs|);
  }

  /** The commands of a deployment are those of its constant inputs, in order. */
  lemma CommandsAre(c: Config, spec: Spec, ivs: InitialValues)
    requires Accepted(c, spec, ivs)
    ensures Commands(DeployPhase(c, spec, ivs).effects) == AllCommands(c.layout, spec, spec.programs)
    ensures forall e :: e in DeployPhase(c, spec, ivs).effects ==> !e.UpdateConstant?
  {
    hide Deployable, MemoriesDefined, InitialsReady, Connected, LoadEffects, DmaPhase, MemoryPhase, SequencerPhase,
      CorePhase, AllInputEffects, DeployPhase, Commands, RandomsInPrograms;
    DeployParts(c, spec, ivs);
    PhasesPlain(c, spec, ivs);
    var n, ps := |spec.programs|, spec.programs;
    var load, dma := LoadEffects(c.layout, ps), DmaPhase(c, spec, Connected(spec, ivs), n).effects;
    var memory, inputs := MemoryPhase(c, spec, n), AllInputEffects(c.layout, spec, ps);
    var sequencer, cores := SequencerPhase(c, ps), CorePhase(c, ps, n);
    CommandsAppend(load + dma, memory + inputs + sequencer + cores);
    CommandsAppend(load, dma);
    CommandsAppend(memory + inputs + sequencer, cores);
    CommandsAppend(memory + inputs, sequencer);
    CommandsAppend(memory, inputs);
    PlainCommands(load);
    PlainCommands(dma);
    PlainCommands(memory);
    PlainCommands(sequencer);
    PlainCommands(cores);
    AllCommandsAre(c.layout, spec, ps);
    var all := AllCommands(c.layout, spec, ps);
    assert [] + [] + ([] + all + [] + []) == all;
    assert ps[..|ps|] == ps;
    NoUpdates(c, spec);
  }

  lemma NoUpdates(c: Config, spec: Spec)
    ensures forall e :: e in AllInputEffects(c.layout, spec, spec.programs) ==> !e.UpdateConstant?
  {
    hide AllInputEffects, RandomLabel, ConstantLabel, Touches, RandomsInPrograms;
    var ps := spec.programs;
    assert ps[..|ps|] == ps;
    forall e | e in AllInputEffects(c.layout, spec, ps) ensures !e.UpdateConstant? {
      var j := InputPhaseIsInput(c.layout, spec, |ps|, RandomsInPrograms(spec, ps), e);
    }
  }

  // ----- the tables

  /** Channel j of constant input i of core k. */
  ghost predicate IsChannel(spec: Spec, k: nat, i: nat, j: nat) {
    && k < |spec.programs| && i < |Inputs(spec, spec.programs[k].name)|
    && IsConstant(Inputs(spec, spec.programs[k].name)[i])
    && j < Width(Inputs(spec, spec.programs[k].name)[i], spec.programs[k].channels)
  }

  function InputAt(spec: Spec, k: nat, i: nat): Input
    requires k < |spec.programs| && i < |Inputs(spec, spec.programs[k].name)|
  {
    Inputs(spec, spec.programs[k].name)[i]
  }

  function ConstantAt(layout: Layout, spec: Spec, k: nat, i: nat, j: nat): InputMetadata
    requires k < |spec.programs| && i < |Inputs(spec, spec.programs[k].name)|
  {
    Metadata(layout, spec.programs[k], InputAt(spec, k, i), ConstantsIn(Inputs(spec, spec.programs[k].name)[..i]), j)
  }

  lemma EnginesDiffer(layout: Layout, spec: Spec)
    requires DistinctIndices(spec) && BlockOrdered(layout)
    ensures DistinctEngines(layout, spec.programs)
  {
    forall i, j | 0 <= i < j < |spec.programs|
      ensures EngineBase(layout, spec.programs[i].index) != EngineBase(layout, spec.programs[j].index)
    {
      BlocksApart(layout, spec.programs[i].index, spec.programs[j].index);
    }
  }

  /** Sequencer and channel counts stay off every engine. */
  lemma LateKeepOff(c: Config, spec: Spec, ivs: InitialValues, k: nat)
    requires Scheduled(c, spec, ivs) && k < |spec.programs|
    ensures Convertible(c.clock, Timebase(spec.programs))
    ensures AllKeepOff(SequencerPhase(c, spec.programs), EngineBase(c.layout, spec.programs[k].index))
    ensures AllKeepOff(CorePhase(c, spec.programs, |spec.programs|), EngineBase(c.layout, spec.programs[k].index))
  {
    hide Deployable, DeployPhase, SequencerPhase, CorePhase, KeepsOff, Stores, KeepsOut, Project;
    var ps, base := spec.programs, EngineBase(c.layout, spec.programs[k].index);
    AcceptedParts(c, spec, ivs);
    PhasesPlain(c, spec, ivs);
    EngineInArea(c.layout, ps[k].index);
    SequencerUnseen(c, spec, base, base + ENGINE_SIZE);
    SeenNothing(SequencerPhase(c, ps), base, base + ENGINE_SIZE);
    PlainKeepsOff(SequencerPhase(c, ps), base);
    CoresKeepOff(c, ps, |ps|, ps[k].index);
  }

  lemma {:induction false} CoresKeepOff(c: Config, ps: seq<Program>, n: nat, index: nat)
    requires n <= |ps| && BlockOrdered(c.layout)
    ensures AllKeepOff(CorePhase(c, ps, n), EngineBase(c.layout, index))
  {
    hide RunChannels;
    if n != 0 {
      CoresKeepOff(c, ps, n - 1, index);
      if ps[n - 1].index != index { BlocksApart(c.layout, ps[n - 1].index, index); }
    }
  }

  /** The effects of the last three phases end the deployment. */
  lemma EffectsTail(c: Config, spec: Spec, ivs: InitialValues) returns (early: seq<Effect>)
    requires Accepted(c, spec, ivs)
    ensures Convertible(c.clock, Timebase(spec.programs))
    ensures DeployPhase(c, spec, ivs).effects
         == early + (AllInputEffects(c.layout, spec, spec.programs) + SequencerPhase(c, spec.programs)
                     + CorePhase(c, spec.programs, |spec.programs|))
    ensures Commands(early) == []
  {
    hide LoadEffects, DmaPhase, MemoryPhase, AllInputEffects, SequencerPhase, CorePhase, InitialsReady,
      DeployPhase, Deployable, Connected, MemoriesDefined, Commands;
    DeployParts(c, spec, ivs);
    PhasesPlain(c, spec, ivs);
    var n := |spec.programs|;
    early := LoadEffects(c.layout, spec.programs) + DmaPhase(c, spec, Connected(spec, ivs), n).effects
             + MemoryPhase(c, spec, n);
    PlainCommands(early);
  }

  /** The last command for a constant's slot is the constant's own. */
  lemma ConstantCommand(c: Config, spec: Spec, ivs: InitialValues, k: nat, i: nat, j: nat)
    requires Accepted(c, spec, ivs) && DistinctIndices(spec) && BlockOrdered(c.layout)
    requires AllBounded(spec, spec.programs) && IsChannel(spec, k, i, j)
    ensures var m := ConstantAt(c.layout, spec, k, i, j);
      LastCommand(Commands(DeployPhase(c, spec, ivs).effects), m.base, m.selector)
      == Some(Command(m, ValueOf(InputAt(spec, k, i), j)))
  {
    hide Deployable, DistinctIndices, DeployPhase, Commands, AllCommands, LastCommand, IsConstant, Width, ValueOf,
      EngineBase, Selector, Dest, AllBounded, DistinctEngines;
    EnginesDiffer(c.layout, spec);
    CommandsAre(c, spec, ivs);
    SlotOfConstant(c.layout, spec, spec.programs, |spec.programs|, k, i, j);
    assert spec.programs[..|spec.programs|] == spec.programs;
  }

  /** Constants are set after tables and memories, under conditions on indices and layout alone. */
  ghost predicate EnginesSet(c: Config, spec: Spec, ivs: InitialValues) {
    && Accepted(c, spec, ivs)
    && SmallIndices(spec)
    && DistinctIndices(spec)
    && LayoutClear(c.layout, RandomsInPrograms(spec, spec.programs))
    && AllBounded(spec, spec.programs)
  }

  lemma ChannelGiven(c: Config, spec: Spec, ivs: InitialValues, k: nat, i: nat, j: nat)
    requires Accepted(c, spec, ivs) && IsChannel(spec, k, i, j)
    ensures HasValue(InputAt(spec, k, i), j)
    ensures ValueOf(InputAt(spec, k, i), j) == Given(InputAt(spec, k, i), j)
  {
    hide ScheduleDefined, MemoriesDefined, InitialsReady, EntriesInRange, ValueOf, Given, HasValue, Width, IsConstant,
      InputDefined, HasChannel;
    var p := spec.programs[k];
    assert p in spec.programs && InputAt(spec, k, i) in Inputs(spec, p.name);
    ChannelsGiven(InputAt(spec, k, i), p.channels, j);
  }

  /**
   After a deployment, slot (constant, channel) of each core's engine holds that constant's destination and
   value on that channel, its own or the one broadcast to all, although the values are consumed on the way and
   whatever the tables and memories written before it are.
   */
  lemma {:induction false} ConstantSlot(c: Config, spec: Spec, ivs: InitialValues, k: nat, i: nat, j: nat)
    requires EnginesSet(c, spec, ivs) && IsChannel(spec, k, i, j)
    ensures var log, base := Log(c, spec, ivs), EngineBase(c.layout, spec.programs[k].index);
      var selector := Selector(ConstantsIn(Inputs(spec, spec.programs[k].name)[..i]), j);
      && SlotDest(log, base, selector) == Some(Dest(InputAt(spec, k, i), j))
      && HasValue(InputAt(spec, k, i), j) && SlotValue(log, base, selector) == Some(Given(InputAt(spec, k, i), j))
  {
    hide Given, HasValue, Deployable, WindowsClear, DeployPhase, Commands, LastCommand, IsConstant, Width, ValueOf,
      EngineBase,
      Selector, Dest, AllBounded, KeepsOff, SlotDest, SlotValue, Stores, ConstantsIn, SmallIndices, DistinctIndices,
      AllInputEffects, SequencerPhase, CorePhase, RandomsInPrograms;
    var m, ps := ConstantAt(c.layout, spec, k, i, j), spec.programs;
    LayoutForFewer(c.layout, RandomsInPrograms(spec, ps));
    var early := EffectsTail(c, spec, ivs);
    var late := AllInputEffects(c.layout, spec, ps) + SequencerPhase(c, ps) + CorePhase(c, ps, |ps|);
    ConstantCommand(c, spec, ivs, k, i, j);
    CommandsAppend(early, late);
    assert [] + Commands(late) == Commands(late);
    InputsKeepOff(c, spec, k);
    LateKeepOff(c, spec, ivs, k);
    StoresAppend(early, late);
    SlotHoldsLastCommand(Stores(early), late, m.base, m.selector);
    ChannelGiven(c, spec, ivs, k, i, j);
  }

  /**
   The same in the input's own terms: constant i of a core, after n others, is in slot n on channel 0 and 2^16 slots
   further on each next channel, with the bus address 2^16 further likewise, and holds its value for the channel or
   the only one it has.
   */
  lemma {:induction false} ConstantsProgrammed(c: Config, spec: Spec, ivs: InitialValues, k: nat, i: nat, j: nat)
    requires EnginesSet(c, spec, ivs) && k < |spec.programs| && i < |Inputs(spec, spec.programs[k].name)|
    requires IsConstant(InputAt(spec, k, i)) && HasChannel(InputAt(spec, k, i), spec.programs[k].channels, j)
    ensures HasValue(InputAt(spec, k, i), j)
    ensures var log, base := Log(c, spec, ivs), EngineBase(c.layout, spec.programs[k].index);
      var input := InputAt(spec, k, i);
      var slot := ConstantsIn(Inputs(spec, spec.programs[k].name)[..i]) + 0x1_0000 * j;
      && SlotDest(log, base, slot) == Some((input.address + 0x1_0000 * j) % 0x1_0000_0000)
      && SlotValue(log, base, slot) == Some(if |input.data| == 1 then input.data[0] else input.data[j])
  {
    hide Deployable, LayoutClear, IsConstant, EngineBase, Log, SlotDest, SlotValue, SmallIndices, DistinctIndices,
      HasChannel, ConstantsIn, Width, InputDefined;
    var p := spec.programs[k];
    var ins := Inputs(spec, p.name);
    assert p in spec.programs && ins[i] in ins;
    ChannelExists(c, spec, ivs, k, i, j);
    ConstantSlot(c, spec, ivs, k, i, j);
    ConstantsBound(ins[..i]);
    SlotUnwrapped(ConstantsIn(ins[..i]), j);
  }

  lemma SlotUnwrapped(constant: nat, channel: nat)
    requires constant < 0x1_0000 && channel < 0x1_0000
    ensures Selector(constant, channel) == constant + 0x1_0000 * channel
  {
  }

  lemma ChannelExists(c: Config, spec: Spec, ivs: InitialValues, k: nat, i: nat, j: nat)
    requires Accepted(c, spec, ivs) && k < |spec.programs| && i < |Inputs(spec, spec.programs[k].name)|
    requires IsConstant(InputAt(spec, k, i)) && HasChannel(InputAt(spec, k, i), spec.programs[k].channels, j)
    ensures IsChannel(spec, k, i, j)
  {
    hide ScheduleDefined, MemoriesDefined, InitialsReady, EntriesInRange, Width, IsConstant, InputDefined, HasChannel;
    var p := spec.programs[k];
    assert p in spec.programs && InputAt(spec, k, i) in Inputs(spec, p.name);
    ChannelsGiven(InputAt(spec, k, i), p.channels, j);
  }

  lemma LayoutForFewer(layout: Layout, randoms: nat)
    requires LayoutClear(layout, randoms)
    ensures LayoutClear(layout, 0)
  {
  }

  lemma {:induction false} LastIsMember(cs: seq<Command>, base: nat, selector: nat)
    requires LastCommand(cs, base, selector).Some?
    ensures LastCommand(cs, base, selector).value in cs
    ensures LastCommand(cs, base, selector).value.input.base == base
    ensures LastCommand(cs, base, selector).value.input.selector == selector
  {
    if LastCommand(cs[..|cs| - 1], base, selector).Some? {
      LastIsMember(cs[..|cs| - 1], base, selector);
    }
  }

  /** ... and no slot of the engine holds anything but a constant of the core. */
  lemma {:induction false} OnlyConstants(c: Config, spec: Spec, ivs: InitialValues, k: nat, selector: nat)
    requires Fitted(c, spec, ivs) && k < |spec.programs| && EngineSpared(c.layout, spec, spec.programs[k])
    requires SlotDest(Log(c, spec, ivs), EngineBase(c.layout, spec.programs[k].index), selector).Some?
    ensures exists i, j :: IsChannel(spec, k, i, j) && ConstantAt(c.layout, spec, k, i, j).selector == selector
  {
    hide Deployable, Placed, WindowsClear, DeployPhase, Commands, IsConstant, Width, ValueOf, AllCommands,
      EngineBase, Selector, Dest, AllKeepOff, SlotDest, SlotValue, Stores, ConstantsIn, EngineSpared;
    var base := EngineBase(c.layout, spec.programs[k].index);
    EngineSees(c, spec, ivs, k);
    SlotHoldsLastCommand([], DeployPhase(c, spec, ivs).effects, base, selector);
    NoSlots(base, selector);
    assert [] + Log(c, spec, ivs) == Log(c, spec, ivs);
    FittedParts(c, spec, ivs);
    CommandsAre(c, spec, ivs);
    var all := AllCommands(c.layout, spec, spec.programs);
    LastIsMember(all, base, selector);
    assert spec.programs[..|spec.programs|] == spec.programs;
    var k', i, j := CommandOrigin(c.layout, spec, spec.programs, |spec.programs|,
                                  LastCommand(all, base, selector).value);
    EnginesDiffer(c.layout, spec);
    assert k' == k;
    assert IsChannel(spec, k, i, j);
  }

  /** Deploying adds exactly the constants of the specification to the known inputs, and takes none away. */
  lemma DeployKnows(c: Config, spec: Spec, ivs: InitialValues, d: Deployed)
    requires Accepted(c, spec, ivs)
    ensures var own := InputsOf(AllCommands(c.layout, spec, spec.programs));
      && ApplyAll(d, DeployPhase(c, spec, ivs).effects).inputs == d.inputs + own
      && forall m ::
           m in own <==> exists k, i, j :: IsChannel(spec, k, i, j) && m == ConstantAt(c.layout, spec, k, i, j)
  {
    hide Deployable, DeployPhase, Commands, IsConstant, Width, ValueOf, AllCommands, Metadata, ConstantsIn, ApplyAll;
    var es, all := DeployPhase(c, spec, ivs).effects, AllCommands(c.layout, spec, spec.programs);
    CommandsAre(c, spec, ivs);
    InputsKnown(d, es);
    assert spec.programs[..|spec.programs|] == spec.programs;
    forall m | m in InputsOf(all)
      ensures exists k, i, j :: IsChannel(spec, k, i, j) && m == ConstantAt(c.layout, spec, k, i, j)
    {
      var x :| 0 <= x < |all| && InputsOf(all)[x] == m;
      var k, i, j := CommandOrigin(c.layout, spec, spec.programs, |spec.programs|, all[x]);
      assert IsChannel(spec, k, i, j);
    }
    forall k, i, j | IsChannel(spec, k, i, j) ensures ConstantAt(c.layout, spec, k, i, j) in InputsOf(all) {
      AllListed(c.layout, spec, spec.programs, |spec.programs|, k, i, j);
      var own := Command(ConstantAt(c.layout, spec, k, i, j), ValueOf(InputAt(spec, k, i), j));
      var x :| 0 <= x < |all| && all[x] == own;
      assert InputsOf(all)[x] == ConstantAt(c.layout, spec, k, i, j);
    }
  }

  // ----- after any run

  /** Known inputs sit in the engines of this layout, whichever specifications they come from. */
  ghost predicate Seated(layout: Layout, inputs: seq<InputMetadata>) {
    forall m :: m in inputs ==> exists index: nat :: m.base == EngineBase(layout, index)
  }

  lemma SeatedKeepsOff(layout: Layout, index: nat, inputs: seq<InputMetadata>)
    requires BlockOrdered(layout) && Seated(layout, inputs)
    ensures forall m :: m in inputs ==> KeepsOff(UpdateConstant(m, 0), EngineBase(layout, index))
  {
    forall m | m in inputs ensures KeepsOff(UpdateConstant(m, 0), EngineBase(layout, index)) {
      var i: nat :| m.base == EngineBase(layout, i);
      if i != index { BlocksApart(layout, i, index); }
    }
  }

  /**
   Any slot of any engine after a deployment and any run of set_input calls, with any inputs known from before:
   what the last call for a known input sitting there gave it, otherwise what the deployment left there.
   */
  lemma {:induction false} EngineAfterRun(c: Config, spec: Spec, ivs: InitialValues, inputs: seq<InputMetadata>,
                                          calls: seq<SetCall>, k: nat, selector: nat)
    requires Deployable(c, spec, ivs) && BlockOrdered(c.layout) && k < |spec.programs| && Seated(c.layout, inputs)
    ensures var base, deployed := EngineBase(c.layout, spec.programs[k].index), Log(c, spec, ivs);
      var log := Stores(DeployPhase(c, spec, ivs).effects + RunEffects(inputs, calls));
      var last := LastSetAt(inputs, calls, base, selector);
      && SlotDest(log, base, selector)
         == (if last.Some? then Some(last.value.input.dest) else SlotDest(deployed, base, selector))
      && SlotValue(log, base, selector)
         == (if last.Some? then Some(last.value.value) else SlotValue(deployed, base, selector))
  {
    hide Deployable, BlockOrdered, DeployPhase, KeepsOff, SlotDest, SlotValue, Stores, RunEffects, LastSetAt,
      EngineBase, Seated;
    SeatedKeepsOff(c.layout, spec.programs[k].index, inputs);
    SlotAfterRun(DeployPhase(c, spec, ivs).effects, inputs, calls, EngineBase(c.layout, spec.programs[k].index),
                 selector);
  }

  lemma {:induction false} LastSetKnown(inputs: seq<InputMetadata>, calls: seq<SetCall>, base: nat, selector: nat)
    requires LastSetAt(inputs, calls, base, selector).Some?
    ensures LastSetAt(inputs, calls, base, selector).value.input in inputs
    ensures SitsAt(LastSetAt(inputs, calls, base, selector).value.input, base, selector)
  {
    hide LastMatch, Converted;
    LastMatchIn(inputs, calls[|calls| - 1], base, selector);
    if LastMatch(inputs, calls[|calls| - 1], base, selector).None? {
      LastSetKnown(inputs, calls[..|calls| - 1], base, selector);
    }
  }

  /** ... and after any run a slot is filled only by a constant of the core or a known input that sits there. */
  lemma {:induction false} OnlyKnownAfterRun(c: Config, spec: Spec, ivs: InitialValues, inputs: seq<InputMetadata>,
                                             calls: seq<SetCall>, k: nat, selector: nat)
    requires Fitted(c, spec, ivs) && k < |spec.programs| && EngineSpared(c.layout, spec, spec.programs[k])
    requires Seated(c.layout, inputs)
    requires var log := Stores(DeployPhase(c, spec, ivs).effects + RunEffects(inputs, calls));
      SlotDest(log, EngineBase(c.layout, spec.programs[k].index), selector).Some?
    ensures || (exists i, j :: IsChannel(spec, k, i, j) && ConstantAt(c.layout, spec, k, i, j).selector == selector)
            || exists m :: m in inputs && SitsAt(m, EngineBase(c.layout, spec.programs[k].index), selector)
  {
    hide Deployable, Placed, LayoutClear, DeployPhase, SlotDest, SlotValue, Stores, RunEffects, LastSetAt,
      EngineBase, Seated, IsConstant, Width, Selector, Dest, ConstantsIn, EngineSpared;
    var base := EngineBase(c.layout, spec.programs[k].index);
    BlockBounds(c, spec, ivs);
    EngineAfterRun(c, spec, ivs, inputs, calls, k, selector);
    if LastSetAt(inputs, calls, base, selector).Some? {
      LastSetKnown(inputs, calls, base, selector);
    } else {
      OnlyConstants(c, spec, ivs, k, selector);
    }
  }

  /**
   The constant table over runs: a constant that owns its slot among the known inputs holds there, after the
   deployment and any set_input calls, its destination and the last value set for it, or its deployed value.
   */
  lemma {:induction false} ConstantAfterRun(c: Config, spec: Spec, ivs: InitialValues, inputs: seq<InputMetadata>,
                                            calls: seq<SetCall>, k: nat, i: nat, j: nat)
    requires EnginesSet(c, spec, ivs) && IsChannel(spec, k, i, j)
    requires Seated(c.layout, inputs) && Owns(inputs, ConstantAt(c.layout, spec, k, i, j))
    ensures HasValue(InputAt(spec, k, i), j)
    ensures var m := ConstantAt(c.layout, spec, k, i, j);
      var log := Stores(DeployPhase(c, spec, ivs).effects + RunEffects(inputs, calls));
      && SlotDest(log, m.base, m.selector) == Some(Dest(InputAt(spec, k, i), j))
      && SlotValue(log, m.base, m.selector)
         == Some(if LastSet(calls, m).Some? then LastSet(calls, m).value else Given(InputAt(spec, k, i), j))
  {
    hide Given, HasValue, Deployable, WindowsClear, DeployPhase, IsConstant, Width, ValueOf, EngineBase, Selector,
      Dest, AllBounded,
      SlotDest, SlotValue, Stores, ConstantsIn, LastSet, LastSetAt, RunEffects, Owns, Seated, SmallIndices,
      DistinctIndices, RandomsInPrograms;
    var m := ConstantAt(c.layout, spec, k, i, j);
    EngineAfterRun(c, spec, ivs, inputs, calls, k, m.selector);
    ConstantSlot(c, spec, ivs, k, i, j);
    OwnedSlot(inputs, calls, m);
  }

  /**
   In the host's terms: the last set_input call that names a constant's core, name and channel decides its slot, as a
   float pattern for a float constant and as a word for any other.
   */
  lemma {:induction false} SetInputReaches(c: Config, spec: Spec, ivs: InitialValues, inputs: seq<InputMetadata>,
                                           calls: seq<SetCall>, k: nat, i: nat, j: nat, last: nat)
    requires EnginesSet(c, spec, ivs) && IsChannel(spec, k, i, j)
    requires Seated(c.layout, inputs) && Owns(inputs, ConstantAt(c.layout, spec, k, i, j))
    requires last < |calls| && calls[last].channel == j
    requires calls[last].core == spec.programs[k].name && calls[last].name == InputAt(spec, k, i).name
    requires forall n :: last < n < |calls| ==>
               calls[n].core != calls[last].core || calls[n].name != calls[last].name || calls[n].channel != j
    ensures var base := EngineBase(c.layout, spec.programs[k].index);
      var slot := ConstantsIn(Inputs(spec, spec.programs[k].name)[..i]) + 0x1_0000 * j;
      var log := Stores(DeployPhase(c, spec, ivs).effects + RunEffects(inputs, calls));
      SlotValue(log, base, slot)
      == Some(if InputAt(spec, k, i).isFloat then calls[last].value.asFloat else calls[last].value.asInteger)
  {
    hide Given, HasValue, Deployable, LayoutClear, DeployPhase, IsConstant, EngineBase, SlotDest, SlotValue, Stores,
      ConstantsIn, LastSet, LastSetAt, RunEffects, Owns, Seated, SmallIndices, DistinctIndices, Width, Selector, Dest;
    var p, m := spec.programs[k], ConstantAt(c.layout, spec, k, i, j);
    var ins := Inputs(spec, p.name);
    assert p in spec.programs && ins[i] in ins;
    LastSetIs(calls, m, last);
    ConstantAfterRun(c, spec, ivs, inputs, calls, k, i, j);
    ConstantsBound(ins[..i]);
    SlotUnwrapped(ConstantsIn(ins[..i]), j);
  }

  // ----- known inputs of one specification

  /** Inputs known from deployments of this specification, however many there were. */
  ghost predicate KnownFrom(layout: Layout, spec: Spec, inputs: seq<InputMetadata>) {
    forall m :: m in inputs ==> exists k, i, j :: IsChannel(spec, k, i, j) && m == ConstantAt(layout, spec, k, i, j)
  }

  lemma ChannelsApart(layout: Layout, spec: Spec, k: nat, i: nat, j: nat, k': nat, i': nat, j': nat)
    requires DistinctIndices(spec) && BlockOrdered(layout) && AllBounded(spec, spec.programs)
    requires IsChannel(spec, k, i, j) && IsChannel(spec, k', i', j')
    requires var m := ConstantAt(layout, spec, k, i, j);
      SitsAt(ConstantAt(layout, spec, k', i', j'), m.base, m.selector)
    ensures k == k' && i == i' && j == j'
  {
    hide BlockOrdered, DistinctIndices, IsConstant, Width, EngineBase, Selector, Dest;
    EnginesDiffer(layout, spec);
    assert spec.programs[k] in spec.programs;
    if k == k' && (i != i' || j != j') {
      var p := spec.programs[k];
      var ins := Inputs(spec, p.name);
      assert ins[i] in ins && ins[i'] in ins;
      ConstantsBound(ins[..i]);
      ConstantsBound(ins[..i']);
      if i < i' { ConstantsGrow(ins, i, i'); }
      if i' < i { ConstantsGrow(ins, i', i); }
      SelectorsDiffer(ConstantsIn(ins[..i]), j, ConstantsIn(ins[..i']), j');
    }
  }

  lemma {:induction false} LastAtIn(inputs: seq<InputMetadata>, base: nat, selector: nat)
    ensures var r := LastAt(inputs, base, selector);
      && (r.Some? ==> r.value in inputs && SitsAt(r.value, base, selector))
      && (r.None? ==> forall m :: m in inputs ==> !SitsAt(m, base, selector))
  {
    if inputs != [] {
      LastAtIn(inputs[..|inputs| - 1], base, selector);
      assert inputs == inputs[..|inputs| - 1] + [inputs[|inputs| - 1]];
    }
  }

  /** As long as only this specification is deployed, however often, its constants own their slots. */
  lemma KnownOwns(layout: Layout, spec: Spec, inputs: seq<InputMetadata>, k: nat, i: nat, j: nat)
    requires DistinctIndices(spec) && BlockOrdered(layout) && AllBounded(spec, spec.programs)
    requires KnownFrom(layout, spec, inputs)
    requires IsChannel(spec, k, i, j) && ConstantAt(layout, spec, k, i, j) in inputs
    ensures Seated(layout, inputs) && Owns(inputs, ConstantAt(layout, spec, k, i, j))
  {
    hide BlockOrdered, DistinctIndices, AllBounded, IsConstant, Width, LastAt, EngineBase, Selector, Dest;
    var m := ConstantAt(layout, spec, k, i, j);
    forall n | n in inputs
      ensures SitsAt(n, m.base, m.selector) ==> n == m
      ensures exists index: nat :: n.base == EngineBase(layout, index)
    {
      var k', i', j' :| IsChannel(spec, k', i', j') && n == ConstantAt(layout, spec, k', i', j');
      if SitsAt(n, m.base, m.selector) { ChannelsApart(layout, spec, k, i, j, k', i', j'); }
    }
    LastAtIn(inputs, m.base, m.selector);
  }
}

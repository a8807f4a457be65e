/**
 Non-interference: under a layout whose windows do not overlap, every register window of the final log
 holds exactly the stores of the phase and core it belongs to, in order.
 */
module Regions {
  import opened Operations
  import opened Specification
  import opened RegisterLog
  import opened Effects
  import opened DmaTable
  import opened CoreMemory
  import opened CoreInputs
  import opened ConstantEngine
  import opened Sequencer
  import opened Interconnect
  import opened Deployment

  // ----- the layout

  predicate Clear(a: nat, aLength: nat, b: nat, bLength: nat) {
    a + aLength <= b || b + bLength <= a
  }

  /** A core's block: memory and control register, DMA, constant engine, in this order. */
  predicate BlockOrdered(layout: Layout) {
    && 0x1000 <= layout.dmaOffset
    && layout.dmaOffset + DMA_SIZE <= layout.coresInputs
    && layout.coresInputs + ENGINE_SIZE <= layout.controlStride
  }

  /** The shared windows keep off the cores' blocks and off each other; `randoms` noise outputs are used. */
  predicate WindowsClear(layout: Layout, randoms: nat) {
    var cores := MAX_CORES * layout.controlStride;
    var sequencer, timebase := layout.controller + layout.sequencerOffset, layout.controller + layout.timebaseOffset;
    var noise := 4 * (randoms + 1);
    && Clear(sequencer, 4 + 4 * MAX_CORES, layout.coresControl, cores)
    && Clear(timebase, 8 + 4 * MAX_CORES, layout.coresControl, cores)
    && Clear(layout.noiseGenerator, noise, layout.coresControl, cores)
    && Clear(layout.noiseGenerator, noise, sequencer, 4 + 4 * MAX_CORES)
    && Clear(layout.noiseGenerator, noise, timebase, 8 + 4 * MAX_CORES)
    && WindowsDisjoint(layout)
  }

  predicate LayoutClear(layout: Layout, randoms: nat) {
    BlockOrdered(layout) && WindowsClear(layout, randoms)
  }

  /** The address map of testing/hil_addresses.hpp. */
  const REPOSITORY_LAYOUT: Layout := Layout(
    21474836480, 18316853248, 8192, 18316722176, 18316591104, 18316525568, 18316656640, 4096, 0, 4096, 268435456, 65536)

  /** It leaves room for as many noise outputs as fit below the waveform generator. */
  lemma RepositoryLayoutIsClear()
    ensures LayoutClear(REPOSITORY_LAYOUT, 16383)
    ensures REPOSITORY_LAYOUT.noiseGenerator + 4 * (16383 + 1) == 18316787712
  {
  }

  ghost predicate SmallIndices(spec: Spec) {
    forall i :: 0 <= i < |spec.programs| ==> spec.programs[i].index < MAX_CORES
  }

  ghost predicate DistinctIndices(spec: Spec) {
    forall i, j :: 0 <= i < j < |spec.programs| ==> spec.programs[i].index != spec.programs[j].index
  }

  /** A core's table and memory stay in the core's own block. */
  ghost predicate StaysInBlock(layout: Layout, spec: Spec, p: Program) {
    && layout.dmaOffset + TableSpan(|Entries(spec.slots, p.name)|) <= layout.controlStride
    && WordsInside(Memories(spec, p.name), p.channels, 0, layout.controlStride)
  }

  /** Cores have names and indices of their own, below 32, and keep to their blocks. */
  ghost predicate Placed(layout: Layout, spec: Spec) {
    && |spec.programs| <= MAX_CORES
    && SmallIndices(spec)
    && DistinctIndices(spec)
    && DistinctPrograms(spec.programs)
    && forall p :: p in spec.programs ==> StaysInBlock(layout, spec, p)
  }

  /** A core's table, of any length below the constant engine, is not written by the core's memory. */
  ghost predicate TableSpared(layout: Layout, spec: Spec, p: Program) {
    var n := |Entries(spec.slots, p.name)|;
    && n < 0x1_0000_0000 && layout.dmaOffset + TableSpan(n) <= layout.coresInputs
    && WordsOutside(Memories(spec, p.name), p.channels, layout.dmaOffset, layout.dmaOffset + TableSpan(n))
  }

  /** A core's constant engine is written by neither its table nor its memory. */
  ghost predicate EngineSpared(layout: Layout, spec: Spec, p: Program) {
    && layout.dmaOffset + TableSpan(|Entries(spec.slots, p.name)|) <= layout.coresInputs
    && WordsOutside(Memories(spec, p.name), p.channels, layout.coresInputs, layout.coresInputs + ENGINE_SIZE)
  }

  ghost predicate EntriesInRange(spec: Spec) {
    forall p :: p in spec.programs ==> AllInRange(Entries(spec.slots, p.name))
  }

  // ----- which deployments are accepted

  lemma {:induction false} TablesAccepted(c: Config, spec: Spec, ivs: InitialValues, n: nat)
    requires InitialsReady(spec, ivs) && n <= |spec.programs|
    ensures DmaPhase(c, spec, ivs, n).ok
       <==> forall k :: 0 <= k < n ==> AllInRange(Entries(spec.slots, spec.programs[k].name))
  {
    hide InitialsReady, AllInRange, CoreRun, DmaBase, Recorded, Entries, InitialsDefined;
    if n != 0 {
      var p := spec.programs[n - 1];
      TablesAccepted(c, spec, ivs, n - 1);
      EntriesReady(spec, p, ivs);
      RejectsExactlyOutOfRange(Entries(spec.slots, p.name), DmaBase(c.layout, Recorded(spec.programs, p).index),
                               p.channels, ivs);
    }
  }

  /** A deployment runs to its end exactly when there are at most 32 cores and all their entries are in range. */
  lemma DeployAcceptedIff(c: Config, spec: Spec, ivs: InitialValues)
    requires Deployable(c, spec, ivs)
    ensures DeployPhase(c, spec, ivs).ok <==> |spec.programs| <= MAX_CORES && EntriesInRange(spec)
  {
    hide AllInRange, DmaPhase, LoadEffects, LatePhases, InitialsReady, AfterConnections, Entries, ScheduleDefined;
    if |spec.programs| <= MAX_CORES {
      TablesAccepted(c, spec, AfterConnections(ivs, spec.slots, spec.programs), |spec.programs|);
      assert forall k :: 0 <= k < |spec.programs| ==> spec.programs[k] in spec.programs;
    }
  }

  // ----- blocks of different cores

  lemma BlocksApart(layout: Layout, i: nat, j: nat)
    requires i != j
    ensures Clear(ControlBase(layout, i), layout.controlStride, ControlBase(layout, j), layout.controlStride)
  {
    StrideStep(layout.controlStride, i, j);
    StrideStep(layout.controlStride, j, i);
  }

  lemma StrideStep(stride: nat, i: nat, j: nat)
    ensures i < j ==> stride * i + stride <= stride * j
  {
    if i < j {
      assert stride * (j - i - 1) >= 0;
      assert stride * j == stride * i + stride + stride * (j - i - 1);
    }
  }

  /** Every block lies in the cores' area. */
  lemma BlockInArea(layout: Layout, i: nat)
    requires i < MAX_CORES
    ensures layout.coresControl <= ControlBase(layout, i)
    ensures ControlBase(layout, i) + layout.controlStride <= layout.coresControl + MAX_CORES * layout.controlStride
  {
    StrideStep(layout.controlStride, i, MAX_CORES);
    assert layout.controlStride * i >= 0;
  }

  // ----- the stores of each phase, core by core

  function IndexOf(spec: Spec, j: nat): nat
    requires j < |spec.programs|
  {
    spec.programs[j].index
  }

  function DmaBlocks(c: Config, spec: Spec, ivs: InitialValues, n: nat): seq<seq<Store>>
    requires InitialsReady(spec, ivs) && EntriesInRange(spec) && n <= |spec.programs|
  {
    seq(n, j requires 0 <= j < n =>
      var p := spec.programs[j];
      EntriesReady(spec, p, ivs);
      TableLog(Entries(spec.slots, p.name), DmaBase(c.layout, p.index), ivs))
  }

  function MemoryBlocks(c: Config, spec: Spec, n: nat): seq<seq<Store>>
    requires MemoriesDefined(spec) && n <= |spec.programs|
  {
    seq(n, j requires 0 <= j < n =>
      var p := spec.programs[j];
      MemoryStores(Memories(spec, p.name), ControlBase(c.layout, p.index), p.channels))
  }

  function CoreBlocks(c: Config, ps: seq<Program>, n: nat): seq<seq<Store>>
    requires n <= |ps|
  {
    seq(n, j requires 0 <= j < n => [Store(ControlBase(c.layout, ps[j].index), RunChannels(c, ps, ps[j]))])
  }

  lemma {:induction false} LoadsStoreNothing(layout: Layout, ps: seq<Program>)
    ensures Stores(LoadEffects(layout, ps)) == []
  {
    if ps != [] {
      var p := ps[|ps| - 1];
      LoadsStoreNothing(layout, ps[..|ps| - 1]);
      var e := Load(layout.coresRom + p.index * layout.romStride, p.binary);
      StoresAppend(LoadEffects(layout, ps[..|ps| - 1]), [e]);
      StoresOne(e);
    }
  }

  lemma DmaBlock(c: Config, spec: Spec, ivs: InitialValues, k: nat)
    requires InitialsReady(spec, ivs) && k < |spec.programs| && EntriesInRange(spec) && DistinctPrograms(spec.programs)
    ensures var p := spec.programs[k];
      var es := Entries(spec.slots, p.name);
      && InitialsDefined(es, ivs) && AllInRange(es)
      && DmaOf(c, spec, ivs, k).ok
      && Stores(DmaOf(c, spec, ivs, k).effects) == TableLog(es, DmaBase(c.layout, p.index), ivs)
  {
    hide CoreRun, TableLog, InRange, InitialDefined, Recorded, DmaBase;
    var p := spec.programs[k];
    var es := Entries(spec.slots, p.name);
    assert p in spec.programs;
    EntriesReady(spec, p, ivs);
    RecordedSelf(spec.programs, k);
    CoreRunStores(es, DmaBase(c.layout, p.index), p.channels, ivs);
  }

  lemma {:induction false} DmaPhaseStores(c: Config, spec: Spec, ivs: InitialValues, n: nat)
    requires InitialsReady(spec, ivs) && n <= |spec.programs| && EntriesInRange(spec) && DistinctPrograms(spec.programs)
    ensures DmaPhase(c, spec, ivs, n).ok
    ensures Stores(DmaPhase(c, spec, ivs, n).effects) == Concat(DmaBlocks(c, spec, ivs, n))
  {
    hide DmaOf, TableLog, EntriesInRange, InitialsReady, Stores;
    var blocks := DmaBlocks(c, spec, ivs, n);
    if n == 0 {
      StoresNone();
    } else {
      DmaPhaseStores(c, spec, ivs, n - 1);
      DmaBlock(c, spec, ivs, n - 1);
      StoresAppend(DmaPhase(c, spec, ivs, n - 1).effects, DmaOf(c, spec, ivs, n - 1).effects);
      assert blocks[..n - 1] == DmaBlocks(c, spec, ivs, n - 1);
    }
  }

  lemma {:induction false} MemoryPhaseStores(c: Config, spec: Spec, n: nat)
    requires MemoriesDefined(spec) && n <= |spec.programs| && DistinctPrograms(spec.programs)
    ensures Stores(MemoryPhase(c, spec, n)) == Concat(MemoryBlocks(c, spec, n))
  {
    hide MemoryStores, MemoryEffects, Stores, Recorded, ControlBase;
    var blocks := MemoryBlocks(c, spec, n);
    if n == 0 {
      StoresNone();
    } else {
      var p := spec.programs[n - 1];
      MemoryPhaseStores(c, spec, n - 1);
      RecordedSelf(spec.programs, n - 1);
      MemoryEffectsStore(Memories(spec, p.name), ControlBase(c.layout, p.index), p.channels);
      StoresAppend(MemoryPhase(c, spec, n - 1),
                   MemoryEffects(Memories(spec, p.name), ControlBase(c.layout, p.index), p.channels));
      assert blocks[..n - 1] == MemoryBlocks(c, spec, n - 1);
    }
  }

  lemma {:induction false} CorePhaseStores(c: Config, ps: seq<Program>, n: nat)
    requires n <= |ps|
    ensures Stores(CorePhase(c, ps, n)) == Concat(CoreBlocks(c, ps, n))
  {
    hide Stores, RunChannels, ControlBase;
    var blocks := CoreBlocks(c, ps, n);
    if n == 0 {
      StoresNone();
    } else {
      CorePhaseStores(c, ps, n - 1);
      var e := Write(ControlBase(c.layout, ps[n - 1].index), RunChannels(c, ps, ps[n - 1]));
      StoresOne(e);
      StoresAppend(CorePhase(c, ps, n - 1), [e]);
      assert blocks[..n - 1] == CoreBlocks(c, ps, n - 1);
    }
  }

  // ----- each block stays with its core

  lemma {:induction false} TableStoresInside(es: seq<Slot>, dma: nat, ivs: InitialValues)
    requires AllInRange(es) && InitialsDefined(es, ivs)
    ensures Inside(TableStores(es, dma, ivs), dma, dma + TableSpan(|es|))
  {
    hide InRange, InitialDefined, Mapping, Format, Initial, Wrap32;
    if es != [] { TableStoresInside(es[..|es| - 1], dma, ivs); }
  }

  lemma TableInside(es: seq<Slot>, dma: nat, ivs: InitialValues)
    requires AllInRange(es) && InitialsDefined(es, ivs)
    ensures Inside(TableLog(es, dma, ivs), dma, dma + TableSpan(|es|))
  {
    hide InRange, InitialDefined, TableStores;
    TableStoresInside(es, dma, ivs);
  }

  lemma DmaBlockInside(c: Config, spec: Spec, ivs: InitialValues, n: nat, j: nat)
    requires InitialsReady(spec, ivs) && j < n <= |spec.programs| && EntriesInRange(spec)
    ensures var es, d := Entries(spec.slots, spec.programs[j].name), DmaBase(c.layout, IndexOf(spec, j));
      Inside(DmaBlocks(c, spec, ivs, n)[j], d, d + TableSpan(|es|))
  {
    hide TableLog, DmaBase;
    var p := spec.programs[j];
    EntriesReady(spec, p, ivs);
    assert p in spec.programs;
    TableInside(Entries(spec.slots, p.name), DmaBase(c.layout, p.index), ivs);
  }

  /** Each block of stores stays in the block of its core. */
  ghost predicate OwnBlocks(layout: Layout, spec: Spec, blocks: seq<seq<Store>>) {
    && |blocks| == |spec.programs|
    && forall j :: 0 <= j < |blocks| ==>
         Inside(blocks[j], ControlBase(layout, IndexOf(spec, j)),
                ControlBase(layout, IndexOf(spec, j)) + layout.controlStride)
  }

  lemma TablesInBlocks(c: Config, spec: Spec, ivs: InitialValues)
    requires InitialsReady(spec, ivs) && EntriesInRange(spec) && Placed(c.layout, spec)
    ensures OwnBlocks(c.layout, spec, DmaBlocks(c, spec, ivs, |spec.programs|))
  {
    hide TableLog, InitialsReady, EntriesInRange, ControlBase, Entries, WordsInside, TableSpan;
    var blocks := DmaBlocks(c, spec, ivs, |spec.programs|);
    forall j | 0 <= j < |blocks|
      ensures Inside(blocks[j], ControlBase(c.layout, IndexOf(spec, j)),
                     ControlBase(c.layout, IndexOf(spec, j)) + c.layout.controlStride)
    {
      DmaBlockInside(c, spec, ivs, |spec.programs|, j);
      assert spec.programs[j] in spec.programs;
    }
  }

  lemma MemoriesInBlocks(c: Config, spec: Spec)
    requires MemoriesDefined(spec) && Placed(c.layout, spec)
    ensures OwnBlocks(c.layout, spec, MemoryBlocks(c, spec, |spec.programs|))
  {
    hide MemoryStores, ControlBase, Entries, Memories, WordsInside, TableSpan;
    var blocks := MemoryBlocks(c, spec, |spec.programs|);
    forall j | 0 <= j < |blocks|
      ensures Inside(blocks[j], ControlBase(c.layout, IndexOf(spec, j)),
                     ControlBase(c.layout, IndexOf(spec, j)) + c.layout.controlStride)
    {
      var p := spec.programs[j];
      assert p in spec.programs;
      MemoryInside(Memories(spec, p.name), ControlBase(c.layout, p.index), p.channels, 0, c.layout.controlStride);
    }
  }

  lemma CoresInBlocks(c: Config, spec: Spec)
    requires c.layout.controlStride >= 4
    ensures OwnBlocks(c.layout, spec, CoreBlocks(c, spec.programs, |spec.programs|))
  {
    hide RunChannels, ControlBase;
  }

  /** Stores that stay in each core's block are seen from any part of a block as its own core's only. */
  lemma {:induction false} BlocksSeen(layout: Layout, spec: Spec, blocks: seq<seq<Store>>, k: nat, lo: nat, hi: nat)
    requires DistinctIndices(spec) && OwnBlocks(layout, spec, blocks) && k < |blocks|
    requires lo <= hi <= layout.controlStride
    ensures var base := ControlBase(layout, IndexOf(spec, k));
      Project(Concat(blocks), base + lo, base + hi) == Project(blocks[k], base + lo, base + hi)
  {
    hide ControlBase, Project;
    var base := ControlBase(layout, IndexOf(spec, k));
    forall j | 0 <= j < |blocks| && j != k ensures Outside(blocks[j], base + lo, base + hi) {
      BlocksApart(layout, IndexOf(spec, j), IndexOf(spec, k));
    }
    ProjectBlock(blocks, k, base + lo, base + hi);
  }

  /** The same stores, seen from a window clear of the cores: nothing. */
  lemma BlocksUnseen(layout: Layout, spec: Spec, blocks: seq<seq<Store>>, window: nat, length: nat)
    requires SmallIndices(spec) && OwnBlocks(layout, spec, blocks)
    requires Clear(window, length, layout.coresControl, MAX_CORES * layout.controlStride)
    ensures Project(Concat(blocks), window, window + length) == []
  {
    hide ControlBase, Project;
    forall j | 0 <= j < |blocks| ensures Outside(blocks[j], window, window + length) {
      BlockInArea(layout, IndexOf(spec, j));
    }
    ConcatOutside(blocks, window, window + length);
    ProjectOutside(Concat(blocks), window, window + length);
  }

  // ----- the inputs phase

  /** The label of one channel of a random input of a core. */
  ghost predicate RandomLabel(p: Program, ins: seq<Input>, key: nat, name: string) {
    exists input, j: nat :: input in ins && IsRandomLabel(p, input, j, key, name)
  }

  predicate IsRandomLabel(p: Program, input: Input, j: nat, key: nat, name: string) {
    && input.source.Random? && j < Width(input, p.channels)
    && key == Dest(input, j) && name == RandomName(p.name, input.name, j, p.channels > 1)
  }

  /** Where channel j of constant number i of a core is found, before its core index is known. */
  function EntryOf(layout: Layout, p: Program, ins: seq<Input>, i: nat, j: nat): TbInput
    requires i < |ins|
  {
    var m := Metadata(layout, p, ins[i], ConstantsIn(ins[..i]), j);
    TbInput(m.base + CONST_LSB, m.dest, m.selector, 0)
  }

  /** The entry of one channel of a constant of a core. */
  ghost predicate ConstantLabel(layout: Layout, p: Program, ins: seq<Input>, path: string, entry: TbInput) {
    exists i: nat, j: nat :: i < |ins| && IsConstantLabel(layout, p, ins, i, j, path, entry)
  }

  predicate IsConstantLabel(layout: Layout, p: Program, ins: seq<Input>, i: nat, j: nat, path: string, entry: TbInput)
    requires i < |ins|
  {
    && IsConstant(ins[i]) && j < Width(ins[i], p.channels)
    && path == InputPath(p.name, ins[i].name, j, p.channels > 1) && entry == EntryOf(layout, p, ins, i, j)
  }

  /** The paths that get a core's index. */
  ghost predicate Touches(p: Program, ins: seq<Input>, path: string) {
    exists input, j: nat :: input in ins && IsTouched(p, input, j, path)
  }

  predicate IsTouched(p: Program, input: Input, j: nat, path: string) {
    || (j < Width(input, p.channels) && path == InputPath(p.name, input.name, j, p.channels > 1))
    || path == "." + input.name
  }

  /** All that setting up the inputs of a core may do. */
  ghost predicate InputEffect(e: Effect, layout: Layout, p: Program, ins: seq<Input>, randoms: nat) {
    match e
    case Write(address, _) =>
      && layout.noiseGenerator <= address < layout.noiseGenerator + 4 * (randoms + 1)
      && (address - layout.noiseGenerator) % 4 == 0
    case SetConstant(m, _) => m.base == EngineBase(layout, p.index)
    case LabelBus(key, name) => RandomLabel(p, ins, key, name)
    case LabelInput(path, entry) => ConstantLabel(layout, p, ins, path, entry)
    case TouchInput(path, index) => index == p.index && Touches(p, ins, path)
    case UpdateConstant(_, _) => false
    case Load(_, _) => false
    case NextRandom => true
  }

  ghost predicate AllInputEffect(es: seq<Effect>, layout: Layout, p: Program, ins: seq<Input>, randoms: nat) {
    forall e :: e in es ==> InputEffect(e, layout, p, ins, randoms)
  }

  lemma SetupIsInput(layout: Layout, p: Program, ins: seq<Input>, i: nat, channel: nat, value: Word, active: nat,
                     randoms: nat)
    requires i < |ins| && channel < Width(ins[i], p.channels) && (ins[i].source.Random? ==> active < randoms)
    ensures AllInputEffect(SetupEffects(layout, p, ins[i], ConstantsIn(ins[..i]), channel, value, p.channels > 1,
                                        active),
                           layout, p, ins, randoms)
  {
    hide EngineBase, Dest, Selector, InputPath, RandomName, Width, ConstantsIn;
    var input := ins[i];
    if IsConstant(input) {
      assert IsConstantLabel(layout, p, ins, i, channel, InputPath(p.name, input.name, channel, p.channels > 1),
                             EntryOf(layout, p, ins, i, channel));
    } else if input.source.Random? {
      assert IsRandomLabel(p, input, channel, Dest(input, channel),
                           RandomName(p.name, input.name, channel, p.channels > 1));
    }
  }

  lemma TouchIsInput(layout: Layout, p: Program, ins: seq<Input>, input: Input, j: nat, path: string, randoms: nat)
    requires input in ins && IsTouched(p, input, j, path)
    ensures InputEffect(TouchInput(path, p.index), layout, p, ins, randoms)
  {
    hide InputPath, Width;
  }

  lemma {:induction false} MultiIsInput(layout: Layout, p: Program, ins: seq<Input>, i: nat, count: nat, active: nat,
                                        randoms: nat)
    requires i < |ins| && p.channels > 1 && count <= Loops(ins[i], p.channels)
    requires active + RandomsBefore(ins[i], count) <= randoms
    ensures AllInputEffect(MultiEffects(layout, p, ins[i], ConstantsIn(ins[..i]), count, active), layout, p, ins,
                           randoms)
  {
    hide SetupEffects, EngineBase, InputPath, ValueOf, RandomLabel, Loops, InputEffect, ConstantsIn;
    if count != 0 {
      var input, j := ins[i], count - 1;
      MultiIsInput(layout, p, ins, i, j, active, randoms);
      SetupIsInput(layout, p, ins, i, j, ValueOf(input, j), active + RandomsBefore(input, j), randoms);
      TouchIsInput(layout, p, ins, input, j, InputPath(p.name, input.name, j, true), randoms);
    }
  }

  lemma LastPathTouched(p: Program, input: Input) returns (j: nat)
    ensures IsTouched(p, input, j, LastPath(p, input))
  {
    hide Loops;
    j := if p.channels > 1 && Loops(input, p.channels) > 0 then Loops(input, p.channels) - 1 else 0;
  }

  lemma WholeIsInput(layout: Layout, p: Program, ins: seq<Input>, i: nat, active: nat, randoms: nat)
    requires i < |ins| && active + RandomsOf(ins[i], p.channels) <= randoms
    ensures AllInputEffect(InputEffects(layout, p, ins[i], ConstantsIn(ins[..i]), active), layout, p, ins, randoms)
  {
    hide MultiEffects, SetupEffects, Loops, ValueOf, LastPath, EngineBase, RandomLabel, InputEffect, ConstantsIn,
      IsTouched;
    var input := ins[i];
    var j := LastPathTouched(p, input);
    TouchIsInput(layout, p, ins, input, j, LastPath(p, input), randoms);
    if p.channels > 1 {
      MultiIsInput(layout, p, ins, i, Loops(input, p.channels), active, randoms);
    } else {
      SetupIsInput(layout, p, ins, i, 0, ValueOf(input, 0), active, randoms);
    }
  }

  lemma {:induction false} InputsAreInput(layout: Layout, p: Program, ins: seq<Input>, n: nat, active: nat,
                                          randoms: nat)
    requires n <= |ins| && active + RandomsIn(ins[..n], p.channels) <= randoms
    ensures AllInputEffect(InputsEffects(layout, p, ins[..n], active), layout, p, ins, randoms)
  {
    hide InputEffects, EngineBase, RandomsOf, ConstantsIn, InputEffect;
    if n != 0 {
      var m := n - 1;
      assert ins[..n][..m] == ins[..m];
      InputsAreInput(layout, p, ins, m, active, randoms);
      WholeIsInput(layout, p, ins, m, active + RandomsIn(ins[..m], p.channels), randoms);
    }
  }

  lemma ProgramIsInput(layout: Layout, p: Program, ins: seq<Input>, active: nat, randoms: nat)
    requires active + RandomsIn(ins, p.channels) <= randoms
    ensures AllInputEffect(ProgramInputEffects(layout, p, ins, active), layout, p, ins, randoms)
  {
    hide InputsEffects, EngineBase, RandomsIn, RandomLabel, ConstantLabel, Touches;
    assert ins[..|ins|] == ins;
    InputsAreInput(layout, p, ins, |ins|, active, randoms);
  }

  /** Each effect of the inputs phase belongs to the inputs of one of the cores. */
  lemma {:induction false} InputPhaseIsInput(layout: Layout, spec: Spec, n: nat, randoms: nat,
                                             e: Effect)
    returns (k: nat)
    requires n <= |spec.programs| && RandomsInPrograms(spec, spec.programs[..n]) <= randoms
    requires e in AllInputEffects(layout, spec, spec.programs[..n])
    ensures k < n && InputEffect(e, layout, spec.programs[k], Inputs(spec, spec.programs[k].name), randoms)
  {
    hide ProgramInputEffects, RandomsIn, InputEffect;
    var m := n - 1;
    assert spec.programs[..n][..m] == spec.programs[..m];
    var p := spec.programs[m];
    var active := RandomsInPrograms(spec, spec.programs[..m]);
    if e in ProgramInputEffects(layout, p, Inputs(spec, p.name), active) {
      ProgramIsInput(layout, p, Inputs(spec, p.name), active, randoms);
      k := m;
    } else {
      k := InputPhaseIsInput(layout, spec, m, randoms, e);
    }
  }

  ghost predicate KeepsOut(es: seq<Effect>, lo: nat, hi: nat) {
    forall e :: e in es ==> Outside(StoresOf(e), lo, hi)
  }

  lemma {:induction false} StoresOutside(es: seq<Effect>, lo: nat, hi: nat)
    ensures Outside(Stores(es), lo, hi) <==> KeepsOut(es, lo, hi)
  {
    hide StoresOf;
    if es != [] {
      var n := |es| - 1;
      StoresOutside(es[..n], lo, hi);
      assert es == es[..n] + [es[n]];
      var s, t := Stores(es[..n]), StoresOf(es[n]);
      if Outside(s + t, lo, hi) {
        assert forall i :: 0 <= i < |s| ==> s[i] == (s + t)[i];
        assert forall i :: 0 <= i < |t| ==> t[i] == (s + t)[|s| + i];
      }
    }
  }

  /** A window clear of all engines and of the noise generator sees nothing of the inputs phase. */
  lemma InputPhaseUnseen(layout: Layout, spec: Spec, randoms: nat, lo: nat, hi: nat)
    requires RandomsInPrograms(spec, spec.programs) <= randoms && lo <= hi
    requires forall j :: 0 <= j < |spec.programs| ==>
      Clear(EngineBase(layout, spec.programs[j].index), ENGINE_SIZE, lo, hi - lo)
    requires Clear(layout.noiseGenerator, 4 * (randoms + 1), lo, hi - lo)
    ensures Project(Stores(AllInputEffects(layout, spec, spec.programs)), lo, hi) == []
  {
    hide AllInputEffects, EngineBase, Stores, RandomsInPrograms, Project, RandomLabel, ConstantLabel, Touches;
    var es := AllInputEffects(layout, spec, spec.programs);
    assert spec.programs[..|spec.programs|] == spec.programs;
    forall e | e in es ensures Outside(StoresOf(e), lo, hi) {
      var k := InputPhaseIsInput(layout, spec, |spec.programs|, randoms, e);
    }
    StoresOutside(es, lo, hi);
    ProjectOutside(Stores(es), lo, hi);
  }
}

/**
 The log of a whole deployment, window by window: what the hardware has been told about each core, the
 sequencer and the constant engines once everything is written.
 */
module FinalLog {
  import opened Operations
  import opened Specification
  import opened RegisterLog
  import opened Effects
  import opened DmaTable
  import opened CoreMemory
  import opened CoreInputs
  import opened ConstantEngine
  import opened Sequencer
  import opened Interconnect
  import opened Deployment
  import opened Regions

  /** Every word store of the deployment, in order. */
  function Log(c: Config, spec: Spec, ivs: InitialValues): seq<Store>
    requires Deployable(c, spec, ivs)
  {
    Stores(DeployPhase(c, spec, ivs).effects)
  }

  /** The initial values the tables are written with. */
  function Connected(spec: Spec, ivs: InitialValues): InitialValues {
    AfterConnections(ivs, spec.slots, spec.programs)
  }

  /** What deploys to its end: at most 32 cores and all their entries in range. */
  ghost predicate Accepted(c: Config, spec: Spec, ivs: InitialValues) {
    Deployable(c, spec, ivs) && |spec.programs| <= MAX_CORES && EntriesInRange(spec)
  }

  /** An accepted specification under a layout that keeps the sequencer clear of the cores. */
  ghost predicate Scheduled(c: Config, spec: Spec, ivs: InitialValues) {
    && Accepted(c, spec, ivs)
    && SmallIndices(spec)
    && LayoutClear(c.layout, 0)
  }

  /** An accepted specification whose cores keep to their blocks and whose noise outputs have room. */
  ghost predicate Fitted(c: Config, spec: Spec, ivs: InitialValues) {
    && Accepted(c, spec, ivs)
    && Placed(c.layout, spec)
    && LayoutClear(c.layout, RandomsInPrograms(spec, spec.programs))
  }

  lemma AcceptedParts(c: Config, spec: Spec, ivs: InitialValues)
    requires Accepted(c, spec, ivs)
    ensures DeployPhase(c, spec, ivs).ok
    ensures Convertible(c.clock, Timebase(spec.programs)) && spec.programs != [] && |spec.programs| <= MAX_CORES
    ensures MemoriesDefined(spec) && InitialsReady(spec, Connected(spec, ivs)) && EntriesInRange(spec)
  {
    hide EntriesInRange, AfterConnections, DmaPhase, LatePhases, LoadEffects;
    DeployAcceptedIff(c, spec, ivs);
  }

  lemma FittedParts(c: Config, spec: Spec, ivs: InitialValues)
    requires Fitted(c, spec, ivs)
    ensures Accepted(c, spec, ivs)
    ensures Convertible(c.clock, Timebase(spec.programs)) && spec.programs != [] && |spec.programs| <= MAX_CORES
    ensures MemoriesDefined(spec) && InitialsReady(spec, Connected(spec, ivs)) && EntriesInRange(spec)
    ensures Placed(c.layout, spec) && SmallIndices(spec) && DistinctIndices(spec) && DistinctPrograms(spec.programs)
    ensures LayoutClear(c.layout, RandomsInPrograms(spec, spec.programs)) && LayoutClear(c.layout, 0)
  {
    hide Accepted, Deployable, EntriesInRange, MemoriesDefined, InitialsReady, Connected, StaysInBlock,
      RandomsInPrograms;
    AcceptedParts(c, spec, ivs);
  }

  /** The phases of an accepted deployment. */
  lemma DeployParts(c: Config, spec: Spec, ivs: InitialValues)
    requires Accepted(c, spec, ivs)
    ensures MemoriesDefined(spec) && InitialsReady(spec, Connected(spec, ivs))
    ensures Convertible(c.clock, Timebase(spec.programs)) && |spec.programs| <= MAX_CORES
    ensures DeployPhase(c, spec, ivs).effects
         == LoadEffects(c.layout, spec.programs) + DmaPhase(c, spec, Connected(spec, ivs), |spec.programs|).effects
            + (MemoryPhase(c, spec, |spec.programs|) + AllInputEffects(c.layout, spec, spec.programs)
               + SequencerPhase(c, spec.programs) + CorePhase(c, spec.programs, |spec.programs|))
  {
    hide LoadEffects, DmaPhase, MemoryPhase, AllInputEffects, SequencerPhase, CorePhase, InitialsReady, EntriesInRange;
    AcceptedParts(c, spec, ivs);
  }

  /** Stores of each phase, as blocks. */
  lemma {:induction false} LogParts(c: Config, spec: Spec, ivs: InitialValues)
    requires Accepted(c, spec, ivs) && DistinctPrograms(spec.programs)
    ensures MemoriesDefined(spec) && InitialsReady(spec, Connected(spec, ivs)) && EntriesInRange(spec)
    ensures var n := |spec.programs|;
      Log(c, spec, ivs)
      == Concat(DmaBlocks(c, spec, Connected(spec, ivs), n))
         + (Concat(MemoryBlocks(c, spec, n)) + Stores(AllInputEffects(c.layout, spec, spec.programs))
            + Stores(SequencerPhase(c, spec.programs)) + Concat(CoreBlocks(c, spec.programs, n)))
  {
    hide LoadEffects, DmaPhase, MemoryPhase, AllInputEffects, SequencerPhase, CorePhase, InitialsReady, Stores,
      DeployPhase, Deployable, Connected, Concat, DmaBlocks, MemoryBlocks, CoreBlocks, EntriesInRange,
      DistinctPrograms, MemoriesDefined;
    AcceptedParts(c, spec, ivs);
    DeployParts(c, spec, ivs);
    var n, ps := |spec.programs|, spec.programs;
    var load, dma := LoadEffects(c.layout, ps), DmaPhase(c, spec, Connected(spec, ivs), n).effects;
    var memory, inputs := MemoryPhase(c, spec, n), AllInputEffects(c.layout, spec, ps);
    var sequencer, cores := SequencerPhase(c, ps), CorePhase(c, ps, n);
    StoresAppend(load + dma, memory + inputs + sequencer + cores);
    StoresAppend(load, dma);
    StoresAppend(memory + inputs + sequencer, cores);
    StoresAppend(memory + inputs, sequencer);
    StoresAppend(memory, inputs);
    LoadsStoreNothing(c.layout, ps);
    DmaPhaseStores(c, spec, Connected(spec, ivs), n);
    MemoryPhaseStores(c, spec, n);
    CorePhaseStores(c, ps, n);
    assert [] + Stores(dma) == Stores(dma);
  }

  lemma ProjectFive(a: seq<Store>, b: seq<Store>, d: seq<Store>, e: seq<Store>, f: seq<Store>, lo: nat, hi: nat)
    ensures Project(a + (b + d + e + f), lo, hi)
         == Project(a, lo, hi) + (Project(b, lo, hi) + Project(d, lo, hi) + Project(e, lo, hi) + Project(f, lo, hi))
  {
    hide Project;
    ProjectAppend(a, b + d + e + f, lo, hi);
    ProjectAppend(b + d + e, f, lo, hi);
    ProjectAppend(b + d, e, lo, hi);
    ProjectAppend(b, d, lo, hi);
  }

  /** The last three phases end the log, whatever the tables and memories are. */
  lemma LogTail(c: Config, spec: Spec, ivs: InitialValues) returns (early: seq<Store>)
    requires Accepted(c, spec, ivs)
    ensures Convertible(c.clock, Timebase(spec.programs))
    ensures Log(c, spec, ivs)
         == early + (Stores(AllInputEffects(c.layout, spec, spec.programs)) + Stores(SequencerPhase(c, spec.programs))
                     + Concat(CoreBlocks(c, spec.programs, |spec.programs|)))
  {
    hide LoadEffects, DmaPhase, MemoryPhase, AllInputEffects, SequencerPhase, CorePhase, InitialsReady, Stores,
      DeployPhase, Deployable, Connected, Concat, CoreBlocks, MemoriesDefined;
    DeployParts(c, spec, ivs);
    var n, ps := |spec.programs|, spec.programs;
    var first := LoadEffects(c.layout, ps) + DmaPhase(c, spec, Connected(spec, ivs), n).effects;
    var memory, inputs := MemoryPhase(c, spec, n), AllInputEffects(c.layout, spec, ps);
    var sequencer, cores := SequencerPhase(c, ps), CorePhase(c, ps, n);
    StoresAppend(first, memory + inputs + sequencer + cores);
    StoresAppend(memory + inputs + sequencer, cores);
    StoresAppend(memory + inputs, sequencer);
    StoresAppend(memory, inputs);
    CorePhaseStores(c, ps, n);
    early := Stores(first) + Stores(memory);
  }

  lemma SequencerIs(c: Config, ps: seq<Program>)
    requires Convertible(c.clock, Timebase(ps)) && |ps| <= MAX_CORES
    ensures |Dividers(ps)| == |ps| == |Shifts(c.sort, SlotsOf(c, ps))|
    ensures InWindows(c.layout, Stores(SequencerPhase(c, ps)))
  {
    hide Stores, SequencerEffects;
    SequencerInside(c.layout, Dividers(ps), Shifts(c.sort, SlotsOf(c, ps)),
                    Period(c.clock, Timebase(ps), MinTimebase(SlotsOf(c, ps))));
  }

  /** The sequencer's stores, seen from the cores' area. */
  lemma SequencerUnseen(c: Config, spec: Spec, lo: nat, hi: nat)
    requires Convertible(c.clock, Timebase(spec.programs)) && |spec.programs| <= MAX_CORES
    requires LayoutClear(c.layout, 0)
    requires c.layout.coresControl <= lo <= hi <= c.layout.coresControl + MAX_CORES * c.layout.controlStride
    ensures Project(Stores(SequencerPhase(c, spec.programs)), lo, hi) == []
  {
    hide Project, Stores, Dividers, Shifts, SlotsOf, Period, Timebase, MinTimebase, SequencerEffects;
    SequencerIs(c, spec.programs);
    ProjectOutside(Stores(SequencerPhase(c, spec.programs)), lo, hi);
  }

  // ----- registers the last phases decide

  /** What is written last is read back. */
  lemma LastRead(early: seq<Store>, a: seq<Store>, b: seq<Store>, d: seq<Store>, address: nat)
    ensures ReadBack(early + (a + b + d), address)
         == if ReadBack(d, address).Some? then ReadBack(d, address)
            else if ReadBack(b, address).Some? then ReadBack(b, address)
            else if ReadBack(a, address).Some? then ReadBack(a, address)
            else ReadBack(early, address)
  {
    hide ReadBack;
    ReadBackAppend(early, a + b + d, address);
    ReadBackAppend(a + b, d, address);
    ReadBackAppend(a, b, address);
  }

  /** No core's own register lies in a window clear of the cores. */
  lemma CoresUnread(c: Config, spec: Spec, window: nat, length: nat, a: nat)
    requires SmallIndices(spec) && c.layout.controlStride >= 4 && window <= a < window + length
    requires Clear(window, length, c.layout.coresControl, MAX_CORES * c.layout.controlStride)
    ensures ReadBack(Concat(CoreBlocks(c, spec.programs, |spec.programs|)), a) == None
  {
    hide Concat, CoreBlocks, Project, OwnBlocks;
    var cores := CoreBlocks(c, spec.programs, |spec.programs|);
    CoresInBlocks(c, spec);
    BlocksUnseen(c.layout, spec, cores, window, length);
    ReadBackProject(Concat(cores), window, window + length, a);
  }

  /** The sequencer's registers hold what the sequencer phase wrote to them. */
  lemma SequencerRegister(c: Config, spec: Spec, ivs: InitialValues, a: nat)
    requires Scheduled(c, spec, ivs) && Convertible(c.clock, Timebase(spec.programs))
    requires var s, t := c.layout.controller + c.layout.sequencerOffset, c.layout.controller + c.layout.timebaseOffset;
      s <= a < s + 4 + 4 * MAX_CORES || t <= a < t + 8 + 4 * MAX_CORES
    requires ReadBack(Stores(SequencerPhase(c, spec.programs)), a).Some?
    ensures ReadBack(Log(c, spec, ivs), a) == ReadBack(Stores(SequencerPhase(c, spec.programs)), a)
  {
    hide Accepted, Deployable, Concat, CoreBlocks, ReadBack, Log, AllInputEffects, SequencerPhase, Stores,
      SmallIndices;
    var s, t := c.layout.controller + c.layout.sequencerOffset, c.layout.controller + c.layout.timebaseOffset;
    var window, length := if s <= a < s + 4 + 4 * MAX_CORES then s else t,
                          if s <= a < s + 4 + 4 * MAX_CORES then 4 + 4 * MAX_CORES else 8 + 4 * MAX_CORES;
    var early := LogTail(c, spec, ivs);
    CoresUnread(c, spec, window, length, a);
    LastRead(early, Stores(AllInputEffects(c.layout, spec, spec.programs)), Stores(SequencerPhase(c, spec.programs)),
             Concat(CoreBlocks(c, spec.programs, |spec.programs|)), a);
  }

  lemma SequencerFromNoise(c: Config, spec: Spec, ivs: InitialValues, randoms: nat, a: nat)
    requires Accepted(c, spec, ivs) && LayoutClear(c.layout, randoms)
    requires c.layout.noiseGenerator <= a < c.layout.noiseGenerator + 4 * (randoms + 1)
    ensures Convertible(c.clock, Timebase(spec.programs))
    ensures ReadBack(Stores(SequencerPhase(c, spec.programs)), a) == None
  {
    hide Accepted, Stores, SequencerPhase;
    AcceptedParts(c, spec, ivs);
    SequencerIs(c, spec.programs);
    ReadBackMissing(Stores(SequencerPhase(c, spec.programs)), a);
  }

  /**
   The noise generator's registers hold what the inputs phase wrote to them, and those it did not write nothing as
   long as the cores keep to their blocks.
   */
  lemma NoiseRegister(c: Config, spec: Spec, ivs: InitialValues, a: nat)
    requires Accepted(c, spec, ivs) && SmallIndices(spec)
    requires LayoutClear(c.layout, RandomsInPrograms(spec, spec.programs))
    requires c.layout.noiseGenerator <= a < c.layout.noiseGenerator + 4 * (RandomsInPrograms(spec, spec.programs) + 1)
    requires ReadBack(Stores(AllInputEffects(c.layout, spec, spec.programs)), a).Some? || Placed(c.layout, spec)
    ensures ReadBack(Log(c, spec, ivs), a) == ReadBack(Stores(AllInputEffects(c.layout, spec, spec.programs)), a)
  {
    hide Accepted, Placed, Concat, CoreBlocks, ReadBack, Log, AllInputEffects, SequencerPhase, Stores,
      SmallIndices, RandomsInPrograms;
    var window, length := c.layout.noiseGenerator, 4 * (RandomsInPrograms(spec, spec.programs) + 1);
    var inputs := Stores(AllInputEffects(c.layout, spec, spec.programs));
    CoresUnread(c, spec, window, length, a);
    SequencerFromNoise(c, spec, ivs, RandomsInPrograms(spec, spec.programs), a);
    if ReadBack(inputs, a).Some? {
      var early := LogTail(c, spec, ivs);
      LastRead(early, inputs, Stores(SequencerPhase(c, spec.programs)),
               Concat(CoreBlocks(c, spec.programs, |spec.programs|)), a);
    } else {
      EarlyUnread(c, spec, ivs, window, length, a);
    }
  }

  /** What is neither a core's nor written by a late phase is not written. */
  lemma EarlyUnread(c: Config, spec: Spec, ivs: InitialValues, window: nat, length: nat, a: nat)
    requires Accepted(c, spec, ivs) && Placed(c.layout, spec) && c.layout.controlStride >= 4
    requires window <= a < window + length && Convertible(c.clock, Timebase(spec.programs))
    requires Clear(window, length, c.layout.coresControl, MAX_CORES * c.layout.controlStride)
    requires ReadBack(Stores(AllInputEffects(c.layout, spec, spec.programs)), a) == None
    requires ReadBack(Stores(SequencerPhase(c, spec.programs)), a) == None
    ensures ReadBack(Log(c, spec, ivs), a) == None
  {
    hide Accepted, StaysInBlock, Concat, CoreBlocks, DmaBlocks, MemoryBlocks, ReadBack, Log, AllInputEffects,
      SequencerPhase, Stores, SmallIndices, OwnBlocks, MemoriesDefined, InitialsReady, EntriesInRange, Project,
      DistinctPrograms, Connected;
    LogParts(c, spec, ivs);
    var n := |spec.programs|;
    var dma, memory := DmaBlocks(c, spec, Connected(spec, ivs), n), MemoryBlocks(c, spec, n);
    TablesInBlocks(c, spec, Connected(spec, ivs));
    MemoriesInBlocks(c, spec);
    BlocksUnseen(c.layout, spec, dma, window, length);
    BlocksUnseen(c.layout, spec, memory, window, length);
    ReadBackProject(Concat(dma), window, window + length, a);
    ReadBackProject(Concat(memory), window, window + length, a);
    CoresUnread(c, spec, window, length, a);
    var inputs := Stores(AllInputEffects(c.layout, spec, spec.programs));
    var sequencer, cores := Stores(SequencerPhase(c, spec.programs)), Concat(CoreBlocks(c, spec.programs, n));
    assert Concat(memory) + inputs + sequencer + cores == Concat(memory) + (inputs + sequencer + cores);
    LastRead(Concat(memory), inputs, sequencer, cores, a);
    ReadBackAppend(Concat(dma), Concat(memory) + inputs + sequencer + cores, a);
    NothingReads(a);
  }

  lemma NothingReads(a: nat)
    ensures ReadBack([], a) == None
  {
  }

  // ----- windows of a core's block

  /** The blocks of all cores, phase by phase, seen from a part of core k's block: its own. */
  lemma BlocksFromCore(c: Config, spec: Spec, ivs: InitialValues, k: nat, lo: nat, hi: nat)
    requires Fitted(c, spec, ivs) && k < |spec.programs| && lo <= hi <= c.layout.controlStride
    ensures MemoriesDefined(spec) && InitialsReady(spec, Connected(spec, ivs)) && EntriesInRange(spec)
    ensures var n, base := |spec.programs|, ControlBase(c.layout, IndexOf(spec, k));
      var dma, memory := DmaBlocks(c, spec, Connected(spec, ivs), n), MemoryBlocks(c, spec, n);
      var cores := CoreBlocks(c, spec.programs, n);
      && Project(Concat(dma), base + lo, base + hi) == Project(dma[k], base + lo, base + hi)
      && Project(Concat(memory), base + lo, base + hi) == Project(memory[k], base + lo, base + hi)
      && Project(Concat(cores), base + lo, base + hi) == Project(cores[k], base + lo, base + hi)
  {
    hide Accepted, Placed, Connected, Concat, TableLog, MemoryStores, EntriesInRange, MemoriesDefined,
      InitialsReady, ControlBase, Project, RunChannels, Entries, OwnBlocks, RandomsInPrograms;
    FittedParts(c, spec, ivs);
    var n := |spec.programs|;
    TablesInBlocks(c, spec, Connected(spec, ivs));
    MemoriesInBlocks(c, spec);
    CoresInBlocks(c, spec);
    BlocksSeen(c.layout, spec, DmaBlocks(c, spec, Connected(spec, ivs), n), k, lo, hi);
    BlocksSeen(c.layout, spec, MemoryBlocks(c, spec, n), k, lo, hi);
    BlocksSeen(c.layout, spec, CoreBlocks(c, spec.programs, n), k, lo, hi);
  }

  /** Inputs and sequencer, seen from a part of a core's block off its constant engine: nothing. */
  lemma SharedFromCore(c: Config, spec: Spec, ivs: InitialValues, k: nat, lo: nat, hi: nat)
    requires Fitted(c, spec, ivs) && k < |spec.programs| && lo <= hi <= c.layout.controlStride
    requires hi <= c.layout.coresInputs || c.layout.coresInputs + ENGINE_SIZE <= lo
    ensures Convertible(c.clock, Timebase(spec.programs))
    ensures var base := ControlBase(c.layout, IndexOf(spec, k));
      && Project(Stores(AllInputEffects(c.layout, spec, spec.programs)), base + lo, base + hi) == []
      && Project(Stores(SequencerPhase(c, spec.programs)), base + lo, base + hi) == []
  {
    hide Accepted, Placed, Project, AllInputEffects, RandomsInPrograms, Stores, EntriesInRange, MemoriesDefined,
      InitialsReady;
    FittedParts(c, spec, ivs);
    var base := ControlBase(c.layout, IndexOf(spec, k));
    BlockInArea(c.layout, IndexOf(spec, k));
    forall j | 0 <= j < |spec.programs|
      ensures Clear(EngineBase(c.layout, spec.programs[j].index), ENGINE_SIZE, base + lo, hi - lo)
    {
      if j != k { BlocksApart(c.layout, IndexOf(spec, j), IndexOf(spec, k)); }
    }
    InputPhaseUnseen(c.layout, spec, RandomsInPrograms(spec, spec.programs), base + lo, base + hi);
    SequencerUnseen(c, spec, base + lo, base + hi);
  }

  /** A part of a core's block off its constant engine holds the stores of the core's own phases only. */
  lemma PartSeen(c: Config, spec: Spec, ivs: InitialValues, k: nat, lo: nat, hi: nat)
    requires Fitted(c, spec, ivs) && k < |spec.programs| && lo <= hi <= c.layout.controlStride
    requires hi <= c.layout.coresInputs || c.layout.coresInputs + ENGINE_SIZE <= lo
    ensures MemoriesDefined(spec) && InitialsReady(spec, Connected(spec, ivs)) && EntriesInRange(spec)
    ensures var n, base := |spec.programs|, ControlBase(c.layout, IndexOf(spec, k));
      Project(Log(c, spec, ivs), base + lo, base + hi)
      == Project(DmaBlocks(c, spec, Connected(spec, ivs), n)[k], base + lo, base + hi)
         + (Project(MemoryBlocks(c, spec, n)[k], base + lo, base + hi)
            + Project(CoreBlocks(c, spec.programs, n)[k], base + lo, base + hi))
  {
    hide Accepted, Deployable, Placed, LayoutClear, Connected, Concat, TableLog, MemoryStores, RunChannels,
      MemoriesDefined, InitialsReady, Project, Log, AllInputEffects, SequencerPhase, ControlBase, Stores, Fitted,
      EntriesInRange;
    FittedParts(c, spec, ivs);
    LogParts(c, spec, ivs);
    SharedFromCore(c, spec, ivs, k, lo, hi);
    BlocksFromCore(c, spec, ivs, k, lo, hi);
    var n, base := |spec.programs|, ControlBase(c.layout, IndexOf(spec, k));
    var dma, memory := Concat(DmaBlocks(c, spec, Connected(spec, ivs), n)), Concat(MemoryBlocks(c, spec, n));
    var inputs := Stores(AllInputEffects(c.layout, spec, spec.programs));
    var sequencer := Stores(SequencerPhase(c, spec.programs));
    ProjectFive(dma, memory, inputs, sequencer, Concat(CoreBlocks(c, spec.programs, n)), base + lo, base + hi);
    assert Project(memory, base + lo, base + hi) + [] == Project(memory, base + lo, base + hi);
  }

  lemma BlockBounds(c: Config, spec: Spec, ivs: InitialValues)
    requires Fitted(c, spec, ivs)
    ensures BlockOrdered(c.layout)
    ensures 0x1000 <= c.layout.dmaOffset && c.layout.coresInputs + ENGINE_SIZE <= c.layout.controlStride
  {
  }

  /** The core's own register lies in no other part of its block. */
  lemma OwnRegisterElsewhere(c: Config, ps: seq<Program>, k: nat, lo: nat, hi: nat)
    requires k < |ps| && 4 <= lo
    ensures var base := ControlBase(c.layout, ps[k].index);
      Project(CoreBlocks(c, ps, |ps|)[k], base + lo, base + hi) == []
  {
    hide RunChannels, ControlBase;
    var base := ControlBase(c.layout, ps[k].index);
    ProjectOutside(CoreBlocks(c, ps, |ps|)[k], base + lo, base + hi);
  }

  lemma DmaWindow(c: Config, spec: Spec, ivs: InitialValues, k: nat)
    requires Fitted(c, spec, ivs) && k < |spec.programs| && TableSpared(c.layout, spec, spec.programs[k])
    ensures var es := Entries(spec.slots, spec.programs[k].name);
      var dma := DmaBase(c.layout, IndexOf(spec, k));
      && InitialsDefined(es, Connected(spec, ivs)) && AllInRange(es)
      && Project(Log(c, spec, ivs), dma, dma + TableSpan(|es|)) == TableLog(es, dma, Connected(spec, ivs))
  {
    hide Accepted, Deployable, Placed, LayoutClear, Connected, Concat, InitialsReady, Project, Log, TableLog,
      Entries, InitialsDefined, AllInRange, Fitted, MemoryStores, Memories, WordsOutside, ControlBase, TableSpan,
      RunChannels;
    var p, base, lo := spec.programs[k], ControlBase(c.layout, IndexOf(spec, k)), c.layout.dmaOffset;
    var es, n := Entries(spec.slots, p.name), |spec.programs|;
    var hi := lo + TableSpan(|es|);
    BlockBounds(c, spec, ivs);
    PartSeen(c, spec, ivs, k, lo, hi);
    assert p in spec.programs;
    EntriesReady(spec, p, Connected(spec, ivs));
    TableInside(es, DmaBase(c.layout, p.index), Connected(spec, ivs));
    ProjectInside(TableLog(es, DmaBase(c.layout, p.index), Connected(spec, ivs)), base + lo, base + hi);
    MemoryOutside(Memories(spec, p.name), base, p.channels, lo, hi);
    ProjectOutside(MemoryBlocks(c, spec, n)[k], base + lo, base + hi);
    OwnRegisterElsewhere(c, spec.programs, k, lo, hi);
    assert TableLog(es, base + lo, Connected(spec, ivs)) + ([] + [])
        == TableLog(es, base + lo, Connected(spec, ivs));
  }

  /** A word of a core's block is the last initialisation's that writes it, and the table's otherwise. */
  lemma MemoryRegister(c: Config, spec: Spec, ivs: InitialValues, k: nat, word: nat)
    requires Fitted(c, spec, ivs) && k < |spec.programs| && 0 < word && 4 * word + 4 <= c.layout.controlStride
    requires 4 * word + 4 <= c.layout.coresInputs || c.layout.coresInputs + ENGINE_SIZE <= 4 * word
    ensures var p := spec.programs[k];
      var es, base := Entries(spec.slots, p.name), ControlBase(c.layout, p.index);
      && InitialsDefined(es, Connected(spec, ivs)) && AllInRange(es) && AllDefined(Memories(spec, p.name), p.channels)
      && ReadBack(Log(c, spec, ivs), WordAt(base, word))
         == if MemoryWord(Memories(spec, p.name), p.channels, word).Some?
            then MemoryWord(Memories(spec, p.name), p.channels, word)
            else ReadBack(TableLog(es, DmaBase(c.layout, p.index), Connected(spec, ivs)), WordAt(base, word))
  {
    hide Deployable, Placed, LayoutClear, DeployPhase, Connected, Concat, InitialsReady, Project, Log, TableLog,
      Entries, InitialsDefined, AllInRange, MemoryStores, Memories, ControlBase, RunChannels, ReadBack,
      MemoryWord, AllDefined;
    var p, base, lo, hi := spec.programs[k], ControlBase(c.layout, IndexOf(spec, k)), 4 * word, 4 * word + 4;
    var es, n := Entries(spec.slots, p.name), |spec.programs|;
    PartSeen(c, spec, ivs, k, lo, hi);
    assert p in spec.programs;
    EntriesReady(spec, p, Connected(spec, ivs));
    var table, memory := DmaBlocks(c, spec, Connected(spec, ivs), n)[k], MemoryBlocks(c, spec, n)[k];
    OwnRegisterElsewhere(c, spec.programs, k, lo, hi);
    ReadBackProject(Log(c, spec, ivs), base + lo, base + hi, base + lo);
    ReadBackProject(table, base + lo, base + hi, base + lo);
    ReadBackProject(memory, base + lo, base + hi, base + lo);
    assert Project(memory, base + lo, base + hi) + [] == Project(memory, base + lo, base + hi);
    ReadBackAppend(Project(table, base + lo, base + hi), Project(memory, base + lo, base + hi), base + lo);
    MemoryHolds(Memories(spec, p.name), base, p.channels, word);
  }

  lemma EngineInArea(layout: Layout, i: nat)
    requires i < MAX_CORES && BlockOrdered(layout)
    ensures layout.coresControl <= EngineBase(layout, i)
    ensures EngineBase(layout, i) + ENGINE_SIZE <= layout.coresControl + MAX_CORES * layout.controlStride
  {
    BlockInArea(layout, i);
  }
}

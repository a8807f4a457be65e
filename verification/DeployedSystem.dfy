/**
 What a deployment means: reading the final registers back as the hardware does gives the specification
 back, and the system they describe runs as the schedule promises.
 */
module DeployedSystem {
  import opened Operations
  import opened Specification
  import opened Arithmetic
  import opened Bits
  import opened RegisterLog
  import opened Effects
  import opened Schedule
  import opened Rates
  import opened FrameRun
  import opened DmaTable
  import opened CoreMemory
  import opened CoreInputs
  import opened NoiseGenerator
  import opened Reciprocal
  import opened Sequencer
  import opened Deployment
  import opened Regions
  import opened FinalLog
  import opened ConstantEngine
  import opened DeployedConstants

  // ----- a core's own registers

  /** A table of n entries is decoded from its own window. */
  lemma DecodeInWindow(log: seq<Store>, dma: nat, n: nat)
    requires Register(Project(log, dma, dma + TableSpan(n)), dma) <= n
    ensures DecodeDma(log, dma) == DecodeDma(Project(log, dma, dma + TableSpan(n)), dma)
  {
    hide ReadBack, Project, Unpack, RunPort;
    var own := Project(log, dma, dma + TableSpan(n));
    ReadBackProject(log, dma, dma + TableSpan(n), dma);
    PortProject(log, dma, dma + TableSpan(n), dma + FILL_CHANNEL, {dma + FILL_DATA});
    forall i | 0 <= i < Register(own, dma) ensures DecodeDma(log, dma)[i] == DecodeDma(own, dma)[i] {
      ReadBackProject(log, dma, dma + TableSpan(n), dma + MAPPINGS + 4 * i);
      ReadBackProject(log, dma, dma + TableSpan(n), dma + FORMATS + 4 * i);
    }
  }

  /**
   After the whole deployment a core's DMA registers decode to that core's entries, in map order, if and only if no
   mapping word past the sixteenth spoils a format word; with more entries they decode to what that leaves.
   */
  lemma {:induction false} TablesDecode(c: Config, spec: Spec, ivs: InitialValues, k: nat)
    requires Fitted(c, spec, ivs) && k < |spec.programs| && TableSpared(c.layout, spec, spec.programs[k])
    ensures var es := Entries(spec.slots, spec.programs[k].name);
      var decoded := DecodeDma(Log(c, spec, ivs), DmaBase(c.layout, spec.programs[k].index));
      && InitialsDefined(es, Connected(spec, ivs)) && AllInRange(es)
      && decoded == Decoded(es, Connected(spec, ivs))
      && TableRead(decoded, es, Connected(spec, ivs))
      && (decoded == Meanings(es, Connected(spec, ivs)) <==> SpillIsHarmless(es))
  {
    hide TableRead, Deployable, DeployPhase, Placed, LayoutClear, Log, Connected, Entries, TableLog, Project, DecodeDma,
      Meanings, Decoded, InitialsDefined, AllInRange, DmaBase, Register, SpillIsHarmless, WordsOutside, TableSpan;
    var es := Entries(spec.slots, spec.programs[k].name);
    var dma := DmaBase(c.layout, spec.programs[k].index);
    DmaWindow(c, spec, ivs, k);
    DecodesAs(es, dma, Connected(spec, ivs));
    DecodedIffNoSpill(es, Connected(spec, ivs));
    DecodedReads(es, Connected(spec, ivs));
    DecodedCount(es, dma, Connected(spec, ivs));
    CountIsRegister(TableLog(es, dma, Connected(spec, ivs)), dma);
    DecodeInWindow(Log(c, spec, ivs), dma, |es|);
  }

  lemma CountIsRegister(log: seq<Store>, dma: nat)
    ensures |DecodeDma(log, dma)| == Register(log, dma)
  {
  }

  /** A word of a core's block behind its own register and off its constant engine. */
  predicate IsMemory(layout: Layout, word: nat) {
    && 0 < word && 4 * word + 4 <= layout.controlStride
    && (4 * word + 4 <= layout.coresInputs || layout.coresInputs + ENGINE_SIZE <= 4 * word)
  }

  /** ... and off its table of n entries. */
  predicate IsOwnMemory(layout: Layout, n: nat, word: nat) {
    && IsMemory(layout, word)
    && (4 * word + 4 <= layout.dmaOffset || layout.dmaOffset + TableSpan(n) <= 4 * word)
  }

  /**
   Every memory word of a core, initialised or not, on whatever channel, is what the specification says of it;
   where it lies in the table an initialised word still is, since memories are written later.
   */
  lemma {:induction false} MemoriesDecode(c: Config, spec: Spec, ivs: InitialValues, k: nat, word: nat)
    requires Fitted(c, spec, ivs) && k < |spec.programs| && IsMemory(c.layout, word)
    ensures var p := spec.programs[k];
      && AllDefined(Memories(spec, p.name), p.channels)
      && var meant := MemoryWord(Memories(spec, p.name), p.channels, word);
      meant.Some? || IsOwnMemory(c.layout, |Entries(spec.slots, p.name)|, word) ==>
        ReadBack(Log(c, spec, ivs), WordAt(ControlBase(c.layout, p.index), word)) == meant
  {
    hide Deployable, DeployPhase, Placed, LayoutClear, Log, ReadBack, Connected, Entries, TableLog, ControlBase,
      Memories, MemoryWord, InitialsDefined, AllInRange, AllDefined, TableSpan;
    var p := spec.programs[k];
    var es, dma := Entries(spec.slots, p.name), DmaBase(c.layout, p.index);
    MemoryRegister(c, spec, ivs, k, word);
    if IsOwnMemory(c.layout, |es|, word) {
      TableInside(es, dma, Connected(spec, ivs));
      ReadBackMissing(TableLog(es, dma, Connected(spec, ivs)), WordAt(ControlBase(c.layout, p.index), word));
    }
  }

  /** Each core is told how many channels to run, whatever else was written to its register. */
  lemma {:induction false} CoresDecode(c: Config, spec: Spec, ivs: InitialValues, k: nat)
    requires Accepted(c, spec, ivs) && DistinctIndices(spec) && c.layout.controlStride >= 4 && k < |spec.programs|
    ensures ReadBack(Log(c, spec, ivs), ControlBase(c.layout, spec.programs[k].index))
         == Some(RunChannels(c, spec.programs, spec.programs[k]))
  {
    hide Deployable, DeployPhase, Concat, ReadBack, Log, AllInputEffects, SequencerPhase, Stores, DistinctIndices,
      OwnBlocks, ControlBase, RunChannels, Project;
    var early := LogTail(c, spec, ivs);
    var cores, base := CoreBlocks(c, spec.programs, |spec.programs|), ControlBase(c.layout, IndexOf(spec, k));
    var own := Store(base, RunChannels(c, spec.programs, spec.programs[k]));
    CoresInBlocks(c, spec);
    BlocksSeen(c.layout, spec, cores, k, 0, 4);
    ReadBackProject(Concat(cores), base, base + 4, base);
    ReadBackProject(cores[k], base, base + 4, base);
    ReadBackStep([], own, base);
    assert [] + [own] == cores[k];
    LastRead(early, Stores(AllInputEffects(c.layout, spec, spec.programs)), Stores(SequencerPhase(c, spec.programs)),
             Concat(cores), base);
  }

  /** The noise generator drives every random channel's bus address, in order. */
  lemma {:induction false} NoiseDecodes(c: Config, spec: Spec, ivs: InitialValues)
    requires Accepted(c, spec, ivs) && SmallIndices(spec) && RandomsInPrograms(spec, spec.programs) < 0x1_0000_0000
    requires LayoutClear(c.layout, RandomsInPrograms(spec, spec.programs))
    ensures var log, noise, dests := Log(c, spec, ivs), c.layout.noiseGenerator, AllDests(spec, spec.programs);
      && (dests != [] || Placed(c.layout, spec) ==> Register(log, noise) == |dests|)
      && forall i: nat :: i < |dests| ==> ReadBack(log, Output(noise, i)) == Some(dests[i])
  {
    hide Log, ReadBack, Deployable, DeployPhase, Stores, AllInputEffects, RandomsInPrograms, EngineBase, Placed;
    var noise, randoms := c.layout.noiseGenerator, RandomsInPrograms(spec, spec.programs);
    var dests := AllDests(spec, spec.programs);
    forall p | p in spec.programs ensures EngineClear(EngineBase(c.layout, p.index), noise, randoms) {
      EngineInArea(c.layout, p.index);
    }
    AllHold(c.layout, spec, spec.programs, randoms);
    if dests != [] || Placed(c.layout, spec) { NoiseRegister(c, spec, ivs, noise); }
    forall i: nat | i < randoms ensures ReadBack(Log(c, spec, ivs), Output(noise, i)) == Some(dests[i]) {
      NoiseRegister(c, spec, ivs, Output(noise, i));
    }
  }

  // ----- the sequencer and the running system

  /** The sequencer reads back its divisors, thresholds, period, and an enable bit for each core. */
  lemma {:induction false} SequencerDecodes(c: Config, spec: Spec, ivs: InitialValues)
    requires Scheduled(c, spec, ivs)
    ensures Convertible(c.clock, Timebase(spec.programs))
    ensures |Dividers(spec.programs)| == |spec.programs| == |Shifts(c.sort, SlotsOf(c, spec.programs))|
    ensures var log, ps := Log(c, spec, ivs), spec.programs;
      && (forall k :: 0 <= k < |ps| ==>
            && ReadBack(log, Divisor(c.layout, k)) == Some(DivisorWord(Dividers(ps)[k]))
            && ReadBack(log, Threshold(c.layout, k)) == Some(Shifts(c.sort, SlotsOf(c, ps))[k]))
      && ReadBack(log, PeriodRegister(c.layout)) == Some(Period(c.clock, Timebase(ps), MinTimebase(SlotsOf(c, ps))))
      && ReadBack(log, EnableRegister(c.layout)) == Some(Pow2(|ps|) - 1)
  {
    hide Log, ReadBack, DivisorWord, Pow2, Stores, Deployable, DeployPhase, SmallIndices, SequencerEffects, SlotsOf,
      Timebase;
    var ps, shifts := spec.programs, Shifts(c.sort, SlotsOf(c, spec.programs));
    AcceptedParts(c, spec, ivs);
    SequencerIs(c, ps);
    SequencerReadsBack(c.layout, Dividers(ps), shifts, Period(c.clock, Timebase(ps), MinTimebase(SlotsOf(c, ps))));
    SequencerRegister(c, spec, ivs, PeriodRegister(c.layout));
    SequencerRegister(c, spec, ivs, EnableRegister(c.layout));
    forall k | 0 <= k < |ps|
      ensures ReadBack(Log(c, spec, ivs), Divisor(c.layout, k)) == Some(DivisorWord(Dividers(ps)[k]))
      ensures ReadBack(Log(c, spec, ivs), Threshold(c.layout, k)) == Some(shifts[k])
    {
      SequencerRegister(c, spec, ivs, Divisor(c.layout, k));
      SequencerRegister(c, spec, ivs, Threshold(c.layout, k));
    }
  }

  /** Cycles a core runs for: its fixed part, and its per-channel part once for every channel it is told to run. */
  function Cycles(c: Config, ps: seq<Program>, p: Program): nat {
    p.fixedLength + RunChannels(c, ps, p) * p.perChannelLength
  }

  /** Core k as the sequencer registers describe it, running for as long as its program does. */
  function CoreOf(c: Config, ps: seq<Program>, log: seq<Store>, k: nat): Core
    requires k < |ps|
  {
    Core(Register(log, Divisor(c.layout, k)) + 1, Register(log, Threshold(c.layout, k)), Cycles(c, ps, ps[k]))
  }

  function CoresOf(c: Config, ps: seq<Program>, log: seq<Store>): seq<Core> {
    seq(|ps|, k requires 0 <= k < |ps| => CoreOf(c, ps, log, k))
  }

  function PeriodOf(c: Config, log: seq<Store>): nat {
    Register(log, PeriodRegister(c.layout))
  }

  /** The same, from the specification. */
  function SpecCores(c: Config, ps: seq<Program>): seq<Core> {
    seq(|ps|, k requires 0 <= k < |ps| =>
      Core(DivisorWord(Dividers(ps)[k]) + 1, Shifts(c.sort, SlotsOf(c, ps))[k], Cycles(c, ps, ps[k])))
  }

  function SpecPeriod(c: Config, ps: seq<Program>): nat
    requires Convertible(c.clock, Timebase(ps))
  {
    Period(c.clock, Timebase(ps), MinTimebase(SlotsOf(c, ps)))
  }

  /** The registers of a deployed system describe the cores and the period the specification determines. */
  lemma RunsAsSpecified(c: Config, spec: Spec, ivs: InitialValues)
    requires Scheduled(c, spec, ivs)
    ensures Convertible(c.clock, Timebase(spec.programs))
    ensures CoresOf(c, spec.programs, Log(c, spec, ivs)) == SpecCores(c, spec.programs)
    ensures PeriodOf(c, Log(c, spec, ivs)) == SpecPeriod(c, spec.programs)
  {
    hide Log, ReadBack, Deployable, DeployPhase, SmallIndices, LayoutClear, Cycles, SlotsOf, DivisorWord, Period,
      Timebase, Divisor, Threshold;
    SequencerDecodes(c, spec, ivs);
  }

  /** Those are the channels that the core's own register asks for. */
  lemma CyclesRun(c: Config, spec: Spec, ivs: InitialValues, k: nat)
    requires Accepted(c, spec, ivs) && DistinctIndices(spec) && c.layout.controlStride >= 4 && k < |spec.programs|
    ensures var p := spec.programs[k];
      Cycles(c, spec.programs, p)
      == p.fixedLength + Register(Log(c, spec, ivs), ControlBase(c.layout, p.index)) * p.perChannelLength
  {
    hide Log, ReadBack, Deployable, DeployPhase, DistinctIndices, EntriesInRange, RunChannels, ControlBase;
    CoresDecode(c, spec, ivs, k);
  }

  /** A program that holds a reciprocal where an instruction starts gets 11 channels, as all do by override, or 8. */
  lemma ChannelsDecided(c: Config, spec: Spec, ivs: InitialValues, k: nat)
    requires Accepted(c, spec, ivs) && DistinctIndices(spec) && c.layout.controlStride >= 4 && k < |spec.programs|
    requires DistinctPrograms(spec.programs)
    ensures var code := Code(spec.programs[k].binary, 2);
      var reciprocal := exists i ::
        0 <= i < |code| && StartsInstruction(c.isa, code, i) && Opcode(c.isa, code[i]) == c.isa.rec;
      ReadBack(Log(c, spec, ivs), ControlBase(c.layout, spec.programs[k].index))
      == Some(if c.fullCoresOverride || reciprocal then 11 else 8)
  {
    hide Log, ReadBack, Deployable, DeployPhase, DistinctIndices, EntriesInRange, ControlBase, HasReciprocal, Opcode,
      Code, StartsInstruction, Latest, DistinctPrograms;
    CoresDecode(c, spec, ivs, k);
    RecordedSelf(spec.programs, k);
    ReciprocalAtInstruction(c.isa, Code(spec.programs[k].binary, 2));
    assert RunChannels(c, spec.programs, spec.programs[k])
        == if HasReciprocal(c.isa, Code(spec.programs[k].binary, 2)) || c.fullCoresOverride then 11 else 8;
  }

  /** All lengths, and the sum of all slots, fit the 32-bit counters. */
  predicate SlotsFit(c: Config, ps: seq<Program>) {
    && (forall k :: 0 <= k < |ps| ==> Cycles(c, ps, ps[k]) < 0x1_0000_0000)
    && FIRST_START + Total(SlotsOf(c, ps)) < 0x1_0000_0000
  }

  /** Then a slot is as long as its core runs. */
  lemma SlotHoldsRun(c: Config, ps: seq<Program>, k: nat)
    requires k < |ps| && Cycles(c, ps, ps[k]) < 0x1_0000_0000
    ensures SlotsOf(c, ps)[k].length == Cycles(c, ps, ps[k])
  {
    hide RunChannels, Recorded;
  }

  /** Slots have distinct names exactly when the programs do. */
  lemma NamesOfSlots(c: Config, ps: seq<Program>)
    ensures DistinctNames(SlotsOf(c, ps)) <==> DistinctPrograms(ps)
  {
    hide Length, Recorded;
    var data, key := SlotsOf(c, ps), (d: Schedule.SlotData) => d.name;
    if DistinctNames(data) {
      forall i, j | 0 <= i < j < |ps| ensures ps[i].name != ps[j].name {
        assert key(data[i]) != key(data[j]);
      }
    }
  }

  /** Programs of one name are given one order. */
  lemma OrdersTellNames(c: Config, ps: seq<Program>)
    requires DistinctOrders(SlotsOf(c, ps))
    ensures DistinctPrograms(ps)
  {
    hide Length, Latest;
    var data, key := SlotsOf(c, ps), (d: Schedule.SlotData) => d.order;
    forall i, j | 0 <= i < j < |ps| ensures ps[i].name != ps[j].name {
      LatestOf(ps, i);
      LatestOf(ps, j);
      assert key(data[i]) != key(data[j]);
    }
  }

  lemma {:induction false} StartsBounded(v: seq<Schedule.SlotData>)
    ensures forall s :: s in StartTable(v) ==> StartTable(v)[s] <= FIRST_START + Total(v)
  {
    if v != [] {
      var n := |v| - 1;
      StartsBounded(v[..n]);
    }
  }

  /** Offsets that fit are not wrapped. */
  lemma ShiftUnwrapped(sort: Sorting, data: seq<Schedule.SlotData>, k: nat)
    requires FIRST_START + Total(data) < 0x1_0000_0000 && k < |data|
    ensures var table := StartTable(sort(data));
      |Shifts(sort, data)| == |data| && data[k].name in table && Shifts(sort, data)[k] == table[data[k].name]
  {
    hide StartTable, Sum, IsSorted;
    var v := sort(data);
    assert IsSortOf(v, data);
    var i := IndexInSort(data, v, k);
    StartTableKeys(v);
    StartsBounded(v);
    SumOfPermutation(v, data, (_: Schedule.SlotData) => true);
  }

  /** The registers program exactly the schedule: the cores in slots sorted by execution order. */
  lemma {:induction false} RegistersProgrammed(c: Config, spec: Spec, ivs: InitialValues)
    requires Scheduled(c, spec, ivs) && SlotsFit(c, spec.programs)
    ensures var data := SlotsOf(c, spec.programs);
      Programmed(CoresOf(c, spec.programs, Log(c, spec, ivs)), data, c.sort(data))
  {
    hide Log, ReadBack, Deployable, DeployPhase, SmallIndices, LayoutClear, StartTable, Sum, Dividers, DivisorWord,
      Divisor, Threshold, Length, Cycles, Recorded;
    var ps, data, log := spec.programs, SlotsOf(c, spec.programs), Log(c, spec, ivs);
    AcceptedParts(c, spec, ivs);
    SequencerDecodes(c, spec, ivs);
    assert IsSortOf(c.sort(data), data);
    var cores := CoresOf(c, ps, log);
    forall k | 0 <= k < |data|
      ensures var table := StartTable(c.sort(data)); data[k].name in table && cores[k].shift == table[data[k].name]
    {
      ShiftUnwrapped(c.sort, data, k);
    }
    forall k | 0 <= k < |data| ensures cores[k].length == data[k].length {
      SlotHoldsRun(c, ps, k);
    }
  }

  /** The slots as the deployed cores fill them. */
  function RunSlots(c: Config, ps: seq<Program>): seq<Schedule.SlotData> {
    seq(|ps|, k requires 0 <= k < |ps| =>
      Schedule.SlotData(ps[k].name, Recorded(ps, ps[k]).order, Cycles(c, ps, ps[k])))
  }

  /**
   With distinct execution orders each threshold register is 2 plus the cycles of every core of smaller order and 90
   for each, so it depends neither on the sort nor on the order of the programs.
   */
  lemma {:induction false} ThresholdClosedForm(c: Config, spec: Spec, ivs: InitialValues, k: nat)
    requires Scheduled(c, spec, ivs) && SlotsFit(c, spec.programs) && DistinctOrders(RunSlots(c, spec.programs))
    requires k < |spec.programs|
    ensures var data := RunSlots(c, spec.programs);
      Register(Log(c, spec, ivs), Threshold(c.layout, k))
      == FIRST_START + Sum(data, (d: Schedule.SlotData) => d.order < data[k].order)
  {
    hide Log, ReadBack, Deployable, DeployPhase, SmallIndices, LayoutClear, Sum, StartTable,
      DistinctOrders, DistinctNames, IsSortOf, Threshold, Length, Cycles, DistinctPrograms, Recorded;
    var ps := spec.programs;
    var cores, data := CoresOf(c, ps, Log(c, spec, ivs)), SlotsOf(c, ps);
    forall i | 0 <= i < |ps| ensures data[i] == RunSlots(c, ps)[i] { SlotHoldsRun(c, ps, i); }
    assert data == RunSlots(c, ps);
    RegistersProgrammed(c, spec, ivs);
    OrdersTellNames(c, ps);
    NamesOfSlots(c, ps);
    var shifts := seq(|cores|, i requires 0 <= i < |cores| => cores[i].shift);
    ShiftClosedForm(data, c.sort(data), shifts, k);
    assert shifts[k] == cores[k].shift;
  }

  /**
   Schedule safety of the deployed system, over every run: when the period the specification determines holds all
   slots, and so with a timebase of zero, no two activations ever come closer than the guard gap, exactly if no
   two programs share a name.
   */
  lemma {:induction false} ScheduleSafe(c: Config, spec: Spec, ivs: InitialValues)
    requires Scheduled(c, spec, ivs) && SlotsFit(c, spec.programs)
    ensures Convertible(c.clock, Timebase(spec.programs))
    ensures var ps, log := spec.programs, Log(c, spec, ivs);
      Total(SlotsOf(c, ps)) <= SpecPeriod(c, ps) || Timebase(ps) == 0 ==>
        (SafeForever(CoresOf(c, ps, log), PeriodOf(c, log)) <==> DistinctPrograms(ps))
  {
    hide Log, ReadBack, Deployable, DeployPhase, SmallIndices, LayoutClear, CoresOf, SpecCores, SafeForever, Total,
      SlotsOf, Shifts, Dividers, DivisorWord, Timebase, DistinctPrograms, DistinctNames;
    var ps, data, log := spec.programs, SlotsOf(c, spec.programs), Log(c, spec, ivs);
    RegistersProgrammed(c, spec, ivs);
    RunsAsSpecified(c, spec, ivs);
    NamesOfSlots(c, ps);
    if Total(data) <= SpecPeriod(c, ps) || Timebase(ps) == 0 {
      SafeIffDistinctNames(CoresOf(c, ps, log), data, c.sort(data), PeriodOf(c, log));
    }
  }

  /** Two programs of one name start together in frame 0, whatever the period. */
  lemma {:induction false} NamesCollide(c: Config, spec: Spec, ivs: InitialValues, i: nat, j: nat)
    requires Scheduled(c, spec, ivs) && SlotsFit(c, spec.programs)
    requires i < j < |spec.programs| && spec.programs[i].name == spec.programs[j].name
    ensures var cores, period := CoresOf(c, spec.programs, Log(c, spec, ivs)), PeriodOf(c, Log(c, spec, ivs));
      && Fires(cores[i], 0) && Fires(cores[j], 0) && !Apart(cores[i], 0, cores[j], 0, period)
      && !SafeForever(cores, period)
  {
    hide Log, ReadBack, Deployable, DeployPhase, SmallIndices, LayoutClear, CoreOf, Total, Length, Cycles, Recorded,
      Apart;
    var cores, data, log := CoresOf(c, spec.programs, Log(c, spec, ivs)), SlotsOf(c, spec.programs), Log(c, spec, ivs);
    RegistersProgrammed(c, spec, ivs);
    SameNameCollides(cores, data, c.sort(data), i, j, PeriodOf(c, log));
  }

  /**
   Without that condition, exactly: with rates the period is the clock over the timebase, and nothing
   compares it with the slots. The run is safe for ever exactly when the names differ and no start falls into
   a slot of another frame that the dividers let meet it, a check over finitely many frame distances on what
   the specification determines.
   */
  lemma {:induction false} ScheduleSafeIffGaps(c: Config, spec: Spec, ivs: InitialValues)
    requires Scheduled(c, spec, ivs) && SlotsFit(c, spec.programs)
    ensures Convertible(c.clock, Timebase(spec.programs))
    ensures var ps, log := spec.programs, Log(c, spec, ivs);
      SafeForever(CoresOf(c, ps, log), PeriodOf(c, log))
      <==> DistinctPrograms(ps) && GapsKept(SpecCores(c, ps), SpecPeriod(c, ps), Total(SlotsOf(c, ps)))
  {
    hide Log, ReadBack, Deployable, DeployPhase, SmallIndices, LayoutClear, CoresOf, SpecCores, SpecPeriod, PeriodOf,
      SafeForever, Total, SlotsOf, GapsKept, DistinctNames, Apart;
    var cores, data, log := CoresOf(c, spec.programs, Log(c, spec, ivs)), SlotsOf(c, spec.programs), Log(c, spec, ivs);
    RegistersProgrammed(c, spec, ivs);
    RunsAsSpecified(c, spec, ivs);
    NamesOfSlots(c, spec.programs);
    if DistinctPrograms(spec.programs) {
      SafeIffGapsKept(cores, data, c.sort(data), PeriodOf(c, log));
    } else {
      var i, j :| 0 <= i < j < |spec.programs| && spec.programs[i].name == spec.programs[j].name;
      NamesCollide(c, spec, ivs, i, j);
    }
  }

  /** When the core first in order runs in every frame, that is: the names differ and the period holds all slots. */
  lemma {:induction false} ScheduleSafeIffPeriod(c: Config, spec: Spec, ivs: InitialValues, first: nat)
    requires Scheduled(c, spec, ivs) && SlotsFit(c, spec.programs) && first < |spec.programs|
    requires var v := c.sort(SlotsOf(c, spec.programs)); |v| > 0 && SlotsOf(c, spec.programs)[first] == v[0]
    requires Dividers(spec.programs)[first] == 1
    ensures Convertible(c.clock, Timebase(spec.programs))
    ensures var ps, log := spec.programs, Log(c, spec, ivs);
      SafeForever(CoresOf(c, ps, log), PeriodOf(c, log))
      <==> DistinctPrograms(ps) && Total(SlotsOf(c, ps)) <= SpecPeriod(c, ps)
  {
    hide Log, ReadBack, Deployable, DeployPhase, SmallIndices, LayoutClear, SafeForever, Total, SlotsOf, Shifts,
      Dividers, Timebase, Length, Period, DistinctNames, Apart;
    var ps, data, log := spec.programs, SlotsOf(c, spec.programs), Log(c, spec, ivs);
    RegistersProgrammed(c, spec, ivs);
    RunsAsSpecified(c, spec, ivs);
    NamesOfSlots(c, ps);
    if DistinctPrograms(ps) {
      SafeIffPeriod(CoresOf(c, ps, log), data, c.sort(data), PeriodOf(c, log), first);
    } else {
      var i, j :| 0 <= i < j < |ps| && ps[i].name == ps[j].name;
      NamesCollide(c, spec, ivs, i, j);
    }
  }

  /** A core that runs in every frame and takes 2^32 cycles or more collides with itself, whatever its slot. */
  lemma {:induction false} LongCollides(c: Config, spec: Spec, ivs: InitialValues, k: nat)
    requires Scheduled(c, spec, ivs) && k < |spec.programs|
    requires Cycles(c, spec.programs, spec.programs[k]) >= 0x1_0000_0000
    requires Dividers(spec.programs)[k] == 1
    ensures !SafeForever(CoresOf(c, spec.programs, Log(c, spec, ivs)), PeriodOf(c, Log(c, spec, ivs)))
  {
    hide Log, ReadBack, Deployable, DeployPhase, SmallIndices, LayoutClear, Cycles, SlotsOf, Shifts, Dividers, Timebase;
    SequencerDecodes(c, spec, ivs);
    var core := CoreOf(c, spec.programs, Log(c, spec, ivs), k);
    assert core == CoresOf(c, spec.programs, Log(c, spec, ivs))[k];
    DividesIntro(1, 0, 0);
    DividesIntro(1, 1, 1);
    assert Fires(core, 0) && Fires(core, 1);
    assert !Apart(core, 0, core, 1, PeriodOf(c, Log(c, spec, ivs)));
  }

  /** The whole number of clock cycles in a timebase-th of a second. */
  lemma PeriodIsQuotient(clock: real, timebase: nat, minTimebase: Word)
    requires Convertible(clock, timebase) && timebase > 0
    ensures var period := Period(clock, timebase, minTimebase);
      (timebase * period) as real <= clock < (timebase * period + timebase) as real
  {
    Quotient(clock, timebase as real);
    FloorBounds(clock / timebase as real);
    QuotientBounds(clock, timebase, clock / timebase as real, Period(clock, timebase, minTimebase));
  }

  lemma QuotientBounds(clock: real, timebase: nat, q: real, period: nat)
    requires timebase > 0 && q * timebase as real == clock && period as real <= q < period as real + 1.0
    ensures (timebase * period) as real <= clock < (timebase * period + timebase) as real
  {
    Scaled(period as real, q, timebase as real);
    Scaled(q, period as real + 1.0, timebase as real);
    Products(timebase, period);
  }

  lemma FloorBounds(q: real)
    ensures q.Floor as real <= q < q.Floor as real + 1.0
  {
  }

  lemma Quotient(clock: real, t: real)
    requires t > 0.0
    ensures clock / t * t == clock
  {
  }

  lemma Products(timebase: nat, period: nat)
    ensures period as real * timebase as real == (timebase * period) as real
    ensures (period as real + 1.0) * timebase as real == (timebase * period + timebase) as real
  {
    assert (timebase * period) as real == timebase as real * period as real;
  }

  lemma Scaled(x: real, y: real, t: real)
    requires t > 0.0
    ensures x <= y ==> x * t <= y * t
    ensures x < y ==> x * t < y * t
  {
    var d := y - x;
    assert d * t == y * t - x * t;
    if d >= 0.0 { assert d * t >= 0.0; }
    if d > 0.0 { assert d * t > 0.0; }
  }

  /**
   How long a frame lasts: as many frames as the timebase take a second, to within that many cycles; without rates a
   frame holds exactly all slots.
   */
  lemma {:induction false} FramesLast(c: Config, spec: Spec, ivs: InitialValues)
    requires Scheduled(c, spec, ivs)
    ensures var t, period := Timebase(spec.programs), PeriodOf(c, Log(c, spec, ivs));
      && (t > 0 ==> (t * period) as real <= c.clock < (t * period + t) as real)
      && (t == 0 && SlotsFit(c, spec.programs) ==> period == Total(SlotsOf(c, spec.programs)))
  {
    hide Log, ReadBack, Deployable, DeployPhase, SmallIndices, LayoutClear, SlotsOf, Shifts, Dividers, Timebase,
      DivisorWord, Cycles, Total;
    SequencerDecodes(c, spec, ivs);
    var t := Timebase(spec.programs);
    if t > 0 { PeriodIsQuotient(c.clock, t, MinTimebase(SlotsOf(c, spec.programs))); }
  }

  /**
   Exact rates of the deployed system: with nonzero frequencies, in any stretch of frames as long as the
   timebase, which lasts a second to within that many cycles, each core starts exactly as often as its sampling
   frequency says. The timebase fits the int it is folded in, as it must for the deployment to be defined.
   */
  lemma {:induction false} RatesExact(c: Config, spec: Spec, ivs: InitialValues, k: nat, from: nat)
    requires Scheduled(c, spec, ivs) && k < |spec.programs|
    requires AllNonzero(Frequencies(spec.programs))
    ensures 0 < Timebase(spec.programs) < 0x8000_0000
    ensures var t, period := Timebase(spec.programs), PeriodOf(c, Log(c, spec, ivs));
      (t * period) as real <= c.clock < (t * period + t) as real
    ensures Firings(CoreOf(c, spec.programs, Log(c, spec, ivs), k).divider, from, Timebase(spec.programs))
         == spec.programs[k].samplingFrequency
  {
    hide Log, ReadBack, SmallIndices, LayoutClear, Firings, LcmAll, Cycles, SlotsOf, Shifts, MemoriesDefined,
      InitialsReady, InputsDefined, DmaPhase, LatePhases, LoadEffects, Period, SlotsFit;
    var ps := spec.programs;
    SequencerDecodes(c, spec, ivs);
    FramesLast(c, spec, ivs);
    LcmAllZero(Frequencies(ps));
    DividerExact(Frequencies(ps), k);
    ExactRate(Frequencies(ps), k, from);
    var d := Divider(Timebase(ps), ps[k].samplingFrequency);
    DividerBound(d, ps[k].samplingFrequency, Timebase(ps));
  }

  /**
   All rated cores meet their rates, in every stretch of frames as long as the least common multiple of their
   frequencies, exactly when the frequencies are all zero or all nonzero.
   */
  lemma {:induction false} RatesMetIffUniform(c: Config, spec: Spec, ivs: InitialValues)
    requires Scheduled(c, spec, ivs) && LcmAll(Rated(Frequencies(spec.programs))) < 0x1_0000_0000
    ensures LcmAll(Rated(Frequencies(spec.programs))) >= 1
    ensures (forall k: nat, from: nat :: k < |spec.programs| && spec.programs[k].samplingFrequency != 0 ==>
               Firings(CoreOf(c, spec.programs, Log(c, spec, ivs), k).divider, from,
                       LcmAll(Rated(Frequencies(spec.programs))))
               == spec.programs[k].samplingFrequency)
       <==> AllZero(Frequencies(spec.programs)) || AllNonzero(Frequencies(spec.programs))
  {
    hide Log, ReadBack, Deployable, SmallIndices, LayoutClear, LcmAll, CoreOf, Firings, Rated;
    var ps := spec.programs;
    var frequencies := Frequencies(ps);
    RatedNonzero(frequencies);
    if AllNonzero(frequencies) {
      forall k: nat, from: nat | k < |ps|
        ensures Firings(CoreOf(c, ps, Log(c, spec, ivs), k).divider, from, LcmAll(Rated(frequencies)))
             == ps[k].samplingFrequency
      {
        RatesExact(c, spec, ivs, k, from);
      }
    } else if AllZero(frequencies) {
      assert forall k: nat :: k < |ps| ==> frequencies[k] == ps[k].samplingFrequency;
    } else {
      var k: nat :| k < |ps| && frequencies[k] != 0;
      MixedRatesWrap(c, spec, ivs, k, 1);
      NoWrapIn(LcmAll(Rated(frequencies)));
      assert Firings(CoreOf(c, ps, Log(c, spec, ivs), k).divider, 1, LcmAll(Rated(frequencies)))
        != ps[k].samplingFrequency;
    }
  }

  /** No multiple of 2^32 within n frames from the first. */
  lemma NoWrapIn(n: nat)
    requires n < 0x1_0000_0000
    ensures Firings(0x1_0000_0000, 1, n) == 0
  {
    NoFirings(0x1_0000_0000, 1, n);
  }

  /** A core without a rate of its own runs in every frame, whatever the others do. */
  lemma {:induction false} UnratedEveryFrame(c: Config, spec: Spec, ivs: InitialValues, k: nat, from: nat, n: nat)
    requires Scheduled(c, spec, ivs) && k < |spec.programs| && spec.programs[k].samplingFrequency == 0
    ensures Firings(CoreOf(c, spec.programs, Log(c, spec, ivs), k).divider, from, n) == n
  {
    hide Log, ReadBack, Deployable, SmallIndices, LayoutClear, LcmAll, Length, SlotsOf, Shifts, Firings;
    SequencerDecodes(c, spec, ivs);
    EveryFrame(from, n);
  }

  lemma DividerBound(d: nat, frequency: nat, timebase: nat)
    requires d * frequency == timebase < 0x1_0000_0000 && d >= 1 && frequency != 0
    ensures DivisorWord(d) + 1 == d
  {
    assert d <= d * frequency;
  }

  /** Mixing zero and nonzero frequencies: the divisor of a rated core wraps, and it runs once in 2^32 frames. */
  lemma {:induction false} MixedRatesWrap(c: Config, spec: Spec, ivs: InitialValues, k: nat, from: nat)
    requires Scheduled(c, spec, ivs) && k < |spec.programs|
    requires 0 in Frequencies(spec.programs) && spec.programs[k].samplingFrequency != 0
    ensures CoreOf(c, spec.programs, Log(c, spec, ivs), k).divider == 0x1_0000_0000
    ensures Firings(0x1_0000_0000, from, 0x1_0000_0000) == 1
  {
    hide Log, ReadBack, Deployable, SmallIndices, LayoutClear, LcmAll, Length, SlotsOf, Shifts, Firings;
    SequencerDecodes(c, spec, ivs);
    LcmAllZero(Frequencies(spec.programs));
    assert 0 / spec.programs[k].samplingFrequency == 0;
    OnePerDivider(0x1_0000_0000, from);
  }

  // ----- the whole

  /**
   Core k's table, memory and channel count say what the specification says of the core: the table if the memory
   spares it, a word off the table in any case, and a word on it if it is initialised.
   */
  ghost predicate RegistersMeant(c: Config, spec: Spec, ivs: InitialValues, log: seq<Store>, k: nat)
    requires Fitted(c, spec, ivs) && k < |spec.programs|
  {
    FittedParts(c, spec, ivs);
    var p := spec.programs[k];
    EntriesReady(spec, p, Connected(spec, ivs));
    var es, inits, base := Entries(spec.slots, p.name), Memories(spec, p.name), ControlBase(c.layout, p.index);
    var decoded := DecodeDma(log, DmaBase(c.layout, p.index));
    && (TableSpared(c.layout, spec, p) ==>
          && decoded == Decoded(es, Connected(spec, ivs)) && TableRead(decoded, es, Connected(spec, ivs))
          && (decoded == Meanings(es, Connected(spec, ivs)) <==> SpillIsHarmless(es)))
    && ReadBack(log, base) == Some(RunChannels(c, spec.programs, p))
    && forall word: nat ::
         IsMemory(c.layout, word)
         && (MemoryWord(inits, p.channels, word).Some? || IsOwnMemory(c.layout, |es|, word)) ==>
           ReadBack(log, WordAt(base, word)) == MemoryWord(inits, p.channels, word)
  }

  /** ... and so does its constant engine, which holds nothing else if table and memory spare it. */
  ghost predicate ConstantsMeant(c: Config, spec: Spec, log: seq<Store>, k: nat)
    requires k < |spec.programs|
  {
    && (forall i, j :: IsChannel(spec, k, i, j) ==>
          var m := ConstantAt(c.layout, spec, k, i, j);
          && SlotDest(log, m.base, m.selector) == Some(Dest(InputAt(spec, k, i), j))
          && HasValue(InputAt(spec, k, i), j)
          && SlotValue(log, m.base, m.selector) == Some(Given(InputAt(spec, k, i), j)))
    && (EngineSpared(c.layout, spec, spec.programs[k]) ==>
          forall selector: nat :: SlotDest(log, EngineBase(c.layout, spec.programs[k].index), selector).Some? ==>
            exists i, j :: IsChannel(spec, k, i, j) && ConstantAt(c.layout, spec, k, i, j).selector == selector)
  }

  /** The noise generator lists every random channel. */
  ghost predicate NoiseMeant(c: Config, spec: Spec, log: seq<Store>) {
    var noise, dests := c.layout.noiseGenerator, AllDests(spec, spec.programs);
    && Register(log, noise) == |dests|
    && forall i: nat :: i < |dests| ==> ReadBack(log, Output(noise, i)) == Some(dests[i])
  }

  /**
   Compiling preserves meaning: whatever else it writes, the deployment leaves every core's tables, memory,
   constants and channel count, and the noise generator, as the specification has them, part by part.
   */
  lemma {:induction false} DeploymentMeansSpecification(c: Config, spec: Spec, ivs: InitialValues)
    requires Fitted(c, spec, ivs) && AllBounded(spec, spec.programs)
    requires RandomsInPrograms(spec, spec.programs) < 0x1_0000_0000
    ensures forall k :: 0 <= k < |spec.programs| ==> RegistersMeant(c, spec, ivs, Log(c, spec, ivs), k)
    ensures forall k :: 0 <= k < |spec.programs| ==> ConstantsMeant(c, spec, Log(c, spec, ivs), k)
    ensures NoiseMeant(c, spec, Log(c, spec, ivs))
  {
    hide Deployable, Placed, LayoutClear, Log, DeployPhase, RegistersMeant, ConstantsMeant, AllBounded, Register;
    FittedParts(c, spec, ivs);
    NoiseDecodes(c, spec, ivs);
    forall k | 0 <= k < |spec.programs|
      ensures RegistersMeant(c, spec, ivs, Log(c, spec, ivs), k) && ConstantsMeant(c, spec, Log(c, spec, ivs), k)
    {
      RegistersAreMeant(c, spec, ivs, k);
      ConstantsAreMeant(c, spec, ivs, k);
    }
  }

  lemma RegistersAreMeant(c: Config, spec: Spec, ivs: InitialValues, k: nat)
    requires Fitted(c, spec, ivs) && k < |spec.programs|
    ensures RegistersMeant(c, spec, ivs, Log(c, spec, ivs), k)
  {
    hide Deployable, DeployPhase, LayoutClear, Log, ReadBack, WordAt, MemoryWord, DecodeDma, Meanings, Decoded,
      TableRead,
      Entries, Memories, RunChannels, ControlBase, SpillIsHarmless, TableSpared, IsMemory, IsOwnMemory, AllInRange,
      InitialsDefined, AllDefined, StaysInBlock;
    var log, p := Log(c, spec, ivs), spec.programs[k];
    assert p in spec.programs;
    FittedParts(c, spec, ivs);
    BlockBounds(c, spec, ivs);
    if TableSpared(c.layout, spec, p) { TablesDecode(c, spec, ivs, k); }
    CoresDecode(c, spec, ivs, k);
    forall word: nat |
      IsMemory(c.layout, word)
      && (MemoryWord(Memories(spec, p.name), p.channels, word).Some?
          || IsOwnMemory(c.layout, |Entries(spec.slots, p.name)|, word))
      ensures ReadBack(log, WordAt(ControlBase(c.layout, p.index), word))
           == MemoryWord(Memories(spec, p.name), p.channels, word)
    {
      MemoriesDecode(c, spec, ivs, k, word);
    }
  }

  lemma ConstantsAreMeant(c: Config, spec: Spec, ivs: InitialValues, k: nat)
    requires Fitted(c, spec, ivs) && AllBounded(spec, spec.programs) && k < |spec.programs|
    ensures ConstantsMeant(c, spec, Log(c, spec, ivs), k)
  {
    hide Deployable, DeployPhase, Placed, WindowsClear, Log, SlotDest, SlotValue, Dest, Given, Selector, EngineBase,
      AllBounded, ConstantsIn, EngineSpared, IsConstant, Width;
    var log := Log(c, spec, ivs);
    FittedParts(c, spec, ivs);
    assert spec.programs[k] in spec.programs;
    forall i: nat, j: nat | IsChannel(spec, k, i, j)
      ensures var m := ConstantAt(c.layout, spec, k, i, j);
        && SlotDest(log, m.base, m.selector) == Some(Dest(InputAt(spec, k, i), j))
        && HasValue(InputAt(spec, k, i), j)
        && SlotValue(log, m.base, m.selector) == Some(Given(InputAt(spec, k, i), j))
    {
      ConstantSlot(c, spec, ivs, k, i, j);
    }
    forall selector: nat |
      EngineSpared(c.layout, spec, spec.programs[k])
      && SlotDest(log, EngineBase(c.layout, spec.programs[k].index), selector).Some?
      ensures exists i, j :: IsChannel(spec, k, i, j) && ConstantAt(c.layout, spec, k, i, j).selector == selector
    {
      OnlyConstants(c, spec, ivs, k, selector);
    }
  }

  // ----- after any run

  /** Known inputs sit in the engines of cores below 32, whichever specifications they come from. */
  ghost predicate SeatedInArea(layout: Layout, inputs: seq<InputMetadata>) {
    forall m :: m in inputs ==> exists index: nat :: index < MAX_CORES && m.base == EngineBase(layout, index)
  }

  lemma {:induction false} CallUpdates(inputs: seq<InputMetadata>, call: SetCall)
    ensures forall e :: e in SetInputEffects(inputs, call) ==> e.UpdateConstant? && e.known in inputs
  {
    hide Matches, Converted;
    if inputs != [] {
      CallUpdates(inputs[..|inputs| - 1], call);
      assert inputs == inputs[..|inputs| - 1] + [inputs[|inputs| - 1]];
    }
  }

  lemma {:induction false} RunUpdates(inputs: seq<InputMetadata>, calls: seq<SetCall>)
    ensures forall e :: e in RunEffects(inputs, calls) ==> e.UpdateConstant? && e.known in inputs
  {
    hide SetInputEffects;
    if calls != [] {
      RunUpdates(inputs, calls[..|calls| - 1]);
      CallUpdates(inputs, calls[|calls| - 1]);
    }
  }

  /** A window clear of the engines of all known inputs sees nothing of a run of set_input calls. */
  lemma RunUnseen(es: seq<Effect>, inputs: seq<InputMetadata>, calls: seq<SetCall>, lo: nat, hi: nat)
    requires lo <= hi && forall m :: m in inputs ==> Clear(m.base, ENGINE_SIZE, lo, hi - lo)
    ensures Project(Stores(es + RunEffects(inputs, calls)), lo, hi) == Project(Stores(es), lo, hi)
  {
    hide Project, Stores, RunEffects;
    var run := RunEffects(inputs, calls);
    RunUpdates(inputs, calls);
    forall e | e in run ensures Outside(StoresOf(e), lo, hi) {
      assert Clear(e.known.base, ENGINE_SIZE, lo, hi - lo);
    }
    StoresOutside(run, lo, hi);
    ProjectOutside(Stores(run), lo, hi);
    StoresAppend(es, run);
    ProjectAppend(Stores(es), Stores(run), lo, hi);
    assert Project(Stores(es), lo, hi) + [] == Project(Stores(es), lo, hi);
  }

  lemma RunUnread(es: seq<Effect>, inputs: seq<InputMetadata>, calls: seq<SetCall>, lo: nat, hi: nat, a: nat)
    requires lo <= a < hi && forall m :: m in inputs ==> Clear(m.base, ENGINE_SIZE, lo, hi - lo)
    ensures ReadBack(Stores(es + RunEffects(inputs, calls)), a) == ReadBack(Stores(es), a)
  {
    hide Project, Stores, RunEffects, ReadBack;
    RunUnseen(es, inputs, calls, lo, hi);
    ReadBackProject(Stores(es + RunEffects(inputs, calls)), lo, hi, a);
    ReadBackProject(Stores(es), lo, hi, a);
  }

  /** A part of a core's block off its engine is clear of all engines. */
  lemma EnginesElsewhere(layout: Layout, inputs: seq<InputMetadata>, i: nat, lo: nat, hi: nat)
    requires BlockOrdered(layout) && SeatedInArea(layout, inputs) && lo <= hi <= layout.controlStride
    requires hi <= layout.coresInputs || layout.coresInputs + ENGINE_SIZE <= lo
    ensures forall m :: m in inputs ==> Clear(m.base, ENGINE_SIZE, ControlBase(layout, i) + lo, hi - lo)
  {
    forall m | m in inputs ensures Clear(m.base, ENGINE_SIZE, ControlBase(layout, i) + lo, hi - lo) {
      var j: nat :| j < MAX_CORES && m.base == EngineBase(layout, j);
      if i != j { BlocksApart(layout, i, j); }
    }
  }

  /** A window clear of the cores is. */
  lemma EnginesInArea(layout: Layout, inputs: seq<InputMetadata>, window: nat, length: nat)
    requires BlockOrdered(layout) && SeatedInArea(layout, inputs)
    requires Clear(window, length, layout.coresControl, MAX_CORES * layout.controlStride)
    ensures forall m :: m in inputs ==> Clear(m.base, ENGINE_SIZE, window, length)
  {
    hide EngineBase;
    forall m | m in inputs ensures Clear(m.base, ENGINE_SIZE, window, length) {
      var j: nat :| j < MAX_CORES && m.base == EngineBase(layout, j);
      EngineInArea(layout, j);
    }
  }

  /**
   Setting inputs changes constants only: after a deployment and any run of set_input calls, with any inputs known
   from before, every table, memory and channel count, the noise generator and the schedule are as deployed.
   */
  lemma {:induction false} RunKeepsMeaning(c: Config, spec: Spec, ivs: InitialValues, inputs: seq<InputMetadata>,
                                           calls: seq<SetCall>)
    requires Fitted(c, spec, ivs) && RandomsInPrograms(spec, spec.programs) < 0x1_0000_0000
    requires SeatedInArea(c.layout, inputs)
    ensures Convertible(c.clock, Timebase(spec.programs))
    ensures var log := Stores(DeployPhase(c, spec, ivs).effects + RunEffects(inputs, calls));
      && (forall k :: 0 <= k < |spec.programs| ==> RegistersMeant(c, spec, ivs, log, k))
      && NoiseMeant(c, spec, log)
      && CoresOf(c, spec.programs, log) == SpecCores(c, spec.programs)
      && PeriodOf(c, log) == SpecPeriod(c, spec.programs)
  {
    hide Placed, LayoutClear, DeployPhase, RegistersMeant, SeatedInArea, Stores, RunEffects, NoiseMeant,
      SpecCores, CoresOf, PeriodOf, SpecPeriod, Fitted, Deployable, RandomsInPrograms,
      SmallIndices, DistinctIndices, DistinctPrograms, MemoriesDefined, InitialsReady, EntriesInRange, Connected;
    FittedParts(c, spec, ivs);
    forall k | 0 <= k < |spec.programs|
      ensures RegistersMeant(c, spec, ivs, Stores(DeployPhase(c, spec, ivs).effects + RunEffects(inputs, calls)), k)
    {
      RegistersKept(c, spec, ivs, inputs, calls, k);
    }
    NoiseKept(c, spec, ivs, inputs, calls);
    RunsAsSpecified(c, spec, ivs);
    ScheduleKept(c, spec, ivs, inputs, calls);
  }

  lemma RegistersKept(c: Config, spec: Spec, ivs: InitialValues, inputs: seq<InputMetadata>, calls: seq<SetCall>,
                      k: nat)
    requires Fitted(c, spec, ivs) && SeatedInArea(c.layout, inputs) && k < |spec.programs|
    ensures RegistersMeant(c, spec, ivs, Stores(DeployPhase(c, spec, ivs).effects + RunEffects(inputs, calls)), k)
  {
    hide Deployable, DeployPhase, WindowsClear, ReadBack, MemoryWord, DecodeDma, Meanings, Decoded, TableRead, Entries,
      Memories, RunChannels, SpillIsHarmless, AllInRange, InitialsDefined, AllDefined, StaysInBlock,
      SeatedInArea, Stores, RunEffects, ControlBase, Project, TableSpan, Register, TableSpared, IsOwnMemory;
    var p, es := spec.programs[k], DeployPhase(c, spec, ivs).effects;
    var log, n := Stores(es + RunEffects(inputs, calls)), |Entries(spec.slots, p.name)|;
    var base := ControlBase(c.layout, p.index);
    assert p in spec.programs;
    FittedParts(c, spec, ivs);
    BlockBounds(c, spec, ivs);
    RegistersAreMeant(c, spec, ivs, k);
    EnginesElsewhere(c.layout, inputs, p.index, 0, 4);
    RunUnread(es, inputs, calls, base, base + 4, base);
    if TableSpared(c.layout, spec, p) { TableKept(c, spec, ivs, inputs, calls, k); }
    forall word: nat |
      IsMemory(c.layout, word)
      && (MemoryWord(Memories(spec, p.name), p.channels, word).Some? || IsOwnMemory(c.layout, n, word))
      ensures ReadBack(log, WordAt(base, word)) == MemoryWord(Memories(spec, p.name), p.channels, word)
    {
      EnginesElsewhere(c.layout, inputs, p.index, 4 * word, 4 * word + 4);
      RunUnread(es, inputs, calls, base + 4 * word, base + (4 * word + 4), base + 4 * word);
    }
  }

  lemma TableKept(c: Config, spec: Spec, ivs: InitialValues, inputs: seq<InputMetadata>, calls: seq<SetCall>, k: nat)
    requires Fitted(c, spec, ivs) && SeatedInArea(c.layout, inputs) && k < |spec.programs|
    requires TableSpared(c.layout, spec, spec.programs[k])
    ensures DecodeDma(Stores(DeployPhase(c, spec, ivs).effects + RunEffects(inputs, calls)),
                      DmaBase(c.layout, spec.programs[k].index))
         == DecodeDma(Log(c, spec, ivs), DmaBase(c.layout, spec.programs[k].index))
  {
    hide Deployable, DeployPhase, Placed, WindowsClear, DecodeDma, Entries, WordsOutside, SeatedInArea, Stores,
      RunEffects, ControlBase, Project, TableSpan;
    var es, base := DeployPhase(c, spec, ivs).effects, ControlBase(c.layout, spec.programs[k].index);
    var d, n := c.layout.dmaOffset, |Entries(spec.slots, spec.programs[k].name)|;
    BlockBounds(c, spec, ivs);
    EnginesElsewhere(c.layout, inputs, spec.programs[k].index, d, d + TableSpan(n));
    RunUnseen(es, inputs, calls, base + d, base + (d + TableSpan(n)));
    SameTable(c, spec, ivs, Stores(es + RunEffects(inputs, calls)), k);
  }

  /** A log that looks like the deployment's in a core's table window decodes like it. */
  lemma SameTable(c: Config, spec: Spec, ivs: InitialValues, log: seq<Store>, k: nat)
    requires Fitted(c, spec, ivs) && k < |spec.programs| && TableSpared(c.layout, spec, spec.programs[k])
    requires var dma, n := DmaBase(c.layout, spec.programs[k].index), |Entries(spec.slots, spec.programs[k].name)|;
      Project(log, dma, dma + TableSpan(n)) == Project(Log(c, spec, ivs), dma, dma + TableSpan(n))
    ensures DecodeDma(log, DmaBase(c.layout, spec.programs[k].index))
         == DecodeDma(Log(c, spec, ivs), DmaBase(c.layout, spec.programs[k].index))
  {
    hide Deployable, DeployPhase, Placed, LayoutClear, Log, Connected, Entries, TableLog, Project, DecodeDma,
      InitialsDefined, AllInRange, DmaBase, Register, WordsOutside, TableSpan;
    var es, dma := Entries(spec.slots, spec.programs[k].name), DmaBase(c.layout, spec.programs[k].index);
    DmaWindow(c, spec, ivs, k);
    DecodedCount(es, dma, Connected(spec, ivs));
    CountIsRegister(TableLog(es, dma, Connected(spec, ivs)), dma);
    DecodeInWindow(Log(c, spec, ivs), dma, |es|);
    DecodeInWindow(log, dma, |es|);
  }

  lemma NoiseKept(c: Config, spec: Spec, ivs: InitialValues, inputs: seq<InputMetadata>, calls: seq<SetCall>)
    requires Fitted(c, spec, ivs) && RandomsInPrograms(spec, spec.programs) < 0x1_0000_0000
    requires SeatedInArea(c.layout, inputs)
    ensures NoiseMeant(c, spec, Stores(DeployPhase(c, spec, ivs).effects + RunEffects(inputs, calls)))
  {
    hide Deployable, DeployPhase, Placed, ReadBack, SeatedInArea, Stores, RunEffects, RandomsInPrograms;
    var es, noise, randoms := DeployPhase(c, spec, ivs).effects, c.layout.noiseGenerator,
                              RandomsInPrograms(spec, spec.programs);
    FittedParts(c, spec, ivs);
    NoiseDecodes(c, spec, ivs);
    EnginesInArea(c.layout, inputs, noise, 4 * (randoms + 1));
    RunUnread(es, inputs, calls, noise, noise + 4 * (randoms + 1), noise);
    forall i: nat | i < randoms
      ensures ReadBack(Stores(es + RunEffects(inputs, calls)), Output(noise, i))
           == Some(AllDests(spec, spec.programs)[i])
    {
      RunUnread(es, inputs, calls, noise, noise + 4 * (randoms + 1), Output(noise, i));
    }
  }

  lemma ScheduleKept(c: Config, spec: Spec, ivs: InitialValues, inputs: seq<InputMetadata>, calls: seq<SetCall>)
    requires Scheduled(c, spec, ivs) && SeatedInArea(c.layout, inputs)
    ensures var log := Stores(DeployPhase(c, spec, ivs).effects + RunEffects(inputs, calls));
      && CoresOf(c, spec.programs, log) == CoresOf(c, spec.programs, Log(c, spec, ivs))
      && PeriodOf(c, log) == PeriodOf(c, Log(c, spec, ivs))
  {
    hide Deployable, DeployPhase, SmallIndices, ReadBack, SeatedInArea, Stores, RunEffects, Length;
    var es, ps := DeployPhase(c, spec, ivs).effects, spec.programs;
    var s, t := c.layout.controller + c.layout.sequencerOffset, c.layout.controller + c.layout.timebaseOffset;
    AcceptedParts(c, spec, ivs);
    EnginesInArea(c.layout, inputs, s, 4 + 4 * MAX_CORES);
    EnginesInArea(c.layout, inputs, t, 8 + 4 * MAX_CORES);
    RunUnread(es, inputs, calls, t, t + (8 + 4 * MAX_CORES), PeriodRegister(c.layout));
    var log := Stores(es + RunEffects(inputs, calls));
    forall k: nat | k < |ps| ensures CoreOf(c, ps, log, k) == CoreOf(c, ps, Log(c, spec, ivs), k) {
      RunUnread(es, inputs, calls, s, s + (4 + 4 * MAX_CORES), Divisor(c.layout, k));
      RunUnread(es, inputs, calls, t, t + (8 + 4 * MAX_CORES), Threshold(c.layout, k));
    }
  }
}

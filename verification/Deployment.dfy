/**
 A whole deployment as the list of effects it has, phase by phase: programs, output DMA, memories, inputs,
 sequencer, cores.
 */
module Deployment {
  import opened Specification
  import opened Effects
  import opened Rates
  import opened Schedule
  import opened DmaTable
  import opened CoreMemory
  import opened CoreInputs
  import opened Sequencer
  import opened Interconnect
  import opened Reciprocal
  import Arithmetic

  /** What does not change between deployments. */
  datatype Config = Config(
    layout: Layout,
    clock: real,
    isa: Isa,
    fullCoresOverride: bool,
    sort: Schedule.Sorting)

  // ----- per-name tables: a later program of the same name overwrites

  function Latest(ps: seq<Program>, name: string): Option<Program> {
    if ps == [] then None
    else if ps[|ps| - 1].name == name then Some(ps[|ps| - 1])
    else Latest(ps[..|ps| - 1], name)
  }

  /** The program whose index, order and channels the tables hold for p. */
  function Recorded(ps: seq<Program>, p: Program): Program {
    match Latest(ps, p.name)
    case None => p
    case Some(q) => q
  }

  ghost predicate DistinctPrograms(ps: seq<Program>) {
    forall i, j :: 0 <= i < j < |ps| ==> ps[i].name != ps[j].name
  }

  lemma {:induction false} LatestOf(ps: seq<Program>, k: nat)
    requires k < |ps|
    ensures Latest(ps, ps[k].name).Some?
    ensures DistinctPrograms(ps) ==> Latest(ps, ps[k].name) == Some(ps[k])
  {
    if k < |ps| - 1 { LatestOf(ps[..|ps| - 1], k); }
  }

  /** For every program of a name the tables hold the last one of that name. */
  lemma {:induction false} RecordedLast(ps: seq<Program>, p: Program, last: nat)
    requires last < |ps| && ps[last].name == p.name && forall i :: last < i < |ps| ==> ps[i].name != p.name
    ensures Recorded(ps, p) == ps[last]
  {
    if last < |ps| - 1 { RecordedLast(ps[..|ps| - 1], p, last); }
  }

  lemma RecordedSelf(ps: seq<Program>, k: nat)
    requires k < |ps| && DistinctPrograms(ps)
    ensures Recorded(ps, ps[k]) == ps[k]
  {
    LatestOf(ps, k);
  }

  /** Channels a core is run with. */
  function ScannedChannels(c: Config, p: Program): Word {
    if HasReciprocal(c.isa, Code(p.binary, 2)) || c.fullCoresOverride then 11 else 8
  }

  function RunChannels(c: Config, ps: seq<Program>, p: Program): Word {
    ScannedChannels(c, Recorded(ps, p))
  }

  /** Cycles a core takes, in 32-bit arithmetic. */
  function Length(c: Config, ps: seq<Program>, p: Program): Word {
    Wrap32(p.fixedLength + RunChannels(c, ps, p) * p.perChannelLength)
  }

  function ControlBase(layout: Layout, index: nat): nat {
    layout.coresControl + layout.controlStride * index
  }

  function DmaBase(layout: Layout, index: nat): nat {
    ControlBase(layout, index) + layout.dmaOffset
  }

  // ----- schedule

  function Frequencies(ps: seq<Program>): seq<nat> {
    seq(|ps|, k requires 0 <= k < |ps| => ps[k].samplingFrequency)
  }

  function Timebase(ps: seq<Program>): nat {
    Arithmetic.LcmAll(Frequencies(ps))
  }

  function DividersFor(timebase: nat, ps: seq<Program>): seq<nat> {
    seq(|ps|, k requires 0 <= k < |ps| => Divider(timebase, ps[k].samplingFrequency))
  }

  function Dividers(ps: seq<Program>): seq<nat> {
    DividersFor(Timebase(ps), ps)
  }

  function RatedCores(c: Config, ps: seq<Program>): seq<RatedCore> {
    seq(|ps|, k requires 0 <= k < |ps| =>
      RatedCore(ps[k].samplingFrequency, Length(c, ps, ps[k])))
  }

  function SlotsOf(c: Config, ps: seq<Program>): seq<Schedule.SlotData> {
    seq(|ps|, k requires 0 <= k < |ps| =>
      Schedule.SlotData(ps[k].name, Recorded(ps, ps[k]).order, Length(c, ps, ps[k])))
  }

  /** Start offsets in program order, in 32-bit arithmetic. */
  function Shifts(sort: Schedule.Sorting, data: seq<Schedule.SlotData>): seq<Word> {
    var table := StartTable(sort(data));
    seq(|data|, k requires 0 <= k < |data| => if data[k].name in table then Wrap32(table[data[k].name]) else 0)
  }

  function MinTimebase(data: seq<Schedule.SlotData>): Word {
    Wrap32(Total(data))
  }

  /** The clock over the timebase is converted to uint32_t, which is defined only below 2^32. */
  predicate Convertible(clock: real, timebase: nat) {
    clock > 0.0 && (timebase == 0 || clock / timebase as real < 4294967296.0)
  }

  /** The frame period written: the sum of all slots, or the clock over the timebase. */
  function Period(clock: real, timebase: nat, minTimebase: Word): Word
    requires Convertible(clock, timebase)
  {
    if timebase == 0 then minTimebase else (clock / timebase as real).Floor
  }

  /** The timebase fits the int it is folded in, and the period the register it is converted for. */
  ghost predicate ScheduleDefined(c: Config, ps: seq<Program>) {
    FoldDefined(Frequencies(ps)) && Timebase(ps) < 0x8000_0000 && Convertible(c.clock, Timebase(ps))
  }

  // ----- phases

  function LoadEffects(layout: Layout, ps: seq<Program>): seq<Effect> {
    if ps == [] then []
    else
      var p := ps[|ps| - 1];
      LoadEffects(layout, ps[..|ps| - 1]) + [Load(layout.coresRom + p.index * layout.romStride, p.binary)]
  }

  /** Initial values cover every channel the deployed tables ask for. */
  ghost predicate InitialsReady(spec: Spec, ivs: InitialValues) {
    forall p, e :: p in spec.programs && e in spec.slots && e.sourceId == p.name && InRange(e) ==>
      InitialDefined(e, ivs)
  }

  lemma {:induction false} EntriesFrom(slots: seq<Slot>, core: string)
    ensures forall e :: e in Entries(slots, core) <==> e in slots && e.sourceId == core
  {
    if slots != [] {
      var n := |slots| - 1;
      EntriesFrom(slots[..n], core);
      assert slots == slots[..n] + [slots[n]];
    }
  }

  lemma EntriesReady(spec: Spec, p: Program, ivs: InitialValues)
    requires InitialsReady(spec, ivs) && p in spec.programs
    ensures InitialsDefined(Entries(spec.slots, p.name), ivs)
  {
    EntriesFrom(spec.slots, p.name);
  }

  /** The table of the k-th program. */
  function DmaOf(c: Config, spec: Spec, ivs: InitialValues, k: nat): Phase
    requires InitialsReady(spec, ivs) && k < |spec.programs|
  {
    var p := spec.programs[k];
    EntriesReady(spec, p, ivs);
    CoreRun(Entries(spec.slots, p.name), DmaBase(c.layout, Recorded(spec.programs, p).index), p.channels, ivs)
  }

  /** The tables of the first n programs, up to the first rejected entry. */
  function DmaPhase(c: Config, spec: Spec, ivs: InitialValues, n: nat): Phase
    requires InitialsReady(spec, ivs) && n <= |spec.programs|
  {
    if n == 0 then Phase([], true)
    else
      var before := DmaPhase(c, spec, ivs, n - 1);
      if !before.ok then before
      else
        var own := DmaOf(c, spec, ivs, n - 1);
        Phase(before.effects + own.effects, own.ok)
  }

  ghost predicate MemoriesDefined(spec: Spec) {
    forall p :: p in spec.programs ==> AllDefined(Memories(spec, p.name), p.channels)
  }

  function MemoryPhase(c: Config, spec: Spec, n: nat): seq<Effect>
    requires MemoriesDefined(spec) && n <= |spec.programs|
  {
    if n == 0 then []
    else
      var p := spec.programs[n - 1];
      MemoryPhase(c, spec, n - 1)
      + MemoryEffects(Memories(spec, p.name), ControlBase(c.layout, Recorded(spec.programs, p).index), p.channels)
  }

  function CorePhase(c: Config, ps: seq<Program>, n: nat): seq<Effect>
    requires n <= |ps|
  {
    if n == 0 then []
    else
      CorePhase(c, ps, n - 1)
      + [Write(ControlBase(c.layout, ps[n - 1].index), RunChannels(c, ps, ps[n - 1]))]
  }

  ghost predicate InputsDefined(spec: Spec) {
    forall p, input :: p in spec.programs && input in Inputs(spec, p.name) ==> InputDefined(input, p.channels)
  }

  /** What a specification must provide for the deployment to be defined; more than 32 cores get nowhere. */
  ghost predicate Deployable(c: Config, spec: Spec, ivs: InitialValues) {
    |spec.programs| <= MAX_CORES ==>
      && spec.programs != []
      && ScheduleDefined(c, spec.programs)
      && MemoriesDefined(spec)
      && InitialsReady(spec, AfterConnections(ivs, spec.slots, spec.programs))
      && InputsDefined(spec)
  }

  function SequencerPhase(c: Config, ps: seq<Program>): seq<Effect>
    requires Convertible(c.clock, Timebase(ps))
  {
    var data := SlotsOf(c, ps);
    SequencerEffects(c.layout, Dividers(ps), Shifts(c.sort, data), Period(c.clock, Timebase(ps), MinTimebase(data)))
  }

  /** Everything after the DMA tables. */
  function LatePhases(c: Config, spec: Spec): seq<Effect>
    requires Convertible(c.clock, Timebase(spec.programs)) && MemoriesDefined(spec)
  {
    MemoryPhase(c, spec, |spec.programs|)
    + AllInputEffects(c.layout, spec, spec.programs)
    + SequencerPhase(c, spec.programs)
    + CorePhase(c, spec.programs, |spec.programs|)
  }

  /** The whole deployment; more than 32 cores are refused before anything is written. */
  function DeployPhase(c: Config, spec: Spec, ivs: InitialValues): Phase
    requires Deployable(c, spec, ivs)
  {
    if |spec.programs| > MAX_CORES then Phase([], false)
    else
      var dma := DmaPhase(c, spec, AfterConnections(ivs, spec.slots, spec.programs), |spec.programs|);
      var early := LoadEffects(c.layout, spec.programs) + dma.effects;
      if dma.ok then Phase(early + LatePhases(c, spec), true) else Phase(early, false)
  }
}

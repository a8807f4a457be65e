/**
 The two-core system of the repository's test of multichannel initial values, deployed in the model: two channels, a
 connection that hands its values over, execution orders against the list order, and two rates.
 */
module TwoCoreSystem {
  import opened Operations
  import opened Specification
  import opened Arithmetic
  import opened Bits
  import opened RegisterLog
  import opened Effects
  import opened Schedule
  import opened Rates
  import opened ChannelFormat
  import opened DmaTable
  import opened CoreInputs
  import opened Sequencer
  import opened Interconnect
  import opened Deployment
  import opened Regions
  import opened FinalLog
  import Reciprocal

  /** 32.0 and 64.0, and 50.0, as float patterns. */
  const EXTERNAL: Input := Input("input", OtherSource, 1, [0x4200_0000, 0x4280_0000], true)
  const CONSTANT: Input := Input("input", Constant, 3, [0x4248_0000], true)

  const F0: Slot := Slot("fast_core", "out", 2, 0, "", "", 3, 0, true, 32, true)
  const F1: Slot := F0.(sourceChannel := 1, destinationBus := 4, destinationChannel := 1)
  const S0: Slot := Slot("slow_core", "out", 1, 0, "fast_core", "input", 1, 0, true, 32, true)
  const S1: Slot := S0.(sourceChannel := 1, destinationChannel := 1)

  const INITIALS: InitialValues := map[("slow_core", "out") := [0x4200_0000, 0x4280_0000]]

  /** What the compiler gives a core. */
  datatype Image = Image(binary: seq<Word>, fixedLength: nat, perChannelLength: nat)

  function Fast(i: Image): Program {
    Program("fast_core", 0, 2, 100, 2, i.binary, i.fixedLength, i.perChannelLength, [EXTERNAL])
  }

  function Slow(i: Image): Program {
    Program("slow_core", 1, 1, 50, 2, i.binary, i.fixedLength, i.perChannelLength, [CONSTANT])
  }

  function System(f: Image, s: Image): Spec {
    Spec([Fast(f), Slow(s)], [F0, F1, S0, S1], map["fast_core" := [EXTERNAL], "slow_core" := [CONSTANT]], map[])
  }

  function Settings(isa: Reciprocal.Isa, sort: Sorting): Config {
    Config(REPOSITORY_LAYOUT, 100000000.0, isa, true, sort)
  }

  // ----- the connection

  lemma Handed(f: Image, s: Image)
    ensures var ps := [Fast(f), Slow(s)];
      && ConnectedValue(ps, F0).None? && ConnectedValue(ps, F1).None?
      && ConnectedValue(ps, S0) == Some([0x4200_0000, 0x4280_0000])
      && ConnectedValue(ps, S1) == Some([0x4200_0000, 0x4280_0000])
  {
    var ps := [Fast(f), Slow(s)];
    assert ps[..1] == [Fast(f)] && ps[..1][..0] == [] && [EXTERNAL][..0] == [];
    assert InputValue([EXTERNAL], 2, "input") == Some([0x4200_0000, 0x4280_0000]);
    assert ConnectedValue([], F0).None? && ConnectedValue([], F1).None?;
    assert "" != "fast_core" && "" != "slow_core" by { assert |"fast_core"| == 9 && |"slow_core"| == 9; }
    assert ConnectedValue([Fast(f)], F0).None? && ConnectedValue([Fast(f)], F1).None?;
    assert "fast_core" != "slow_core" by { assert "fast_core"[0] != "slow_core"[0]; }
  }

  lemma Connections(f: Image, s: Image)
    ensures Connected(System(f, s), map[]) == INITIALS
  {
    hide ConnectedValue;
    var ps, slots := [Fast(f), Slow(s)], [F0, F1, S0, S1];
    Handed(f, s);
    assert slots[..3] == [F0, F1, S0] && slots[..3][..2] == [F0, F1] && [F0, F1][..1] == [F0] && [F0][..0] == [];
    assert AfterConnections(map[], [], ps) == map[];
    assert AfterConnections(map[], [F0], ps) == map[];
    assert AfterConnections(map[], [F0, F1], ps) == map[];
    assert AfterConnections(map[], [F0, F1, S0], ps) == INITIALS;
  }

  lemma Tables()
    ensures Entries([F0, F1, S0, S1], "fast_core") == [F0, F1]
    ensures Entries([F0, F1, S0, S1], "slow_core") == [S0, S1]
    ensures InRange(F0) && InRange(F1) && InRange(S0) && InRange(S1)
  {
    var slots := [F0, F1, S0, S1];
    assert slots[..3] == [F0, F1, S0] && slots[..3][..2] == [F0, F1] && [F0, F1][..1] == [F0] && [F0][..0] == [];
    assert Entries([], "fast_core") == [] && Entries([], "slow_core") == [];
    assert Entries([F0], "fast_core") == [F0] && Entries([F0], "slow_core") == [];
    assert Entries([F0, F1], "fast_core") == [F0, F1] && Entries([F0, F1], "slow_core") == [];
    assert Entries([F0, F1, S0], "fast_core") == [F0, F1] && Entries([F0, F1, S0], "slow_core") == [S0];
  }

  // ----- the phases

  lemma Words()
    ensures Mapping(F0) == 0x0003_0002 && Mapping(F1) == 0x1004_1002
    ensures Mapping(S0) == 0x0001_0001 && Mapping(S1) == 0x1001_1001
    ensures Format(F0) == 0x38 && Format(F1) == 0x38 && Format(S0) == 0x38 && Format(S1) == 0x38
  {
    hide And, Or, Shl, Portion;
    PortionFields(2, 0);
    PortionFields(2, 1);
    PortionFields(3, 0);
    PortionFields(4, 1);
    PortionFields(1, 0);
    PortionFields(1, 1);
    PackPortions(2, 3);
    PackPortions(0x1002, 0x1004);
    PackPortions(1, 1);
    PackPortions(0x1001, 0x1001);
    FloatWidthReadsSixteen();
  }

  lemma FastTable()
    ensures AllInRange([F0, F1]) && InitialsDefined([F0, F1], INITIALS)
    ensures TableLog([F0, F1], 0x4_43C5_1000, INITIALS)
         == [Store(0x4_43C5_100C, 0x0003_0002), Store(0x4_43C5_104C, 0x38),
             Store(0x4_43C5_1010, 0x1004_1002), Store(0x4_43C5_1050, 0x38), Store(0x4_43C5_1000, 2)]
  {
    hide Mapping, Format;
    Words();
    assert [F0, F1][..1] == [F0] && [F0][..0] == [];
    assert TableStores([], 0x4_43C5_1000, INITIALS) == [];
    assert TableStores([F0], 0x4_43C5_1000, INITIALS)
        == [Store(0x4_43C5_100C, 0x0003_0002), Store(0x4_43C5_104C, 0x38)];
  }

  lemma SlowTable()
    ensures AllInRange([S0, S1]) && InitialsDefined([S0, S1], INITIALS)
    ensures TableLog([S0, S1], 0x4_43C6_1000, INITIALS)
         == [Store(0x4_43C6_100C, 0x0001_0001), Store(0x4_43C6_1008, 0), Store(0x4_43C6_1004, 0x4200_0000),
             Store(0x4_43C6_104C, 0x38),
             Store(0x4_43C6_1010, 0x1001_1001), Store(0x4_43C6_1008, 1), Store(0x4_43C6_1004, 0x4280_0000),
             Store(0x4_43C6_1050, 0x38), Store(0x4_43C6_1000, 2)]
  {
    hide Mapping, Format;
    Words();
    assert [S0, S1][..1] == [S0] && [S0][..0] == [];
    assert TableStores([], 0x4_43C6_1000, INITIALS) == [];
    assert TableStores([S0], 0x4_43C6_1000, INITIALS)
        == [Store(0x4_43C6_100C, 0x0001_0001), Store(0x4_43C6_1008, 0), Store(0x4_43C6_1004, 0x4200_0000),
            Store(0x4_43C6_104C, 0x38)];
  }

  lemma NoRandoms(f: Image, s: Image)
    ensures var ps, spec := [Fast(f), Slow(s)], System(f, s);
      && RandomsInPrograms(spec, [Fast(f)]) == 0 && RandomsInPrograms(spec, ps) == 0
      && RandomsIn([EXTERNAL], 2) == 0 && RandomsIn([CONSTANT], 2) == 0
  {
    assert [EXTERNAL][..0] == [] && [CONSTANT][..0] == [];
    assert RandomsIn([], 2) == 0;
    assert [Fast(f), Slow(s)][..1] == [Fast(f)] && [Fast(f)][..0] == [];
    assert RandomsInPrograms(System(f, s), []) == 0;
  }

  /** The effects of a list of one input, without random ones before. */
  lemma OneInput(p: Program, input: Input)
    requires RandomsIn([input], p.channels) == 0
    ensures ProgramInputEffects(REPOSITORY_LAYOUT, p, [input], 0) == InputEffects(REPOSITORY_LAYOUT, p, input, 0, 0)
  {
    hide InputEffects;
    assert [input][..0] == [] && RandomsIn([], p.channels) == 0 && ConstantsIn([]) == 0;
    assert InputsEffects(REPOSITORY_LAYOUT, p, [], 0) == [];
  }

  lemma ExternalStores(p: Program)
    requires p.channels == 2
    ensures Stores(InputEffects(REPOSITORY_LAYOUT, p, EXTERNAL, 0, 0)) == []
  {
    hide InputPath;
    var l := REPOSITORY_LAYOUT;
    assert MultiEffects(l, p, EXTERNAL, 0, 0, 0) == [];
    var t0, t1 := TouchInput(InputPath(p.name, "input", 0, true), p.index),
                  TouchInput(InputPath(p.name, "input", 1, true), p.index);
    assert MultiEffects(l, p, EXTERNAL, 0, 1, 0) == [t0];
    assert MultiEffects(l, p, EXTERNAL, 0, 2, 0) == [t0] + [t1];
    var last := TouchInput(LastPath(p, EXTERNAL), p.index);
    StoresAppend([t0] + [t1], [last]);
    StoresAppend([t0], [t1]);
    StoresOne(t0);
    StoresOne(t1);
    StoresOne(last);
  }

  /** One channel of a constant: a label, the command, and the core index. */
  lemma ChannelStores(p: Program, input: Input, j: nat)
    requires input.source.Constant? && |input.data| == 1 && input.address < 0x1_0000 && j < 2
    ensures var e := EngineBase(REPOSITORY_LAYOUT, p.index);
      Stores(ChannelEffects(p, input, j))
      == [Store(e + 0xC, 0x1_0000 * j), Store(e + 8, input.address + 0x1_0000 * j), Store(e, input.data[0])]
  {
    hide InputPath, EngineBase, Stores;
    var l := REPOSITORY_LAYOUT;
    var own := SetupEffects(l, p, input, 0, j, ValueOf(input, j), true, 0);
    var touch := TouchInput(InputPath(p.name, input.name, j, true), p.index);
    assert own == [own[0]] + [own[1]];
    StoresAppend(own, [touch]);
    StoresAppend([own[0]], [own[1]]);
    StoresOne(own[0]);
    StoresOne(own[1]);
    StoresOne(touch);
  }

  /** Both channels of a single value, one after the other. */
  lemma ConstantSteps(p: Program)
    requires p.channels == 2
    ensures InputEffects(REPOSITORY_LAYOUT, p, CONSTANT, 0, 0)
         == ChannelEffects(p, CONSTANT, 0) + ChannelEffects(p, CONSTANT, 1)
            + [TouchInput(LastPath(p, CONSTANT), p.index)]
  {
    hide InputPath, SetupEffects, LastPath;
    var l := REPOSITORY_LAYOUT;
    assert MultiEffects(l, p, CONSTANT, 0, 0, 0) == [];
    assert MultiEffects(l, p, CONSTANT, 0, 1, 0) == ChannelEffects(p, CONSTANT, 0);
  }

  function ChannelEffects(p: Program, input: Input, j: nat): seq<Effect> {
    SetupEffects(REPOSITORY_LAYOUT, p, input, 0, j, ValueOf(input, j), true, 0)
    + [TouchInput(InputPath(p.name, input.name, j, true), p.index)]
  }

  lemma ConstantStored(p: Program)
    requires p.channels == 2
    ensures var e := EngineBase(REPOSITORY_LAYOUT, p.index);
      Stores(InputEffects(REPOSITORY_LAYOUT, p, CONSTANT, 0, 0))
      == [Store(e + 0xC, 0), Store(e + 8, 3), Store(e, 0x4248_0000),
          Store(e + 0xC, 0x1_0000), Store(e + 8, 0x1_0003), Store(e, 0x4248_0000)]
  {
    hide EngineBase, LastPath, InputEffects, ChannelEffects, Stores;
    var one, two := ChannelEffects(p, CONSTANT, 0), ChannelEffects(p, CONSTANT, 1);
    var last := TouchInput(LastPath(p, CONSTANT), p.index);
    ConstantSteps(p);
    StoresAppend(one + two, [last]);
    StoresAppend(one, two);
    StoresOne(last);
    ChannelStores(p, CONSTANT, 0);
    ChannelStores(p, CONSTANT, 1);
  }

  lemma InputsExpected(f: Image, s: Image)
    ensures Stores(AllInputEffects(REPOSITORY_LAYOUT, System(f, s), [Fast(f), Slow(s)]))
         == [Store(0x4_43C6_200C, 0), Store(0x4_43C6_2008, 3), Store(0x4_43C6_2000, 0x4248_0000),
             Store(0x4_43C6_200C, 0x1_0000), Store(0x4_43C6_2008, 0x1_0003), Store(0x4_43C6_2000, 0x4248_0000)]
  {
    hide InputEffects, ProgramInputEffects, Stores, RandomsIn, RandomsInPrograms;
    var l, spec := REPOSITORY_LAYOUT, System(f, s);
    NoRandoms(f, s);
    NoProgram(spec);
    OneInput(Fast(f), EXTERNAL);
    OneInput(Slow(s), CONSTANT);
    ExternalStores(Fast(f));
    ConstantStored(Slow(s));
    assert [Fast(f), Slow(s)][..1] == [Fast(f)] && [Fast(f)][..0] == [];
    var a, b := InputEffects(l, Fast(f), EXTERNAL, 0, 0), InputEffects(l, Slow(s), CONSTANT, 0, 0);
    assert AllInputEffects(l, spec, [Fast(f)]) == [] + a;
    assert [] + a == a;
    assert AllInputEffects(l, spec, [Fast(f), Slow(s)]) == a + b;
    StoresAppend(a, b);
    assert EngineBase(l, 1) == 0x4_43C6_2000;
  }

  lemma NoProgram(spec: Spec)
    ensures RandomsInPrograms(spec, []) == 0 && AllInputEffects(REPOSITORY_LAYOUT, spec, []) == []
  {
  }

  // ----- the schedule

  lemma GcdSteps()
    ensures Gcd(1, 100) == 1 && Gcd(100, 50) == 50
  {
    GcdOfOne(100);
    assert Gcd(0, 50) == 50;
    assert Gcd(50, 50) == 50;
  }

  lemma RatesExpected(f: Image, s: Image)
    ensures var ps := [Fast(f), Slow(s)];
      && Timebase(ps) == 100 && Dividers(ps) == [1, 2] && FoldDefined(Frequencies(ps))
      && Convertible(100000000.0, 100)
  {
    hide Gcd;
    var ps := [Fast(f), Slow(s)];
    var r := Frequencies(ps);
    GcdSteps();
    assert r == [100, 50] && r[..1] == [100] && r[..1][..0] == [] && r[..2] == r && r[..0] == [];
    assert LcmAll([]) == 1 && LcmAll([100]) == 100 && LcmAll([100, 50]) == 100;
    assert StepDefined(r, 0) && StepDefined(r, 1) && StepDefined(r, 2);
    assert 100000000.0 / 100.0 == 1000000.0;
  }

  /** Two cores of orders 2 and 1 are put the other way round by any sort. */
  lemma Swapped(sort: Sorting, data: seq<Schedule.SlotData>)
    requires |data| == 2 && data[0].order > data[1].order && data[0].name != data[1].name
    ensures sort(data) == [data[1], data[0]]
  {
    var v := sort(data);
    assert IsSortOf(v, data);
    assert data == [data[0], data[1]];
    assert |multiset(v)| == |multiset(data)| == 2;
    assert v == [v[0], v[1]];
    assert v[0] in multiset(v) && v[1] in multiset(v);
    assert data[0] in multiset(data) && data[1] in multiset(data);
    assert v[0].order <= v[1].order;
  }

  lemma ShiftsExpected(sort: Sorting, data: seq<Schedule.SlotData>)
    requires |data| == 2 && data[0].order > data[1].order && data[0].name != data[1].name && data[1].length == 29
    ensures Shifts(sort, data) == [121, 2]
  {
    Swapped(sort, data);
    var v := [data[1], data[0]];
    assert v[..1] == [data[1]] && v[..1][..0] == [] && v[..0] == [];
    StartStep(v, 0);
    assert Total([]) == 0;
    assert StartTable([]) == map[];
    assert StartTable([data[1]]) == map[data[1].name := 2];
    assert StartTable(v) == map[data[1].name := 2, data[0].name := 121];
  }

  lemma SlotsExpected(isa: Reciprocal.Isa, sort: Sorting, f: Image, s: Image)
    requires s.fixedLength + 11 * s.perChannelLength == 29
    ensures var data := SlotsOf(Settings(isa, sort), [Fast(f), Slow(s)]);
      && |data| == 2 && data[0].order == 2 && data[1].order == 1 && data[0].name != data[1].name
      && data[1].length == 29
  {
    hide Reciprocal.HasReciprocal, Reciprocal.Code, Latest;
    var ps := [Fast(f), Slow(s)];
    assert "fast_core" != "slow_core" by { assert "fast_core"[0] != "slow_core"[0]; }
    RecordedSelf(ps, 0);
    RecordedSelf(ps, 1);
  }

  lemma SequencerExpected(isa: Reciprocal.Isa, sort: Sorting, f: Image, s: Image)
    requires s.fixedLength + 11 * s.perChannelLength == 29
    ensures var c, ps := Settings(isa, sort), [Fast(f), Slow(s)];
      && Convertible(c.clock, Timebase(ps))
      && Stores(SequencerPhase(c, ps))
         == [Store(0x4_43C1_1004, 0), Store(0x4_43C1_0008, 121), Store(0x4_43C1_1008, 1), Store(0x4_43C1_000C, 2),
             Store(0x4_43C1_0004, 1000000), Store(0x4_43C1_1000, 3)]
  {
    hide Shifts, MinTimebase, Timebase, Dividers, ToUlong, FirstBits, SlotsOf;
    var c, ps := Settings(isa, sort), [Fast(f), Slow(s)];
    RatesExpected(f, s);
    SlotsExpected(isa, sort, f, s);
    ShiftsExpected(sort, SlotsOf(c, ps));
    assert 100000000.0 / 100.0 == 1000000.0;
    EnableWord(2);
    Pow2Values();
    var es := SequencerPhase(c, ps);
    assert CoreEffects(REPOSITORY_LAYOUT, [1, 2], [121, 2], 0) == [];
    assert CoreEffects(REPOSITORY_LAYOUT, [1, 2], [121, 2], 1) == [Write(0x4_43C1_1004, 0), Write(0x4_43C1_0008, 121)];
    assert es == [Write(0x4_43C1_1004, 0), Write(0x4_43C1_0008, 121), Write(0x4_43C1_1008, 1), Write(0x4_43C1_000C, 2),
                  Write(0x4_43C1_0004, 1000000), Write(0x4_43C1_1000, 3)];
    StoresOfWrites(es);
  }

  lemma IsAccepted(isa: Reciprocal.Isa, sort: Sorting, f: Image, s: Image)
    ensures Accepted(Settings(isa, sort), System(f, s), map[]) && DistinctPrograms([Fast(f), Slow(s)])
  {
    hide DeployPhase, FoldDefined, Timebase, Entries, AfterConnections, InRange;
    Connections(f, s);
    RatesExpected(f, s);
    Tables();
  }

  lemma TwoBlocks(blocks: seq<seq<Store>>)
    requires |blocks| == 2
    ensures Concat(blocks) == blocks[0] + blocks[1]
  {
    assert blocks[..1] == [blocks[0]] && blocks[..1][..0] == [];
    assert Concat([]) == [];
    assert Concat([blocks[0]]) == [] + blocks[0];
  }

  lemma CoresExpected(isa: Reciprocal.Isa, sort: Sorting, f: Image, s: Image)
    ensures Concat(CoreBlocks(Settings(isa, sort), [Fast(f), Slow(s)], 2))
         == [Store(0x4_43C5_0000, 11), Store(0x4_43C6_0000, 11)]
  {
    hide Reciprocal.HasReciprocal, Reciprocal.Code, Recorded;
    TwoBlocks(CoreBlocks(Settings(isa, sort), [Fast(f), Slow(s)], 2));
  }

  lemma DmaExpected(isa: Reciprocal.Isa, sort: Sorting, f: Image, s: Image)
    ensures InitialsReady(System(f, s), INITIALS) && EntriesInRange(System(f, s))
    ensures Concat(DmaBlocks(Settings(isa, sort), System(f, s), INITIALS, 2))
         == [Store(0x4_43C5_100C, 0x0003_0002), Store(0x4_43C5_104C, 0x38),
             Store(0x4_43C5_1010, 0x1004_1002), Store(0x4_43C5_1050, 0x38), Store(0x4_43C5_1000, 2),
             Store(0x4_43C6_100C, 0x0001_0001), Store(0x4_43C6_1008, 0), Store(0x4_43C6_1004, 0x4200_0000),
             Store(0x4_43C6_104C, 0x38),
             Store(0x4_43C6_1010, 0x1001_1001), Store(0x4_43C6_1008, 1), Store(0x4_43C6_1004, 0x4280_0000),
             Store(0x4_43C6_1050, 0x38), Store(0x4_43C6_1000, 2)]
  {
    hide Entries, InRange, TableLog, Concat;
    Tables();
    FastTable();
    SlowTable();
    var blocks := DmaBlocks(Settings(isa, sort), System(f, s), INITIALS, 2);
    TwoBlocks(blocks);
  }

  /** The writes of the deployment, in order, as the test lists them before the start write. */
  lemma WritesExpected(isa: Reciprocal.Isa, sort: Sorting, f: Image, s: Image)
    requires s.fixedLength + 11 * s.perChannelLength == 29
    ensures Accepted(Settings(isa, sort), System(f, s), map[])
    ensures Log(Settings(isa, sort), System(f, s), map[])
         == [Store(0x4_43C5_100C, 0x0003_0002), Store(0x4_43C5_104C, 0x38),
             Store(0x4_43C5_1010, 0x1004_1002), Store(0x4_43C5_1050, 0x38), Store(0x4_43C5_1000, 2),
             Store(0x4_43C6_100C, 0x0001_0001), Store(0x4_43C6_1008, 0), Store(0x4_43C6_1004, 0x4200_0000),
             Store(0x4_43C6_104C, 0x38),
             Store(0x4_43C6_1010, 0x1001_1001), Store(0x4_43C6_1008, 1), Store(0x4_43C6_1004, 0x4280_0000),
             Store(0x4_43C6_1050, 0x38), Store(0x4_43C6_1000, 2)]
            + [Store(0x4_43C6_200C, 0), Store(0x4_43C6_2008, 3), Store(0x4_43C6_2000, 0x4248_0000),
               Store(0x4_43C6_200C, 0x1_0000), Store(0x4_43C6_2008, 0x1_0003), Store(0x4_43C6_2000, 0x4248_0000)]
            + [Store(0x4_43C1_1004, 0), Store(0x4_43C1_0008, 121), Store(0x4_43C1_1008, 1), Store(0x4_43C1_000C, 2),
               Store(0x4_43C1_0004, 1000000), Store(0x4_43C1_1000, 3)]
            + [Store(0x4_43C5_0000, 11), Store(0x4_43C6_0000, 11)]
  {
    hide Deployable, DeployPhase, Log, Stores, AllInputEffects, SequencerPhase, Concat, DmaBlocks, CoreBlocks,
      EntriesInRange, InitialsReady, DistinctPrograms, AfterConnections, Timebase;
    var c, spec := Settings(isa, sort), System(f, s);
    IsAccepted(isa, sort, f, s);
    Connections(f, s);
    LogParts(c, spec, map[]);
    DmaExpected(isa, sort, f, s);
    InputsExpected(f, s);
    SequencerExpected(isa, sort, f, s);
    CoresExpected(isa, sort, f, s);
    NoMemories(c, spec);
  }

  lemma NoMemories(c: Config, spec: Spec)
    requires MemoriesDefined(spec) && |spec.programs| == 2 && spec.memories == map[]
    ensures Concat(MemoryBlocks(c, spec, 2)) == []
  {
    TwoBlocks(MemoryBlocks(c, spec, 2));
  }
}

/**
 The one-core system of the repository's simulation-file test, deployed in the model: it meets the conditions
 of the deployment theorems, and the writes and labels it produces are the ones that test expects.
 */
module ReferenceSystem {
  import opened Operations
  import opened Specification
  import opened Bits
  import opened Effects
  import RegisterLog
  import opened Schedule
  import opened FrameRun
  import opened ChannelFormat
  import opened DmaTable
  import opened CoreInputs
  import opened Sequencer
  import opened Interconnect
  import opened Deployment
  import opened Regions
  import opened FinalLog
  import opened DeployedConstants
  import opened DeployedInputLabels
  import opened DeployedLabels
  import opened DeployedSystem
  import Redeployment
  import Arithmetic
  import Reciprocal

  /** 31.2 and 4.0 as float patterns. */
  const FIRST: Input := Input("input_1", Constant, 2, [1106876826], true)
  const SECOND: Input := Input("input_2", Constant, 3, [1082130432], true)
  const OUT: Slot := Slot("test", "out", 1, 0, "", "", 2, 0, true, 16, true)

  /** The core, with the code and length the compiler gives it. */
  function Core(binary: seq<Word>, length: nat): Program {
    Program("test", 0, 0, 1, 1, binary, length, 0, [FIRST, SECOND])
  }

  function System(binary: seq<Word>, length: nat): Spec {
    Spec([Core(binary, length)], [OUT], map["test" := [FIRST, SECOND]], map[])
  }

  function Settings(isa: Reciprocal.Isa, sort: Schedule.Sorting): Config {
    Config(REPOSITORY_LAYOUT, 100000000.0, isa, true, sort)
  }

  lemma Connections(binary: seq<Word>, length: nat)
    ensures Connected(System(binary, length), map[]) == map[]
  {
    var ps := [Core(binary, length)];
    assert ps[..0] == [] && [OUT][..0] == [];
    assert ConnectedValue([], OUT) == None;
    assert AfterConnections(map[], [], ps) == map[];
  }

  lemma Table()
    ensures Entries([OUT], "test") == [OUT]
  {
    assert [OUT][..0] == [];
  }

  lemma RatesExpected(isa: Reciprocal.Isa, sort: Schedule.Sorting, binary: seq<Word>, length: nat)
    ensures var c, ps := Settings(isa, sort), [Core(binary, length)];
      Timebase(ps) == 1 && Dividers(ps) == [1] && ScheduleDefined(c, ps) && Convertible(c.clock, Timebase(ps))
  {
    var ps := [Core(binary, length)];
    var s := Frequencies(ps);
    assert s == [1] && s[..0] == [] && s[..1] == s;
    assert Arithmetic.LcmAll([]) == 1 && Arithmetic.Lcm(1, 1) == 1 && Arithmetic.LcmAll([1]) == 1;
    assert 100000000.0 / 1.0 == 100000000.0;
  }

  lemma MeetsConditions(isa: Reciprocal.Isa, sort: Schedule.Sorting, binary: seq<Word>, length: nat)
    ensures Fitted(Settings(isa, sort), System(binary, length), map[])
    ensures TableSpared(REPOSITORY_LAYOUT, System(binary, length), Core(binary, length))
    ensures EngineSpared(REPOSITORY_LAYOUT, System(binary, length), Core(binary, length))
    ensures Scheduled(Settings(isa, sort), System(binary, length), map[])
  {
    hide ScheduleDefined, DeployPhase;
    RatesExpected(isa, sort, binary, length);
    Connections(binary, length);
    Table();
    NoRandoms(binary, length);
    DeployAcceptedIff(Settings(isa, sort), System(binary, length), map[]);
  }

  lemma NoRandoms(binary: seq<Word>, length: nat)
    ensures RandomsInPrograms(System(binary, length), [Core(binary, length)]) == 0
  {
    assert [Core(binary, length)][..0] == [];
    assert [FIRST, SECOND][..1] == [FIRST] && [FIRST][..0] == [];
    assert RandomsIn([], 1) == 0 && RandomsIn([FIRST], 1) == 0;
    assert RandomsInPrograms(System(binary, length), []) == 0;
  }

  // ----- the phases

  /** The stores of the DMA table. */
  lemma TableExpected()
    ensures InitialsDefined([OUT], map[]) && AllInRange([OUT])
    ensures TableLog([OUT], 18316857344, map[])
         == [Store(18316857356, 131073), Store(18316857420, 56), Store(18316857344, 1)]
  {
    hide And, Or, Shl, Portion;
    assert [OUT][..0] == [];
    PortionFields(1, 0);
    PortionFields(2, 0);
    PackPortions(1, 2);
    FloatWidthReadsSixteen();
    assert TableStores([], 18316857344, map[]) == [];
  }

  lemma InputsInSteps(p: Program)
    requires p.channels == 1
    ensures InputsEffects(REPOSITORY_LAYOUT, p, [FIRST, SECOND], 0)
         == InputEffects(REPOSITORY_LAYOUT, p, FIRST, 0, 0) + InputEffects(REPOSITORY_LAYOUT, p, SECOND, 1, 0)
    ensures RandomsIn([FIRST, SECOND], 1) == 0
  {
    hide InputEffects;
    assert [FIRST, SECOND][..1] == [FIRST] && [FIRST][..0] == [];
    assert RandomsIn([], 1) == 0 && RandomsIn([FIRST], 1) == 0;
    assert ConstantsIn([]) == 0 && ConstantsIn([FIRST]) == 1;
    assert InputsEffects(REPOSITORY_LAYOUT, p, [], 0) == [];
    assert InputsEffects(REPOSITORY_LAYOUT, p, [FIRST], 0) == InputEffects(REPOSITORY_LAYOUT, p, FIRST, 0, 0);
  }

  /** The commands of the two constants. */
  lemma ConstantsExpected(binary: seq<Word>, length: nat)
    ensures Stores(AllInputEffects(REPOSITORY_LAYOUT, System(binary, length), [Core(binary, length)]))
         == [Store(18316861452, 0), Store(18316861448, 2), Store(18316861440, 1106876826),
             Store(18316861452, 1), Store(18316861448, 3), Store(18316861440, 1082130432)]
  {
    hide InputEffects, InputsEffects, RandomsIn, Stores;
    var p, spec := Core(binary, length), System(binary, length);
    NoRandoms(binary, length);
    InputsInSteps(p);
    assert [p][..0] == [];
    assert RandomsInPrograms(spec, []) == 0 && AllInputEffects(REPOSITORY_LAYOUT, spec, []) == [];
    var a, b := InputEffects(REPOSITORY_LAYOUT, p, FIRST, 0, 0), InputEffects(REPOSITORY_LAYOUT, p, SECOND, 1, 0);
    assert AllInputEffects(REPOSITORY_LAYOUT, spec, [p]) == a + b;
    OneConstant(p, FIRST, 0);
    OneConstant(p, SECOND, 1);
    StoresAppend(a, b);
  }

  lemma OneConstant(p: Program, input: Input, constant: nat)
    requires p.channels == 1 && input.source.Constant? && |input.data| == 1 && constant < 0x1_0000
    requires input.address < 0x1_0000
    ensures Stores(InputEffects(REPOSITORY_LAYOUT, p, input, constant, 0))
         == [Store(EngineBase(REPOSITORY_LAYOUT, p.index) + 0xC, constant),
             Store(EngineBase(REPOSITORY_LAYOUT, p.index) + 8, input.address),
             Store(EngineBase(REPOSITORY_LAYOUT, p.index), input.data[0])]
  {
    hide InputPath, EngineBase;
    var es := InputEffects(REPOSITORY_LAYOUT, p, input, constant, 0);
    assert es == [es[0]] + [es[1]] + [es[2]];
    StoresAppend([es[0]] + [es[1]], [es[2]]);
    StoresAppend([es[0]], [es[1]]);
    StoresOne(es[0]);
    StoresOne(es[1]);
    StoresOne(es[2]);
  }

  lemma OneShift(sort: Schedule.Sorting, data: seq<Schedule.SlotData>)
    requires |data| == 1
    ensures sort(data) == data && Shifts(sort, data) == [2]
  {
    var v := sort(data);
    assert IsSortOf(v, data);
    assert |multiset(v)| == |multiset(data)| == 1;
    assert v[0] in multiset(v);
    assert data == [data[0]] && data[..0] == [];
    assert StartTable([]) == map[] && StartOffset(data, 0) == 2;
    assert StartTable(data) == map[data[0].name := 2];
  }

  lemma ScheduleExpected(isa: Reciprocal.Isa, sort: Schedule.Sorting, binary: seq<Word>, length: nat)
    ensures var c, ps := Settings(isa, sort), [Core(binary, length)];
      && Timebase(ps) == 1 && Dividers(ps) == [1] && Convertible(c.clock, 1)
      && Shifts(c.sort, SlotsOf(c, ps)) == [2]
      && Period(c.clock, 1, MinTimebase(SlotsOf(c, ps))) == 100000000
  {
    hide Shifts, MinTimebase, Timebase, Dividers, Length, Recorded;
    RatesExpected(isa, sort, binary, length);
    OneShift(sort, SlotsOf(Settings(isa, sort), [Core(binary, length)]));
    assert 100000000.0 / 1.0 == 100000000.0;
  }

  lemma SequencerExpected(isa: Reciprocal.Isa, sort: Schedule.Sorting, binary: seq<Word>, length: nat)
    ensures Stores(SequencerPhase(Settings(isa, sort), [Core(binary, length)]))
         == [Store(18316595204, 0), Store(18316591112, 2), Store(18316591108, 100000000), Store(18316595200, 1)]
  {
    hide Shifts, SlotsOf, MinTimebase, Period, Timebase, ToUlong, FirstBits;
    ScheduleExpected(isa, sort, binary, length);
    EnableWord(1);
    Pow2Values();
    var es := SequencerPhase(Settings(isa, sort), [Core(binary, length)]);
    assert CoreEffects(REPOSITORY_LAYOUT, [1], [2], 0) == [];
    assert es == [Write(18316595204, 0), Write(18316591112, 2), Write(18316591108, 100000000), Write(18316595200, 1)];
    StoresOfWrites(es);
  }

  /** The writes of the deployment, in order, as the test lists them before the start write. */
  lemma WritesExpected(isa: Reciprocal.Isa, sort: Schedule.Sorting, binary: seq<Word>, length: nat)
    ensures Fitted(Settings(isa, sort), System(binary, length), map[])
    ensures Log(Settings(isa, sort), System(binary, length), map[])
         == [Store(18316857356, 131073), Store(18316857420, 56), Store(18316857344, 1),
             Store(18316861452, 0), Store(18316861448, 2), Store(18316861440, 1106876826),
             Store(18316861452, 1), Store(18316861448, 3), Store(18316861440, 1082130432),
             Store(18316595204, 0), Store(18316591112, 2), Store(18316591108, 100000000), Store(18316595200, 1),
             Store(18316853248, 11)]
  {
    hide Accepted, EntriesInRange, Placed, LayoutClear, DistinctPrograms, Deployable, Log, Stores,
      AllInputEffects, SequencerPhase, TableLog, Entries, Recorded, Reciprocal.HasReciprocal, Reciprocal.Code;
    var c, spec, p := Settings(isa, sort), System(binary, length), Core(binary, length);
    MeetsConditions(isa, sort, binary, length);
    FittedParts(c, spec, map[]);
    LogParts(c, spec, map[]);
    Connections(binary, length);
    Table();
    TableExpected();
    ConstantsExpected(binary, length);
    SequencerExpected(isa, sort, binary, length);
    var dma, memory, cores := DmaBlocks(c, spec, map[], 1), MemoryBlocks(c, spec, 1), CoreBlocks(c, [p], 1);
    OneBlock(dma);
    OneBlock(memory);
    OneBlock(cores);
  }

  lemma OneBlock(blocks: seq<seq<Store>>)
    requires |blocks| == 1
    ensures RegisterLog.Concat(blocks) == blocks[0]
  {
    assert blocks[..0] == [];
    assert RegisterLog.Concat([]) == [];
  }

  // ----- labels

  lemma PathsExpected(binary: seq<Word>, length: nat)
    ensures DistinctPaths(System(binary, length))
    ensures forall k: nat, i: nat, j: nat :: IsChannel(System(binary, length), k, i, j) <==> k == 0 && i < 2 && j == 0
    ensures PathAt(System(binary, length), 0, 0, 0) == "test.input_1"
    ensures PathAt(System(binary, length), 0, 1, 0) == "test.input_2"
  {
    var spec := System(binary, length);
    assert "test" + "." + "input_1" == "test.input_1" && "test" + "." + "input_2" == "test.input_2";
    assert "test.input_1"[11] != "test.input_2"[11];
  }

  lemma KeyExpected()
    ensures InRange(OUT) && BusKey(OUT) == 2 && SignalName(OUT, 1) == "test.out"
  {
    hide BusKey;
    BusKeyFields(OUT);
    assert "test" + "." + "out" == "test.out";
  }

  lemma NoRandomLabel(binary: seq<Word>, length: nat, key: nat, name: string)
    ensures !RandomLabel(Core(binary, length), [FIRST, SECOND], key, name)
  {
  }

  /** The label of the output, as the test lists it, and no other. */
  lemma OutputsExpected(isa: Reciprocal.Isa, sort: Schedule.Sorting, binary: seq<Word>, length: nat, key: nat)
    ensures Deployable(Settings(isa, sort), System(binary, length), map[])
    ensures var labels := Redeployment.After(Settings(isa, sort), System(binary, length), map[], []).busLabels;
      (key in labels <==> key == 2) && (key in labels ==> labels[key] == "test.out")
  {
    hide Deployable, Placed, LayoutClear, EntriesInRange, DeployPhase, ApplyAll, BusKey, SignalName,
      RandomLabel, Entries;
    var c, spec, p := Settings(isa, sort), System(binary, length), Core(binary, length);
    MeetsConditions(isa, sort, binary, length);
    FittedParts(c, spec, map[]);
    Table();
    KeyExpected();
    var d, es := Deployed([], map[], map[], [], 0), DeployPhase(c, spec, map[]).effects;
    LabelKeys(d, es, key);
    forall name ensures LabelBus(key, name) in es <==> key == 2 && name == "test.out" {
      DeployLabels(c, spec, map[], key, name);
      NoRandomLabel(binary, length, key, name);
      assert spec.programs[0] == p && OUT in Entries([OUT], "test");
      assert key == 2 && name == "test.out" ==> OutputLabel(spec, 1, key, name);
    }
    assert key == 2 ==> LabelBus(key, "test.out") in es;
  }

  /** The entries of the inputs, as the test lists them, and no others. */
  lemma InputsExpected(isa: Reciprocal.Isa, sort: Schedule.Sorting, binary: seq<Word>, length: nat)
    ensures Deployable(Settings(isa, sort), System(binary, length), map[])
    ensures Redeployment.After(Settings(isa, sort), System(binary, length), map[], []).inputLabels
         == map["test.input_1" := TbInput(18316861440, 2, 0, 0), "test.input_2" := TbInput(18316861440, 3, 1, 0)]
  {
    hide Deployable, Placed, LayoutClear, EntriesInRange, DeployPhase, ApplyAll, DistinctPaths,
      IsChannel, PathAt, ConstantsIn;
    var c, spec := Settings(isa, sort), System(binary, length);
    MeetsConditions(isa, sort, binary, length);
    FittedParts(c, spec, map[]);
    PathsExpected(binary, length);
    ConstantsCounted();
    InputsLabelled(c, spec, map[], [], 0, 0, 0);
    InputsLabelled(c, spec, map[], [], 0, 1, 0);
    var labels := Redeployment.After(c, spec, map[], []).inputLabels;
    forall path | path in labels ensures path == "test.input_1" || path == "test.input_2" {
      OnlyInputsLabelled(c, spec, map[], [], path);
    }
    assert labels.Keys == {"test.input_1", "test.input_2"};
  }

  lemma ConstantsCounted()
    ensures ConstantsIn([FIRST, SECOND][..0]) == 0 && ConstantsIn([FIRST, SECOND][..1]) == 1
  {
    assert [FIRST, SECOND][..1] == [FIRST] && [FIRST][..0] == [];
    assert ConstantsIn([]) == 0;
  }

  // ----- the run

  /** The system never collides with itself exactly when its program is done 90 cycles before its next start. */
  lemma RunsSafelyIff(isa: Reciprocal.Isa, sort: Schedule.Sorting, binary: seq<Word>, length: nat)
    requires length < 0x1_0000_0000 - 92
    ensures var c, spec := Settings(isa, sort), System(binary, length);
      && Scheduled(c, spec, map[])
      && (SafeForever(CoresOf(c, spec.programs, Log(c, spec, map[])), PeriodOf(c, Log(c, spec, map[])))
          <==> length <= 99999910)
  {
    hide Deployable, Placed, LayoutClear, Log, SafeForever, CoresOf, SlotsOf, Period, Timebase, Shifts,
      Dividers, Convertible;
    var c, spec := Settings(isa, sort), System(binary, length);
    MeetsConditions(isa, sort, binary, length);
    ScheduleExpected(isa, sort, binary, length);
    SlotSum(isa, sort, binary, length);
    OneShift(sort, SlotsOf(c, spec.programs));
    ScheduleSafeIffPeriod(c, spec, map[], 0);
  }

  /** A specification whose period is not guarded: its one program takes a cycle too many. */
  lemma PeriodUnguarded(isa: Reciprocal.Isa, sort: Schedule.Sorting, binary: seq<Word>)
    ensures var c, spec := Settings(isa, sort), System(binary, 99999911);
      && Scheduled(c, spec, map[])
      && !SafeForever(CoresOf(c, spec.programs, Log(c, spec, map[])), PeriodOf(c, Log(c, spec, map[])))
  {
    RunsSafelyIff(isa, sort, binary, 99999911);
  }

  lemma SlotSum(isa: Reciprocal.Isa, sort: Schedule.Sorting, binary: seq<Word>, length: nat)
    requires length < 0x1_0000_0000 - 92
    ensures |SlotsOf(Settings(isa, sort), [Core(binary, length)])| == 1
    ensures Total(SlotsOf(Settings(isa, sort), [Core(binary, length)])) == length + 90
  {
    hide Reciprocal.HasReciprocal, Reciprocal.Code, Recorded;
    var data := SlotsOf(Settings(isa, sort), [Core(binary, length)]);
    assert |data| == 1 && data[0].length == length && data[..1] == data;
    StartStep(data, 0);
    StartOfFirst(data);
  }
}

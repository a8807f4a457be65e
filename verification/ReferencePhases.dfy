/**
 The address map the repository's tests use for the logic, and the writes they list for single phases: values of their
 own on two channels, random inputs, memories, and a scope channel pointed at an output.
 */
module ReferencePhases {
  import opened Operations
  import opened Specification
  import opened Bits
  import opened Effects
  import opened DmaTable
  import opened CoreMemory
  import opened CoreInputs
  import opened NoiseGenerator
  import opened Sequencer
  import opened Deployment
  import opened Deployer
  import opened Regions

  // ----- the registers of the logic

  const SEQUENCER_DIVISORS: seq<nat> := [0x4, 0x8, 0xC, 0x10]
  const ENABLE_THRESHOLDS: seq<nat> := [0x8, 0xC, 0x10, 0x14]
  const SCOPE_CHANNELS: seq<nat> := [0x4, 0x8, 0xC, 0x10, 0x14, 0x18]
  const NOISE_OUTPUTS: seq<nat> := [0x4, 0x8, 0xC, 0x10, 0x14, 0x18, 0x1C, 0x20, 0x24, 0x28, 0x2C, 0x30, 0x34, 0x38]

  /** Every register is where the tests' map of the logic has it, for each of the cores and channels listed there. */
  lemma RegisterMap(i: nat, core: nat, p: Program)
    ensures i < 4 ==> Divisor(REPOSITORY_LAYOUT, i) == 0x4_43C1_0000 + 0x1000 + SEQUENCER_DIVISORS[i]
    ensures i < 4 ==> Threshold(REPOSITORY_LAYOUT, i) == 0x4_43C1_0000 + ENABLE_THRESHOLDS[i]
    ensures EnableRegister(REPOSITORY_LAYOUT) == 0x4_43C1_1000 && PeriodRegister(REPOSITORY_LAYOUT) == 0x4_43C1_0004
    ensures i < 6 ==> ScopeSelect(REPOSITORY_LAYOUT, i) == 0x4_43C0_0000 + SCOPE_CHANNELS[i]
    ensures i < 14 ==> Output(REPOSITORY_LAYOUT.noiseGenerator, i) == 0x4_43C3_0000 + NOISE_OUTPUTS[i]
    ensures ControlBase(REPOSITORY_LAYOUT, core) == 0x4_43C5_0000 + 0x1_0000 * core
    ensures DmaBase(REPOSITORY_LAYOUT, core) == 0x4_43C5_1000 + 0x1_0000 * core
    ensures EngineBase(REPOSITORY_LAYOUT, core) == 0x4_43C5_2000 + 0x1_0000 * core
    ensures LoadEffects(REPOSITORY_LAYOUT, [p]) == [Load(0x5_0000_0000 + 0x1000_0000 * p.index, p.binary)]
    ensures MAX_CORES == 32
    ensures FILL_DATA == 0x4 && FILL_CHANNEL == 0x8 && MAPPINGS == 0xC && FORMATS == 0x4C
    ensures CONST_LSB == 0 && CONST_DEST == 0x8 && CONST_SELECTOR == 0xC
  {
  }

  // ----- constants with a value for each channel

  /** 1.0 and 2.0 as float patterns. */
  const A: Input := Input("a", Constant, 3, [0x3F80_0000, 0x4000_0000], true)
  const B: Input := A.(name := "b", address := 4)

  function Core(inputs: seq<Input>): Program {
    Program("gen", 0, 1, 20000, 2, [], 0, 0, inputs)
  }

  function ChannelEffects(input: Input, constant: nat, j: nat, active: nat): seq<Effect> {
    var p := Core([]);
    SetupEffects(REPOSITORY_LAYOUT, p, input, constant, j, ValueOf(input, j), true, active + RandomsBefore(input, j))
    + (if TouchesInLoop(input) then [TouchInput(InputPath(p.name, input.name, j, true), p.index)] else [])
  }

  /** Two channels, one after the other. */
  lemma ChannelSteps(p: Program, input: Input, constant: nat, active: nat)
    requires p == Core(p.inputs) && Loops(input, 2) == 2
    ensures InputEffects(REPOSITORY_LAYOUT, p, input, constant, active)
         == ChannelEffects(input, constant, 0, active) + ChannelEffects(input, constant, 1, active)
            + [TouchInput(LastPath(p, input), p.index)]
  {
    hide InputPath, LastPath, Loops, ValueOf;
    var l := REPOSITORY_LAYOUT;
    SameSetup(p, input, constant, 0, active);
    SameSetup(p, input, constant, 1, active);
    hide SetupEffects;
    assert MultiEffects(l, p, input, constant, 0, active) == [];
    assert MultiEffects(l, p, input, constant, 1, active) == ChannelEffects(input, constant, 0, active);
  }

  /** Setting up a channel does not look at the program's own list of inputs. */
  lemma SameSetup(p: Program, input: Input, constant: nat, j: nat, active: nat)
    requires p == Core(p.inputs)
    ensures SetupEffects(REPOSITORY_LAYOUT, p, input, constant, j, ValueOf(input, j), true,
                         active + RandomsBefore(input, j))
         == SetupEffects(REPOSITORY_LAYOUT, Core([]), input, constant, j, ValueOf(input, j), true,
                         active + RandomsBefore(input, j))
  {
    hide InputPath, RandomName, ValueOf;
  }

  lemma ConstantChannel(input: Input, constant: nat, j: nat)
    requires input.source.Constant? && |input.data| == 2 && j < 2 && input.address < 0x1_0000 && constant < 0x1_0000
    ensures Stores(ChannelEffects(input, constant, j, 0))
         == [Store(0x4_43C5_200C, constant + 0x1_0000 * j), Store(0x4_43C5_2008, input.address + 0x1_0000 * j),
             Store(0x4_43C5_2000, input.data[j])]
  {
    hide InputPath, Stores;
    var es := ChannelEffects(input, constant, j, 0);
    assert es == [es[0]] + [es[1]] + [es[2]];
    StoresAppend([es[0]] + [es[1]], [es[2]]);
    StoresAppend([es[0]], [es[1]]);
    StoresOne(es[0]);
    StoresOne(es[1]);
    StoresOne(es[2]);
  }

  lemma ThreeParts(a: seq<Effect>, b: seq<Effect>, touch: Effect)
    requires touch.TouchInput?
    ensures Stores(a + b + [touch]) == Stores(a) + Stores(b)
  {
    hide Stores;
    StoresAppend(a + b, [touch]);
    StoresAppend(a, b);
    StoresOne(touch);
    assert Stores(a) + Stores(b) + [] == Stores(a) + Stores(b);
  }

  /** The effects of two inputs without random ones before them. */
  lemma InputSteps(p: Program, first: Input, second: Input)
    requires p == Core(p.inputs)
    ensures var es := InputsEffects(REPOSITORY_LAYOUT, p, [first, second], 0);
      es == InputEffects(REPOSITORY_LAYOUT, p, first, 0, 0)
            + InputEffects(REPOSITORY_LAYOUT, p, second, if IsConstant(first) then 1 else 0, RandomsOf(first, 2))
    ensures RandomsIn([first, second], 2) == RandomsOf(first, 2) + RandomsOf(second, 2)
  {
    hide InputEffects, IsConstant, RandomsOf;
    assert [first, second][..1] == [first] && [first][..0] == [];
    assert RandomsIn([], 2) == 0 && ConstantsIn([]) == 0;
    assert RandomsIn([first], 2) == RandomsOf(first, 2);
    assert InputsEffects(REPOSITORY_LAYOUT, p, [], 0) == [];
    assert InputsEffects(REPOSITORY_LAYOUT, p, [first], 0) == InputEffects(REPOSITORY_LAYOUT, p, first, 0, 0);
  }

  /** Each channel gets its own value, as the test lists the writes. */
  lemma DiversifiedExpected()
    ensures Stores(ProgramInputEffects(REPOSITORY_LAYOUT, Core([A, B]), [A, B], 0))
         == [Store(0x4_43C5_200C, 0), Store(0x4_43C5_2008, 3), Store(0x4_43C5_2000, 0x3F80_0000),
             Store(0x4_43C5_200C, 0x1_0000), Store(0x4_43C5_2008, 0x1_0003), Store(0x4_43C5_2000, 0x4000_0000),
             Store(0x4_43C5_200C, 1), Store(0x4_43C5_2008, 4), Store(0x4_43C5_2000, 0x3F80_0000),
             Store(0x4_43C5_200C, 0x1_0001), Store(0x4_43C5_2008, 0x1_0004), Store(0x4_43C5_2000, 0x4000_0000)]
  {
    hide InputEffects, InputsEffects, RandomsIn, Stores, ChannelEffects, LastPath;
    var p := Core([A, B]);
    InputSteps(p, A, B);
    ChannelSteps(p, A, 0, 0);
    ChannelSteps(p, B, 1, 0);
    ThreeParts(ChannelEffects(A, 0, 0, 0), ChannelEffects(A, 0, 1, 0), TouchInput(LastPath(p, A), p.index));
    ThreeParts(ChannelEffects(B, 1, 0, 0), ChannelEffects(B, 1, 1, 0), TouchInput(LastPath(p, B), p.index));
    ConstantChannel(A, 0, 0);
    ConstantChannel(A, 0, 1);
    ConstantChannel(B, 1, 0);
    ConstantChannel(B, 1, 1);
    var a, b := InputEffects(REPOSITORY_LAYOUT, p, A, 0, 0), InputEffects(REPOSITORY_LAYOUT, p, B, 1, 0);
    StoresAppend(a, b);
    assert a + b + [] == a + b;
  }

  // ----- random inputs

  const RANDOM_A: Input := Input("a", Random, 1, [0], true)
  const RANDOM_B: Input := RANDOM_A.(name := "b", address := 2)

  lemma RandomChannel(input: Input, j: nat, active: nat)
    requires input.source.Random? && |input.data| == 1 && j < 2 && input.address < 0x1_0000
    ensures Stores(ChannelEffects(input, 0, j, active))
         == [Store(0x4_43C3_0000 + 4 * (active + j + 1), input.address + 0x1_0000 * j)]
  {
    hide InputPath, RandomName, Stores;
    var es := ChannelEffects(input, 0, j, active);
    assert es == [es[0]] + [es[1]] + [es[2]];
    StoresAppend([es[0]] + [es[1]], [es[2]]);
    StoresAppend([es[0]], [es[1]]);
    StoresOne(es[0]);
    StoresOne(es[1]);
    StoresOne(es[2]);
  }

  /** Two random inputs on two channels, as the test lists the writes. */
  lemma RandomsExpected()
    ensures Stores(ProgramInputEffects(REPOSITORY_LAYOUT, Core([RANDOM_A, RANDOM_B]), [RANDOM_A, RANDOM_B], 0))
         == [Store(0x4_43C3_0004, 1), Store(0x4_43C3_0008, 0x1_0001), Store(0x4_43C3_000C, 2),
             Store(0x4_43C3_0010, 0x1_0002), Store(0x4_43C3_0000, 4)]
  {
    hide InputEffects, InputsEffects, RandomsIn, Stores, ChannelEffects, LastPath;
    var p := Core([RANDOM_A, RANDOM_B]);
    InputSteps(p, RANDOM_A, RANDOM_B);
    ChannelSteps(p, RANDOM_A, 0, 0);
    ChannelSteps(p, RANDOM_B, 0, 2);
    ThreeParts(ChannelEffects(RANDOM_A, 0, 0, 0), ChannelEffects(RANDOM_A, 0, 1, 0),
               TouchInput(LastPath(p, RANDOM_A), p.index));
    ThreeParts(ChannelEffects(RANDOM_B, 0, 0, 2), ChannelEffects(RANDOM_B, 0, 1, 2),
               TouchInput(LastPath(p, RANDOM_B), p.index));
    RandomChannel(RANDOM_A, 0, 0);
    RandomChannel(RANDOM_A, 1, 0);
    RandomChannel(RANDOM_B, 0, 2);
    RandomChannel(RANDOM_B, 1, 2);
    var a := InputEffects(REPOSITORY_LAYOUT, p, RANDOM_A, 0, 0);
    var b := InputEffects(REPOSITORY_LAYOUT, p, RANDOM_B, 0, 2);
    var count := Write(0x4_43C3_0000, 4);
    StoresAppend(a, b);
    StoresAppend(a + b, [count]);
    StoresOne(count);
  }

  // ----- memories and outputs

  /** A vector over two channels at address 1, and a scalar at address 2, as the tests list their writes. */
  lemma MemoriesExpected()
    ensures AllDefined([MemoryInit(1, [0x42C8_0000, 0x43FA_0000])], 2) && AllDefined([MemoryInit(2, [0])], 2)
    ensures MemoryStores([MemoryInit(1, [0x42C8_0000, 0x43FA_0000])], 0x4_43C5_0000, 2)
         == [Store(0x4_43C5_0004, 0x42C8_0000), Store(0x4_43C5_0404, 0x43FA_0000)]
    ensures MemoryStores([MemoryInit(2, [0])], 0x4_43C5_0000, 2) == [Store(0x4_43C5_0008, 0)]
  {
    hide WordAddress;
    WordAddressIs(0x4_43C5_0000, 1, 0);
    WordAddressIs(0x4_43C5_0000, 1, 1);
    assert [MemoryInit(1, [0x42C8_0000, 0x43FA_0000])][..0] == [] && [MemoryInit(2, [0])][..0] == [];
    assert MemoryStores([], 0x4_43C5_0000, 2) == [];
  }

  /** Channel 1 of an output, selected for the first channel of the scope. */
  lemma SelectExpected(e: Slot)
    requires e.destinationBus == 3 && e.destinationChannel == 1
    ensures ScopeSelect(REPOSITORY_LAYOUT, 0) == 0x4_43C0_0004 && SelectorWord(e) == 0x1_0003
  {
    hide Or, Shl;
    Pow2Values();
    OrDisjoint(1, 3, 16);
    ShlIsProduct(1, 16);
  }
}

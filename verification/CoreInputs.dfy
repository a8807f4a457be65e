/**
 Deploying the inputs of the cores: constants go to the core's constant engine, one slot per constant and
 channel, random inputs to the noise generator, one output register per channel.
 */
module CoreInputs {
  import opened Specification
  import opened Effects
  import opened ConstantEngine
  import SimulationText

  predicate IsConstant(input: Input) {
    input.source.Constant? || input.source.TimeSeries?
  }

  function EngineBase(layout: Layout, index: nat): nat {
    layout.coresControl + layout.controlStride * index + layout.coresInputs
  }

  function Dest(input: Input, channel: nat): Word {
    Wrap32(input.address + 0x1_0000 * channel)
  }

  function Selector(constant: nat, channel: nat): Word {
    Wrap32(constant + 0x1_0000 * channel)
  }

  function ChannelName(core: string, channel: nat): string {
    core + "[" + SimulationText.ToDecimal(channel) + "]"
  }

  function InputPath(core: string, name: string, channel: nat, multichannel: bool): string {
    (if multichannel then ChannelName(core, channel) else core) + "." + name
  }

  /** The part of a name before its last bracket; all of it without one. */
  function BeforeBracket(s: string): string {
    if s == "" || '[' !in s then s
    else if s[|s| - 1] == '[' then s[..|s| - 1]
    else BeforeBracket(s[..|s| - 1])
  }

  function RandomName(core: string, name: string, channel: nat, multichannel: bool): string {
    if multichannel then BeforeBracket(core) + "." + name + "[" + SimulationText.ToDecimal(channel) + "]"
    else core + "." + name
  }

  function Metadata(layout: Layout, p: Program, input: Input, constant: nat, channel: nat): InputMetadata {
    InputMetadata(p.name, input.name, EngineBase(layout, p.index), Selector(constant, channel), channel,
                  Dest(input, channel), input.isFloat)
  }

  /** The channels of an input of a multichannel core have paths of their own. */
  lemma InputPathsDiffer(core: string, name: string, j: nat, j': nat)
    ensures InputPath(core, name, j, true) == InputPath(core, name, j', true) <==> j == j'
  {
    hide SimulationText.ToDecimal;
    SimulationText.DecimalsDiffer(core + "[", j, j', "]." + name);
    PathIs(core, name, j);
    PathIs(core, name, j');
  }

  lemma PathIs(core: string, name: string, j: nat)
    ensures InputPath(core, name, j, true) == core + "[" + SimulationText.ToDecimal(j) + ("]." + name)
  {
    hide SimulationText.ToDecimal;
    assert "]" + "." == "].";
    assert core + "[" + SimulationText.ToDecimal(j) + "]" + "." + name
        == core + "[" + SimulationText.ToDecimal(j) + ("]" + "." + name);
  }

  /** The channels of a random input have names of their own. */
  lemma RandomNamesDiffer(core: string, name: string, j: nat, j': nat)
    ensures RandomName(core, name, j, true) == RandomName(core, name, j', true) <==> j == j'
  {
    hide SimulationText.ToDecimal, BeforeBracket;
    SimulationText.DecimalsDiffer(BeforeBracket(core) + "." + name + "[", j, j', "]");
  }

  /** A name without brackets is kept, and one that ends in a bracketed part loses that part. */
  lemma {:induction false} BeforeBracketIs(s: string, part: string)
    requires '[' !in part
    ensures '[' !in s ==> BeforeBracket(s) == s
    ensures BeforeBracket(s + "[" + part) == s
    decreases |part|
  {
    var t := s + "[" + part;
    assert t[|s|] == '[';
    if part == "" {
      assert t[..|t| - 1] == s;
    } else {
      BeforeBracketIs(s, part[..|part| - 1]);
      assert part == part[..|part| - 1] + [part[|part| - 1]];
      assert t[..|t| - 1] == s + "[" + part[..|part| - 1];
    }
  }

  /** Setting up one channel of one input; `active` random outputs are already in use. */
  function SetupEffects(layout: Layout, p: Program, input: Input, constant: nat, channel: nat, value: Word,
                        multichannel: bool, active: nat): seq<Effect> {
    if IsConstant(input) then
      var m := Metadata(layout, p, input, constant, channel);
      [LabelInput(InputPath(p.name, input.name, channel, multichannel),
                  TbInput(m.base + CONST_LSB, m.dest, m.selector, 0)),
       SetConstant(m, value)]
    else if input.source.Random? then
      [Write(layout.noiseGenerator + (active + 1) * 4, Dest(input, channel)), NextRandom,
       LabelBus(Dest(input, channel), RandomName(p.name, input.name, channel, multichannel))]
    else []
  }

  // ----- one input

  /** A constant needs a value. */
  predicate InputDefined(input: Input, channels: nat) {
    IsConstant(input) && channels <= 1 ==> |input.data| > 0
  }

  /** Channels set up for an input of a multichannel core. */
  function Loops(input: Input, channels: nat): nat {
    if |input.data| > 1 then |input.data|
    else if input.source.Random? || (IsConstant(input) && |input.data| == 1) then channels
    else 0
  }

  /** Only the loops over values give each channel its core index at once. */
  predicate TouchesInLoop(input: Input) {
    |input.data| > 1 || !input.source.Random?
  }

  /** Value of a channel: its own one, or the single one for all. */
  function ValueOf(input: Input, channel: nat): Word {
    if channel < |input.data| then input.data[channel]
    else if |input.data| > 0 then input.data[0]
    else 0
  }

  predicate HasValue(input: Input, channel: nat) {
    |input.data| == 1 || channel < |input.data|
  }

  /** What a constant gives a channel: its own value, or the only one. */
  function Given(input: Input, channel: nat): Word
    requires HasValue(input, channel)
  {
    if |input.data| == 1 then input.data[0] else input.data[channel]
  }

  /** The channels a constant exists on: the only one, all for a single value, or one for each value. */
  predicate HasChannel(input: Input, channels: nat, channel: nat) {
    if channels <= 1 then channel == 0
    else if |input.data| == 1 then channel < channels
    else channel < |input.data|
  }

  /** The loops set exactly these channels, to exactly these values, although they consume the list. */
  lemma ChannelsGiven(input: Input, channels: nat, channel: nat)
    requires IsConstant(input) && InputDefined(input, channels)
    ensures channel < Width(input, channels) <==> HasChannel(input, channels, channel)
    ensures channel < Width(input, channels) ==>
      HasValue(input, channel) && ValueOf(input, channel) == Given(input, channel)
  {
  }

  function RandomsBefore(input: Input, channel: nat): nat {
    if input.source.Random? then channel else 0
  }

  /** The first `count` channels of an input of a multichannel core. */
  function MultiEffects(layout: Layout, p: Program, input: Input, constant: nat, count: nat, active: nat): seq<Effect> {
    if count == 0 then []
    else
      var j := count - 1;
      MultiEffects(layout, p, input, constant, j, active)
      + SetupEffects(layout, p, input, constant, j, ValueOf(input, j), true, active + RandomsBefore(input, j))
      + (if TouchesInLoop(input) then [TouchInput(InputPath(p.name, input.name, j, true), p.index)] else [])
  }

  /** The path whose core index is set once more at the end. */
  function LastPath(p: Program, input: Input): string {
    if p.channels <= 1 then p.name + "." + input.name
    else if Loops(input, p.channels) == 0 then "." + input.name
    else InputPath(p.name, input.name, Loops(input, p.channels) - 1, true)
  }

  function InputEffects(layout: Layout, p: Program, input: Input, constant: nat, active: nat): seq<Effect> {
    (if p.channels > 1 then MultiEffects(layout, p, input, constant, Loops(input, p.channels), active)
     else SetupEffects(layout, p, input, constant, 0, ValueOf(input, 0), false, active))
    + [TouchInput(LastPath(p, input), p.index)]
  }

  /** How many channels of an input exist. */
  function Width(input: Input, channels: nat): nat {
    if channels > 1 then Loops(input, channels) else 1
  }

  function RandomsOf(input: Input, channels: nat): nat {
    RandomsBefore(input, Width(input, channels))
  }

  // ----- one core, all cores

  function ConstantsIn(ins: seq<Input>): nat {
    if ins == [] then 0 else ConstantsIn(ins[..|ins| - 1]) + (if IsConstant(ins[|ins| - 1]) then 1 else 0)
  }

  function RandomsIn(ins: seq<Input>, channels: nat): nat {
    if ins == [] then 0 else RandomsIn(ins[..|ins| - 1], channels) + RandomsOf(ins[|ins| - 1], channels)
  }

  function InputsEffects(layout: Layout, p: Program, ins: seq<Input>, active: nat): seq<Effect> {
    if ins == [] then []
    else
      var earlier := ins[..|ins| - 1];
      InputsEffects(layout, p, earlier, active)
      + InputEffects(layout, p, ins[|ins| - 1], ConstantsIn(earlier), active + RandomsIn(earlier, p.channels))
  }

  /** A core's inputs, then the number of random outputs in use so far when there are any. */
  function ProgramInputEffects(layout: Layout, p: Program, ins: seq<Input>, active: nat): seq<Effect> {
    var total := active + RandomsIn(ins, p.channels);
    InputsEffects(layout, p, ins, active)
    + (if total > 0 then [Write(layout.noiseGenerator, Wrap32(total))] else [])
  }

  function RandomsInPrograms(spec: Spec, ps: seq<Program>): nat {
    if ps == [] then 0
    else RandomsInPrograms(spec, ps[..|ps| - 1]) + RandomsIn(Inputs(spec, ps[|ps| - 1].name), ps[|ps| - 1].channels)
  }

  function AllInputEffects(layout: Layout, spec: Spec, ps: seq<Program>): seq<Effect> {
    if ps == [] then []
    else
      var p := ps[|ps| - 1];
      AllInputEffects(layout, spec, ps[..|ps| - 1])
      + ProgramInputEffects(layout, p, Inputs(spec, p.name), RandomsInPrograms(spec, ps[..|ps| - 1]))
  }

  // ----- the constants of a core

  /** Limits within which selectors do not wrap. */
  ghost predicate Bounded(ins: seq<Input>, channels: nat) {
    |ins| <= 0x1_0000 && forall input :: input in ins ==> Width(input, channels) <= 0x1_0000
  }

  lemma SelectorsDiffer(k: nat, j: nat, k': nat, j': nat)
    requires k < 0x1_0000 && j < 0x1_0000 && k' < 0x1_0000 && j' < 0x1_0000
    ensures Selector(k, j) == Selector(k', j') <==> k == k' && j == j'
  {
  }

  /** The command for channel j of an input, if it is a constant. */
  function CommandFor(layout: Layout, p: Program, input: Input, constant: nat, channel: nat): Command {
    Command(Metadata(layout, p, input, constant, channel), ValueOf(input, channel))
  }

  lemma SetupCommands(layout: Layout, p: Program, input: Input, constant: nat, channel: nat, multichannel: bool,
                      active: nat)
    ensures Commands(SetupEffects(layout, p, input, constant, channel, ValueOf(input, channel), multichannel, active))
         == if IsConstant(input) then [CommandFor(layout, p, input, constant, channel)] else []
  {
    var es := SetupEffects(layout, p, input, constant, channel, ValueOf(input, channel), multichannel, active);
    if IsConstant(input) {
      assert es == [es[0]] + [es[1]];
      CommandsAppend([es[0]], [es[1]]);
      CommandsOne(es[0]);
      CommandsOne(es[1]);
    } else if input.source.Random? {
      assert es == [es[0]] + [es[1]] + [es[2]];
      CommandsAppend([es[0]] + [es[1]], [es[2]]);
      CommandsAppend([es[0]], [es[1]]);
      CommandsOne(es[0]);
      CommandsOne(es[1]);
      CommandsOne(es[2]);
    }
  }

  /** The commands of an input: one per channel, in channel order. */
  function InputCommands(layout: Layout, p: Program, input: Input, constant: nat, count: nat): seq<Command> {
    if IsConstant(input) then
      seq(count, j requires 0 <= j < count => CommandFor(layout, p, input, constant, j))
    else []
  }

  lemma {:induction false} MultiCommands(layout: Layout, p: Program, input: Input, constant: nat, count: nat,
                                         active: nat)
    ensures Commands(MultiEffects(layout, p, input, constant, count, active))
         == InputCommands(layout, p, input, constant, count)
  {
    hide SetupEffects, CommandFor, ValueOf, InputPath, TouchesInLoop, InputCommands, Commands;
    InputCommandsStep(layout, p, input, constant, count);
    if count == 0 {
      NoEffects();
    } else {
      var j := count - 1;
      MultiCommands(layout, p, input, constant, j, active);
      var earlier := MultiEffects(layout, p, input, constant, j, active);
      var own := SetupEffects(layout, p, input, constant, j, ValueOf(input, j), true, active + RandomsBefore(input, j));
      SetupCommands(layout, p, input, constant, j, true, active + RandomsBefore(input, j));
      CommandsAppend(earlier, own);
      var touch := TouchInput(InputPath(p.name, input.name, j, true), p.index);
      CommandsOne(touch);
      CommandsAppend(earlier + own, [touch]);
      assert earlier + own + [] == earlier + own;
    }
  }

  lemma NoEffects()
    ensures Commands([]) == []
  {
  }

  lemma InputCommandsStep(layout: Layout, p: Program, input: Input, constant: nat, count: nat)
    ensures count == 0 ==> InputCommands(layout, p, input, constant, count) == []
    ensures count > 0 ==>
      InputCommands(layout, p, input, constant, count)
      == InputCommands(layout, p, input, constant, count - 1)
         + (if IsConstant(input) then [CommandFor(layout, p, input, constant, count - 1)] else [])
  {
    hide CommandFor;
  }

  lemma InputCommandsAre(layout: Layout, p: Program, input: Input, constant: nat, active: nat)
    ensures Commands(InputEffects(layout, p, input, constant, active))
         == InputCommands(layout, p, input, constant, Width(input, p.channels))
  {
    hide MultiEffects, SetupEffects, Loops, ValueOf, LastPath, CommandFor, Commands;
    var main := if p.channels > 1 then MultiEffects(layout, p, input, constant, Loops(input, p.channels), active)
                else SetupEffects(layout, p, input, constant, 0, ValueOf(input, 0), false, active);
    var touch := TouchInput(LastPath(p, input), p.index);
    CommandsAppend(main, [touch]);
    CommandsOne(touch);
    if p.channels > 1 {
      MultiCommands(layout, p, input, constant, Loops(input, p.channels), active);
    } else {
      SetupCommands(layout, p, input, constant, 0, false, active);
    }
  }

  /** All commands of a core, input by input. */
  function CoreCommands(layout: Layout, p: Program, ins: seq<Input>): seq<Command> {
    if ins == [] then []
    else
      var earlier := ins[..|ins| - 1];
      CoreCommands(layout, p, earlier)
      + InputCommands(layout, p, ins[|ins| - 1], ConstantsIn(earlier), Width(ins[|ins| - 1], p.channels))
  }

  lemma {:induction false} CoreCommandsAre(layout: Layout, p: Program, ins: seq<Input>, active: nat)
    ensures Commands(InputsEffects(layout, p, ins, active)) == CoreCommands(layout, p, ins)
  {
    hide InputEffects, InputCommands, RandomsIn, ConstantsIn, Commands, Width;
    if ins == [] {
      NoEffects();
    } else {
      var earlier := ins[..|ins| - 1];
      CoreCommandsAre(layout, p, earlier, active);
      InputCommandsAre(layout, p, ins[|ins| - 1], ConstantsIn(earlier), active + RandomsIn(earlier, p.channels));
      CommandsAppend(InputsEffects(layout, p, earlier, active),
                     InputEffects(layout, p, ins[|ins| - 1], ConstantsIn(earlier),
                                  active + RandomsIn(earlier, p.channels)));
    }
  }

  lemma ProgramCommandsAre(layout: Layout, p: Program, ins: seq<Input>, active: nat)
    ensures Commands(ProgramInputEffects(layout, p, ins, active)) == CoreCommands(layout, p, ins)
  {
    hide InputsEffects, CoreCommands, RandomsIn, Commands;
    CoreCommandsAre(layout, p, ins, active);
    var count := Write(layout.noiseGenerator, Wrap32(active + RandomsIn(ins, p.channels)));
    CommandsAppend(InputsEffects(layout, p, ins, active), [count]);
    CommandsOne(count);
    assert InputsEffects(layout, p, ins, active) + [] == InputsEffects(layout, p, ins, active);
  }

  function AllCommands(layout: Layout, spec: Spec, ps: seq<Program>): seq<Command> {
    if ps == [] then []
    else AllCommands(layout, spec, ps[..|ps| - 1]) + CoreCommands(layout, ps[|ps| - 1], Inputs(spec, ps[|ps| - 1].name))
  }

  lemma {:induction false} AllCommandsAre(layout: Layout, spec: Spec, ps: seq<Program>)
    ensures Commands(AllInputEffects(layout, spec, ps)) == AllCommands(layout, spec, ps)
  {
    hide ProgramInputEffects, CoreCommands, RandomsInPrograms, Commands;
    if ps == [] {
      NoEffects();
    } else {
      var n := |ps| - 1;
      AllCommandsAre(layout, spec, ps[..n]);
      var active := RandomsInPrograms(spec, ps[..n]);
      ProgramCommandsAre(layout, ps[n], Inputs(spec, ps[n].name), active);
      CommandsAppend(AllInputEffects(layout, spec, ps[..n]),
                     ProgramInputEffects(layout, ps[n], Inputs(spec, ps[n].name), active));
    }
  }

  // ----- every slot holds its own constant

  lemma {:induction false} ConstantsBound(ins: seq<Input>)
    ensures ConstantsIn(ins) <= |ins|
  {
    if ins != [] { ConstantsBound(ins[..|ins| - 1]); }
  }

  lemma {:induction false} ConstantsGrow(ins: seq<Input>, i: nat, j: nat)
    requires i <= j <= |ins|
    ensures ConstantsIn(ins[..i]) <= ConstantsIn(ins[..j])
    ensures i < j && IsConstant(ins[i]) ==> ConstantsIn(ins[..i]) < ConstantsIn(ins[..j])
    decreases j
  {
    hide IsConstant;
    if i < j {
      assert ins[..j][..j - 1] == ins[..j - 1];
      ConstantsGrow(ins, i, j - 1);
    }
  }

  /** Among one input's commands, the slot of channel j is named by its own command only. */
  lemma {:induction false} LastInputCommand(layout: Layout, p: Program, input: Input, constant: nat, count: nat,
                                            k: nat, j: nat)
    requires constant < 0x1_0000 && count <= 0x1_0000 && k < 0x1_0000 && j < 0x1_0000
    ensures LastCommand(InputCommands(layout, p, input, constant, count), EngineBase(layout, p.index), Selector(k, j))
         == if IsConstant(input) && constant == k && j < count then Some(CommandFor(layout, p, input, constant, j))
            else None
  {
    hide Selector, EngineBase, Dest, ValueOf;
    if IsConstant(input) && count != 0 {
      var n := count - 1;
      var cs := InputCommands(layout, p, input, constant, count);
      assert cs[..n] == InputCommands(layout, p, input, constant, n);
      LastInputCommand(layout, p, input, constant, n, k, j);
      SelectorsDiffer(constant, n, k, j);
    }
  }

  /** Among a core's commands likewise, over all its inputs. */
  lemma {:induction false} LastCoreCommand(layout: Layout, p: Program, ins: seq<Input>, n: nat, i: nat, j: nat)
    requires Bounded(ins, p.channels) && i < |ins| && n <= |ins| && IsConstant(ins[i]) && j < Width(ins[i], p.channels)
    ensures LastCommand(CoreCommands(layout, p, ins[..n]), EngineBase(layout, p.index),
                        Selector(ConstantsIn(ins[..i]), j))
         == if i < n then Some(CommandFor(layout, p, ins[i], ConstantsIn(ins[..i]), j)) else None
  {
    hide Selector, EngineBase, InputCommands, IsConstant, Width;
    assert Width(ins[i], p.channels) <= 0x1_0000 by { assert ins[i] in ins; }
    ConstantsBound(ins[..i]);
    if n != 0 {
      var m := n - 1;
      var base, selector := EngineBase(layout, p.index), Selector(ConstantsIn(ins[..i]), j);
      assert ins[..n][..m] == ins[..m];
      LastCoreCommand(layout, p, ins, m, i, j);
      ConstantsBound(ins[..m]);
      assert Width(ins[m], p.channels) <= 0x1_0000 by { assert ins[m] in ins; }
      LastInputCommand(layout, p, ins[m], ConstantsIn(ins[..m]), Width(ins[m], p.channels), ConstantsIn(ins[..i]), j);
      LastCommandAppend(CoreCommands(layout, p, ins[..m]),
                        InputCommands(layout, p, ins[m], ConstantsIn(ins[..m]), Width(ins[m], p.channels)),
                        base, selector);
      if i < m {
        ConstantsGrow(ins, i, m);
      } else if m < i {
        ConstantsGrow(ins, m, i);
      }
    }
  }

  /** Every channel of every constant of a core has its command. */
  lemma {:induction false} CommandListed(layout: Layout, p: Program, ins: seq<Input>, n: nat, i: nat, j: nat)
    requires i < n <= |ins| && IsConstant(ins[i]) && j < Width(ins[i], p.channels)
    ensures CommandFor(layout, p, ins[i], ConstantsIn(ins[..i]), j) in CoreCommands(layout, p, ins[..n])
  {
    hide IsConstant, Width, CommandFor, ConstantsIn;
    var m := n - 1;
    assert ins[..n][..m] == ins[..m];
    if i == m {
      var own := InputCommands(layout, p, ins[m], ConstantsIn(ins[..m]), Width(ins[m], p.channels));
      assert own[j] == CommandFor(layout, p, ins[m], ConstantsIn(ins[..m]), j);
    } else {
      CommandListed(layout, p, ins, m, i, j);
    }
  }

  lemma {:induction false} AllListed(layout: Layout, spec: Spec, ps: seq<Program>, n: nat, k: nat, i: nat, j: nat)
    requires k < n <= |ps| && i < |Inputs(spec, ps[k].name)|
    requires IsConstant(Inputs(spec, ps[k].name)[i]) && j < Width(Inputs(spec, ps[k].name)[i], ps[k].channels)
    ensures var ins := Inputs(spec, ps[k].name);
      CommandFor(layout, ps[k], ins[i], ConstantsIn(ins[..i]), j) in AllCommands(layout, spec, ps[..n])
  {
    hide IsConstant, Width, CommandFor, ConstantsIn, CoreCommands;
    var m := n - 1;
    assert ps[..n][..m] == ps[..m];
    if k == m {
      var ins := Inputs(spec, ps[k].name);
      CommandListed(layout, ps[k], ins, |ins|, i, j);
      assert ins[..|ins|] == ins;
    } else {
      AllListed(layout, spec, ps, m, k, i, j);
    }
  }

  /** Commands of a core all address its own engine. */
  lemma {:induction false} CommandsOwnEngine(layout: Layout, p: Program, ins: seq<Input>)
    ensures forall c :: c in CoreCommands(layout, p, ins) ==> c.input.base == EngineBase(layout, p.index)
  {
    if ins != [] { CommandsOwnEngine(layout, p, ins[..|ins| - 1]); }
  }

  lemma {:induction false} NoCommandElsewhere(cs: seq<Command>, base: nat, other: nat, selector: nat)
    requires other != base && forall c :: c in cs ==> c.input.base == other
    ensures LastCommand(cs, base, selector) == None
  {
    if cs != [] {
      assert cs[|cs| - 1] in cs;
      NoCommandElsewhere(cs[..|cs| - 1], base, other, selector);
    }
  }

  /** Cores have their own engines. */
  ghost predicate DistinctEngines(layout: Layout, ps: seq<Program>) {
    forall i, j :: 0 <= i < j < |ps| ==> EngineBase(layout, ps[i].index) != EngineBase(layout, ps[j].index)
  }

  ghost predicate AllBounded(spec: Spec, ps: seq<Program>) {
    forall p :: p in ps ==> Bounded(Inputs(spec, p.name), p.channels)
  }

  /**
   After the inputs of all cores are set up, channel j of constant number k of a core is the last thing the
   slot (k, j) of its engine was told: its destination for that channel, and its own value or the one
   broadcast to all channels.
   */
  lemma {:induction false} SlotOfConstant(layout: Layout, spec: Spec, ps: seq<Program>, n: nat, c: nat, i: nat, j: nat)
    requires DistinctEngines(layout, ps) && AllBounded(spec, ps) && n <= |ps| && c < |ps|
    requires i < |Inputs(spec, ps[c].name)| && IsConstant(Inputs(spec, ps[c].name)[i])
    requires j < Width(Inputs(spec, ps[c].name)[i], ps[c].channels)
    ensures var ins := Inputs(spec, ps[c].name);
      LastCommand(AllCommands(layout, spec, ps[..n]), EngineBase(layout, ps[c].index),
                  Selector(ConstantsIn(ins[..i]), j))
      == if c < n then Some(CommandFor(layout, ps[c], ins[i], ConstantsIn(ins[..i]), j)) else None
  {
    hide Selector, EngineBase, IsConstant, Width, CoreCommands, CommandFor, Bounded, ConstantsIn, LastCommand;
    var ins := Inputs(spec, ps[c].name);
    var base, selector := EngineBase(layout, ps[c].index), Selector(ConstantsIn(ins[..i]), j);
    if n == 0 {
      NoCommands(base, selector);
    } else {
      var m := n - 1;
      assert ps[..n][..m] == ps[..m];
      SlotOfConstant(layout, spec, ps, m, c, i, j);
      var own := CoreCommands(layout, ps[m], Inputs(spec, ps[m].name));
      LastCommandAppend(AllCommands(layout, spec, ps[..m]), own, base, selector);
      if m == c {
        assert ps[c] in ps;
        LastCoreCommand(layout, ps[c], ins, |ins|, i, j);
        assert ins[..|ins|] == ins;
      } else {
        CommandsOwnEngine(layout, ps[m], Inputs(spec, ps[m].name));
        NoCommandElsewhere(own, base, EngineBase(layout, ps[m].index), selector);
      }
    }
  }

  lemma NoCommands(base: nat, selector: nat)
    ensures LastCommand([], base, selector) == None
  {
  }

  // ----- where a command comes from

  lemma {:induction false} CoreCommandOrigin(layout: Layout, p: Program, ins: seq<Input>, n: nat,
                                             cmd: Command)
    returns (i: nat, j: nat)
    requires n <= |ins| && cmd in CoreCommands(layout, p, ins[..n])
    ensures i < n && IsConstant(ins[i]) && j < Width(ins[i], p.channels)
    ensures cmd == CommandFor(layout, p, ins[i], ConstantsIn(ins[..i]), j)
  {
    hide CommandFor, IsConstant, Width, ConstantsIn;
    var m := n - 1;
    assert ins[..n][..m] == ins[..m];
    if cmd in CoreCommands(layout, p, ins[..m]) {
      i, j := CoreCommandOrigin(layout, p, ins, m, cmd);
    } else {
      var own := InputCommands(layout, p, ins[m], ConstantsIn(ins[..m]), Width(ins[m], p.channels));
      i := m;
      j :| 0 <= j < |own| && own[j] == cmd;
    }
  }

  /** Every command of the deployment is that of one channel of one constant of one core. */
  lemma {:induction false} CommandOrigin(layout: Layout, spec: Spec, ps: seq<Program>, n: nat, cmd: Command)
    returns (k: nat, i: nat, j: nat)
    requires n <= |ps| && cmd in AllCommands(layout, spec, ps[..n])
    ensures k < n && i < |Inputs(spec, ps[k].name)|
    ensures var ins := Inputs(spec, ps[k].name);
      && IsConstant(ins[i]) && j < Width(ins[i], ps[k].channels)
      && cmd == CommandFor(layout, ps[k], ins[i], ConstantsIn(ins[..i]), j)
  {
    hide CoreCommands, CommandFor, IsConstant, Width, ConstantsIn;
    var m := n - 1;
    assert ps[..n][..m] == ps[..m];
    if cmd in AllCommands(layout, spec, ps[..m]) {
      k, i, j := CommandOrigin(layout, spec, ps, m, cmd);
    } else {
      var ins := Inputs(spec, ps[m].name);
      assert ins[..|ins|] == ins;
      k := m;
      i, j := CoreCommandOrigin(layout, ps[m], ins, |ins|, cmd);
    }
  }
}

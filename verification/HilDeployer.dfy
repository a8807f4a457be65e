/**
 The deployer itself: the object whose methods issue the register writes and keep the tables, each proved
 to have the effects the deployment is specified by.
 */
module Deployer {
  import opened Operations
  import opened SimulationText
  import opened Specification
  import opened Effects
  import opened Rates
  import opened Schedule
  import opened DmaTable
  import opened CoreMemory
  import opened CoreInputs
  import opened ConstantEngine
  import opened Sequencer
  import opened Interconnect
  import opened Reciprocal
  import opened BusMap
  import opened Bits
  import opened Deployment
  import Arithmetic

  class HilDeployer {
    const config: Config
    const busMap: HilBusMap
    const hash: Spec -> int

    // the accessor's log and mode
    var operations: seq<BusOp>
    var sinkMode: bool
    var previousSinkMode: bool

    // tables
    var ivs: InitialValues
    var inputs: seq<InputMetadata>
    var busLabels: map<nat, string>
    var inputLabels: map<string, TbInput>
    var activeRandomInputs: nat
    var coresIdx: map<string, nat>
    var executionOrder: map<string, nat>
    var nChannels: map<string, nat>

    // schedule
    var minTimebase: Word
    var timebaseFrequency: nat
    var timebaseDivider: nat
    var deployedHash: int

    constructor (config: Config, hash: Spec -> int)
      ensures this.config == config && this.hash == hash && fresh(busMap)
      ensures View() == Deployed([], map[], map[], [], 0)
      ensures ivs == map[] && timebaseDivider == 1 && !sinkMode && !previousSinkMode && deployedHash == 0
    {
      this.config, this.hash := config, hash;
      busMap := new HilBusMap();
      operations, sinkMode, previousSinkMode := [], false, false;
      ivs, inputs, busLabels, inputLabels, activeRandomInputs := map[], [], map[], map[], 0;
      coresIdx, executionOrder, nChannels := map[], map[], map[];
      minTimebase, timebaseFrequency, timebaseDivider, deployedHash := 0, 0, 1, 0;
    }

    /** The log and the tables, as the effects change them. */
    function View(): Deployed
      reads this
    {
      Deployed(operations, busLabels, inputLabels, inputs, activeRandomInputs)
    }

    // ----- single operations

    method WriteRegister(address: nat, value: Word)
      modifies this`operations
      ensures View() == Apply(old(View()), Write(address, value))
    {
      operations := operations + [BusOp([address], [value], ControlPlaneWrite)];
    }

    method LoadCore(address: nat, program: seq<Word>)
      modifies this`operations
      ensures View() == Apply(old(View()), Load(address, program))
    {
      operations := operations + [BusOp([address], program, RomPlaneWrite)];
    }

    method SetupCore(address: nat, channels: Word)
      modifies this`operations
      ensures View() == Apply(old(View()), Write(address, channels))
    {
      WriteRegister(address, channels);
    }

    // ----- output DMA

    method SetupOutputEntry(e: Slot, dma: nat, io: nat, channels: nat) returns (ok: bool)
      requires InRange(e) ==> InitialDefined(e, ivs)
      modifies this`operations, this`busLabels
      ensures ok <==> InRange(e)
      ensures View() == if ok then ApplyAll(old(View()), EntryEffects(e, dma, io, channels, ivs)) else old(View())
    {
      hide Apply, ApplyAll, Mapping, Format, BusKey, SignalName, Wrap32, EntryEffects;
      if e.sourceIo > 0xfff || e.destinationBus > 0xfff || e.sourceChannel > 0xF || e.destinationChannel > 0xF {
        return false;
      }
      EntryApplies(View(), e, dma, io, channels, ivs);
      LabelApplies(Apply(View(), Write(dma + MAPPINGS + 4 * io, Mapping(e))), BusKey(e), SignalName(e, channels));
      WriteRegister(dma + MAPPINGS + 4 * io, Mapping(e));
      busLabels := busLabels[BusKey(e) := SignalName(e, channels)];
      if (e.sourceId, e.sourceName) in ivs {
        var iv := ivs[(e.sourceId, e.sourceName)];
        WriteRegister(dma + FILL_CHANNEL, Wrap32(io));
        WriteRegister(dma + FILL_DATA, iv[e.sourceChannel]);
      }
      WriteRegister(dma + FORMATS + 4 * io, Format(e));
      return true;
    }

    method SetupOutputDma(address: nat, core: string, channels: nat) returns (count: nat, ok: bool)
      requires InitialsDefined(Entries(busMap.busMap, core), ivs)
      modifies this`operations, this`busLabels
      ensures var run := CoreRun(Entries(busMap.busMap, core), address, channels, ivs);
        ok == run.ok && View() == ApplyAll(old(View()), run.effects)
      ensures ok ==> count == |Entries(busMap.busMap, core)|
    {
      hide Apply, ApplyAll, EntryEffects, InRange, InitialDefined, InitialsDefined, Entries, TableRun;
      ghost var d := View();
      ghost var slots, es := busMap.busMap, [];
      count := 0;
      ApplyNone(d);
      NoEntries(slots, core, address, channels, ivs);
      for i := 0 to |busMap.busMap|
        invariant es == Entries(slots[..i], core) && count == |es|
        invariant InitialsDefined(es, ivs) && TableRun(es, address, channels, ivs).ok
        invariant View() == ApplyAll(d, TableRun(es, address, channels, ivs).effects)
      {
        var e := busMap.busMap[i];
        EntriesStep(slots, core, i);
        EntriesPrefix(slots, core, i + 1, ivs);
        if e.sourceId == core {
          TableRunSnoc(es, e, address, channels, ivs);
          var accepted := SetupOutputEntry(e, address, count, channels);
          if !accepted {
            StoppedRun(slots, core, i + 1, address, channels, ivs);
            return count, false;
          }
          ApplyAppend(d, TableRun(es, address, channels, ivs).effects, EntryEffects(e, address, count, channels, ivs));
          count := count + 1;
          es := es + [e];
        }
      }
      assert slots[..|slots|] == slots;
      WriteRegister(address, Wrap32(count));
      ApplySnoc(d, TableRun(es, address, channels, ivs).effects, Write(address, Wrap32(count)));
      ok := true;
    }

    // ----- memories

    method SetupMemories(base: nat, inits: seq<MemoryInit>, channels: nat)
      requires AllDefined(inits, channels)
      modifies this`operations
      ensures View() == ApplyAll(old(View()), MemoryEffects(inits, base, channels))
    {
      hide Apply, ApplyAll, WordAddress;
      ghost var d, es := View(), [];
      ApplyNone(d);
      for k := 0 to |inits|
        invariant es == MemoryEffects(inits[..k], base, channels)
        invariant View() == ApplyAll(d, es)
      {
        var init := inits[k];
        ghost var earlier, own := es, InitEffects(init, base, channels);
        assert inits[..k + 1][..k] == inits[..k];
        if |init.values| == channels {
          for i := 0 to channels
            invariant es == earlier + own[..i]
            invariant View() == ApplyAll(d, es)
          {
            WriteRegister(WordAddress(base, init.address, i), init.values[i]);
            es := Snoc(d, es, own[i]);
          }
          assert own[..channels] == own;
        } else {
          WriteRegister(base + init.address * 4, init.values[0]);
          es := Snoc(d, es, own[0]);
        }
      }
      assert inits[..|inits|] == inits;
    }

    // ----- inputs

    /** The three writes that set one slot of a constant engine. */
    method WriteConstant(m: InputMetadata, value: Word)
      modifies this`operations
      ensures View() == Apply(old(View()), UpdateConstant(m, value))
    {
      operations := operations + [DirectOp(Store(m.base + CONST_SELECTOR, m.selector))];
      operations := operations + [DirectOp(Store(m.base + CONST_DEST, m.dest))];
      operations := operations + [DirectOp(Store(m.base + CONST_LSB, value))];
      assert DirectOps(ConstantStores(m, value))
        == [DirectOp(Store(m.base + CONST_SELECTOR, m.selector)), DirectOp(Store(m.base + CONST_DEST, m.dest)),
            DirectOp(Store(m.base + CONST_LSB, value))];
    }

    /** One channel of one input; the head of its data is the channel's value. */
    method SetupInput(input: Input, p: Program, constant: nat, channel: nat, multichannel: bool)
      requires IsConstant(input) ==> |input.data| > 0
      modifies this`operations, this`busLabels, this`inputLabels, this`inputs, this`activeRandomInputs
      ensures View() == ApplyAll(old(View()),
        SetupEffects(config.layout, p, input, constant, channel, ValueOf(input, 0), multichannel,
                     old(activeRandomInputs)))
    {
      hide Dest, Selector, RandomName, InputPath, ApplyAll;
      ghost var d, es := View(), [];
      ApplyNone(d);
      if input.source.Constant? || input.source.TimeSeries? {
        var m := Metadata(config.layout, p, input, constant, channel);
        var path := InputPath(p.name, input.name, channel, multichannel);
        var entry := TbInput(m.base + CONST_LSB, m.dest, m.selector, 0);
        inputLabels := inputLabels[path := entry];
        es := Snoc(d, es, LabelInput(path, entry));
        WriteConstant(m, input.data[0]);
        inputs := inputs + [m];
        es := Snoc(d, es, SetConstant(m, input.data[0]));
        assert es == [LabelInput(path, entry), SetConstant(m, input.data[0])];
      } else if input.source.Random? {
        var address := Dest(input, channel);
        var name := RandomName(p.name, input.name, channel, multichannel);
        WriteRegister(config.layout.noiseGenerator + (activeRandomInputs + 1) * 4, address);
        es := Snoc(d, es, Write(config.layout.noiseGenerator + (activeRandomInputs + 1) * 4, address));
        activeRandomInputs := activeRandomInputs + 1;
        es := Snoc(d, es, NextRandom);
        busLabels := busLabels[address := name];
        es := Snoc(d, es, LabelBus(address, name));
        assert es == SetupEffects(config.layout, p, input, constant, channel, ValueOf(input, 0), multichannel,
                                  d.randomInputs);
      }
    }

    method TouchLabel(path: string, index: nat)
      modifies this`inputLabels
      ensures View() == Apply(old(View()), TouchInput(path, index))
    {
      if path in inputLabels {
        inputLabels := inputLabels[path := inputLabels[path].(coreIndex := index)];
      }
    }

    /** Every known input that matches is written, in the order they were deployed. */
    method SetInput(call: SetCall)
      modifies this`operations
      ensures View() == ApplyAll(old(View()), SetInputEffects(inputs, call))
    {
      hide Matches, Converted, Apply, ApplyAll;
      ghost var d, es := View(), [];
      ApplyNone(d);
      for i := 0 to |inputs|
        invariant es == SetInputEffects(inputs[..i], call)
        invariant View() == ApplyAll(d, es)
      {
        var m := inputs[i];
        assert inputs[..i + 1][..i] == inputs[..i];
        if Matches(m, call) {
          WriteConstant(m, Converted(m, call.value));
          es := Snoc(d, es, UpdateConstant(m, Converted(m, call.value)));
        } else {
          assert es + [] == es;
        }
      }
      assert inputs[..|inputs|] == inputs;
    }

    /** Sets up every input of every core; a copy of the input loses its head value channel by channel. */
    method SetupInputs(spec: Spec)
      requires activeRandomInputs == 0
      requires InputsDefined(spec)
      modifies this`operations, this`busLabels, this`inputLabels, this`inputs, this`activeRandomInputs
      ensures View() == ApplyAll(old(View()), AllInputEffects(config.layout, spec, spec.programs))
    {
      hide ApplyAll, Apply, SetupEffects, InputEffects, ProgramInputEffects;
      ghost var d, es := View(), [];
      var ps := spec.programs;
      ApplyNone(d);
      for k := 0 to |ps|
        invariant es == AllInputEffects(config.layout, spec, ps[..k])
        invariant View() == ApplyAll(d, es) && activeRandomInputs == RandomsInPrograms(spec, ps[..k])
      {
        assert ps[..k + 1][..k] == ps[..k];
        SetupProgramInputs(ps[k], Inputs(spec, ps[k].name));
        ghost var own := ProgramInputEffects(config.layout, ps[k], Inputs(spec, ps[k].name),
                                             RandomsInPrograms(spec, ps[..k]));
        ApplyAppend(d, es, own);
        es := es + own;
      }
      assert ps[..|ps|] == ps;
    }

    /** The body of the loop over the cores. */
    method SetupProgramInputs(p: Program, ins: seq<Input>)
      requires forall input :: input in ins ==> InputDefined(input, p.channels)
      modifies this`operations, this`busLabels, this`inputLabels, this`inputs, this`activeRandomInputs
      ensures View() == ApplyAll(old(View()), ProgramInputEffects(config.layout, p, ins, old(activeRandomInputs)))
      ensures activeRandomInputs == old(activeRandomInputs) + RandomsIn(ins, p.channels)
    {
      hide ApplyAll, Apply, SetupEffects, InputEffects, InputDefined, RandomsOf, IsConstant;
      ghost var d, es, active := View(), [], activeRandomInputs;
      ApplyNone(d);
      var inputProgressive := 0;
      for i := 0 to |ins|
        invariant es == InputsEffects(config.layout, p, ins[..i], active)
        invariant inputProgressive == ConstantsIn(ins[..i])
        invariant View() == ApplyAll(d, es) && activeRandomInputs == active + RandomsIn(ins[..i], p.channels)
      {
        assert ins[..i + 1][..i] == ins[..i];
        ghost var own := InputEffects(config.layout, p, ins[i], inputProgressive, activeRandomInputs);
        SetupWholeInput(p, ins[i], inputProgressive);
        ApplyAppend(d, es, own);
        es := es + own;
        if IsConstant(ins[i]) {
          inputProgressive := inputProgressive + 1;
        }
      }
      assert ins[..|ins|] == ins;
      if activeRandomInputs > 0 {
        WriteRegister(config.layout.noiseGenerator, Wrap32(activeRandomInputs));
        es := Snoc(d, es, Write(config.layout.noiseGenerator, Wrap32(activeRandomInputs)));
      } else {
        assert es + [] == es;
      }
    }

    /** The body of the loop over a core's inputs. */
    method SetupWholeInput(p: Program, input: Input, constant: nat)
      requires InputDefined(input, p.channels)
      modifies this`operations, this`busLabels, this`inputLabels, this`inputs, this`activeRandomInputs
      ensures View() == ApplyAll(old(View()), InputEffects(config.layout, p, input, constant, old(activeRandomInputs)))
      ensures activeRandomInputs == old(activeRandomInputs) + RandomsOf(input, p.channels)
    {
      hide ApplyAll, Apply, SetupEffects, MultiEffects, InputPath, ChannelName;
      ghost var d, es, active := View(), [], activeRandomInputs;
      ApplyNone(d);
      NoMultiEffects(config.layout, p, input, constant, active);
      var copy := input;
      var path := "." + input.name;
      if p.channels > 1 {
        if |input.data| > 1 {
          for j := 0 to |input.data|
            invariant copy == input.(data := input.data[j..])
            invariant path == if j == 0 then "." + input.name else InputPath(p.name, input.name, j - 1, true)
            invariant es == MultiEffects(config.layout, p, input, constant, j, active)
            invariant View() == ApplyAll(d, es) && activeRandomInputs == active + RandomsBefore(input, j)
          {
            SetupLooks(config.layout, p, input, copy, constant, j, ValueOf(input, j), activeRandomInputs);
            SetupRandoms(config.layout, p, copy, constant, j, ValueOf(copy, 0), true, activeRandomInputs, View());
            ghost var own := SetupEffects(config.layout, p, copy, constant, j, ValueOf(copy, 0), true,
                                          activeRandomInputs);
            SetupInput(copy, p, constant, j, true);
            ApplyAppend(d, es, own);
            es := es + own;
            path := InputPath(p.name, input.name, j, true);
            TouchLabel(path, p.index);
            es := Snoc(d, es, TouchInput(path, p.index));
            copy := copy.(data := copy.data[1..]);
            MultiStep(config.layout, p, input, constant, j, active);
          }
        } else if input.source.Random? {
          for j := 0 to p.channels
            invariant path == if j == 0 then "." + input.name else InputPath(p.name, input.name, j - 1, true)
            invariant es == MultiEffects(config.layout, p, input, constant, j, active)
            invariant View() == ApplyAll(d, es) && activeRandomInputs == active + RandomsBefore(input, j)
          {
            ghost var own := SetupEffects(config.layout, p, copy, constant, j, ValueOf(copy, 0), true,
                                          activeRandomInputs);
            SetupRandoms(config.layout, p, copy, constant, j, ValueOf(copy, 0), true, activeRandomInputs, View());
            SetupInput(copy, p, constant, j, true);
            ApplyAppend(d, es, own);
            es := es + own;
            path := InputPath(p.name, input.name, j, true);
            SetupLooks(config.layout, p, input, copy, constant, j, ValueOf(input, j), active + j);
            MultiStep(config.layout, p, input, constant, j, active);
            assert es + [] == es;
          }
        } else if IsConstant(input) && |input.data| == 1 {
          for j := 0 to p.channels
            invariant path == if j == 0 then "." + input.name else InputPath(p.name, input.name, j - 1, true)
            invariant es == MultiEffects(config.layout, p, input, constant, j, active)
            invariant View() == ApplyAll(d, es) && activeRandomInputs == active
          {
            ghost var own := SetupEffects(config.layout, p, copy, constant, j, ValueOf(copy, 0), true,
                                          activeRandomInputs);
            SetupRandoms(config.layout, p, copy, constant, j, ValueOf(copy, 0), true, activeRandomInputs, View());
            SetupInput(copy, p, constant, j, true);
            ApplyAppend(d, es, own);
            es := es + own;
            path := InputPath(p.name, input.name, j, true);
            TouchLabel(path, p.index);
            es := Snoc(d, es, TouchInput(path, p.index));
            MultiStep(config.layout, p, input, constant, j, active);
          }
        }
      } else {
        SetupRandoms(config.layout, p, input, constant, 0, ValueOf(input, 0), false, active, View());
        SetupInput(copy, p, constant, 0, false);
        es := SetupEffects(config.layout, p, input, constant, 0, ValueOf(input, 0), false, active);
        path := p.name + "." + input.name;
      }
      TouchLabel(path, p.index);
      es := Snoc(d, es, TouchInput(path, p.index));
    }

    // ----- initial values of connected outputs

    method SetupInterconnectIv(slots: seq<Slot>, ps: seq<Program>)
      modifies this`ivs
      ensures ivs == AfterConnections(old(ivs), slots, ps)
    {
      hide ConnectedValue, InputValue, AddInitial, Expand;
      for a := 0 to |slots|
        invariant ivs == AfterConnections(old(ivs), slots[..a], ps)
      {
        var slot := slots[a];
        ghost var base := ivs;
        assert slots[..a + 1][..a] == slots[..a];
        NothingConnected(base, slot);
        for b := 0 to |ps|
          invariant ivs == AddInitial(base, slot, ConnectedValue(ps[..b], slot))
        {
          var p := ps[b];
          ProgramStep(ps, b, slot);
          if p.name == slot.destinationId {
            NoInputs(p, slot);
            ghost var sofar := ConnectedValue(ps[..b], slot);
            for i := 0 to |p.inputs|
              invariant ivs
                   == AddInitial(base, slot, Newer(InputValue(p.inputs[..i], p.channels, slot.destinationName), sofar))
            {
              var input := p.inputs[i];
              InputStep(p, i, slot.destinationName);
              if input.name == slot.destinationName {
                var data: seq<Word> := [];
                if |input.data| == 1 && p.channels > 1 {
                  for j := 0 to p.channels
                    invariant data == seq(j, _ => input.data[0])
                  {
                    data := data + [input.data[0]];
                  }
                } else {
                  for j := 0 to |input.data|
                    invariant data == input.data[..j]
                  {
                    data := data + [input.data[j]];
                  }
                  assert input.data[..|input.data|] == input.data;
                }
                ExpandIs(input, p.channels, data);
                AddTwice(base, slot, Newer(InputValue(p.inputs[..i], p.channels, slot.destinationName), sofar), data);
                ivs := ivs[(slot.sourceId, slot.sourceName) := data];
              }
            }
            assert p.inputs[..|p.inputs|] == p.inputs;
          }
        }
        assert ps[..|ps|] == ps;
      }
      assert slots[..|slots|] == slots;
    }

    // ----- schedule

    /** std::accumulate over an int, through std::lcm on uint32_t: exact precisely below 2^31. */
    method FoldTimebase(frequencies: seq<nat>) returns (timebase: int)
      requires FoldDefined(frequencies)
      ensures Arithmetic.LcmAll(frequencies) < 0x1_0000_0000 && timebase == Stored(Arithmetic.LcmAll(frequencies))
      ensures timebase == Arithmetic.LcmAll(frequencies) <==> Arithmetic.LcmAll(frequencies) < 0x8000_0000
    {
      hide Arithmetic.Lcm;
      assert StepDefined(frequencies, 0);
      timebase := 1;
      for i := 0 to |frequencies|
        invariant Arithmetic.LcmAll(frequencies[..i]) < 0x1_0000_0000
        invariant timebase == Stored(Arithmetic.LcmAll(frequencies[..i]))
      {
        assert frequencies[..i + 1][..i] == frequencies[..i] && StepDefined(frequencies, i + 1);
        var a := timebase % 0x1_0000_0000;
        timebase := Stored(Arithmetic.Lcm(a, frequencies[i]));
      }
      assert frequencies[..|frequencies|] == frequencies;
    }

    /** Frame dividers; on the way the timebase divider is raised until no core is too fast. */
    method CalculateTimebaseDivider(ps: seq<Program>) returns (dividers: seq<nat>)
      requires config.clock > 0.0 && timebaseDivider > 0
      requires TablesRecord(config, ps, coresIdx, executionOrder, nChannels)
      modifies this`timebaseDivider
      ensures dividers == DividersFor(timebaseFrequency, ps)
      ensures IsLeastDivider(RatedCores(config, ps), timebaseFrequency, old(timebaseDivider), timebaseDivider,
                             config.clock)
    {
      hide TooFast, RunChannels, SearchBound, IsLeastDivider, TablesRecord;
      TablesReady(config, ps, coresIdx, executionOrder, nChannels);
      ghost var cores := RatedCores(config, ps);
      ghost var start := timebaseDivider;
      dividers := [];
      LeastDividerNone(timebaseFrequency, start, config.clock);
      for k := 0 to |ps|
        invariant dividers == DividersFor(timebaseFrequency, ps)[..k]
        invariant timebaseDivider >= start
        invariant IsLeastDivider(cores[..k], timebaseFrequency, start, timebaseDivider, config.clock)
      {
        var p := ps[k];
        if p.samplingFrequency == 0 {
          dividers := dividers + [1];
          LeastDividerSkip(cores, timebaseFrequency, start, timebaseDivider, config.clock, k);
        } else {
          var totalLength := Wrap32(p.fixedLength + nChannels[p.name] * p.perChannelLength);
          ghost var before := timebaseDivider;
          while TooFast(timebaseFrequency, timebaseDivider, totalLength, config.clock)
            invariant timebaseDivider >= before
            invariant timebaseDivider > before ==>
              TooFast(timebaseFrequency, timebaseDivider - 1, totalLength, config.clock)
            decreases SearchBound(timebaseFrequency, totalLength, config.clock) + 1 - timebaseDivider
          {
            TooFastBound(timebaseFrequency, timebaseDivider, totalLength, config.clock);
            timebaseDivider := timebaseDivider + 1;
          }
          LeastDividerStep(cores, timebaseFrequency, start, before, timebaseDivider, config.clock, k);
          dividers := dividers + [timebaseFrequency / p.samplingFrequency];
        }
      }
      assert cores[..|ps|] == cores;
    }

    /** Start offsets: sort by execution order, lay the slots end to end, and undo the sort by name. */
    method CalculateTimebaseShift(ps: seq<Program>) returns (shifts: seq<Word>)
      requires ps != []
      requires TablesRecord(config, ps, coresIdx, executionOrder, nChannels)
      modifies this`minTimebase
      ensures shifts == Shifts(config.sort, SlotsOf(config, ps))
      ensures minTimebase == Wrap32(old(minTimebase) + Total(SlotsOf(config, ps)))
    {
      hide RunChannels, Recorded, StartOffset, StartTable, Sum, Wraps, Wrap32, Shifts, TablesRecord;
      TablesReady(config, ps, coresIdx, executionOrder, nChannels);
      ghost var data := SlotsOf(config, ps);
      var calcData: seq<Schedule.SlotData> := [];
      for k := 0 to |ps|
        invariant calcData == data[..k]
      {
        var l := Wrap32(ps[k].fixedLength + nChannels[ps[k].name] * ps[k].perChannelLength);
        calcData := calcData + [Schedule.SlotData(ps[k].name, executionOrder[ps[k].name], l)];
      }
      assert calcData == data;
      calcData := config.sort(calcData);
      ghost var v := calcData;
      SortFacts(config.sort, data);
      var orderedShifts: map<string, Word> := map[calcData[0].name := 2];
      var nextStartingPoint := Wrap32(calcData[0].length + 2 + GUARD);
      FirstSlot(v);
      for i := 1 to |calcData|
        invariant nextStartingPoint == Wrap32(StartOffset(v, i))
        invariant Wraps(orderedShifts, StartTable(v[..i]))
        invariant minTimebase == old(minTimebase)
      {
        WrapsSnoc(orderedShifts, v, i);
        orderedShifts := orderedShifts[calcData[i].name := nextStartingPoint];
        StartStep(v, i);
        WrapStep(StartOffset(v, i), v[i].length + GUARD);
        nextStartingPoint := Wrap32(nextStartingPoint + calcData[i].length + GUARD);
      }
      assert v[..|v|] == v;
      TotalNone();
      WrapWord(minTimebase);
      assert v[..0] == [];
      for i := 0 to |calcData|
        invariant minTimebase == Wrap32(old(minTimebase) + Total(v[..i]))
      {
        TotalStep(v, i);
        WrapStep(old(minTimebase) + Total(v[..i]), v[i].length + GUARD);
        minTimebase := Wrap32(minTimebase + calcData[i].length + GUARD);
      }
      shifts := [];
      for k := 0 to |ps|
        invariant |shifts| == k && |Shifts(config.sort, data)| == |ps|
        invariant minTimebase == Wrap32(old(minTimebase) + Total(v))
        invariant forall i :: 0 <= i < k ==> shifts[i] == Shifts(config.sort, data)[i]
      {
        ShiftInTable(config.sort, data, orderedShifts, k);
        shifts := shifts + [orderedShifts[ps[k].name]];
      }
      assert shifts == Shifts(config.sort, data);
    }

    method SetupSequencer(dividers: seq<nat>, shifts: seq<Word>)
      requires |dividers| == |shifts| <= MAX_CORES && Convertible(config.clock, timebaseFrequency)
      modifies this`operations
      ensures View() == ApplyAll(old(View()),
        SequencerEffects(config.layout, dividers, shifts, Period(config.clock, timebaseFrequency, minTimebase)))
    {
      hide Apply, ApplyAll, ToUlong, Divisor, Threshold, DivisorWord, Period;
      ghost var d, es := View(), [];
      ApplyNone(d);
      var enable := seq(MAX_CORES, _ => false);
      for i := 0 to |dividers|
        invariant enable == seq(MAX_CORES, k requires k >= 0 => k < i)
        invariant es == CoreEffects(config.layout, dividers, shifts, i)
        invariant View() == ApplyAll(d, es)
      {
        ghost var earlier := es;
        enable := enable[i := true];
        WriteRegister(Divisor(config.layout, i), DivisorWord(dividers[i]));
        es := Snoc(d, es, Write(Divisor(config.layout, i), DivisorWord(dividers[i])));
        WriteRegister(Threshold(config.layout, i), shifts[i]);
        es := Snoc(d, es, Write(Threshold(config.layout, i), shifts[i]));
        CoreEffectsStep(config.layout, dividers, shifts, i);
      }
      var period := Period(config.clock, timebaseFrequency, minTimebase);
      WriteRegister(PeriodRegister(config.layout), period);
      es := Snoc(d, es, Write(PeriodRegister(config.layout), period));
      WriteRegister(EnableRegister(config.layout), Wrap32(ToUlong(enable)));
      es := Snoc(d, es, Write(EnableRegister(config.layout), Wrap32(ToUlong(enable))));
      assert enable == FirstBits(|dividers|);
      SequencerInSteps(config.layout, dividers, shifts, period);
    }

    method SetupCores(ps: seq<Program>)
      requires TablesRecord(config, ps, coresIdx, executionOrder, nChannels)
      modifies this`operations
      ensures View() == ApplyAll(old(View()), CorePhase(config, ps, |ps|))
    {
      hide Apply, ApplyAll, RunChannels, ControlBase, TablesRecord;
      TablesReady(config, ps, coresIdx, executionOrder, nChannels);
      ghost var d, es := View(), [];
      ApplyNone(d);
      for k := 0 to |ps|
        invariant es == CorePhase(config, ps, k)
        invariant View() == ApplyAll(d, es)
      {
        RunChannelsWord(config, ps, ps[k]);
        SetupCore(ControlBase(config.layout, ps[k].index), nChannels[ps[k].name]);
        es := Snoc(d, es, Write(ControlBase(config.layout, ps[k].index), RunChannels(config, ps, ps[k])));
      }
    }

    // ----- the deployment

    /** Loads every program and records its index, order and channels under its name. */
    method LoadPrograms(ps: seq<Program>) returns (frequencies: seq<nat>)
      modifies this`operations, this`coresIdx, this`executionOrder, this`nChannels
      ensures frequencies == Frequencies(ps)
      ensures View() == ApplyAll(old(View()), LoadEffects(config.layout, ps))
      ensures TablesRecord(config, ps, coresIdx, executionOrder, nChannels)
    {
      hide Apply, ApplyAll, ScannedChannels, HasReciprocal, Code, TablesRecord;
      NothingRecorded(config, coresIdx, executionOrder, nChannels);
      ghost var d, es := View(), [];
      ApplyNone(d);
      frequencies := [];
      for k := 0 to |ps|
        invariant es == LoadEffects(config.layout, ps[..k])
        invariant View() == ApplyAll(d, es)
        invariant frequencies == Frequencies(ps)[..k]
        invariant TablesRecord(config, ps[..k], coresIdx, executionOrder, nChannels)
      {
        var p := ps[k];
        assert ps[..k + 1][..k] == ps[..k] && ps[..k + 1] == ps[..k] + [p];
        RecordSnoc(config, ps[..k], p, coresIdx, executionOrder, nChannels);
        coresIdx := coresIdx[p.name := p.index];
        executionOrder := executionOrder[p.name := p.order];
        LoadCore(config.layout.coresRom + p.index * config.layout.romStride, p.binary);
        es := Snoc(d, es, Load(config.layout.coresRom + p.index * config.layout.romStride, p.binary));
        var channels := CheckReciprocal(config.isa, p.binary, config.fullCoresOverride);
        ScannedIs(config, p, channels);
        nChannels := nChannels[p.name := channels];
        frequencies := frequencies + [p.samplingFrequency];
      }
      assert ps[..|ps|] == ps;
    }

    /** The loop over the cores that writes the DMA tables. */
    method SetupAllDma(spec: Spec) returns (ok: bool)
      requires InitialsReady(spec, ivs) && busMap.busMap == spec.slots
      requires TablesRecord(config, spec.programs, coresIdx, executionOrder, nChannels)
      modifies this`operations, this`busLabels
      ensures var run := DmaPhase(config, spec, ivs, |spec.programs|);
        ok == run.ok && View() == ApplyAll(old(View()), run.effects)
    {
      hide Apply, ApplyAll, DmaOf, DmaPhase, InitialsReady, InitialsDefined, Recorded, CoreRun, ControlBase,
        TablesRecord;
      TablesReady(config, spec.programs, coresIdx, executionOrder, nChannels);
      var ps := spec.programs;
      ghost var d, es := View(), [];
      ApplyNone(d);
      NoTables(config, spec, ivs);
      for k := 0 to |ps|
        invariant DmaPhase(config, spec, ivs, k) == Phase(es, true)
        invariant View() == ApplyAll(d, es)
      {
        DmaStep(config, spec, ivs, k);
        var dma := ControlBase(config.layout, coresIdx[ps[k].name]) + config.layout.dmaOffset;
        var transfers, accepted := SetupOutputDma(dma, ps[k].name, ps[k].channels);
        ApplyAppend(d, es, DmaOf(config, spec, ivs, k).effects);
        es := es + DmaOf(config, spec, ivs, k).effects;
        if !accepted {
          DmaStops(config, spec, ivs, k + 1);
          return false;
        }
      }
      return true;
    }

    /** The loop over the cores that writes the initial memories. */
    method SetupAllMemories(spec: Spec)
      requires MemoriesDefined(spec)
      requires TablesRecord(config, spec.programs, coresIdx, executionOrder, nChannels)
      modifies this`operations
      ensures View() == ApplyAll(old(View()), MemoryPhase(config, spec, |spec.programs|))
    {
      hide Apply, ApplyAll, MemoryPhase, MemoriesDefined, MemoryEffects, Recorded, ControlBase, TablesRecord;
      TablesReady(config, spec.programs, coresIdx, executionOrder, nChannels);
      var ps := spec.programs;
      ghost var d, es := View(), [];
      ApplyNone(d);
      NoMemories(config, spec);
      for k := 0 to |ps|
        invariant es == MemoryPhase(config, spec, k)
        invariant View() == ApplyAll(d, es)
      {
        MemoryStep(config, spec, k);
        var base := ControlBase(config.layout, coresIdx[ps[k].name]);
        SetupMemories(base, Memories(spec, ps[k].name), ps[k].channels);
        ghost var own := MemoryEffects(Memories(spec, ps[k].name), base, ps[k].channels);
        ApplyAppend(d, es, own);
        es := es + own;
      }
    }

    /** From the programs to the DMA tables; what the later phases need is worked out on the way. */
    method DeployEarly(spec: Spec) returns (dividers: seq<nat>, shifts: seq<Word>, ok: bool)
      requires ScheduleDefined(config, spec.programs) && timebaseDivider > 0
      requires spec.programs != [] && busMap.busMap == spec.slots
      requires InitialsReady(spec, AfterConnections(ivs, spec.slots, spec.programs)) && minTimebase == 0
      modifies this`operations, this`busLabels, this`coresIdx, this`executionOrder, this`nChannels, this`ivs,
               this`timebaseFrequency, this`timebaseDivider, this`minTimebase
      ensures ivs == AfterConnections(old(ivs), spec.slots, spec.programs)
      ensures TablesRecord(config, spec.programs, coresIdx, executionOrder, nChannels)
      ensures dividers == Dividers(spec.programs) && shifts == Shifts(config.sort, SlotsOf(config, spec.programs))
      ensures timebaseFrequency == Timebase(spec.programs)
      ensures minTimebase == MinTimebase(SlotsOf(config, spec.programs))
      ensures IsLeastDivider(RatedCores(config, spec.programs), timebaseFrequency, old(timebaseDivider),
                             timebaseDivider, config.clock)
      ensures InitialsReady(spec, ivs)
      ensures var dma := DmaPhase(config, spec, ivs, |spec.programs|);
        ok == dma.ok && View() == ApplyAll(old(View()), LoadEffects(config.layout, spec.programs) + dma.effects)
    {
      hide Apply, ApplyAll, DmaPhase, LoadEffects, TablesRecord, AfterConnections, RatedCores, SlotsOf, MinTimebase,
        IsLeastDivider, Timebase, InitialsReady, Shifts, DividersFor, Dividers, Frequencies, ScheduleDefined,
        FoldDefined;
      ghost var d := View();
      var ps := spec.programs;
      var frequencies := LoadPrograms(ps);
      TimebaseIs(config, ps);
      timebaseFrequency := FoldTimebase(frequencies);
      dividers := CalculateTimebaseDivider(ps);
      shifts := CalculateTimebaseShift(ps);
      ScheduleIs(config, ps, minTimebase);
      SetupInterconnectIv(spec.slots, ps);
      ok := SetupAllDma(spec);
      ApplyAppend(d, LoadEffects(config.layout, ps), DmaPhase(config, spec, ivs, |ps|).effects);
    }

    /** From the memories on. */
    method DeployLate(spec: Spec, dividers: seq<nat>, shifts: seq<Word>)
      requires Convertible(config.clock, Timebase(spec.programs)) && MemoriesDefined(spec) && InputsDefined(spec)
      requires |spec.programs| <= MAX_CORES && activeRandomInputs == 0
      requires TablesRecord(config, spec.programs, coresIdx, executionOrder, nChannels)
      requires dividers == Dividers(spec.programs) && shifts == Shifts(config.sort, SlotsOf(config, spec.programs))
      requires timebaseFrequency == Timebase(spec.programs)
      requires minTimebase == MinTimebase(SlotsOf(config, spec.programs))
      modifies this`operations, this`busLabels, this`inputLabels, this`inputs, this`activeRandomInputs
      ensures View() == ApplyAll(old(View()), LatePhases(config, spec))
    {
      hide Apply, ApplyAll, MemoryPhase, AllInputEffects, SequencerPhase, CorePhase, TablesRecord, SlotsOf, Timebase,
        MinTimebase, Shifts, Dividers, MemoriesDefined, InputsDefined, SequencerEffects, Convertible;
      ghost var d := View();
      var ps := spec.programs;
      ScheduleParts(config, ps);
      SetupAllMemories(spec);
      ghost var es := MemoryPhase(config, spec, |ps|);
      SetupInputs(spec);
      ApplyAppend(d, es, AllInputEffects(config.layout, spec, ps));
      es := es + AllInputEffects(config.layout, spec, ps);
      SetupSequencer(dividers, shifts);
      ApplyAppend(d, es, SequencerPhase(config, ps));
      es := es + SequencerPhase(config, ps);
      SetupCores(ps);
      ApplyAppend(d, es, CorePhase(config, ps, |ps|));
    }

    /**
     Deploys a specification from scratch, except that the initial values, the known inputs and the timebase
     divider of earlier deployments stay. A rejected entry or too many cores end it early.
     */
    method Deploy(spec: Spec) returns (ok: bool)
      requires Deployable(config, spec, ivs) && timebaseDivider > 0
      modifies this, busMap
      ensures ok == DeployPhase(config, spec, old(ivs)).ok
      ensures View() == ApplyAll(Deployed([], map[], map[], old(inputs), 0),
                                 DeployPhase(config, spec, old(ivs)).effects)
      ensures deployedHash == hash(spec) && busMap.busMap == spec.slots
      ensures sinkMode == old(sinkMode) && previousSinkMode == old(previousSinkMode)
      ensures |spec.programs| > MAX_CORES ==> ivs == old(ivs) && timebaseDivider == old(timebaseDivider)
      ensures |spec.programs| <= MAX_CORES ==>
        && ivs == AfterConnections(old(ivs), spec.slots, spec.programs)
        && timebaseFrequency == Timebase(spec.programs)
        && minTimebase == MinTimebase(SlotsOf(config, spec.programs))
        && IsLeastDivider(RatedCores(config, spec.programs), timebaseFrequency, old(timebaseDivider), timebaseDivider,
                          config.clock)
    {
      hide Apply, ApplyAll, DmaPhase, LoadEffects, LatePhases, TablesRecord, AfterConnections, RatedCores, SlotsOf,
        MinTimebase, IsLeastDivider, Timebase, InitialsReady, MemoriesDefined, InputsDefined, Shifts, Dividers,
        Deployable, DeployPhase, ScheduleDefined, Convertible;
      DeploymentParts(config, spec, ivs);
      deployedHash := hash(spec);
      minTimebase, activeRandomInputs := 0, 0;
      inputLabels, busLabels, operations := map[], map[], [];
      busMap.Clear();
      busMap.SetMap(spec.slots);
      ghost var d := View();
      ApplyNone(d);
      if |spec.programs| > MAX_CORES {
        return false;
      }
      var dividers, shifts;
      dividers, shifts, ok := DeployEarly(spec);
      if ok {
        ghost var dma := DmaPhase(config, spec, ivs, |spec.programs|);
        ghost var early := LoadEffects(config.layout, spec.programs) + dma.effects;
        DeployLate(spec, dividers, shifts);
        ApplyAppend(d, early, LatePhases(config, spec));
      }
    }

    // ----- running the system

    /** Points a scope channel at an output; an unknown output raises an exception and writes nothing. */
    method SelectOutput(channel: nat, core: string, output: string, outputChannel: nat) returns (ok: bool)
      modifies this`operations
      ensures var e := FirstDriver(busMap.busMap, core, output, outputChannel);
        && ok == e.Some?
        && View() == if ok then Apply(old(View()), Write(ScopeSelect(config.layout, channel), SelectorWord(e.value)))
                     else old(View())
    {
      hide Apply;
      var address := busMap.TranslateOutput(core, output, outputChannel);
      if address.None? {
        return false;
      }
      var selector := Or(address.value.address, Shl(address.value.channel, 16));
      WriteRegister(ScopeSelect(config.layout, channel), Wrap32(selector));
      return true;
    }

    method Start()
      modifies this`operations
      ensures View() == Apply(old(View()), Write(config.layout.hilControl, 1))
    {
      WriteRegister(config.layout.hilControl, 1);
    }

    method Stop()
      modifies this`operations
      ensures View() == Apply(old(View()), Write(config.layout.hilControl, 0))
    {
      WriteRegister(config.layout.hilControl, 0);
    }

    /**
     What the simulation of a specification needs. The log of the last deployment serves when the hash of
     the specification is the one last deployed; otherwise the specification is deployed and started into
     the sink. When that deployment raises an exception, sink mode stays on.
     */
    method GetHardwareSimData(spec: Spec) returns (data: SimData, ok: bool)
      requires deployedHash != hash(spec) ==> Deployable(config, spec, ivs) && timebaseDivider > 0
      requires AllLoggable(operations)
      modifies this, busMap
      ensures AllLoggable(operations)
      ensures ok ==> data == SimDataOf(View())
      ensures old(deployedHash) == hash(spec) ==>
        ok && View() == old(View()) && ivs == old(ivs) && sinkMode == old(sinkMode)
      ensures old(deployedHash) != hash(spec) ==>
        && ok == DeployPhase(config, spec, old(ivs)).ok
        && (ok ==> sinkMode == old(sinkMode)
                   && View() == Redeployed(config, spec, old(ivs), old(inputs)))
        && (!ok ==> sinkMode)
    {
      hide Apply, ApplyAll, Deployable, DeployPhase, SimDataOf, Timebase, MinTimebase, SlotsOf, IsLeastDivider,
        RatedCores, AfterConnections;
      data, ok := SimData("", "", map[], map[]), true;
      if deployedHash != hash(spec) {
        previousSinkMode := sinkMode;
        sinkMode := true;
        operations := [];
        ok := Deploy(spec);
        DeployedLoggable(Deployed([], map[], map[], old(inputs), 0), DeployPhase(config, spec, old(ivs)).effects,
                         config.layout.hilControl);
        if !ok {
          return;
        }
        Start();
        sinkMode := previousSinkMode;
      }
      data := SimDataOf(View());
    }
  }

  // ----- stepping through effect lists

  lemma Snoc(d: Deployed, es: seq<Effect>, e: Effect) returns (fs: seq<Effect>)
    ensures fs == es + [e] && ApplyAll(d, fs) == Apply(ApplyAll(d, es), e)
  {
    fs := es + [e];
    ApplySnoc(d, es, e);
  }

  lemma LabelApplies(d: Deployed, key: nat, name: string)
    ensures Apply(d, LabelBus(key, name)) == d.(busLabels := d.busLabels[key := name])
  {
  }

  /** An entry's effects one after the other. */
  lemma EntryApplies(d: Deployed, e: Slot, dma: nat, io: nat, channels: nat, ivs: InitialValues)
    requires InitialDefined(e, ivs)
    ensures var head := Apply(Apply(d, Write(dma + MAPPINGS + 4 * io, Mapping(e))),
                              LabelBus(BusKey(e), SignalName(e, channels)));
      var filled := if HasInitial(e, ivs) then
                      Apply(Apply(head, Write(dma + FILL_CHANNEL, Wrap32(io))),
                            Write(dma + FILL_DATA, Initial(e, ivs).value))
                    else head;
      ApplyAll(d, EntryEffects(e, dma, io, channels, ivs)) == Apply(filled, Write(dma + FORMATS + 4 * io, Format(e)))
  {
    hide Apply, ApplyAll, Mapping, BusKey, SignalName, Format, Wrap32;
    var m, l, f := Write(dma + MAPPINGS + 4 * io, Mapping(e)), LabelBus(BusKey(e), SignalName(e, channels)),
                   Write(dma + FORMATS + 4 * io, Format(e));
    ApplyPair(d, m, l);
    var head := ApplyAll(d, [m, l]);
    if HasInitial(e, ivs) {
      var c, v := Write(dma + FILL_CHANNEL, Wrap32(io)), Write(dma + FILL_DATA, Initial(e, ivs).value);
      ApplyPair(head, c, v);
      ApplyAppend(d, [m, l], [c, v]);
      ApplySnoc(d, [m, l] + [c, v], f);
    } else {
      assert [m, l] + [] == [m, l];
      ApplySnoc(d, [m, l], f);
    }
  }

  lemma ApplyPair(d: Deployed, e: Effect, f: Effect)
    ensures ApplyAll(d, [e, f]) == Apply(Apply(d, e), f)
  {
    assert [e, f] == [e] + [f];
    ApplySnoc(d, [e], f);
    ApplyOne(d, e);
  }

  // ----- simulation data

  /** The two dumps of the log, and the tables of outputs and inputs. */
  datatype SimData = SimData(code: string, control: string, outputs: map<nat, string>, inputs: map<string, TbInput>)

  function SimDataOf(d: Deployed): SimData
    requires AllLoggable(d.operations)
  {
    SimData(Text(AllRomLines(d.operations)), Text(AllControlLines(d.operations)), d.busLabels, d.inputLabels)
  }

  function ScopeSelect(layout: Layout, channel: nat): nat {
    layout.scopeMux + 4 * channel + 4
  }

  function SelectorWord(e: Slot): Word {
    Wrap32(Or(e.destinationBus, Shl(e.destinationChannel, 16)))
  }

  /** A deployment into an empty log, followed by the start command. */
  function Redeployed(c: Config, spec: Spec, ivs: InitialValues, inputs: seq<InputMetadata>): Deployed
    requires Deployable(c, spec, ivs)
  {
    Apply(ApplyAll(Deployed([], map[], map[], inputs, 0), DeployPhase(c, spec, ivs).effects),
          Write(c.layout.hilControl, 1))
  }

  lemma DeployedLoggable(d: Deployed, es: seq<Effect>, address: nat)
    requires d.operations == []
    ensures AllLoggable(ApplyAll(d, es).operations)
    ensures AllLoggable(Apply(ApplyAll(d, es), Write(address, 1)).operations)
  {
    hide Apply, ApplyAll;
    var start := Write(address, 1);
    OperationsLogged(d, es);
    OpsReplay(es);
    ApplySnoc(d, es, start);
    OperationsLogged(d, es + [start]);
    OpsReplay(es + [start]);
    assert [] + Ops(es) == Ops(es) && [] + Ops(es + [start]) == Ops(es + [start]);
  }

  // ----- the deployment

  /** The per-name tables hold what the last program of each name put there. */
  ghost predicate TablesRecord(c: Config, ps: seq<Program>, idx: map<string, nat>, order: map<string, nat>,
                               channels: map<string, nat>) {
    forall p :: p in ps ==>
      && p.name in idx && idx[p.name] == Recorded(ps, p).index
      && p.name in order && order[p.name] == Recorded(ps, p).order
      && p.name in channels && channels[p.name] == RunChannels(c, ps, p)
  }

  lemma NothingRecorded(c: Config, idx: map<string, nat>, order: map<string, nat>, channels: map<string, nat>)
    ensures TablesRecord(c, [], idx, order, channels)
  {
  }

  lemma RecordSnoc(c: Config, ps: seq<Program>, p: Program, idx: map<string, nat>, order: map<string, nat>,
                   channels: map<string, nat>)
    requires TablesRecord(c, ps, idx, order, channels)
    ensures TablesRecord(c, ps + [p], idx[p.name := p.index], order[p.name := p.order],
                         channels[p.name := ScannedChannels(c, p)])
  {
    hide ScannedChannels;
    var next := ps + [p];
    assert next[..|ps|] == ps;
    forall q | q in next
      ensures Recorded(next, q) == if q.name == p.name then p else Recorded(ps, q)
      ensures q.name != p.name ==> q in ps
    {
    }
  }

  /** The conditions a deployable specification meets, and what its deployment is made of. */
  lemma DeploymentParts(c: Config, spec: Spec, ivs: InitialValues)
    requires Deployable(c, spec, ivs)
    ensures |spec.programs| > MAX_CORES ==> DeployPhase(c, spec, ivs) == Phase([], false)
    ensures |spec.programs| <= MAX_CORES ==>
      && MemoriesDefined(spec) && spec.programs != [] && ScheduleDefined(c, spec.programs)
      && Convertible(c.clock, Timebase(spec.programs)) && InputsDefined(spec)
      && InitialsReady(spec, AfterConnections(ivs, spec.slots, spec.programs))
      && var dma := DmaPhase(c, spec, AfterConnections(ivs, spec.slots, spec.programs), |spec.programs|);
      var early := LoadEffects(c.layout, spec.programs) + dma.effects;
      DeployPhase(c, spec, ivs) == if dma.ok then Phase(early + LatePhases(c, spec), true) else Phase(early, false)
  {
  }

  lemma TablesReady(c: Config, ps: seq<Program>, idx: map<string, nat>, order: map<string, nat>,
                    channels: map<string, nat>)
    requires TablesRecord(c, ps, idx, order, channels)
    ensures forall k :: 0 <= k < |ps| ==> ps[k].name in idx && idx[ps[k].name] == Recorded(ps, ps[k]).index
    ensures forall k :: 0 <= k < |ps| ==> ps[k].name in order && order[ps[k].name] == Recorded(ps, ps[k]).order
    ensures forall k :: 0 <= k < |ps| ==> ps[k].name in channels && channels[ps[k].name] == RunChannels(c, ps, ps[k])
  {
  }

  lemma TimebaseIs(c: Config, ps: seq<Program>)
    requires ScheduleDefined(c, ps)
    ensures FoldDefined(Frequencies(ps)) && Timebase(ps) < 0x8000_0000 && c.clock > 0.0
    ensures Arithmetic.LcmAll(Frequencies(ps)) == Timebase(ps) && DividersFor(Timebase(ps), ps) == Dividers(ps)
    ensures |Dividers(ps)| == |ps|
  {
  }

  lemma ScheduleIs(c: Config, ps: seq<Program>, minTimebase: Word)
    requires minTimebase == Wrap32(0 + Total(SlotsOf(c, ps)))
    ensures minTimebase == MinTimebase(SlotsOf(c, ps))
  {
  }

  lemma ScheduleParts(c: Config, ps: seq<Program>)
    requires Convertible(c.clock, Timebase(ps))
    ensures |Dividers(ps)| == |ps| == |Shifts(c.sort, SlotsOf(c, ps))|
    ensures SequencerPhase(c, ps)
         == SequencerEffects(c.layout, Dividers(ps), Shifts(c.sort, SlotsOf(c, ps)),
                             Period(c.clock, Timebase(ps), MinTimebase(SlotsOf(c, ps))))
  {
  }

  lemma NoTables(c: Config, spec: Spec, ivs: InitialValues)
    requires InitialsReady(spec, ivs)
    ensures DmaPhase(c, spec, ivs, 0) == Phase([], true)
  {
  }

  lemma DmaStep(c: Config, spec: Spec, ivs: InitialValues, k: nat)
    requires InitialsReady(spec, ivs) && k < |spec.programs|
    ensures var p := spec.programs[k];
      && InitialsDefined(Entries(spec.slots, p.name), ivs)
      && DmaOf(c, spec, ivs, k)
         == CoreRun(Entries(spec.slots, p.name),
                    ControlBase(c.layout, Recorded(spec.programs, p).index) + c.layout.dmaOffset, p.channels, ivs)
    ensures var before, own := DmaPhase(c, spec, ivs, k), DmaOf(c, spec, ivs, k);
      DmaPhase(c, spec, ivs, k + 1) == if before.ok then Phase(before.effects + own.effects, own.ok) else before
  {
    EntriesReady(spec, spec.programs[k], ivs);
  }

  lemma {:induction false} DmaStops(c: Config, spec: Spec, ivs: InitialValues, k: nat)
    requires InitialsReady(spec, ivs) && k <= |spec.programs| && !DmaPhase(c, spec, ivs, k).ok
    ensures DmaPhase(c, spec, ivs, |spec.programs|) == DmaPhase(c, spec, ivs, k)
    decreases |spec.programs| - k
  {
    hide DmaOf, DmaPhase;
    if k < |spec.programs| {
      DmaStep(c, spec, ivs, k);
      DmaStops(c, spec, ivs, k + 1);
    }
  }

  lemma NoMemories(c: Config, spec: Spec)
    requires MemoriesDefined(spec)
    ensures MemoryPhase(c, spec, 0) == []
  {
  }

  lemma MemoryStep(c: Config, spec: Spec, k: nat)
    requires MemoriesDefined(spec) && k < |spec.programs|
    ensures var p := spec.programs[k];
      && AllDefined(Memories(spec, p.name), p.channels)
      && MemoryPhase(c, spec, k + 1)
         == MemoryPhase(c, spec, k)
            + MemoryEffects(Memories(spec, p.name), ControlBase(c.layout, Recorded(spec.programs, p).index), p.channels)
  {
    assert spec.programs[k] in spec.programs;
  }

  lemma ScannedIs(c: Config, p: Program, channels: nat)
    requires channels == if HasReciprocal(c.isa, Code(p.binary, 2)) || c.fullCoresOverride then 11 else 8
    ensures channels == ScannedChannels(c, p)
  {
  }

  // ----- initial values

  function Newer<T>(a: Option<T>, b: Option<T>): Option<T> {
    if a.Some? then a else b
  }

  lemma NothingConnected(base: InitialValues, slot: Slot)
    ensures ConnectedValue([], slot) == None && AddInitial(base, slot, None) == base
  {
  }

  lemma NoInputs(p: Program, slot: Slot)
    ensures InputValue([], p.channels, slot.destinationName) == None
  {
  }

  lemma ProgramStep(ps: seq<Program>, b: nat, slot: Slot)
    requires b < |ps|
    ensures ConnectedValue(ps[..b + 1], slot)
         == if ps[b].name == slot.destinationId then
              Newer(InputValue(ps[b].inputs, ps[b].channels, slot.destinationName), ConnectedValue(ps[..b], slot))
            else ConnectedValue(ps[..b], slot)
  {
    assert ps[..b + 1][..b] == ps[..b];
  }

  lemma InputStep(p: Program, i: nat, name: string)
    requires i < |p.inputs|
    ensures InputValue(p.inputs[..i + 1], p.channels, name)
         == if p.inputs[i].name == name then Some(Expand(p.inputs[i], p.channels))
            else InputValue(p.inputs[..i], p.channels, name)
  {
    assert p.inputs[..i + 1][..i] == p.inputs[..i];
  }

  lemma ExpandIs(input: Input, channels: nat, data: seq<Word>)
    requires data == if |input.data| == 1 && channels > 1 then seq(channels, _ => input.data[0]) else input.data
    ensures data == Expand(input, channels)
  {
  }

  lemma AddTwice(base: InitialValues, slot: Slot, value: Option<seq<Word>>, data: seq<Word>)
    ensures AddInitial(base, slot, value)[(slot.sourceId, slot.sourceName) := data]
         == AddInitial(base, slot, Some(data))
  {
  }

  // ----- schedule

  lemma LeastDividerNone(timebase: nat, start: nat, clock: real)
    requires start > 0 && clock > 0.0
    ensures IsLeastDivider([], timebase, start, start, clock)
  {
  }

  lemma LeastDividerSkip(cores: seq<RatedCore>, timebase: nat, start: nat, divider: nat, clock: real, k: nat)
    requires start > 0 && clock > 0.0 && k < |cores| && cores[k].frequency == 0
    requires IsLeastDivider(cores[..k], timebase, start, divider, clock)
    ensures IsLeastDivider(cores[..k + 1], timebase, start, divider, clock)
  {
    hide TooFast;
    var earlier, next := cores[..k], cores[..k + 1];
    forall d | start <= d <= divider ensures Slow(next, timebase, d, clock) == Slow(earlier, timebase, d, clock) {
      assert forall i :: 0 <= i < k ==> next[i] == earlier[i];
    }
  }

  /** A table of offsets reduced to 32 bits. */
  ghost predicate Wraps(wrapped: map<string, Word>, table: map<string, nat>) {
    wrapped.Keys == table.Keys && forall s :: s in table ==> wrapped[s] == Wrap32(table[s])
  }

  lemma WrapStep(x: int, y: int)
    ensures Wrap32(Wrap32(x) + y) == Wrap32(x + y)
  {
    var m := 0x1_0000_0000;
    Arithmetic.DivMod(x, m);
    Arithmetic.DivMod(x % m + y, m);
    Arithmetic.DivUnique(x + y, m, x / m + (x % m + y) / m, (x % m + y) % m);
  }

  lemma WrapWord(x: Word)
    ensures Wrap32(x) == x
  {
  }

  lemma SortFacts(sort: Sorting, data: seq<Schedule.SlotData>)
    ensures |sort(data)| == |data| && Total(sort(data)) == Total(data) && |Shifts(sort, data)| == |data|
  {
    var v := sort(data);
    assert IsSortOf(v, data) && |multiset(v)| == |multiset(data)|;
    SumOfPermutation(v, data, (_: Schedule.SlotData) => true);
  }

  lemma WrapsSnoc(wrapped: map<string, Word>, v: seq<Schedule.SlotData>, i: nat)
    requires i < |v| && Wraps(wrapped, StartTable(v[..i]))
    ensures Wraps(wrapped[v[i].name := Wrap32(StartOffset(v, i))], StartTable(v[..i + 1]))
  {
    hide Wrap32, StartOffset;
    StartTableStep(v, i);
  }

  lemma ShiftInTable(sort: Sorting, data: seq<Schedule.SlotData>, wrapped: map<string, Word>, k: nat)
    requires Wraps(wrapped, StartTable(sort(data))) && k < |data|
    ensures data[k].name in wrapped && |Shifts(sort, data)| == |data|
    ensures Shifts(sort, data)[k] == wrapped[data[k].name]
  {
    hide Wrap32, StartOffset, StartTable;
    assert IsSortOf(sort(data), data);
    NameInTable(data, sort(data), k);
  }

  lemma FirstSlot(v: seq<Schedule.SlotData>)
    requires v != []
    ensures StartOffset(v, 1) == v[0].length + 2 + GUARD
    ensures Wraps(map[v[0].name := 2], StartTable(v[..1]))
  {
    assert v[..0] == [];
    StartStep(v, 0);
    StartTableStep(v, 0);
  }

  lemma StartTableStep(v: seq<Schedule.SlotData>, i: nat)
    requires i < |v|
    ensures StartTable(v[..i + 1]) == StartTable(v[..i])[v[i].name := StartOffset(v, i)]
  {
    assert v[..i + 1][..i] == v[..i];
  }

  lemma TotalNone()
    ensures Total([]) == 0
  {
  }

  lemma TotalStep(v: seq<Schedule.SlotData>, i: nat)
    requires i < |v|
    ensures Total(v[..i + 1]) == Total(v[..i]) + v[i].length + GUARD
  {
    assert v[..i + 1][..i] == v[..i];
  }

  lemma NameInTable(data: seq<Schedule.SlotData>, v: seq<Schedule.SlotData>, k: nat)
    requires multiset(v) == multiset(data) && k < |data|
    ensures data[k].name in StartTable(v)
  {
    var i := IndexInSort(data, v, k);
    StartTableKeys(v);
  }

  lemma CoreEffectsStep(layout: Layout, dividers: seq<nat>, shifts: seq<Word>, i: nat)
    requires i < |dividers| && i < |shifts|
    ensures CoreEffects(layout, dividers, shifts, i + 1)
         == CoreEffects(layout, dividers, shifts, i)
            + [Write(Divisor(layout, i), DivisorWord(dividers[i]))] + [Write(Threshold(layout, i), shifts[i])]
  {
  }

  lemma SequencerInSteps(layout: Layout, dividers: seq<nat>, shifts: seq<Word>, period: Word)
    requires |dividers| == |shifts|
    ensures SequencerEffects(layout, dividers, shifts, period)
         == CoreEffects(layout, dividers, shifts, |dividers|) + [Write(PeriodRegister(layout), period)]
            + [Write(EnableRegister(layout), Wrap32(ToUlong(FirstBits(|dividers|))))]
  {
  }

  lemma RunChannelsWord(c: Config, ps: seq<Program>, p: Program)
    ensures RunChannels(c, ps, p) < 0x1_0000_0000
  {
  }

  // ----- setting up one input

  lemma NoMultiEffects(layout: Layout, p: Program, input: Input, constant: nat, active: nat)
    ensures MultiEffects(layout, p, input, constant, 0, active) == []
  {
  }

  lemma MultiStep(layout: Layout, p: Program, input: Input, constant: nat, j: nat, active: nat)
    ensures MultiEffects(layout, p, input, constant, j + 1, active)
         == MultiEffects(layout, p, input, constant, j, active)
            + SetupEffects(layout, p, input, constant, j, ValueOf(input, j), true, active + RandomsBefore(input, j))
            + (if TouchesInLoop(input) then [TouchInput(InputPath(p.name, input.name, j, true), p.index)] else [])
  {
  }

  /** Dropping values from the copy changes nothing but the value that is set. */
  lemma SetupLooks(layout: Layout, p: Program, input: Input, copy: Input, constant: nat, channel: nat, value: Word,
                   active: nat)
    requires copy == input.(data := copy.data)
    ensures SetupEffects(layout, p, copy, constant, channel, value, true, active)
         == SetupEffects(layout, p, input, constant, channel, value, true, active)
  {
  }

  lemma SetupRandoms(layout: Layout, p: Program, input: Input, constant: nat, channel: nat, value: Word,
                     multichannel: bool, active: nat, d: Deployed)
    ensures ApplyAll(d, SetupEffects(layout, p, input, constant, channel, value, multichannel, active)).randomInputs
         == d.randomInputs + (if input.source.Random? then 1 else 0)
  {
    hide InputPath, RandomName, Dest, Selector;
    var es := SetupEffects(layout, p, input, constant, channel, value, multichannel, active);
    ApplyNone(d);
    if IsConstant(input) {
      ApplyPair(d, es[0], es[1]);
      assert es == [es[0], es[1]];
    } else if input.source.Random? {
      assert es == [es[0], es[1]] + [es[2]];
      ApplyPair(d, es[0], es[1]);
      ApplySnoc(d, [es[0], es[1]], es[2]);
    }
  }

  lemma NoEntries(slots: seq<Slot>, core: string, dma: nat, channels: nat, ivs: InitialValues)
    ensures Entries(slots[..0], core) == [] && InitialsDefined([], ivs)
    ensures TableRun([], dma, channels, ivs) == Phase([], true)
  {
  }

  lemma EntriesStep(slots: seq<Slot>, core: string, i: nat)
    requires i < |slots|
    ensures Entries(slots[..i + 1], core)
         == Entries(slots[..i], core) + (if slots[i].sourceId == core then [slots[i]] else [])
  {
    assert slots[..i + 1][..i] == slots[..i];
  }

  lemma EntriesPrefix(slots: seq<Slot>, core: string, i: nat, ivs: InitialValues)
    requires i <= |slots| && InitialsDefined(Entries(slots, core), ivs)
    ensures InitialsDefined(Entries(slots[..i], core), ivs)
  {
    hide InRange, InitialDefined;
    EntriesFrom(slots, core);
    EntriesFrom(slots[..i], core);
  }

  /** A run that has stopped stays stopped. */
  lemma {:induction false} StoppedRun(slots: seq<Slot>, core: string, i: nat, dma: nat, channels: nat,
                                      ivs: InitialValues)
    requires i <= |slots| && InitialsDefined(Entries(slots, core), ivs)
    requires InitialsDefined(Entries(slots[..i], core), ivs)
    requires !TableRun(Entries(slots[..i], core), dma, channels, ivs).ok
    ensures TableRun(Entries(slots, core), dma, channels, ivs)
         == TableRun(Entries(slots[..i], core), dma, channels, ivs)
    decreases |slots| - i
  {
    hide InRange, InitialDefined, InitialsDefined, EntryEffects, TableRun, Entries;
    if i == |slots| {
      assert slots[..i] == slots;
    } else {
      EntriesStep(slots, core, i);
      EntriesPrefix(slots, core, i + 1, ivs);
      if slots[i].sourceId == core {
        TableRunSnoc(Entries(slots[..i], core), slots[i], dma, channels, ivs);
      } else {
        assert Entries(slots[..i], core) + [] == Entries(slots[..i], core);
      }
      StoppedRun(slots, core, i + 1, dma, channels, ivs);
    }
  }
}

/**
 The simulation files of a deployed specification, read back: their lines, replayed word by word into fresh
 planes, are the deployment, so they mean the specification too.
 */
module SimulationMeaning {
  import opened Operations
  import opened SimulationText
  import opened Specification
  import opened RegisterLog
  import opened Effects
  import opened DmaTable
  import opened CoreInputs
  import opened Deployment
  import opened Deployer
  import opened Regions
  import opened FinalLog
  import opened DeployedSystem
  import opened BusObservation
  import opened Redeployment
  import Bus

  /** The two texts parse to the stores of the deployment, plane by plane and in order. */
  lemma TextsParse(c: Config, spec: Spec, ivs: InitialValues, inputs: seq<InputMetadata>)
    requires Accepted(c, spec, ivs)
    ensures Parse(Cached(c, spec, ivs, inputs).control, 0, []) == Lines(Log(c, spec, ivs))
    ensures Parse(Cached(c, spec, ivs, inputs).code, 0, []) == Lines(Concat(RomBlocks(c.layout, spec.programs)))
  {
    hide Deployable, DeployPhase, ApplyAll, Parse, Text, AllRomLines, AllControlLines, Ops, Stores, Roms, RomBlocks,
      Concat, Loggable, IsDirect, ControlReplayAll, RomReplayAll, Bus.LoggedAll, Bus.AllControlStores,
      Bus.AllRomStores, Bus.AllWellFormed, AllCalls;
    var d, es := Deployed([], map[], map[], inputs, 0), DeployPhase(c, spec, ivs).effects;
    DeployedLoggable(d, es, c.layout.hilControl);
    OperationsLogged(d, es);
    assert [] + Ops(es) == Ops(es);
    OpsReplay(es);
    CallsCarryOut(es);
    Bus.LogReplays(AllCalls(es));
    DeployRoms(c, spec, ivs);
    DumpIsFaithful(Ops(es));
  }

  /**
   From specification to files and back: parsing the control text of the simulation data and reading its lines
   as a list of writes gives every core's tables, memory, constants and channel count, and the noise outputs.
   */
  lemma FilesMeanSpecification(c: Config, spec: Spec, ivs: InitialValues, inputs: seq<InputMetadata>)
    requires Fitted(c, spec, ivs) && AllBounded(spec, spec.programs)
    requires RandomsInPrograms(spec, spec.programs) < 0x1_0000_0000
    ensures var control := Parse(Cached(c, spec, ivs, inputs).control, 0, []);
      && control.Lines?
      && (forall k :: 0 <= k < |spec.programs| ==>
            RegistersMeant(c, spec, ivs, control.stores, k) && ConstantsMeant(c, spec, control.stores, k))
      && NoiseMeant(c, spec, control.stores)
  {
    hide Deployable, DeployPhase, Placed, LayoutClear, Log, RegistersMeant, ConstantsMeant, NoiseMeant, AllBounded,
      Parse, Cached;
    TextsParse(c, spec, ivs, inputs);
    DeploymentMeansSpecification(c, spec, ivs);
  }

  /**
   ... and so do the cores and the period: the lines give the schedule of the specification, under much weaker
   conditions.
   */
  lemma FilesMeanSchedule(c: Config, spec: Spec, ivs: InitialValues, inputs: seq<InputMetadata>)
    requires Scheduled(c, spec, ivs)
    ensures Convertible(c.clock, Timebase(spec.programs))
    ensures var control := Parse(Cached(c, spec, ivs, inputs).control, 0, []);
      && control.Lines?
      && CoresOf(c, spec.programs, control.stores) == SpecCores(c, spec.programs)
      && PeriodOf(c, control.stores) == SpecPeriod(c, spec.programs)
  {
    hide Deployable, DeployPhase, SmallIndices, LayoutClear, Log, CoresOf, SpecCores, PeriodOf, SpecPeriod, Parse,
      Cached;
    TextsParse(c, spec, ivs, inputs);
    RunsAsSpecified(c, spec, ivs);
  }

  /** Replaying both files into planes with all addresses mapped leaves what deploying over the bus leaves. */
  lemma FilesRebuildPlanes(c: Config, spec: Spec, ivs: InitialValues, inputs: seq<InputMetadata>, s: Bus.State)
    requires Accepted(c, spec, ivs) && s.alive && !s.sink && AddressesMapped(c, spec, ivs, s)
    ensures var data, t := Cached(c, spec, ivs, inputs), Deploying(c, spec, ivs, s);
      var rom, control := Parse(data.code, 0, []), Parse(data.control, 0, []);
      && control.Lines? && Bus.RunStores(s.registers, s.controlAddr, control.stores) == Bus.Image(t.registers, true)
      && rom.Lines? && Bus.RunStores(s.rom, s.coreAddr, rom.stores) == Bus.Image(t.rom, true)
  {
    hide Deployable, DeployPhase, Stores, AllCalls, Bus.RunStores, Bus.Run, Bus.Calls, Bus.AllWellFormed,
      Bus.AllControlStores, Bus.AllRomStores, Roms, RomBlocks, Concat, Parse, Cached, AddressesMapped;
    var es := DeployPhase(c, spec, ivs).effects;
    TextsParse(c, spec, ivs, inputs);
    DeploySurvivesIff(c, spec, ivs, s);
    CallsCarryOut(es);
    Bus.LiveCalls(s, AllCalls(es));
    DeployRoms(c, spec, ivs);
  }
}

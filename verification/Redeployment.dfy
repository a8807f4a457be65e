/**
 Deploying again: what persists between deployments changes nothing the hardware or the simulation sees.
 */
module Redeployment {
  import opened Operations
  import opened SimulationText
  import opened Specification
  import opened Effects
  import opened DmaTable
  import opened ConstantEngine
  import opened Interconnect
  import opened Deployment
  import opened Deployer
  import opened FinalLog
  import opened Regions
  import opened Rates
  import Sequencer
  import opened DeployedConstants

  /** The deployer's view after deploying into what earlier deployments left. */
  function After(c: Config, spec: Spec, ivs: InitialValues, inputs: seq<InputMetadata>): Deployed
    requires Deployable(c, spec, ivs)
  {
    ApplyAll(Deployed([], map[], map[], inputs, 0), DeployPhase(c, spec, ivs).effects)
  }

  /** The initial values a first deployment leaves change nothing for a second one. */
  lemma SamePhase(c: Config, spec: Spec, ivs: InitialValues)
    requires Deployable(c, spec, ivs)
    ensures Deployable(c, spec, Connected(spec, ivs))
    ensures DeployPhase(c, spec, Connected(spec, ivs)) == DeployPhase(c, spec, ivs)
  {
    hide DmaPhase, LoadEffects, LatePhases, AfterConnections, InitialsReady;
    ConnectionsIdempotent(ivs, spec.slots, spec.programs);
  }

  /** Known inputs of earlier deployments change nothing but the list of known inputs. */
  lemma {:induction false} InputsOnlyKept(d: Deployed, inputs: seq<InputMetadata>, es: seq<Effect>)
    ensures var one, other := ApplyAll(d, es), ApplyAll(d.(inputs := inputs), es);
      other == one.(inputs := other.inputs)
  {
    hide Apply;
    if es != [] {
      var n := |es| - 1;
      InputsOnlyKept(d, inputs, es[..n]);
      ApplyKeepsInputs(ApplyAll(d, es[..n]), ApplyAll(d.(inputs := inputs), es[..n]).inputs, es[n]);
    }
  }

  lemma ApplyKeepsInputs(d: Deployed, inputs: seq<InputMetadata>, e: Effect)
    ensures var one, other := Apply(d, e), Apply(d.(inputs := inputs), e);
      other == one.(inputs := other.inputs)
  {
  }

  /**
   Deploying a specification twice leaves the operation log, the label tables and the noise outputs of
   deploying it once, whatever the first deployment started from.
   */
  lemma DeployTwice(c: Config, spec: Spec, ivs: InitialValues, inputs: seq<InputMetadata>)
    requires Deployable(c, spec, ivs)
    ensures Deployable(c, spec, Connected(spec, ivs))
    ensures var once := After(c, spec, ivs, inputs);
      var twice := After(c, spec, Connected(spec, ivs), once.inputs);
      twice == once.(inputs := twice.inputs)
  {
    hide Deployable, DeployPhase, Connected, ApplyAll;
    SamePhase(c, spec, ivs);
    InputsOnlyKept(Deployed([], map[], map[], inputs, 0), After(c, spec, ivs, inputs).inputs,
                   DeployPhase(c, spec, ivs).effects);
  }

  /** The list of known inputs does not settle: each deployment adds the same entries once more. */
  lemma InputsPileUp(c: Config, spec: Spec, ivs: InitialValues, inputs: seq<InputMetadata>)
    requires Accepted(c, spec, ivs)
    ensures Deployable(c, spec, Connected(spec, ivs))
    ensures var own := InputsOf(CoreInputs.AllCommands(c.layout, spec, spec.programs));
      var once := After(c, spec, ivs, inputs);
      && once.inputs == inputs + own
      && After(c, spec, Connected(spec, ivs), once.inputs).inputs == inputs + own + own
  {
    hide Deployable, DeployPhase, Connected, ApplyAll;
    SamePhase(c, spec, ivs);
    CommandsAre(c, spec, ivs);
    var once := After(c, spec, ivs, inputs);
    InputsKnown(Deployed([], map[], map[], inputs, 0), DeployPhase(c, spec, ivs).effects);
    InputsKnown(Deployed([], map[], map[], once.inputs, 0), DeployPhase(c, spec, ivs).effects);
  }

  /** Simulation data served from the log of the last deployment, whether or not that got to its end. */
  function Cached(c: Config, spec: Spec, ivs: InitialValues, inputs: seq<InputMetadata>): SimData
    requires Deployable(c, spec, ivs)
  {
    DeployedLoggable(Deployed([], map[], map[], inputs, 0), DeployPhase(c, spec, ivs).effects, c.layout.hilControl);
    SimDataOf(After(c, spec, ivs, inputs))
  }

  /** Simulation data from deploying once more; an exception leaves none. */
  function Forced(c: Config, spec: Spec, ivs: InitialValues, inputs: seq<InputMetadata>): Option<SimData>
    requires Deployable(c, spec, ivs)
  {
    DeployedLoggable(Deployed([], map[], map[], inputs, 0), DeployPhase(c, spec, ivs).effects, c.layout.hilControl);
    if DeployPhase(c, spec, ivs).ok then Some(SimDataOf(Redeployed(c, spec, ivs, inputs))) else None
  }

  /**
   The cached simulation data is that of a forced deployment, the same program text, outputs and inputs and a
   control text that only adds the start write, exactly when the specification is one that deploys: a forced
   deployment of any other yields nothing, while its partial log is served from the cache.
   */
  lemma CacheAgrees(c: Config, spec: Spec, ivs: InitialValues, inputs: seq<InputMetadata>)
    requires Deployable(c, spec, ivs)
    ensures Deployable(c, spec, Connected(spec, ivs))
    ensures var cached := Cached(c, spec, ivs, inputs);
      var forced := Forced(c, spec, Connected(spec, ivs), After(c, spec, ivs, inputs).inputs);
      && (forced == Some(cached.(control := cached.control + Line(Store(c.layout.hilControl, 1))))
          <==> |spec.programs| <= Sequencer.MAX_CORES && EntriesInRange(spec))
      && (forced.None? <==> |spec.programs| > Sequencer.MAX_CORES || !EntriesInRange(spec))
  {
    hide Deployable, DeployPhase, Connected, ApplyAll, Text, AllRomLines, AllControlLines, Line, Loggable,
      EntriesInRange;
    DeployTwice(c, spec, ivs, inputs);
    SamePhase(c, spec, ivs);
    DeployAcceptedIff(c, spec, ivs);
    var cached := After(c, spec, ivs, inputs);
    DeployedLoggable(Deployed([], map[], map[], inputs, 0), DeployPhase(c, spec, ivs).effects, c.layout.hilControl);
    StartLine(cached.operations, c.layout.hilControl);
  }

  /**
   Deploying, then asking for the simulation data of the same specification: it is always served, from the
   partial log when the deployment raised an exception.
   */
  method DeployThenSimulate(d: HilDeployer, spec: Spec) returns (deployed: bool, data: SimData, ok: bool)
    requires Deployable(d.config, spec, d.ivs) && d.timebaseDivider > 0
    modifies d, d.busMap
    ensures deployed <==> |spec.programs| <= Sequencer.MAX_CORES && EntriesInRange(spec)
    ensures ok && data == Cached(d.config, spec, old(d.ivs), old(d.inputs))
    ensures d.View() == After(d.config, spec, old(d.ivs), old(d.inputs))
  {
    hide Deployable, DeployPhase, ApplyAll, EntriesInRange, SimDataOf, IsLeastDivider;
    DeployAcceptedIff(d.config, spec, d.ivs);
    DeployedLoggable(Deployed([], map[], map[], d.inputs, 0), DeployPhase(d.config, spec, d.ivs).effects,
                     d.config.layout.hilControl);
    deployed := d.Deploy(spec);
    data, ok := d.GetHardwareSimData(spec);
  }

  lemma StartLine(log: seq<BusOp>, address: nat)
    requires AllLoggable(log)
    ensures var longer := log + [DirectOp(Store(address, 1))];
      && AllLoggable(longer)
      && Text(AllRomLines(longer)) == Text(AllRomLines(log))
      && Text(AllControlLines(longer)) == Text(AllControlLines(log)) + Line(Store(address, 1))
  {
    hide Line, Text, AllRomLines, AllControlLines;
    var op := DirectOp(Store(address, 1));
    var longer := log + [op];
    LoggablePrefix(log, [op]);
    assert AllLoggable([op]);
    assert longer[..|log|] == log && longer[..|log| + 1] == longer;
    TextsStep(longer, |log|);
    assert ControlLines(op) == [Store(address, 1)] && RomLines(op) == [];
    OneText(Store(address, 1));
  }

  lemma OneText(s: Store)
    ensures Text([]) == "" && Text([s]) == Line(s)
  {
    hide Line;
    assert [s][..0] == [];
  }
}

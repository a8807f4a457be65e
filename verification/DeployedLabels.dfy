/**
 Selecting an output and labelling it: the scope selector of a deployed output is the key under which the
 label table names that output.
 */
module DeployedLabels {
  import opened Bits
  import opened Specification
  import opened Effects
  import opened DmaTable
  import opened CoreInputs
  import opened BusMap
  import opened Deployment
  import opened Deployer
  import opened Regions
  import opened FinalLog
  import opened DeployedConstants

  // ----- the label table after a list of effects

  /** A key is in the table when it was before or some effect labels it, and then with one of its names. */
  lemma {:induction false} LabelKeys(d: Deployed, es: seq<Effect>, key: nat)
    ensures var labels := ApplyAll(d, es).busLabels;
      && (key in labels <==> key in d.busLabels || exists name :: LabelBus(key, name) in es)
      && ((exists name :: LabelBus(key, name) in es) ==> LabelBus(key, labels[key]) in es)
  {
    hide Apply;
    if es != [] {
      var n := |es| - 1;
      LabelKeys(d, es[..n], key);
      LabelStep(ApplyAll(d, es[..n]), es[n], key);
      assert es == es[..n] + [es[n]];
      assert forall name ::
        LabelBus(key, name) in es <==> LabelBus(key, name) in es[..n] || es[n] == LabelBus(key, name);
    }
  }

  lemma LabelStep(d: Deployed, e: Effect, key: nat)
    ensures Apply(d, e).busLabels == if e.LabelBus? then d.busLabels[e.key := e.name] else d.busLabels
  {
  }

  // ----- the labels of a deployment

  lemma EntryLabels(e: Slot, dma: nat, io: nat, channels: nat, ivs: InitialValues, key: nat, name: string)
    requires InitialDefined(e, ivs)
    ensures LabelBus(key, name) in EntryEffects(e, dma, io, channels, ivs)
       <==> key == BusKey(e) && name == SignalName(e, channels)
  {
    hide Mapping, Format, BusKey, SignalName, Wrap32;
    var l := LabelBus(BusKey(e), SignalName(e, channels));
    assert EntryEffects(e, dma, io, channels, ivs)[1] == l;
  }

  lemma {:induction false} TableLabels(es: seq<Slot>, dma: nat, channels: nat, ivs: InitialValues, key: nat,
                                       name: string)
    requires InitialsDefined(es, ivs) && AllInRange(es)
    ensures TableRun(es, dma, channels, ivs).ok
    ensures LabelBus(key, name) in TableRun(es, dma, channels, ivs).effects
       <==> exists e :: e in es && key == BusKey(e) && name == SignalName(e, channels)
  {
    hide InRange, InitialDefined, EntryEffects, BusKey, SignalName;
    if es != [] {
      var n := |es| - 1;
      TableLabels(es[..n], dma, channels, ivs, key, name);
      assert es == es[..n] + [es[n]];
      EntryLabels(es[n], dma, n, channels, ivs, key, name);
    }
  }

  /** The label of an entry of one of the first n cores. */
  ghost predicate OutputLabel(spec: Spec, n: nat, key: nat, name: string)
    requires n <= |spec.programs|
  {
    exists k, e :: 0 <= k < n && e in Entries(spec.slots, spec.programs[k].name)
      && key == BusKey(e) && name == SignalName(e, spec.programs[k].channels)
  }

  lemma OutputLabelStep(spec: Spec, n: nat, key: nat, name: string)
    requires 0 < n <= |spec.programs|
    ensures var p := spec.programs[n - 1];
      OutputLabel(spec, n, key, name)
      <==> || OutputLabel(spec, n - 1, key, name)
           || exists e :: e in Entries(spec.slots, p.name) && key == BusKey(e) && name == SignalName(e, p.channels)
  {
    hide Entries, BusKey, SignalName;
  }

  lemma NoOutputLabel(spec: Spec, key: nat, name: string)
    ensures !OutputLabel(spec, 0, key, name)
  {
  }

  lemma {:induction false} DmaLabels(c: Config, spec: Spec, ivs: InitialValues, n: nat, key: nat, name: string)
    requires InitialsReady(spec, ivs) && n <= |spec.programs| && EntriesInRange(spec) && DistinctPrograms(spec.programs)
    ensures DmaPhase(c, spec, ivs, n).ok
    ensures LabelBus(key, name) in DmaPhase(c, spec, ivs, n).effects <==> OutputLabel(spec, n, key, name)
  {
    hide TableRun, InitialsReady, Entries, DmaBase, BusKey, SignalName, EntriesInRange, InRange, OutputLabel, CoreRun,
      DistinctPrograms, Recorded;
    if n == 0 {
      NoOutputLabel(spec, key, name);
    } else {
      DmaLabels(c, spec, ivs, n - 1, key, name);
      OutputLabelStep(spec, n, key, name);
      OwnLabels(c, spec, ivs, n - 1, key, name);
    }
  }

  lemma OwnLabels(c: Config, spec: Spec, ivs: InitialValues, k: nat, key: nat, name: string)
    requires InitialsReady(spec, ivs) && k < |spec.programs| && EntriesInRange(spec) && DistinctPrograms(spec.programs)
    ensures var p := spec.programs[k];
      && DmaOf(c, spec, ivs, k).ok
      && (LabelBus(key, name) in DmaOf(c, spec, ivs, k).effects
          <==> exists e :: e in Entries(spec.slots, p.name) && key == BusKey(e) && name == SignalName(e, p.channels))
  {
    hide TableRun, InitialsReady, Entries, DmaBase, BusKey, SignalName, EntriesInRange, InRange, DistinctPrograms,
      Recorded;
    var p := spec.programs[k];
    DmaBlock(c, spec, ivs, k);
    RecordedSelf(spec.programs, k);
    TableLabels(Entries(spec.slots, p.name), DmaBase(c.layout, p.index), p.channels, ivs, key, name);
  }

  /** Every label of a deployment names an output or a channel of a random input. */
  lemma DeployLabels(c: Config, spec: Spec, ivs: InitialValues, key: nat, name: string)
    requires Accepted(c, spec, ivs) && DistinctPrograms(spec.programs)
    ensures OutputLabel(spec, |spec.programs|, key, name) ==> LabelBus(key, name) in DeployPhase(c, spec, ivs).effects
    ensures LabelBus(key, name) in DeployPhase(c, spec, ivs).effects ==>
      || OutputLabel(spec, |spec.programs|, key, name)
      || exists p :: p in spec.programs && RandomLabel(p, Inputs(spec, p.name), key, name)
  {
    hide Deployable, EntriesInRange, DistinctPrograms, MemoriesDefined, InitialsReady, Connected, LoadEffects,
      DmaPhase, MemoryPhase, SequencerPhase, CorePhase, AllInputEffects, DeployPhase, OutputLabel, RandomLabel,
      RandomsInPrograms;
    AcceptedParts(c, spec, ivs);
    DeployParts(c, spec, ivs);
    PhasesPlain(c, spec, ivs);
    DmaLabels(c, spec, Connected(spec, ivs), |spec.programs|, key, name);
    var e, inputs := LabelBus(key, name), AllInputEffects(c.layout, spec, spec.programs);
    assert spec.programs[..|spec.programs|] == spec.programs;
    if e in inputs {
      var k := InputPhaseIsInput(c.layout, spec, |spec.programs|, RandomsInPrograms(spec, spec.programs), e);
      assert spec.programs[k] in spec.programs;
    }
  }

  // ----- agreement

  /** No two connections start from one output channel. */
  ghost predicate DistinctOutputs(slots: seq<Slot>) {
    forall i, j :: 0 <= i < j < |slots| ==>
      !Drives(slots[j], slots[i].sourceId, slots[i].sourceName, slots[i].sourceChannel)
  }

  /** No two connections end at one bus address and channel, and no random input does. */
  ghost predicate DistinctDestinations(spec: Spec) {
    && (forall i, j :: 0 <= i < j < |spec.slots| ==>
          spec.slots[i].destinationBus != spec.slots[j].destinationBus
          || spec.slots[i].destinationChannel != spec.slots[j].destinationChannel)
    && (forall e, p, key, name |
          e in spec.slots && p in spec.programs && RandomLabel(p, Inputs(spec, p.name), key, name) :: key != BusKey(e))
  }

  /** The selector word of an entry in range is its label key. */
  lemma SelectorIsKey(e: Slot)
    requires InRange(e)
    ensures SelectorWord(e) == BusKey(e)
  {
    hide And, Or, Shl, BusKey;
    Pow2Values();
    BusKeyFields(e);
    OrDisjoint(e.destinationChannel, e.destinationBus, 16);
    ShlIsProduct(e.destinationChannel, 16);
  }

  /** A constant or random channel is sent where an entry with its bus address and channel delivers. */
  lemma DestIsKey(e: Slot, input: Input, channel: nat)
    requires InRange(e) && e.destinationBus == input.address && e.destinationChannel == channel
    ensures Dest(input, channel) == BusKey(e)
  {
    hide BusKey;
    BusKeyFields(e);
  }

  lemma {:induction false} OnlyDriver(slots: seq<Slot>, i: nat)
    requires DistinctOutputs(slots) && i < |slots|
    ensures FirstDriver(slots, slots[i].sourceId, slots[i].sourceName, slots[i].sourceChannel) == Some(slots[i])
  {
    if i > 0 { OnlyDriver(slots[1..], i - 1); }
  }

  lemma KeysDiffer(e: Slot, f: Slot)
    requires InRange(e) && InRange(f) && BusKey(e) == BusKey(f)
    ensures e.destinationBus == f.destinationBus && e.destinationChannel == f.destinationChannel
  {
    hide BusKey;
    BusKeyFields(e);
    BusKeyFields(f);
  }

  lemma OneLabel(c: Config, spec: Spec, ivs: InitialValues, i: nat, k: nat, name: string)
    requires Accepted(c, spec, ivs) && DistinctPrograms(spec.programs) && DistinctDestinations(spec)
    requires i < |spec.slots| && k < |spec.programs|
    requires spec.slots[i].sourceId == spec.programs[k].name
    ensures LabelBus(BusKey(spec.slots[i]), name) in DeployPhase(c, spec, ivs).effects
       <==> name == SignalName(spec.slots[i], spec.programs[k].channels)
  {
    hide Deployable, MemoriesDefined, DeployPhase, RandomLabel, BusKey, SignalName, Entries, InRange;
    var e, p := spec.slots[i], spec.programs[k];
    AcceptedParts(c, spec, ivs);
    EntriesFrom(spec.slots, p.name);
    DeployLabels(c, spec, ivs, BusKey(e), name);
    assert p in spec.programs && InRange(e);
    if OutputLabel(spec, |spec.programs|, BusKey(e), name) {
      var k', f :| 0 <= k' < |spec.programs| && f in Entries(spec.slots, spec.programs[k'].name)
        && BusKey(e) == BusKey(f) && name == SignalName(f, spec.programs[k'].channels);
      EntriesFrom(spec.slots, spec.programs[k'].name);
      assert spec.programs[k'] in spec.programs && InRange(f);
      KeysDiffer(e, f);
      var i' :| 0 <= i' < |spec.slots| && spec.slots[i'] == f;
      assert i' == i && k' == k;
    }
  }

  /**
   Select and label agree: for every deployed output the address that is looked up is its own, and the
   selector word written for it is the label-table key that maps to its name.
   */
  lemma SelectorLabelsOutput(c: Config, spec: Spec, ivs: InitialValues, inputs: seq<InputMetadata>, i: nat, k: nat)
    requires Accepted(c, spec, ivs) && DistinctPrograms(spec.programs)
    requires DistinctOutputs(spec.slots) && DistinctDestinations(spec)
    requires i < |spec.slots| && k < |spec.programs| && spec.slots[i].sourceId == spec.programs[k].name
    ensures var e := spec.slots[i];
      var labels := ApplyAll(Deployed([], map[], map[], inputs, 0), DeployPhase(c, spec, ivs).effects).busLabels;
      && FirstDriver(spec.slots, e.sourceId, e.sourceName, e.sourceChannel) == Some(e)
      && SelectorWord(e) in labels && labels[SelectorWord(e)] == SignalName(e, spec.programs[k].channels)
  {
    hide Deployable, MemoriesDefined, DeployPhase, BusKey, SignalName, Entries, InRange, ApplyAll,
      SelectorWord, DistinctDestinations;
    var e, p := spec.slots[i], spec.programs[k];
    var es, key := DeployPhase(c, spec, ivs).effects, BusKey(spec.slots[i]);
    OnlyDriver(spec.slots, i);
    AcceptedParts(c, spec, ivs);
    EntriesFrom(spec.slots, p.name);
    assert p in spec.programs && InRange(e);
    SelectorIsKey(e);
    var d := Deployed([], map[], map[], inputs, 0);
    LabelKeys(d, es, key);
    OneLabel(c, spec, ivs, i, k, SignalName(e, p.channels));
    OneLabel(c, spec, ivs, i, k, ApplyAll(d, es).busLabels[key]);
  }
}

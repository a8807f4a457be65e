/**
 Everything a deployment does besides computing, as a list of effects: register writes and program loads
 that go to the bus, and entries in the tables the deployer keeps. A phase of the deployment is the list
 it emits, so the whole deployment is their concatenation.
 */
module Effects {
  import opened Operations
  import opened Specification

  /** Where a constant input sits in its core's constant engine. */
  datatype InputMetadata = InputMetadata(
    core: string, name: string, base: nat, selector: Word, channel: nat, dest: Word, isFloat: bool)

  const CONST_LSB: nat := 0
  const CONST_DEST: nat := 0x8
  const CONST_SELECTOR: nat := 0xC

  /** Setting a constant: pick the slot, then fill its destination and its value. */
  function ConstantStores(m: InputMetadata, value: Word): seq<Store> {
    [Store(m.base + CONST_SELECTOR, m.selector), Store(m.base + CONST_DEST, m.dest), Store(m.base + CONST_LSB, value)]
  }

  /** What the simulation is told about an input. */
  datatype TbInput = TbInput(peripheral: nat, destination: Word, selector: Word, coreIndex: nat)

  datatype Effect =
    | Write(address: nat, value: Word)
    | Load(romAddress: nat, program: seq<Word>)
    | LabelBus(key: nat, name: string)
    | SetConstant(input: InputMetadata, initial: Word)
    | UpdateConstant(known: InputMetadata, update: Word)
    | LabelInput(path: string, entry: TbInput)
    | TouchInput(path: string, coreIndex: nat)
    | NextRandom

  /** The log of the bus and the tables of the deployer. */
  datatype Deployed = Deployed(
    operations: seq<BusOp>,
    busLabels: map<nat, string>,
    inputLabels: map<string, TbInput>,
    inputs: seq<InputMetadata>,
    randomInputs: nat)

  function DirectOp(s: Store): BusOp {
    BusOp([s.address], [s.value], ControlPlaneWrite)
  }

  function DirectOps(stores: seq<Store>): seq<BusOp> {
    seq(|stores|, i requires 0 <= i < |stores| => DirectOp(stores[i]))
  }

  function Apply(d: Deployed, e: Effect): Deployed {
    match e
    case Write(address, value) => d.(operations := d.operations + [DirectOp(Store(address, value))])
    case Load(address, program) => d.(operations := d.operations + [BusOp([address], program, RomPlaneWrite)])
    case LabelBus(key, name) => d.(busLabels := d.busLabels[key := name])
    case SetConstant(m, value) =>
      d.(operations := d.operations + DirectOps(ConstantStores(m, value)), inputs := d.inputs + [m])
    case UpdateConstant(m, value) => d.(operations := d.operations + DirectOps(ConstantStores(m, value)))
    case LabelInput(path, entry) => d.(inputLabels := d.inputLabels[path := entry])
    case TouchInput(path, index) =>
      if path in d.inputLabels then
        d.(inputLabels := d.inputLabels[path := d.inputLabels[path].(coreIndex := index)])
      else d
    case NextRandom => d.(randomInputs := d.randomInputs + 1)
  }

  function ApplyAll(d: Deployed, es: seq<Effect>): Deployed {
    if es == [] then d else Apply(ApplyAll(d, es[..|es| - 1]), es[|es| - 1])
  }

  lemma {:induction false} ApplyAppend(d: Deployed, es: seq<Effect>, fs: seq<Effect>)
    ensures ApplyAll(d, es + fs) == ApplyAll(ApplyAll(d, es), fs)
  {
    hide Apply;
    if fs == [] {
      assert es + fs == es;
    } else {
      ApplyAppend(d, es, fs[..|fs| - 1]);
      assert (es + fs)[..|es + fs| - 1] == es + fs[..|fs| - 1];
    }
  }

  lemma ApplySnoc(d: Deployed, es: seq<Effect>, e: Effect)
    ensures ApplyAll(d, es + [e]) == Apply(ApplyAll(d, es), e)
  {
    assert (es + [e])[..|es|] == es;
  }

  lemma ApplyNone(d: Deployed)
    ensures ApplyAll(d, []) == d
  {
  }

  lemma ApplyOne(d: Deployed, e: Effect)
    ensures ApplyAll(d, [e]) == Apply(d, e)
  {
    assert [e][..0] == [];
  }

  // ----- the control-plane stores among the effects

  function StoresOf(e: Effect): seq<Store> {
    match e
    case Write(address, value) => [Store(address, value)]
    case SetConstant(m, value) => ConstantStores(m, value)
    case UpdateConstant(m, value) => ConstantStores(m, value)
    case _ => []
  }

  function Stores(es: seq<Effect>): seq<Store> {
    if es == [] then [] else Stores(es[..|es| - 1]) + StoresOf(es[|es| - 1])
  }

  lemma {:induction false} StoresAppend(es: seq<Effect>, fs: seq<Effect>)
    ensures Stores(es + fs) == Stores(es) + Stores(fs)
  {
    hide StoresOf;
    if fs == [] {
      assert es + fs == es;
    } else {
      StoresAppend(es, fs[..|fs| - 1]);
      assert (es + fs)[..|es + fs| - 1] == es + fs[..|fs| - 1];
    }
  }

  lemma StoresNone()
    ensures Stores([]) == []
  {
  }

  lemma StoresOne(e: Effect)
    ensures Stores([e]) == StoresOf(e)
  {
    assert [e][..0] == [];
  }

  /** A list of plain writes is its own list of stores. */
  lemma {:induction false} StoresOfWrites(es: seq<Effect>)
    requires forall i :: 0 <= i < |es| ==> es[i].Write?
    ensures |Stores(es)| == |es|
    ensures forall i :: 0 <= i < |es| ==> Stores(es)[i] == Store(es[i].address, es[i].value)
  {
    if es != [] { StoresOfWrites(es[..|es| - 1]); }
  }

  /** The logged operations of a list of effects. */
  function OpsOf(e: Effect): seq<BusOp> {
    match e
    case Load(address, program) => [BusOp([address], program, RomPlaneWrite)]
    case _ => DirectOps(StoresOf(e))
  }

  function Ops(es: seq<Effect>): seq<BusOp> {
    if es == [] then [] else Ops(es[..|es| - 1]) + OpsOf(es[|es| - 1])
  }

  lemma {:induction false} OperationsLogged(d: Deployed, es: seq<Effect>)
    ensures ApplyAll(d, es).operations == d.operations + Ops(es)
  {
    hide Apply, OpsOf;
    if es != [] {
      OperationsLogged(d, es[..|es| - 1]);
      ApplyLogs(ApplyAll(d, es[..|es| - 1]), es[|es| - 1]);
    }
  }

  lemma ApplyLogs(d: Deployed, e: Effect)
    ensures Apply(d, e).operations == d.operations + OpsOf(e)
  {
  }

  /** Replaying what a list of effects logs carries out its stores: every write is direct. */
  lemma {:induction false} OpsReplay(es: seq<Effect>)
    ensures AllLoggable(Ops(es)) && forall op :: op in Ops(es) ==> IsDirect(op)
    ensures ControlReplayAll(Ops(es)) == Stores(es)
  {
    hide OpsOf, StoresOf, Loggable, IsDirect, ControlReplay;
    if es != [] {
      var n := |es| - 1;
      OpsReplay(es[..n]);
      OpReplays(es[n]);
      LoggablePrefix(Ops(es[..n]), OpsOf(es[n]));
      ReplayAppend(Ops(es[..n]), OpsOf(es[n]));
    }
  }

  lemma OpReplays(e: Effect)
    ensures AllLoggable(OpsOf(e)) && forall op :: op in OpsOf(e) ==> IsDirect(op)
    ensures ControlReplayAll(OpsOf(e)) == StoresOf(e)
  {
    if e.Load? {
      assert OpsOf(e)[..0] == [];
    } else {
      DirectOpsReplay(StoresOf(e));
    }
  }

  lemma {:induction false} DirectOpsReplay(stores: seq<Store>)
    ensures AllLoggable(DirectOps(stores)) && forall op :: op in DirectOps(stores) ==> IsDirect(op)
    ensures ControlReplayAll(DirectOps(stores)) == stores
  {
    if stores != [] {
      var n := |stores| - 1;
      DirectOpsReplay(stores[..n]);
      assert DirectOps(stores)[..n] == DirectOps(stores[..n]);
      assert ControlReplay(DirectOp(stores[n])) == [stores[n]];
    }
  }
}

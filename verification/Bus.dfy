/**
 The bus accessor: two memory-mapped planes of 32-bit words, a log of every operation, and a sink mode in
 which operations are logged but not carried out. Also what a whole run of calls leaves in the planes.
 */
module Bus {
  import opened Operations
  import opened SimulationText

  /** A plane's image, and whether the process survived: an unmapped address ends it. */
  datatype Image = Image(words: seq<nat>, alive: bool)

  predicate Mapped(size: nat, base: nat, address: nat) {
    base <= address && (address - base) / 4 < size
  }

  /** Stores carried out in order, up to the first unmapped address. */
  function RunStores(words: seq<nat>, base: nat, stores: seq<Store>): (r: Image)
    ensures |r.words| == |words|
  {
    if stores == [] then Image(words, true)
    else
      RunStore(RunStores(words, base, stores[..|stores| - 1]), base, stores[|stores| - 1])
  }

  /** One store, or none when its address is unmapped. */
  function RunStore(image: Image, base: nat, s: Store): Image {
    if image.alive && Mapped(|image.words|, base, s.address) then
      Image(image.words[(s.address - base) / 4 := s.value % 0x1_0000_0000], true)
    else Image(image.words, false)
  }

  lemma RunStoreDead(words: seq<nat>, base: nat, s: Store)
    ensures RunStore(Image(words, false), base, s) == Image(words, false)
  {
  }

  lemma RunStoresNext(words: seq<nat>, base: nat, stores: seq<Store>, i: nat)
    requires i < |stores|
    ensures RunStores(words, base, stores[..i + 1]) == RunStore(RunStores(words, base, stores[..i]), base, stores[i])
  {
    assert stores[..i + 1][..i] == stores[..i];
  }

  lemma RunStoresNone(words: seq<nat>, base: nat)
    ensures RunStores(words, base, []) == Image(words, true)
  {
  }

  lemma RunStoresOne(words: seq<nat>, base: nat, s: Store)
    ensures RunStores(words, base, [s]) == RunStore(Image(words, true), base, s)
  {
    assert [s][..0] == [];
  }

  lemma RunStoresTwo(words: seq<nat>, base: nat, s: Store, t: Store)
    ensures RunStores(words, base, [s, t]) == RunStore(RunStore(Image(words, true), base, s), base, t)
  {
    RunStoresOne(words, base, s);
    assert [s, t][..1] == [s];
  }

  lemma {:induction false} RunStoresAppend(words: seq<nat>, base: nat, s: seq<Store>, t: seq<Store>)
    ensures RunStores(words, base, s + t)
         == if RunStores(words, base, s).alive then RunStores(RunStores(words, base, s).words, base, t)
            else RunStores(words, base, s)
  {
    if t == [] {
      assert s + t == s;
    } else {
      var n := |t| - 1;
      RunStoresAppend(words, base, s, t[..n]);
      assert (s + t)[..|s + t| - 1] == s + t[..n];
    }
  }

  // ----- the accessor

  class BusAccessor {
    const controlAddr: nat
    const coreAddr: nat
    const registers: array<nat>
    const fCore: array<nat>
    var operations: seq<BusOp>
    var sinkMode: bool
    var previousSinkMode: bool

    constructor (controlAddr: nat, coreAddr: nat, registers: array<nat>, fCore: array<nat>)
      ensures this.controlAddr == controlAddr && this.coreAddr == coreAddr
      ensures this.registers == registers && this.fCore == fCore
      ensures operations == [] && !sinkMode && !previousSinkMode
    {
      this.controlAddr, this.coreAddr := controlAddr, coreAddr;
      this.registers, this.fCore := registers, fCore;
      operations, sinkMode, previousSinkMode := [], false, false;
    }

    /** The state as a value. */
    function View(alive: bool): State
      reads this, registers, fCore
    {
      State(controlAddr, coreAddr, registers[..], fCore[..], operations, sinkMode, previousSinkMode, alive)
    }

    method RegisterAddressToIndex(address: nat) returns (index: nat, alive: bool)
      ensures alive <==> Mapped(registers.Length, controlAddr, address)
      ensures alive ==> index == (address - controlAddr) / 4
    {
      if controlAddr > address {
        return 0, false;
      }
      index := (address - controlAddr) / 4;
      alive := index < registers.Length;
    }

    method FCoreAddressToIndex(address: nat) returns (index: nat, alive: bool)
      ensures alive <==> coreAddr <= address
      ensures alive ==> index == (address - coreAddr) / 4
    {
      if coreAddr > address {
        return 0, false;
      }
      index := (address - coreAddr) / 4;
      alive := true;
    }

    /** One word put at its index; an unmapped address ends the process. */
    method StoreWord(address: nat, value: nat) returns (alive: bool)
      modifies registers
      ensures Image(registers[..], alive)
           == RunStore(Image(old(registers[..]), true), controlAddr, Store(address, value))
    {
      var i;
      i, alive := RegisterAddressToIndex(address);
      if alive {
        registers[i] := value % 0x1_0000_0000;
      }
    }

    method WriteRegister(addresses: seq<nat>, data: nat) returns (alive: bool)
      requires |addresses| > 0 && registers != fCore
      modifies this`operations, registers
      ensures View(alive) == Step(old(View(true)), Do(Write(addresses, data)))
    {
      hide RunStores, RunStore;
      RunStoresNone(fCore[..], coreAddr);
      operations := operations + [BusOp(addresses, [data], ControlPlaneWrite)];
      alive := true;
      if !sinkMode {
        ghost var stores := WriteStores(addresses, data);
        ghost var before := registers[..];
        if |addresses| == 1 {
          RunStoresOne(before, controlAddr, stores[0]);
          alive := StoreWord(addresses[0], data);
        } else {
          RunStoresTwo(before, controlAddr, stores[0], stores[1]);
          alive := StoreWord(addresses[1] + 4, addresses[0]);
          if alive {
            alive := StoreWord(addresses[1], data);
          } else {
            RunStoreDead(registers[..], controlAddr, stores[1]);
          }
        }
        assert Image(registers[..], alive) == RunStores(before, controlAddr, stores);
      }
    }

    /** In sink mode the answer is made up; `noise` stands for the random number. */
    method ReadRegister(address: seq<nat>, noise: nat) returns (value: nat, alive: bool)
      modifies this`operations
      ensures View(alive) == Step(old(View(true)), Do(Read(address)))
      ensures alive && !sinkMode && |address| == 1 ==> value == registers[(address[0] - controlAddr) / 4]
      ensures alive && !sinkMode && |address| != 1 ==> value == 0
      ensures sinkMode ==> value < 100
    {
      operations := operations + [BusOp(address, [0], ControlPlaneRead)];
      value, alive := 0, true;
      if !sinkMode {
        if |address| == 1 {
          var i;
          i, alive := RegisterAddressToIndex(address[0]);
          if alive {
            value := registers[i];
          }
        }
      } else {
        value := noise % 100;
      }
    }

    method LoadProgram(address: nat, program: seq<nat>) returns (alive: bool)
      requires registers != fCore
      modifies this`operations, fCore
      ensures View(alive) == Step(old(View(true)), Do(Load(address, program)))
    {
      hide RunStores;
      RunStoresNone(registers[..], controlAddr);
      alive := true;
      var pn: seq<nat> := [];
      if sinkMode {
        for i := 0 to |program|
          invariant pn == program[..i]
        {
          pn := pn + [program[i]];
        }
      } else {
        ghost var before := fCore[..];
        ghost var stores := ProgramStores(address, program);
        RunStoresNone(before, coreAddr);
        for i := 0 to |program|
          invariant pn == program[..i]
          invariant operations == old(operations)
          invariant i > 0 ==> coreAddr <= address
          invariant alive && RunStores(before, coreAddr, stores[..i]) == Image(fCore[..], true)
        {
          RunStoresNext(before, coreAddr, stores, i);
          var first;
          first, alive := FCoreAddressToIndex(address);
          assert coreAddr <= address ==> (address + 4 * i - coreAddr) / 4 == (address - coreAddr) / 4 + i;
          if !alive || i + first >= fCore.Length {
            assert RunStores(before, coreAddr, stores[..i + 1]) == Image(fCore[..], false);
            RunStoresStop(before, coreAddr, stores, i + 1);
            return false;
          }
          fCore[i + first] := program[i] % 0x1_0000_0000;
          pn := pn + [program[i]];
        }
        assert stores[..|program|] == stores;
      }
      assert pn == program;
      operations := operations + [BusOp([address], pn, RomPlaneWrite)];
    }

    /** The two dumps of the log. */
    method GetHardwareSimulationData() returns (rom: string, control: string)
      requires AllLoggable(operations)
      ensures rom == Text(AllRomLines(operations)) && control == Text(AllControlLines(operations))
    {
      hide Line, Loggable, Text, AllRomLines, AllControlLines, RomLines, ControlLines;
      TextNone();
      rom, control := "", "";
      for k := 0 to |operations|
        invariant AllLoggable(operations[..k])
        invariant rom == Text(AllRomLines(operations[..k])) && control == Text(AllControlLines(operations[..k]))
      {
        var o := operations[k];
        ghost var rom0, control0 := rom, control;
        LineShapes(o);
        if o.kind.RomPlaneWrite? {
          for i := 0 to |o.data|
            invariant rom == rom0 + Text(RomLines(o)[..i])
          {
            TextStep(RomLines(o), i);
            rom := rom + Line(Store(o.address[0] + 4 * i, o.data[i]));
          }
          assert RomLines(o)[..|o.data|] == RomLines(o);
        } else if o.kind.ControlPlaneWrite? {
          for i := 0 to |o.data|
            invariant control == control0 + Text(ControlLines(o)[..i])
          {
            TextStep(ControlLines(o), i);
            control := control + Line(Store(o.address[i], o.data[i]));
          }
          assert ControlLines(o)[..|o.data|] == ControlLines(o);
        }
        TextsStep(operations, k);
      }
      assert operations[..|operations|] == operations;
    }

    method DisableAccess()
      modifies this`sinkMode, this`previousSinkMode
      ensures View(true) == Step(old(View(true)), Disable)
    {
      previousSinkMode := sinkMode;
      sinkMode := true;
    }

    method EnableAccess()
      modifies this`sinkMode
      ensures View(true) == Step(old(View(true)), Enable)
    {
      sinkMode := previousSinkMode;
    }

    method ClearOperations()
      modifies this`operations
      ensures View(true) == Step(old(View(true)), Do(ClearLog))
    {
      operations := [];
    }
  }

  lemma TextNone()
    ensures AllLoggable([]) && Text([]) == "" && AllRomLines([]) == [] && AllControlLines([]) == []
  {
  }

  lemma LineShapes(op: BusOp)
    requires Loggable(op)
    ensures op.kind.RomPlaneWrite? ==> |op.address| == 1 && |RomLines(op)| == |op.data| && ControlLines(op) == []
    ensures op.kind.RomPlaneWrite? ==>
              forall i :: 0 <= i < |op.data| ==> RomLines(op)[i] == Store(op.address[0] + 4 * i, op.data[i])
    ensures op.kind.ControlPlaneWrite? ==>
              |op.address| >= |op.data| && |ControlLines(op)| == |op.data| && RomLines(op) == []
    ensures op.kind.ControlPlaneWrite? ==>
              forall i :: 0 <= i < |op.data| ==> ControlLines(op)[i] == Store(op.address[i], op.data[i])
    ensures !op.kind.RomPlaneWrite? && !op.kind.ControlPlaneWrite? ==> RomLines(op) == [] && ControlLines(op) == []
  {
  }

  lemma {:induction false} RunStoresStop(words: seq<nat>, base: nat, stores: seq<Store>, k: nat)
    requires k <= |stores| && !RunStores(words, base, stores[..k]).alive
    ensures RunStores(words, base, stores) == RunStores(words, base, stores[..k])
  {
    assert stores == stores[..k] + stores[k..];
    RunStoresAppend(words, base, stores[..k], stores[k..]);
  }

  // ----- runs of calls

  datatype Access =
    | Write(addresses: seq<nat>, data: nat)
    | Load(address: nat, program: seq<nat>)
    | Read(readAddress: seq<nat>)
    | ClearLog

  datatype Command = Do(access: Access) | Disable | Enable

  datatype State = State(
    controlAddr: nat,
    coreAddr: nat,
    registers: seq<nat>,
    rom: seq<nat>,
    log: seq<BusOp>,
    sink: bool,
    previous: bool,
    alive: bool)

  predicate WellFormed(a: Access) {
    a.Write? ==> |a.addresses| > 0
  }

  function ControlStores(a: Access): seq<Store>
    requires WellFormed(a)
  {
    if a.Write? then WriteStores(a.addresses, a.data) else []
  }

  function RomStores(a: Access): seq<Store> {
    if a.Load? then ProgramStores(a.address, a.program) else []
  }

  /** What a call adds to the log. */
  function Logged(a: Access): seq<BusOp> {
    match a
    case Write(addresses, data) => [BusOp(addresses, [data], ControlPlaneWrite)]
    case Load(address, program) => [BusOp([address], program, RomPlaneWrite)]
    case Read(address) => [BusOp(address, [0], ControlPlaneRead)]
    case ClearLog => []
  }

  /** The effect of one call, as the methods of the class are proved to have it. */
  function Step(s: State, c: Command): State
    requires c.Do? ==> WellFormed(c.access)
  {
    if !s.alive then s
    else
      match c
      case Disable => s.(previous := s.sink, sink := true)
      case Enable => s.(sink := s.previous)
      case Do(a) =>
        var s' := s.(log := if a.ClearLog? then [] else s.log + Logged(a));
        if s.sink then s'
        else
          var control := RunStores(s.registers, s.controlAddr, ControlStores(a));
          var rom := RunStores(s.rom, s.coreAddr, RomStores(a));
          var readable := a.Read? && |a.readAddress| == 1 ==> Mapped(|s.registers|, s.controlAddr, a.readAddress[0]);
          s'.(registers := control.words, rom := rom.words, alive := control.alive && rom.alive && readable,
              // a program is logged only once it is loaded
              log := if rom.alive then s'.log else s.log)
  }

  /** A direct write reaches its own register alone. */
  lemma DirectWrite(s: State, address: nat, data: nat)
    requires s.alive && !s.sink && Mapped(|s.registers|, s.controlAddr, address)
    ensures Step(s, Do(Write([address], data)))
         == s.(registers := s.registers[(address - s.controlAddr) / 4 := data % 0x1_0000_0000],
               log := s.log + [BusOp([address], [data], ControlPlaneWrite)])
  {
    hide RunStores;
    RunStoresOne(s.registers, s.controlAddr, Store(address, data));
    RunStoresNone(s.rom, s.coreAddr);
  }

  /** A proxied one leaves the target in the register above the proxy and the data in the proxy. */
  lemma ProxiedWrite(s: State, target: nat, proxy: nat, data: nat)
    requires s.alive && !s.sink && s.controlAddr <= proxy && (proxy - s.controlAddr) / 4 + 1 < |s.registers|
    ensures var i := (proxy - s.controlAddr) / 4;
      Step(s, Do(Write([target, proxy], data)))
      == s.(registers := s.registers[i := data % 0x1_0000_0000][i + 1 := target % 0x1_0000_0000],
            log := s.log + [BusOp([target, proxy], [data], ControlPlaneWrite)])
  {
    hide RunStores;
    var i := (proxy - s.controlAddr) / 4;
    assert (proxy + 4 - s.controlAddr) / 4 == i + 1;
    RunStoresTwo(s.registers, s.controlAddr, Store(proxy + 4, target), Store(proxy, data));
    RunStoresNone(s.rom, s.coreAddr);
    assert s.registers[i + 1 := target % 0x1_0000_0000][i := data % 0x1_0000_0000]
        == s.registers[i := data % 0x1_0000_0000][i + 1 := target % 0x1_0000_0000];
  }

  function Run(s: State, cs: seq<Command>): State
    requires forall c :: c in cs && c.Do? ==> WellFormed(c.access)
  {
    if cs == [] then s else Step(Run(s, cs[..|cs| - 1]), cs[|cs| - 1])
  }

  lemma {:induction false} RunAppend(s: State, cs: seq<Command>, ds: seq<Command>)
    requires forall c :: c in cs && c.Do? ==> WellFormed(c.access)
    requires forall c :: c in ds && c.Do? ==> WellFormed(c.access)
    ensures Run(s, cs + ds) == Run(Run(s, cs), ds)
  {
    if ds == [] {
      assert cs + ds == cs;
    } else {
      RunAppend(s, cs, ds[..|ds| - 1]);
      assert (cs + ds)[..|cs + ds| - 1] == cs + ds[..|ds| - 1];
    }
  }

  /** A list of calls with no change of mode. */
  function Calls(accesses: seq<Access>): seq<Command> {
    seq(|accesses|, i requires 0 <= i < |accesses| => Do(accesses[i]))
  }

  ghost predicate AllWellFormed(accesses: seq<Access>) {
    forall a :: a in accesses ==> WellFormed(a)
  }

  /** A run in the shape the driver gives it: stretches of plain calls, and brackets around calls to be sunk. */
  datatype Segment = Live(calls: seq<Access>) | Bracket(calls: seq<Access>)

  function SegmentCommands(g: Segment): seq<Command> {
    if g.Live? then Calls(g.calls) else [Disable] + Calls(g.calls) + [Enable]
  }

  function Commands(run: seq<Segment>): seq<Command> {
    if run == [] then [] else Commands(run[..|run| - 1]) + SegmentCommands(run[|run| - 1])
  }

  /** The calls issued outside every bracket, in order. */
  function Issued(run: seq<Segment>): seq<Access> {
    if run == [] then []
    else Issued(run[..|run| - 1]) + (if run[|run| - 1].Live? then run[|run| - 1].calls else [])
  }

  function AllControlStores(accesses: seq<Access>): seq<Store>
    requires AllWellFormed(accesses)
  {
    if accesses == [] then []
    else AllControlStores(accesses[..|accesses| - 1]) + ControlStores(accesses[|accesses| - 1])
  }

  function AllRomStores(accesses: seq<Access>): seq<Store> {
    if accesses == [] then []
    else AllRomStores(accesses[..|accesses| - 1]) + RomStores(accesses[|accesses| - 1])
  }

  lemma CallsWellFormed(accesses: seq<Access>)
    requires AllWellFormed(accesses)
    ensures forall c :: c in Calls(accesses) && c.Do? ==> WellFormed(c.access)
  {
  }

  /** Plain calls out of sink mode: the planes are the in-order replay of their stores. */
  lemma {:induction false} LiveCalls(s: State, accesses: seq<Access>)
    requires AllWellFormed(accesses) && !s.sink
    requires Run(s, Calls(accesses)).alive
    ensures s.alive
    ensures var t := Run(s, Calls(accesses));
      && Image(t.registers, true) == RunStores(s.registers, s.controlAddr, AllControlStores(accesses))
      && Image(t.rom, true) == RunStores(s.rom, s.coreAddr, AllRomStores(accesses))
      && t.sink == s.sink && t.previous == s.previous && t.controlAddr == s.controlAddr && t.coreAddr == s.coreAddr
  {
    if accesses != [] {
      var n := |accesses| - 1;
      assert Calls(accesses)[..n] == Calls(accesses[..n]);
      LiveCalls(s, accesses[..n]);
      RunStoresAppend(s.registers, s.controlAddr, AllControlStores(accesses[..n]), ControlStores(accesses[n]));
      RunStoresAppend(s.rom, s.coreAddr, AllRomStores(accesses[..n]), RomStores(accesses[n]));
    }
  }

  /** Stores are all carried out exactly when every address is mapped. */
  lemma {:induction false} AliveIffMapped(words: seq<nat>, base: nat, stores: seq<Store>)
    ensures RunStores(words, base, stores).alive <==> forall i :: 0 <= i < |stores| ==> Mapped(|words|, base,
        stores[i].address)
  {
    if stores != [] { AliveIffMapped(words, base, stores[..|stores| - 1]); }
  }

  /** Every single address that is read is mapped. */
  ghost predicate ReadsMapped(s: State, accesses: seq<Access>) {
    forall a :: a in accesses && a.Read? && |a.readAddress| == 1 ==>
      Mapped(|s.registers|, s.controlAddr, a.readAddress[0])
  }

  lemma CallAlive(s: State, a: Access)
    requires WellFormed(a) && s.alive && !s.sink
    ensures Step(s, Do(a)).alive
       <==> && RunStores(s.registers, s.controlAddr, ControlStores(a)).alive
            && RunStores(s.rom, s.coreAddr, RomStores(a)).alive
            && ReadsMapped(s, [a])
  {
    assert a in [a];
  }

  /** A process survives a list of calls exactly when it survives their stores, plane by plane, and their reads. */
  lemma {:induction false} CallsAliveIff(s: State, accesses: seq<Access>)
    requires AllWellFormed(accesses) && s.alive && !s.sink
    ensures Run(s, Calls(accesses)).alive
       <==> && RunStores(s.registers, s.controlAddr, AllControlStores(accesses)).alive
            && RunStores(s.rom, s.coreAddr, AllRomStores(accesses)).alive
            && ReadsMapped(s, accesses)
  {
    hide RunStores, ControlStores, RomStores, Mapped;
    if accesses == [] {
      RunStoresNone(s.registers, s.controlAddr);
      RunStoresNone(s.rom, s.coreAddr);
    } else {
      var front, last := accesses[..|accesses| - 1], accesses[|accesses| - 1];
      assert Calls(accesses)[..|front|] == Calls(front);
      assert accesses == front + [last];
      CallsAliveIff(s, front);
      RunStoresAppend(s.registers, s.controlAddr, AllControlStores(front), ControlStores(last));
      RunStoresAppend(s.rom, s.coreAddr, AllRomStores(front), RomStores(last));
      if Run(s, Calls(front)).alive {
        LiveCalls(s, front);
        CallAlive(Run(s, Calls(front)), last);
      }
    }
  }

  /** Sunk calls touch neither plane. */
  lemma {:induction false} SunkCalls(s: State, accesses: seq<Access>)
    requires AllWellFormed(accesses) && s.sink
    ensures var t := Run(s, Calls(accesses)); t == s.(log := t.log)
  {
    if accesses != [] {
      var n := |accesses| - 1;
      assert Calls(accesses)[..n] == Calls(accesses[..n]);
      SunkCalls(s, accesses[..n]);
    }
  }

  /** A bracket changes neither plane and restores the mode it started in. */
  lemma BracketRestores(s: State, accesses: seq<Access>)
    requires AllWellFormed(accesses) && s.alive
    ensures forall c :: c in [Disable] + Calls(accesses) + [Enable] && c.Do? ==> WellFormed(c.access)
    ensures var t := Run(s, [Disable] + Calls(accesses) + [Enable]);
      t == s.(log := t.log, previous := s.sink)
  {
    CallsWellFormed(accesses);
    var off := Step(s, Disable);
    assert [Disable][..0] == [];
    assert Run(s, [Disable]) == off;
    RunAppend(s, [Disable], Calls(accesses));
    SunkCalls(off, accesses);
    var cs := [Disable] + Calls(accesses) + [Enable];
    assert cs[..|cs| - 1] == [Disable] + Calls(accesses);
  }

  /**
   Nested brackets do not restore the mode: after two disables, no run of calls, enables and further disables
   ever leaves sink mode again.
   */
  lemma {:induction false} NestedBracketStaysSunk(s: State, cs: seq<Command>)
    requires s.alive && s.sink && s.previous && forall c :: c in cs && c.Do? ==> WellFormed(c.access)
    ensures var t := Run(s, cs); t.sink && t.previous && t.alive && t.registers == s.registers && t.rom == s.rom
  {
    if cs != [] { NestedBracketStaysSunk(s, cs[..|cs| - 1]); }
  }

  /** A disable that no enable has followed. */
  ghost predicate Open(cs: seq<Command>) {
    exists i :: 0 <= i < |cs| && cs[i].Disable? && forall k :: i < k < |cs| ==> !cs[k].Enable?
  }

  /** Two disables without an enable between them. */
  ghost predicate Nested(cs: seq<Command>) {
    exists j :: 0 <= j < |cs| && cs[j].Disable? && Open(cs[..j])
  }

  lemma OpenStep(cs: seq<Command>, c: Command)
    ensures Open(cs + [c]) <==> c.Disable? || (Open(cs) && !c.Enable?)
  {
    var all := cs + [c];
    if c.Disable? {
      assert all[|cs|].Disable?;
    } else if Open(cs) && !c.Enable? {
      var i :| 0 <= i < |cs| && cs[i].Disable? && forall k :: i < k < |cs| ==> !cs[k].Enable?;
      assert all[i].Disable? && forall k :: i < k < |all| ==> !all[k].Enable?;
    }
    if Open(all) && !c.Disable? {
      var i :| 0 <= i < |all| && all[i].Disable? && forall k :: i < k < |all| ==> !all[k].Enable?;
      assert cs[i].Disable? && !all[|cs|].Enable?;
      assert forall k :: i < k < |cs| ==> cs[k] == all[k];
    }
  }

  lemma NestedStep(cs: seq<Command>, c: Command)
    ensures Nested(cs + [c]) <==> Nested(cs) || (c.Disable? && Open(cs))
  {
    hide Open;
    var all := cs + [c];
    assert all[..|cs|] == cs;
    assert forall j :: 0 <= j < |cs| ==> all[..j] == cs[..j] && all[j] == cs[j];
    if c.Disable? && Open(cs) {
      assert all[|cs|].Disable? && Open(all[..|cs|]);
    }
    if Nested(cs) {
      var j :| 0 <= j < |cs| && cs[j].Disable? && Open(cs[..j]);
      assert all[j].Disable? && Open(all[..j]);
    }
  }

  /** The mode after any surviving run from the state an accessor starts in. */
  lemma {:induction false} ModeAfter(s: State, cs: seq<Command>)
    requires forall c :: c in cs && c.Do? ==> WellFormed(c.access)
    requires !s.sink && !s.previous && Run(s, cs).alive
    ensures Run(s, cs).previous <==> Nested(cs)
    ensures Run(s, cs).sink <==> Nested(cs) || Open(cs)
  {
    hide Open, Nested, WellFormed, RunStores;
    if cs == [] {
      NothingOpen();
    } else {
      var front, last := cs[..|cs| - 1], cs[|cs| - 1];
      assert cs == front + [last];
      ModeAfter(s, front);
      OpenStep(front, last);
      NestedStep(front, last);
    }
  }

  lemma NothingOpen()
    ensures !Open([]) && !Nested([])
  {
  }

  /** Sink mode can be left after a run, by some further commands, exactly when the run nests no disables. */
  lemma SinkCanBeLeftIff(s: State, cs: seq<Command>)
    requires forall c :: c in cs && c.Do? ==> WellFormed(c.access)
    requires !s.sink && !s.previous && Run(s, cs).alive
    ensures (exists ds :: CanLeave(s, cs, ds)) <==> !Nested(cs)
  {
    hide Nested, Open, WellFormed;
    ModeAfter(s, cs);
    if Nested(cs) {
      forall ds: seq<Command> ensures !CanLeave(s, cs, ds) {
        if forall c :: c in ds && c.Do? ==> WellFormed(c.access) {
          RunAppend(s, cs, ds);
          NestedBracketStaysSunk(Run(s, cs), ds);
        }
      }
    } else {
      assert (cs + [Enable])[..|cs|] == cs;
      assert CanLeave(s, cs, [Enable]);
    }
  }

  /** The commands ds lead out of sink mode after cs. */
  ghost predicate CanLeave(s: State, cs: seq<Command>, ds: seq<Command>) {
    && (forall c :: c in cs + ds && c.Do? ==> WellFormed(c.access))
    && !Run(s, cs + ds).sink
  }

  ghost predicate RunWellFormed(run: seq<Segment>) {
    forall g :: g in run ==> AllWellFormed(g.calls)
  }

  lemma {:induction false} CommandsWellFormed(run: seq<Segment>)
    requires RunWellFormed(run)
    ensures AllWellFormed(Issued(run))
    ensures forall c :: c in Commands(run) && c.Do? ==> WellFormed(c.access)
  {
    if run != [] {
      CommandsWellFormed(run[..|run| - 1]);
      CallsWellFormed(run[|run| - 1].calls);
    }
  }

  lemma AllStoresSnoc(a: seq<Access>, x: Access)
    requires AllWellFormed(a) && WellFormed(x)
    ensures AllWellFormed(a + [x])
    ensures AllControlStores(a + [x]) == AllControlStores(a) + ControlStores(x)
    ensures AllRomStores(a + [x]) == AllRomStores(a) + RomStores(x)
  {
    hide ControlStores, RomStores, WellFormed;
    assert (a + [x])[..|a|] == a;
  }

  lemma {:induction false} AllStoresAppend(a: seq<Access>, b: seq<Access>)
    requires AllWellFormed(a) && AllWellFormed(b)
    ensures AllWellFormed(a + b)
    ensures AllControlStores(a + b) == AllControlStores(a) + AllControlStores(b)
    ensures AllRomStores(a + b) == AllRomStores(a) + AllRomStores(b)
  {
    hide ControlStores, RomStores, WellFormed, AllControlStores, AllRomStores;
    if b == [] {
      assert a + b == a;
      NoStores();
    } else {
      var front, last := b[..|b| - 1], b[|b| - 1];
      AllStoresAppend(a, front);
      AllStoresSnoc(a + front, last);
      AllStoresSnoc(front, last);
      assert a + b == (a + front) + [last] && b == front + [last];
    }
  }

  lemma NoStores()
    ensures AllWellFormed([]) && AllControlStores([]) == [] && AllRomStores([]) == []
  {
  }

  /**
   Log and memory agree over every run the process survives: both planes hold the in-order replay of
   exactly the calls issued outside brackets, and the mode is back where it started.
   */
  lemma {:induction false} RunReplaysIssued(s: State, run: seq<Segment>)
    requires RunWellFormed(run) && s.alive && !s.sink
    requires (CommandsWellFormed(run); Run(s, Commands(run)).alive)
    ensures AllWellFormed(Issued(run))
    ensures forall c :: c in Commands(run) && c.Do? ==> WellFormed(c.access)
    ensures var t := Run(s, Commands(run));
      && Image(t.registers, true) == RunStores(s.registers, s.controlAddr, AllControlStores(Issued(run)))
      && Image(t.rom, true) == RunStores(s.rom, s.coreAddr, AllRomStores(Issued(run)))
      && !t.sink && t.controlAddr == s.controlAddr && t.coreAddr == s.coreAddr
  {
    CommandsWellFormed(run);
    if run != [] {
      var front, last := run[..|run| - 1], run[|run| - 1];
      CommandsWellFormed(front);
      CallsWellFormed(last.calls);
      var tail := SegmentCommands(last);
      RunAppend(s, Commands(front), tail);
      var m := Run(s, Commands(front));
      AliveBefore(m, tail);
      RunReplaysIssued(s, front);
      if last.Live? {
        LiveCalls(m, last.calls);
        AllStoresAppend(Issued(front), last.calls);
        RunStoresAppend(s.registers, s.controlAddr, AllControlStores(Issued(front)), AllControlStores(last.calls));
        RunStoresAppend(s.rom, s.coreAddr, AllRomStores(Issued(front)), AllRomStores(last.calls));
      } else {
        BracketRestores(m, last.calls);
        assert Issued(run) == Issued(front);
      }
    }
  }

  /** One segment more: a bracket is always survived, live calls when their stores and reads are. */
  lemma SegmentAlive(m: State, g: Segment)
    requires AllWellFormed(g.calls) && m.alive && !m.sink
    ensures (forall c :: c in SegmentCommands(g) && c.Do? ==> WellFormed(c.access))
    ensures Run(m, SegmentCommands(g)).alive
       <==> g.Live? ==>
            && RunStores(m.registers, m.controlAddr, AllControlStores(g.calls)).alive
            && RunStores(m.rom, m.coreAddr, AllRomStores(g.calls)).alive
            && ReadsMapped(m, g.calls)
  {
    hide RunStores, Step, AllControlStores, AllRomStores, WellFormed;
    CallsWellFormed(g.calls);
    if g.Live? {
      CallsAliveIff(m, g.calls);
    } else {
      BracketRestores(m, g.calls);
    }
  }

  /**
   A run is survived exactly when every address of the calls issued outside brackets is mapped: those stored to,
   plane by plane, and those read.
   */
  lemma {:induction false} RunAliveIff(s: State, run: seq<Segment>)
    requires RunWellFormed(run) && s.alive && !s.sink
    ensures AllWellFormed(Issued(run)) && forall c :: c in Commands(run) && c.Do? ==> WellFormed(c.access)
    ensures Run(s, Commands(run)).alive
       <==> && AllStored(|s.registers|, s.controlAddr, AllControlStores(Issued(run)))
            && AllStored(|s.rom|, s.coreAddr, AllRomStores(Issued(run)))
            && ReadsMapped(s, Issued(run))
  {
    hide Step, AllControlStores, AllRomStores, WellFormed, RunStores, Mapped;
    CommandsWellFormed(run);
    AliveIffMapped(s.registers, s.controlAddr, AllControlStores(Issued(run)));
    AliveIffMapped(s.rom, s.coreAddr, AllRomStores(Issued(run)));
    if run == [] {
      NoStores();
    } else {
      var front, last := run[..|run| - 1], run[|run| - 1];
      RunAliveIff(s, front);
      CommandsWellFormed(front);
      RunAppend(s, Commands(front), SegmentCommands(last));
      AliveIffMapped(s.registers, s.controlAddr, AllControlStores(Issued(front)));
      AliveIffMapped(s.rom, s.coreAddr, AllRomStores(Issued(front)));
      SegmentStores(s, front, last);
      if Run(s, Commands(front)).alive {
        RunReplaysIssued(s, front);
        SegmentAlive(Run(s, Commands(front)), last);
      } else {
        StaysDead(Run(s, Commands(front)), SegmentCommands(last));
      }
    }
  }

  /** Every address stored to is mapped. */
  ghost predicate AllStored(size: nat, base: nat, stores: seq<Store>) {
    forall i :: 0 <= i < |stores| ==> Mapped(size, base, stores[i].address)
  }

  lemma SegmentStores(s: State, front: seq<Segment>, last: Segment)
    requires AllWellFormed(Issued(front)) && AllWellFormed(last.calls)
    ensures AllWellFormed(Issued(front + [last]))
    ensures last.Bracket? ==> Issued(front + [last]) == Issued(front)
    ensures last.Live? ==>
      && RunStores(s.registers, s.controlAddr, AllControlStores(Issued(front + [last])))
         == RunMore(RunStores(s.registers, s.controlAddr, AllControlStores(Issued(front))), s.controlAddr,
                    AllControlStores(last.calls))
      && RunStores(s.rom, s.coreAddr, AllRomStores(Issued(front + [last])))
         == RunMore(RunStores(s.rom, s.coreAddr, AllRomStores(Issued(front))), s.coreAddr, AllRomStores(last.calls))
      && (ReadsMapped(s, Issued(front + [last])) <==> ReadsMapped(s, Issued(front)) && ReadsMapped(s, last.calls))
  {
    hide RunStores, AllControlStores, AllRomStores, WellFormed, Mapped;
    assert (front + [last])[..|front|] == front;
    if last.Live? {
      AllStoresAppend(Issued(front), last.calls);
      RunStoresAppend(s.registers, s.controlAddr, AllControlStores(Issued(front)), AllControlStores(last.calls));
      RunStoresAppend(s.rom, s.coreAddr, AllRomStores(Issued(front)), AllRomStores(last.calls));
    }
  }

  /** Further stores, as long as the earlier ones were carried out. */
  function RunMore(image: Image, base: nat, stores: seq<Store>): Image {
    if image.alive then RunStores(image.words, base, stores) else image
  }

  lemma {:induction false} StaysDead(s: State, cs: seq<Command>)
    requires forall c :: c in cs && c.Do? ==> WellFormed(c.access)
    requires !s.alive
    ensures !Run(s, cs).alive
  {
    if cs != [] { StaysDead(s, cs[..|cs| - 1]); }
  }

  lemma {:induction false} AliveBefore(s: State, cs: seq<Command>)
    requires forall c :: c in cs && c.Do? ==> WellFormed(c.access)
    requires Run(s, cs).alive
    ensures s.alive
  {
    if cs != [] { AliveBefore(s, cs[..|cs| - 1]); }
  }

  /** The log of a run: every call since the last clear, sunk or not. */
  function LogOf(cs: seq<Command>, log: seq<BusOp>): seq<BusOp> {
    if cs == [] then log
    else
      var c := cs[|cs| - 1];
      if c.Do? && c.access.ClearLog? then []
      else LogOf(cs[..|cs| - 1], log) + (if c.Do? then Logged(c.access) else [])
  }

  lemma {:induction false} LogIsComplete(s: State, cs: seq<Command>)
    requires forall c :: c in cs && c.Do? ==> WellFormed(c.access)
    requires Run(s, cs).alive
    ensures Run(s, cs).log == LogOf(cs, s.log)
  {
    if cs != [] {
      LogIsComplete(s, cs[..|cs| - 1]);
    }
  }

  function LoggedAll(accesses: seq<Access>): seq<BusOp> {
    if accesses == [] then [] else LoggedAll(accesses[..|accesses| - 1]) + Logged(accesses[|accesses| - 1])
  }

  /** Plain calls that never clear the log are all in it, in order. */
  lemma {:induction false} LiveLog(s: State, accesses: seq<Access>)
    requires AllWellFormed(accesses) && s.log == [] && forall a :: a in accesses ==> !a.ClearLog?
    requires Run(s, Calls(accesses)).alive
    ensures Run(s, Calls(accesses)).log == LoggedAll(accesses)
  {
    hide RunStores, ControlStores, RomStores, Logged, WellFormed;
    if accesses != [] {
      var n := |accesses| - 1;
      assert Calls(accesses)[..n] == Calls(accesses[..n]);
      LiveLog(s, accesses[..n]);
    }
  }

  lemma LoggedReplays(a: Access)
    requires WellFormed(a)
    ensures AllLoggable(Logged(a))
    ensures ControlReplayAll(Logged(a)) == ControlStores(a) && RomReplayAll(Logged(a)) == RomStores(a)
    ensures (a.Write? ==> |a.addresses| == 1) ==> forall op :: op in Logged(a) ==> IsDirect(op)
  {
    if Logged(a) != [] { assert Logged(a)[..0] == []; }
  }

  /** Replaying the log of a list of calls is carrying out their stores. */
  lemma {:induction false} LogReplays(accesses: seq<Access>)
    requires AllWellFormed(accesses)
    ensures AllLoggable(LoggedAll(accesses))
    ensures ControlReplayAll(LoggedAll(accesses)) == AllControlStores(accesses)
    ensures RomReplayAll(LoggedAll(accesses)) == AllRomStores(accesses)
    ensures (forall a :: a in accesses && a.Write? ==> |a.addresses| == 1)
        ==> forall op :: op in LoggedAll(accesses) ==> IsDirect(op)
  {
    hide Logged, ControlStores, RomStores, WellFormed, Loggable, IsDirect, ControlReplay, RomReplay;
    if accesses != [] {
      var n := |accesses| - 1;
      LogReplays(accesses[..n]);
      LoggedReplays(accesses[n]);
      LoggablePrefix(LoggedAll(accesses[..n]), Logged(accesses[n]));
      ReplayAppend(LoggedAll(accesses[..n]), Logged(accesses[n]));
    }
  }

  /**
   From log to text to memory: for any run of direct writes, loads and reads out of sink mode, parsing the
   dumped texts and replaying their lines word by word rebuilds both planes exactly.
   */
  lemma {:induction false} DumpRebuildsPlanes(s: State, accesses: seq<Access>)
    requires AllWellFormed(accesses) && s.log == [] && !s.sink
    requires forall a :: a in accesses ==> !a.ClearLog? && (a.Write? ==> |a.addresses| == 1)
    requires Run(s, Calls(accesses)).alive
    ensures var t := Run(s, Calls(accesses));
      && AllLoggable(t.log)
      && var rom, control := Parse(Text(AllRomLines(t.log)), 0, []), Parse(Text(AllControlLines(t.log)), 0, []);
      && rom.Lines? && RunStores(s.rom, s.coreAddr, rom.stores) == Image(t.rom, true)
      && control.Lines? && RunStores(s.registers, s.controlAddr, control.stores) == Image(t.registers, true)
  {
    hide Step, RunStores, Parse, Text, AllRomLines, AllControlLines, AllControlStores, AllRomStores;
    LiveCalls(s, accesses);
    LiveLog(s, accesses);
    LogReplays(accesses);
    DumpIsFaithful(LoggedAll(accesses));
  }
}

/**
 The constant engine of a core, a command port: writing the selector picks a slot, the next two writes fill
 its destination and its value. What a slot holds after any list of effects is decided by the last command
 that named it.
 */
module ConstantEngine {
  import opened Operations
  import opened Specification
  import opened RegisterLog
  import opened Effects

  /** A constant being set, at deployment or later. */
  datatype Command = Command(input: InputMetadata, value: Word)

  function CommandsOf(e: Effect): seq<Command> {
    match e
    case SetConstant(m, value) => [Command(m, value)]
    case UpdateConstant(m, value) => [Command(m, value)]
    case _ => []
  }

  function Commands(es: seq<Effect>): seq<Command> {
    if es == [] then [] else Commands(es[..|es| - 1]) + CommandsOf(es[|es| - 1])
  }

  /** The inputs that commands set. */
  function InputsOf(cs: seq<Command>): seq<InputMetadata> {
    seq(|cs|, i requires 0 <= i < |cs| => cs[i].input)
  }

  /** A deployment adds every constant it sets to the known inputs. */
  lemma {:induction false} InputsKnown(d: Deployed, es: seq<Effect>)
    requires forall e :: e in es ==> !e.UpdateConstant?
    ensures ApplyAll(d, es).inputs == d.inputs + InputsOf(Commands(es))
  {
    hide Apply, CommandsOf;
    if es != [] {
      var n := |es| - 1;
      InputsKnown(d, es[..n]);
      InputKnown(ApplyAll(d, es[..n]), es[n]);
      assert InputsOf(Commands(es)) == InputsOf(Commands(es[..n])) + InputsOf(CommandsOf(es[n]));
    }
  }

  lemma InputKnown(d: Deployed, e: Effect)
    requires !e.UpdateConstant?
    ensures Apply(d, e).inputs == d.inputs + InputsOf(CommandsOf(e))
  {
  }

  /** The last command for a slot of an engine. */
  function LastCommand(cs: seq<Command>, base: nat, selector: nat): Option<Command> {
    if cs == [] then None
    else if cs[|cs| - 1].input.base == base && cs[|cs| - 1].input.selector == selector then Some(cs[|cs| - 1])
    else LastCommand(cs[..|cs| - 1], base, selector)
  }

  lemma {:induction false} CommandsAppend(es: seq<Effect>, fs: seq<Effect>)
    ensures Commands(es + fs) == Commands(es) + Commands(fs)
  {
    hide CommandsOf;
    if fs == [] {
      assert es + fs == es;
    } else {
      CommandsAppend(es, fs[..|fs| - 1]);
      assert (es + fs)[..|es + fs| - 1] == es + fs[..|fs| - 1];
    }
  }

  lemma CommandsOne(e: Effect)
    ensures Commands([e]) == CommandsOf(e)
  {
    assert [e][..0] == [];
  }

  lemma {:induction false} LastCommandAppend(cs: seq<Command>, ds: seq<Command>, base: nat, selector: nat)
    ensures LastCommand(cs + ds, base, selector)
         == if LastCommand(ds, base, selector).Some? then LastCommand(ds, base, selector)
            else LastCommand(cs, base, selector)
  {
    if ds == [] {
      assert cs + ds == cs;
    } else {
      LastCommandAppend(cs, ds[..|ds| - 1], base, selector);
      assert (cs + ds)[..|cs + ds| - 1] == cs + ds[..|ds| - 1];
    }
  }

  // ----- the port

  const ENGINE_SIZE: nat := 0x10

  function Fields(base: nat): set<nat> {
    {base + CONST_LSB, base + CONST_DEST}
  }

  /** What the engine at `base` holds in a slot, after a log of stores. */
  function SlotDest(log: seq<Store>, base: nat, selector: nat): Option<nat> {
    PortSlot(log, base + CONST_SELECTOR, Fields(base), selector, base + CONST_DEST)
  }

  function SlotValue(log: seq<Store>, base: nat, selector: nat): Option<nat> {
    PortSlot(log, base + CONST_SELECTOR, Fields(base), selector, base + CONST_LSB)
  }

  /** Other writes stay off this engine, and other engines do not overlap it. */
  predicate KeepsOff(e: Effect, base: nat) {
    match e
    case Write(address, _) => address < base || base + ENGINE_SIZE <= address
    case SetConstant(m, _) => m.base == base || m.base + ENGINE_SIZE <= base || base + ENGINE_SIZE <= m.base
    case UpdateConstant(m, _) => m.base == base || m.base + ENGINE_SIZE <= base || base + ENGINE_SIZE <= m.base
    case _ => true
  }

  ghost predicate AllKeepOff(es: seq<Effect>, base: nat) {
    forall e :: e in es ==> KeepsOff(e, base)
  }

  /** The three writes of one command, seen by the engine they address. */
  lemma OwnCommand(log: seq<Store>, m: InputMetadata, value: Word)
    ensures var before := RunPort(log, m.base + CONST_SELECTOR, Fields(m.base)).slots;
      RunPort(log + ConstantStores(m, value), m.base + CONST_SELECTOR, Fields(m.base)).slots
      == before[(m.selector, m.base + CONST_DEST) := m.dest][(m.selector, m.base + CONST_LSB) := value]
  {
    hide RunPort;
    var b := m.base;
    var s, d, v := Store(b + CONST_SELECTOR, m.selector), Store(b + CONST_DEST, m.dest), Store(b + CONST_LSB, value);
    PortStep(log, s, b + CONST_SELECTOR, Fields(b));
    PortStep(log + [s], d, b + CONST_SELECTOR, Fields(b));
    PortStep(log + [s] + [d], v, b + CONST_SELECTOR, Fields(b));
    assert log + ConstantStores(m, value) == log + [s] + [d] + [v];
  }

  /** Effects that address something else leave the engine's slots alone. */
  lemma OtherEffect(log: seq<Store>, e: Effect, base: nat)
    requires KeepsOff(e, base)
    requires forall c :: c in CommandsOf(e) ==> c.input.base != base
    ensures RunPort(log + StoresOf(e), base + CONST_SELECTOR, Fields(base))
         == RunPort(log, base + CONST_SELECTOR, Fields(base))
  {
    hide RunPort;
    var t := StoresOf(e);
    assert CommandsOf(e) != [] ==> CommandsOf(e)[0] in CommandsOf(e);
    PortIgnores(log, t, base + CONST_SELECTOR, Fields(base));
  }

  /** One effect changes a slot only if it is a command for it. */
  lemma SlotStep(log: seq<Store>, e: Effect, base: nat, selector: nat)
    requires KeepsOff(e, base)
    ensures var last := LastCommand(CommandsOf(e), base, selector);
      && SlotDest(log + StoresOf(e), base, selector)
         == (if last.Some? then Some(last.value.input.dest) else SlotDest(log, base, selector))
      && SlotValue(log + StoresOf(e), base, selector)
         == (if last.Some? then Some(last.value.value) else SlotValue(log, base, selector))
  {
    hide RunPort, KeepsOff, StoresOf;
    if CommandsOf(e) == [] {
      OtherEffect(log, e, base);
    } else {
      var c := CommandsOf(e)[0];
      LastOfOne(c, base, selector);
      CommandStores(e);
      if c.input.base == base {
        OwnCommand(log, c.input, c.value);
      } else {
        OtherEffect(log, e, base);
      }
    }
  }

  /**
   After any list of effects, whatever was stored before, a slot holds the destination and value of the last command
   for it, or what it held.
   */
  lemma {:induction false} SlotHoldsLastCommand(log: seq<Store>, es: seq<Effect>, base: nat, selector: nat)
    requires AllKeepOff(es, base)
    ensures var last := LastCommand(Commands(es), base, selector);
      && SlotDest(log + Stores(es), base, selector)
         == (if last.Some? then Some(last.value.input.dest) else SlotDest(log, base, selector))
      && SlotValue(log + Stores(es), base, selector)
         == (if last.Some? then Some(last.value.value) else SlotValue(log, base, selector))
  {
    hide SlotDest, SlotValue, KeepsOff, StoresOf, CommandsOf;
    if es == [] {
      assert log + Stores(es) == log;
    } else {
      var n := |es| - 1;
      SlotHoldsLastCommand(log, es[..n], base, selector);
      LastCommandAppend(Commands(es[..n]), CommandsOf(es[n]), base, selector);
      SlotStep(log + Stores(es[..n]), es[n], base, selector);
      assert log + Stores(es) == log + Stores(es[..n]) + StoresOf(es[n]);
    }
  }

  lemma NoSlots(base: nat, selector: nat)
    ensures SlotDest([], base, selector) == None && SlotValue([], base, selector) == None
  {
  }

  lemma CommandStores(e: Effect)
    requires CommandsOf(e) != []
    ensures StoresOf(e) == ConstantStores(CommandsOf(e)[0].input, CommandsOf(e)[0].value)
  {
  }

  lemma LastOfOne(c: Command, base: nat, selector: nat)
    ensures LastCommand([c], base, selector)
         == if c.input.base == base && c.input.selector == selector then Some(c) else None
  {
    assert [c][..0] == [];
  }

  // ----- setting inputs while the system runs

  /** A value from the host, as an integer word and as the pattern of a float. */
  datatype HostValue = HostValue(asInteger: Word, asFloat: Word)

  datatype SetCall = SetCall(core: string, name: string, channel: nat, value: HostValue)

  predicate Matches(m: InputMetadata, call: SetCall) {
    m.name == call.name && m.core == call.core && m.channel == call.channel
  }

  function Converted(m: InputMetadata, value: HostValue): Word {
    if m.isFloat then value.asFloat else value.asInteger
  }

  /** Every known input that matches is written. */
  function SetInputEffects(inputs: seq<InputMetadata>, call: SetCall): seq<Effect> {
    if inputs == [] then []
    else
      var m := inputs[|inputs| - 1];
      SetInputEffects(inputs[..|inputs| - 1], call)
      + (if Matches(m, call) then [UpdateConstant(m, Converted(m, call.value))] else [])
  }

  function RunEffects(inputs: seq<InputMetadata>, calls: seq<SetCall>): seq<Effect> {
    if calls == [] then []
    else RunEffects(inputs, calls[..|calls| - 1]) + SetInputEffects(inputs, calls[|calls| - 1])
  }

  /** The last value a run gives an input. */
  function LastSet(calls: seq<SetCall>, m: InputMetadata): Option<Word> {
    if calls == [] then None
    else if Matches(m, calls[|calls| - 1]) then Some(Converted(m, calls[|calls| - 1].value))
    else LastSet(calls[..|calls| - 1], m)
  }

  /** It is the value of the last call that names it, as a float pattern for a float input and as a word otherwise. */
  lemma {:induction false} LastSetIs(calls: seq<SetCall>, m: InputMetadata, n: nat)
    requires n < |calls| && forall i :: n < i < |calls| ==> !Matches(m, calls[i])
    requires calls[n].core == m.core && calls[n].name == m.name && calls[n].channel == m.channel
    ensures LastSet(calls, m) == Some(if m.isFloat then calls[n].value.asFloat else calls[n].value.asInteger)
  {
    if n < |calls| - 1 { LastSetIs(calls[..|calls| - 1], m, n); }
  }

  /** An input nobody deployed writes nothing. */
  lemma {:induction false} UnknownInputWritesNothing(inputs: seq<InputMetadata>, call: SetCall)
    ensures SetInputEffects(inputs, call) == [] <==> forall m :: m in inputs ==> !Matches(m, call)
  {
    if inputs != [] {
      UnknownInputWritesNothing(inputs[..|inputs| - 1], call);
      assert inputs[|inputs| - 1] in inputs;
    }
  }

  predicate SitsAt(m: InputMetadata, base: nat, selector: nat) {
    m.base == base && m.selector == selector
  }

  /** The known input a call leaves at a slot: the last one in the list that matches and sits there. */
  function LastMatch(inputs: seq<InputMetadata>, call: SetCall, base: nat, selector: nat): Option<InputMetadata> {
    if inputs == [] then None
    else
      var m := inputs[|inputs| - 1];
      if Matches(m, call) && SitsAt(m, base, selector) then Some(m)
      else LastMatch(inputs[..|inputs| - 1], call, base, selector)
  }

  /** What a run of calls leaves at a slot: the last value set for any known input that sits there. */
  function LastSetAt(inputs: seq<InputMetadata>, calls: seq<SetCall>, base: nat, selector: nat): Option<Command> {
    if calls == [] then None
    else
      var call := calls[|calls| - 1];
      match LastMatch(inputs, call, base, selector)
      case None => LastSetAt(inputs, calls[..|calls| - 1], base, selector)
      case Some(m) => Some(Command(m, Converted(m, call.value)))
  }

  lemma {:induction false} LastMatchIn(inputs: seq<InputMetadata>, call: SetCall, base: nat, selector: nat)
    ensures var r := LastMatch(inputs, call, base, selector);
      && (r.None? <==> forall m :: m in inputs && SitsAt(m, base, selector) ==> !Matches(m, call))
      && (r.Some? ==> r.value in inputs && SitsAt(r.value, base, selector) && Matches(r.value, call))
  {
    hide Matches, SitsAt;
    if inputs != [] {
      LastMatchIn(inputs[..|inputs| - 1], call, base, selector);
      assert inputs == inputs[..|inputs| - 1] + [inputs[|inputs| - 1]];
    }
  }

  lemma {:induction false} SetInputLast(inputs: seq<InputMetadata>, call: SetCall, base: nat, selector: nat)
    ensures LastCommand(Commands(SetInputEffects(inputs, call)), base, selector)
         == match LastMatch(inputs, call, base, selector)
            case None => None
            case Some(m) => Some(Command(m, Converted(m, call.value)))
  {
    hide Matches, LastCommand, Converted, Commands;
    if inputs == [] {
      NothingSet(base, selector);
    } else {
      var n := |inputs| - 1;
      var earlier, m := SetInputEffects(inputs[..n], call), inputs[n];
      SetInputLast(inputs[..n], call, base, selector);
      if Matches(m, call) {
        var e := UpdateConstant(m, Converted(m, call.value));
        CommandsAppend(earlier, [e]);
        CommandsOne(e);
        LastCommandAppend(Commands(earlier), CommandsOf(e), base, selector);
        LastOfOne(Command(m, Converted(m, call.value)), base, selector);
      } else {
        assert earlier + [] == earlier;
      }
    }
  }

  lemma NothingSet(base: nat, selector: nat)
    ensures LastCommand(Commands([]), base, selector) == None
  {
  }

  lemma {:induction false} RunLast(inputs: seq<InputMetadata>, calls: seq<SetCall>, base: nat, selector: nat)
    ensures LastCommand(Commands(RunEffects(inputs, calls)), base, selector) == LastSetAt(inputs, calls, base, selector)
  {
    hide SetInputEffects, LastMatch, Converted, Commands, LastCommand;
    if calls == [] {
      NothingSet(base, selector);
    } else {
      var n := |calls| - 1;
      var earlier, own := RunEffects(inputs, calls[..n]), SetInputEffects(inputs, calls[n]);
      RunLast(inputs, calls[..n], base, selector);
      SetInputLast(inputs, calls[n], base, selector);
      CommandsAppend(earlier, own);
      LastCommandAppend(Commands(earlier), Commands(own), base, selector);
    }
  }

  /**
   Constant slots over runs, for any list of known inputs: whatever came before, after any sequence of set_input
   calls a slot holds what the last call for a known input sitting there gave it, and otherwise what it held.
   */
  lemma {:induction false} SlotAfterRun(before: seq<Effect>, inputs: seq<InputMetadata>, calls: seq<SetCall>,
                                        base: nat, selector: nat)
    requires forall m :: m in inputs ==> KeepsOff(UpdateConstant(m, 0), base)
    ensures var log, last := Stores(before + RunEffects(inputs, calls)), LastSetAt(inputs, calls, base, selector);
      && SlotDest(log, base, selector)
         == (if last.Some? then Some(last.value.input.dest) else SlotDest(Stores(before), base, selector))
      && SlotValue(log, base, selector)
         == (if last.Some? then Some(last.value.value) else SlotValue(Stores(before), base, selector))
  {
    hide KeepsOff, Commands, LastCommand, Stores, SlotDest, SlotValue, LastSetAt;
    RunKeepsOff(inputs, calls, base);
    RunLast(inputs, calls, base, selector);
    StoresAppend(before, RunEffects(inputs, calls));
    SlotHoldsLastCommand(Stores(before), RunEffects(inputs, calls), base, selector);
  }

  // ----- whose slot it is

  /** The call sets no slot but this one. */
  ghost predicate SetsOnly(inputs: seq<InputMetadata>, call: SetCall, base: nat, selector: nat) {
    forall b: nat, s: nat :: LastMatch(inputs, call, b, s).Some? ==> b == base && s == selector
  }

  /** A call sets no slot but one exactly when every known input it names sits there. */
  lemma SetsOnlyIff(inputs: seq<InputMetadata>, call: SetCall, base: nat, selector: nat)
    ensures SetsOnly(inputs, call, base, selector)
       <==> forall m :: m in inputs && Matches(m, call) ==> SitsAt(m, base, selector)
  {
    hide LastMatch, Matches;
    if SetsOnly(inputs, call, base, selector) {
      forall m | m in inputs && Matches(m, call) ensures SitsAt(m, base, selector) {
        LastMatchIn(inputs, call, m.base, m.selector);
        assert LastMatch(inputs, call, m.base, m.selector).Some?;
      }
    }
    if forall m :: m in inputs && Matches(m, call) ==> SitsAt(m, base, selector) {
      forall b: nat, s: nat | LastMatch(inputs, call, b, s).Some? ensures b == base && s == selector {
        LastMatchIn(inputs, call, b, s);
      }
    }
  }

  predicate SameNames(m: InputMetadata, n: InputMetadata) {
    m.core == n.core && m.name == n.name && m.channel == n.channel
  }

  /** The last known input that sits at a slot. */
  function LastAt(inputs: seq<InputMetadata>, base: nat, selector: nat): Option<InputMetadata> {
    if inputs == [] then None
    else if SitsAt(inputs[|inputs| - 1], base, selector) then Some(inputs[|inputs| - 1])
    else LastAt(inputs[..|inputs| - 1], base, selector)
  }

  /** m is the last known input at its slot, and all others there have its names. */
  ghost predicate Owns(inputs: seq<InputMetadata>, m: InputMetadata) {
    && LastAt(inputs, m.base, m.selector) == Some(m)
    && forall n :: n in inputs && SitsAt(n, m.base, m.selector) ==> SameNames(n, m)
  }

  /** With one name for all that sits at a slot, the last of them is the one a matching call leaves there. */
  lemma {:induction false} LastOfNames(inputs: seq<InputMetadata>, call: SetCall, m: InputMetadata)
    requires forall n :: n in inputs && SitsAt(n, m.base, m.selector) ==> SameNames(n, m)
    ensures LastMatch(inputs, call, m.base, m.selector)
         == if Matches(m, call) then LastAt(inputs, m.base, m.selector) else None
  {
    if inputs != [] {
      var front, last := inputs[..|inputs| - 1], inputs[|inputs| - 1];
      assert last in inputs;
      assert forall n :: n in front ==> n in inputs;
      LastOfNames(front, call, m);
    }
  }

  function OwnSet(calls: seq<SetCall>, m: InputMetadata): Option<Command> {
    match LastSet(calls, m)
    case None => None
    case Some(value) => Some(Command(m, value))
  }

  lemma {:induction false} OwnedSlot(inputs: seq<InputMetadata>, calls: seq<SetCall>, m: InputMetadata)
    requires Owns(inputs, m)
    ensures LastSetAt(inputs, calls, m.base, m.selector) == OwnSet(calls, m)
  {
    hide Matches, LastMatch, LastAt, Converted;
    if calls != [] {
      OwnedSlot(inputs, calls[..|calls| - 1], m);
      LastOfNames(inputs, calls[|calls| - 1], m);
    }
  }

  lemma OneCall(inputs: seq<InputMetadata>, call: SetCall, m: InputMetadata)
    ensures LastSetAt(inputs, [call], m.base, m.selector)
         == match LastMatch(inputs, call, m.base, m.selector)
            case None => None
            case Some(n) => Some(Command(n, Converted(n, call.value)))
    ensures OwnSet([call], m) == if Matches(m, call) then Some(Command(m, Converted(m, call.value))) else None
  {
    hide Matches, LastMatch, Converted;
    assert [call][..0] == [] && LastSet([], m) == None;
    assert LastSet([call], m) == if Matches(m, call) then Some(Converted(m, call.value)) else None;
  }

  function Naming(m: InputMetadata): SetCall {
    SetCall(m.core, m.name, m.channel, HostValue(0, 0))
  }

  /**
   A known input's slot is decided by the calls that name it, in every run, exactly when it owns the slot: a
   known input of other names that sits there, left by another specification, overwrites it.
   */
  lemma OwnSlotIff(inputs: seq<InputMetadata>, m: InputMetadata)
    requires m in inputs
    ensures (forall calls :: LastSetAt(inputs, calls, m.base, m.selector) == OwnSet(calls, m)) <==> Owns(inputs, m)
  {
    hide LastSetAt, OwnSet, LastMatch, LastAt, Converted;
    if Owns(inputs, m) {
      forall calls ensures LastSetAt(inputs, calls, m.base, m.selector) == OwnSet(calls, m) {
        OwnedSlot(inputs, calls, m);
      }
    } else if n :| n in inputs && SitsAt(n, m.base, m.selector) && !SameNames(n, m) {
      OneCall(inputs, Naming(n), m);
      LastMatchIn(inputs, Naming(n), m.base, m.selector);
      assert LastSetAt(inputs, [Naming(n)], m.base, m.selector) != OwnSet([Naming(n)], m);
    } else {
      OneCall(inputs, Naming(m), m);
      LastOfNames(inputs, Naming(m), m);
      LastMatchIn(inputs, Naming(m), m.base, m.selector);
      assert LastSetAt(inputs, [Naming(m)], m.base, m.selector) != OwnSet([Naming(m)], m);
    }
  }

  /** Constant 0 of a core, known at selector 0 from one specification and at selector 1 from the next. */
  lemma StaleInputWritesToo(m: InputMetadata, n: InputMetadata, value: HostValue)
    requires SameNames(m, n) && m.base == n.base && m.selector == 0 && n.selector == 1
    ensures var calls := [Naming(m).(value := value)];
      && LastSetAt([m, n], calls, m.base, 0) == Some(Command(m, Converted(m, value)))
      && LastSetAt([m, n], calls, m.base, 1) == Some(Command(n, Converted(n, value)))
  {
    hide Converted;
    var call := Naming(m).(value := value);
    assert [m, n][..1] == [m];
    assert LastMatch([m], call, m.base, 0) == Some(m);
    assert LastMatch([m, n], call, m.base, 0) == Some(m);
    assert LastMatch([m, n], call, n.base, 1) == Some(n);
    OneCall([m, n], call, m);
    OneCall([m, n], call, n);
  }

  lemma {:induction false} RunKeepsOff(inputs: seq<InputMetadata>, calls: seq<SetCall>, base: nat)
    requires forall m :: m in inputs ==> KeepsOff(UpdateConstant(m, 0), base)
    ensures AllKeepOff(RunEffects(inputs, calls), base)
  {
    if calls != [] {
      RunKeepsOff(inputs, calls[..|calls| - 1], base);
      SetInputKeepsOff(inputs, calls[|calls| - 1], base);
    }
  }

  lemma {:induction false} SetInputKeepsOff(inputs: seq<InputMetadata>, call: SetCall, base: nat)
    requires forall m :: m in inputs ==> KeepsOff(UpdateConstant(m, 0), base)
    ensures AllKeepOff(SetInputEffects(inputs, call), base)
  {
    if inputs != [] {
      SetInputKeepsOff(inputs[..|inputs| - 1], call, base);
      assert inputs[|inputs| - 1] in inputs;
    }
  }
}

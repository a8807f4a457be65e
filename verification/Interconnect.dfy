/**
 Initial values of connected outputs: an output that feeds a core input starts from that input's value.
 */
module Interconnect {
  import opened Specification
  import opened DmaTable

  /** One word per channel of the destination: a single value is repeated. */
  function Expand(input: Input, channels: nat): seq<Word> {
    if |input.data| == 1 && channels > 1 then seq(channels, _ => input.data[0]) else input.data
  }

  /** Value of the last input of that name. */
  function InputValue(ins: seq<Input>, channels: nat, name: string): Option<seq<Word>> {
    if ins == [] then None
    else if ins[|ins| - 1].name == name then Some(Expand(ins[|ins| - 1], channels))
    else InputValue(ins[..|ins| - 1], channels, name)
  }

  /** Value a connection takes over from its destination: the last program and input it names. */
  function ConnectedValue(ps: seq<Program>, slot: Slot): Option<seq<Word>> {
    if ps == [] then None
    else
      var p := ps[|ps| - 1];
      var here := if p.name == slot.destinationId then InputValue(p.inputs, p.channels, slot.destinationName) else None;
      if here.Some? then here else ConnectedValue(ps[..|ps| - 1], slot)
  }

  function Source(slot: Slot): (string, string) {
    (slot.sourceId, slot.sourceName)
  }

  function AddInitial(ivs: InitialValues, slot: Slot, value: Option<seq<Word>>): InitialValues {
    if value.Some? then ivs[Source(slot) := value.value] else ivs
  }

  /** The table after the connections, on top of what earlier deployments left in it. */
  function AfterConnections(ivs: InitialValues, slots: seq<Slot>, ps: seq<Program>): InitialValues {
    if slots == [] then ivs
    else
      var last := slots[|slots| - 1];
      AddInitial(AfterConnections(ivs, slots[..|slots| - 1], ps), last, ConnectedValue(ps, last))
  }

  /** Value the connections give to an output: that of its last connection with an existing destination. */
  function LastConnected(slots: seq<Slot>, ps: seq<Program>, source: (string, string)): Option<seq<Word>> {
    if slots == [] then None
    else
      var last := slots[|slots| - 1];
      if Source(last) == source && ConnectedValue(ps, last).Some? then ConnectedValue(ps, last)
      else LastConnected(slots[..|slots| - 1], ps, source)
  }

  lemma {:induction false} ConnectionLookup(ivs: InitialValues, slots: seq<Slot>, ps: seq<Program>,
                                            source: (string, string))
    ensures var after, own := AfterConnections(ivs, slots, ps), LastConnected(slots, ps, source);
      if own.Some? then source in after && after[source] == own.value
      else (source in after <==> source in ivs) && (source in ivs ==> after[source] == ivs[source])
  {
    hide ConnectedValue;
    if slots != [] { ConnectionLookup(ivs, slots[..|slots| - 1], ps, source); }
  }

  /** Stale values do not pile up: repeating a deployment's connections changes nothing. */
  lemma ConnectionsIdempotent(ivs: InitialValues, slots: seq<Slot>, ps: seq<Program>)
    ensures AfterConnections(AfterConnections(ivs, slots, ps), slots, ps) == AfterConnections(ivs, slots, ps)
  {
    hide AfterConnections, LastConnected;
    var once := AfterConnections(ivs, slots, ps);
    var twice := AfterConnections(once, slots, ps);
    forall source: (string, string)
      ensures (source in twice <==> source in once) && (source in once ==> twice[source] == once[source])
    {
      ConnectionLookup(ivs, slots, ps, source);
      ConnectionLookup(once, slots, ps, source);
    }
    assert twice.Keys == once.Keys;
  }

  lemma {:induction false} InputValueOf(ins: seq<Input>, channels: nat, j: nat)
    requires j < |ins| && forall i :: j < i < |ins| ==> ins[i].name != ins[j].name
    ensures InputValue(ins, channels, ins[j].name) == Some(Expand(ins[j], channels))
  {
    hide Expand;
    if j < |ins| - 1 { InputValueOf(ins[..|ins| - 1], channels, j); }
  }

  lemma {:induction false} ConnectedValueOf(ps: seq<Program>, slot: Slot, k: nat, j: nat)
    requires k < |ps| && j < |ps[k].inputs|
    requires forall i :: k < i < |ps| ==> ps[i].name != slot.destinationId
    requires forall i :: j < i < |ps[k].inputs| ==> ps[k].inputs[i].name != ps[k].inputs[j].name
    requires ps[k].name == slot.destinationId && ps[k].inputs[j].name == slot.destinationName
    ensures ConnectedValue(ps, slot).Some?
    ensures var data, value := ps[k].inputs[j].data, ConnectedValue(ps, slot).value;
      if |data| == 1 then
        && |value| == (if ps[k].channels > 1 then ps[k].channels else 1)
        && forall i :: 0 <= i < |value| ==> value[i] == data[0]
      else value == data
  {
    hide InputValue;
    if k < |ps| - 1 {
      ConnectedValueOf(ps[..|ps| - 1], slot, k, j);
    } else {
      InputValueOf(ps[k].inputs, ps[k].channels, j);
    }
  }

  /**
   The initial value programmed for an entry: the one its output's last connection to an existing input takes
   over, or, without such a connection, what an earlier deployment left behind.
   */
  lemma InitialIs(ivs: InitialValues, slots: seq<Slot>, ps: seq<Program>, e: Slot)
    requires InitialDefined(e, AfterConnections(ivs, slots, ps))
    ensures var own := LastConnected(slots, ps, Source(e));
      && (own.Some? ==> e.sourceChannel < |own.value|
                        && Initial(e, AfterConnections(ivs, slots, ps)) == Some(own.value[e.sourceChannel]))
      && (own.None? ==> InitialDefined(e, ivs) && Initial(e, AfterConnections(ivs, slots, ps)) == Initial(e, ivs))
  {
    hide AfterConnections, LastConnected;
    ConnectionLookup(ivs, slots, ps, Source(e));
  }

  /** A connection that no later one replaces hands over the value of the input it ends at. */
  lemma {:induction false} LastConnectedOf(slots: seq<Slot>, ps: seq<Program>, i: nat)
    requires i < |slots| && ConnectedValue(ps, slots[i]).Some?
    requires forall j :: i < j < |slots| ==> Source(slots[j]) != Source(slots[i]) || ConnectedValue(ps, slots[j]).None?
    ensures LastConnected(slots, ps, Source(slots[i])) == ConnectedValue(ps, slots[i])
  {
    hide ConnectedValue;
    if i < |slots| - 1 { LastConnectedOf(slots[..|slots| - 1], ps, i); }
  }
}

/**
 The operations that travel over the bus, as they are logged, and the word stores they amount to.
 */
module Operations {

  datatype AccessType = ControlPlaneWrite | RomPlaneWrite | ControlPlaneRead | RomPlaneRead

  datatype BusOp = BusOp(address: seq<nat>, data: seq<nat>, kind: AccessType)

  /** One word put at one byte address. */
  datatype Store = Store(address: nat, value: nat)

  /** A direct write, or a proxied one: the target address goes just above the proxy, then the data to it. */
  function WriteStores(addresses: seq<nat>, data: nat): seq<Store>
    requires |addresses| > 0
  {
    if |addresses| == 1 then [Store(addresses[0], data)]
    else [Store(addresses[1] + 4, addresses[0]), Store(addresses[1], data)]
  }

  /** A program, word by word from its address. */
  function ProgramStores(address: nat, program: seq<nat>): seq<Store> {
    seq(|program|, i requires 0 <= i < |program| => Store(address + 4 * i, program[i]))
  }

  /** Every shape of operation the accessor logs. */
  predicate Loggable(op: BusOp) {
    match op.kind
    case ControlPlaneWrite => |op.address| > 0 && |op.data| == 1
    case RomPlaneWrite => |op.address| == 1
    case _ => true
  }

  ghost predicate AllLoggable(log: seq<BusOp>) {
    forall op :: op in log ==> Loggable(op)
  }

  predicate IsDirect(op: BusOp) {
    op.kind.ControlPlaneWrite? ==> |op.address| == 1
  }

  /** What replaying a logged operation stores in the control plane. */
  function ControlReplay(op: BusOp): seq<Store>
    requires Loggable(op)
  {
    if op.kind.ControlPlaneWrite? then WriteStores(op.address, op.data[0]) else []
  }

  function RomReplay(op: BusOp): seq<Store>
    requires Loggable(op)
  {
    if op.kind.RomPlaneWrite? then ProgramStores(op.address[0], op.data) else []
  }

  function ControlReplayAll(log: seq<BusOp>): seq<Store>
    requires AllLoggable(log)
  {
    if log == [] then [] else ControlReplayAll(log[..|log| - 1]) + ControlReplay(log[|log| - 1])
  }

  function RomReplayAll(log: seq<BusOp>): seq<Store>
    requires AllLoggable(log)
  {
    if log == [] then [] else RomReplayAll(log[..|log| - 1]) + RomReplay(log[|log| - 1])
  }

  lemma LoggablePrefix(a: seq<BusOp>, b: seq<BusOp>)
    ensures AllLoggable(a + b) <==> AllLoggable(a) && AllLoggable(b)
  {
    if AllLoggable(a + b) {
      forall op | op in a ensures Loggable(op) { assert op in a + b; }
      forall op | op in b ensures Loggable(op) { assert op in a + b; }
    }
  }

  lemma {:induction false} ReplayAppend(a: seq<BusOp>, b: seq<BusOp>)
    requires AllLoggable(a + b) && AllLoggable(a) && AllLoggable(b)
    ensures ControlReplayAll(a + b) == ControlReplayAll(a) + ControlReplayAll(b)
    ensures RomReplayAll(a + b) == RomReplayAll(a) + RomReplayAll(b)
  {
    hide ControlReplay, RomReplay, Loggable;
    if b == [] {
      assert a + b == a;
    } else {
      var n := |b| - 1;
      assert (a + b)[..|a + b| - 1] == a + b[..n];
      ReplayAppend(a, b[..n]);
    }
  }
}

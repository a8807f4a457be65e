/**
 The output DMA of a core: one 12/4-bit packed mapping word and one format word per interconnect entry, a
 fill port for initial values, and the number of entries. Decoding the registers gives the entries back.
 */
module DmaTable {
  import opened Arithmetic
  import opened Bits
  import opened ChannelFormat
  import opened Operations
  import opened Specification
  import opened RegisterLog
  import opened Effects
  import SimulationText

  /** Initial values by source core and output. */
  type InitialValues = map<(string, string), seq<Word>>

  /** Table capacity of the DMA. */
  const DMA_CHANNELS: nat := 16

  const FILL_DATA: nat := 4
  const FILL_CHANNEL: nat := 8
  const MAPPINGS: nat := 12

  const FORMATS: nat := 4 * (DMA_CHANNELS + 3)

  /** Bytes of register space. */
  const DMA_SIZE: nat := FORMATS + 4 * DMA_CHANNELS

  /** Bytes that a table of n entries writes. */
  function TableSpan(n: nat): nat {
    FORMATS + 4 * n
  }

  // ----- one entry

  predicate InRange(e: Slot) {
    e.sourceIo <= 0xfff && e.destinationBus <= 0xfff && e.sourceChannel <= 0xF && e.destinationChannel <= 0xF
  }

  function Portion(address: nat, channel: nat): nat {
    Or(And(address, 0xFFF), Shl(And(channel, 0xF), 12))
  }

  function Mapping(e: Slot): Word {
    Wrap32(Or(Shl(Portion(e.destinationBus, e.destinationChannel), 16), Portion(e.sourceIo, e.sourceChannel)))
  }

  function Format(e: Slot): Word {
    Wrap32(if e.isFloat then MetadataValue(32, true, true) else MetadataValue(e.width % 256, e.isSigned, false))
  }

  /** Bus address and channel as the scope multiplexer and the label table name them. */
  function BusKey(e: Slot): nat {
    Or(And(e.destinationBus, 0xFFF), Shl(And(e.destinationChannel, 0xF), 16))
  }

  function SignalName(e: Slot, channels: nat): string {
    if channels == 1 then e.sourceId + "." + e.sourceName
    else e.sourceId + "." + e.sourceName + "[" + SimulationText.ToDecimal(e.sourceChannel) + "]"
  }

  predicate HasInitial(e: Slot, ivs: InitialValues) {
    (e.sourceId, e.sourceName) in ivs
  }

  /** The initial value vectors are indexed by source channel without a check. */
  predicate InitialDefined(e: Slot, ivs: InitialValues) {
    HasInitial(e, ivs) ==> e.sourceChannel < |ivs[(e.sourceId, e.sourceName)]|
  }

  function Initial(e: Slot, ivs: InitialValues): Option<Word>
    requires InitialDefined(e, ivs)
  {
    if HasInitial(e, ivs) then Some(ivs[(e.sourceId, e.sourceName)][e.sourceChannel]) else None
  }

  /** The writes and the label of entry number io. */
  function EntryEffects(e: Slot, dma: nat, io: nat, channels: nat, ivs: InitialValues): seq<Effect>
    requires InitialDefined(e, ivs)
  {
    [Write(dma + MAPPINGS + 4 * io, Mapping(e)), LabelBus(BusKey(e), SignalName(e, channels))]
    + (if HasInitial(e, ivs) then
         [Write(dma + FILL_CHANNEL, Wrap32(io)), Write(dma + FILL_DATA, Initial(e, ivs).value)]
       else [])
    + [Write(dma + FORMATS + 4 * io, Format(e))]
  }

  function EntryStores(e: Slot, dma: nat, io: nat, ivs: InitialValues): seq<Store>
    requires InitialDefined(e, ivs)
  {
    [Store(dma + MAPPINGS + 4 * io, Mapping(e))]
    + (if HasInitial(e, ivs) then
         [Store(dma + FILL_CHANNEL, Wrap32(io)), Store(dma + FILL_DATA, Initial(e, ivs).value)]
       else [])
    + [Store(dma + FORMATS + 4 * io, Format(e))]
  }

  lemma StoresPair(e: Effect, f: Effect)
    ensures Stores([e, f]) == StoresOf(e) + StoresOf(f)
  {
    assert [e, f][..1] == [e];
    StoresOne(e);
  }

  lemma EntryStoresAre(e: Slot, dma: nat, io: nat, channels: nat, ivs: InitialValues)
    requires InitialDefined(e, ivs)
    ensures Stores(EntryEffects(e, dma, io, channels, ivs)) == EntryStores(e, dma, io, ivs)
  {
    hide Mapping, Format, BusKey, SignalName, Wrap32, Stores;
    var m, l, f := Write(dma + MAPPINGS + 4 * io, Mapping(e)), LabelBus(BusKey(e), SignalName(e, channels)),
                   Write(dma + FORMATS + 4 * io, Format(e));
    StoresPair(m, l);
    StoresOne(f);
    if HasInitial(e, ivs) {
      var c, d := Write(dma + FILL_CHANNEL, Wrap32(io)), Write(dma + FILL_DATA, Initial(e, ivs).value);
      StoresPair(c, d);
      StoresAppend([m, l], [c, d]);
      StoresAppend([m, l] + [c, d], [f]);
    } else {
      StoresAppend([m, l], [f]);
      assert [m, l] + [] == [m, l];
    }
  }

  // ----- the packed fields

  datatype MappingFields = MappingFields(sourceIo: nat, sourceChannel: nat, destinationBus: nat,
                                         destinationChannel: nat)

  function Unpack(word: nat): MappingFields {
    MappingFields(word % 0x1000, (word / 0x1000) % 0x10, (word / 0x1_0000) % 0x1000, (word / 0x1000_0000) % 0x10)
  }

  lemma PortionFields(address: nat, channel: nat)
    requires address <= 0xfff && channel <= 0xF
    ensures Portion(address, channel) == address + 0x1000 * channel
  {
    hide And, Or, Shl, Low, Shr;
    Pow2Values();
    AndMask(address, 12);
    AndMask(channel, 4);
    LowIsMod(address, 12, 0x1000);
    LowIsMod(channel, 4, 0x10);
    OrDisjoint(channel, address, 12);
    ShlIsProduct(channel, 12);
  }

  /** Packing loses nothing: the four fields of an in-range entry come back from its mapping word. */
  lemma UnpackMapping(e: Slot)
    requires InRange(e)
    ensures Unpack(Mapping(e)) == MappingFields(e.sourceIo, e.sourceChannel, e.destinationBus, e.destinationChannel)
  {
    hide Unpack, Portion;
    PortionFields(e.sourceIo, e.sourceChannel);
    PortionFields(e.destinationBus, e.destinationChannel);
    PackPortions(e.sourceIo + 0x1000 * e.sourceChannel, e.destinationBus + 0x1000 * e.destinationChannel);
    UnpackFields(e.sourceIo, e.sourceChannel, e.destinationBus, e.destinationChannel);
  }

  /** No wider field does. */
  lemma FieldsSurviveIff(e: Slot)
    ensures Unpack(Mapping(e)) == MappingFields(e.sourceIo, e.sourceChannel, e.destinationBus, e.destinationChannel)
       <==> InRange(e)
  {
    if InRange(e) {
      UnpackMapping(e);
    } else {
      FieldsBounded(Mapping(e));
    }
  }

  lemma FieldsBounded(word: nat)
    ensures var f := Unpack(word);
      f.sourceIo <= 0xfff && f.sourceChannel <= 0xF && f.destinationBus <= 0xfff && f.destinationChannel <= 0xF
  {
  }

  lemma PackPortions(source: nat, destination: nat)
    requires source < 0x1_0000 && destination < 0x1_0000
    ensures Wrap32(Or(Shl(destination, 16), source)) == 0x1_0000 * destination + source
  {
    hide Or, Shl;
    Pow2Values();
    OrDisjoint(destination, source, 16);
    ShlIsProduct(destination, 16);
  }

  lemma UnpackFields(a: nat, b: nat, c: nat, d: nat)
    requires a < 0x1000 && b < 0x10 && c < 0x1000 && d < 0x10
    ensures Unpack(0x1_0000 * (c + 0x1000 * d) + (a + 0x1000 * b)) == MappingFields(a, b, c, d)
  {
    var w := 0x1_0000 * (c + 0x1000 * d) + (a + 0x1000 * b);
    DivUnique(w, 0x1000, b + 0x10 * (c + 0x1000 * d), a);
    DivUnique(b + 0x10 * (c + 0x1000 * d), 0x10, c + 0x1000 * d, b);
    DivUnique(w, 0x1_0000, c + 0x1000 * d, a + 0x1000 * b);
    DivUnique(c + 0x1000 * d, 0x1000, d, c);
    DivUnique(w, 0x1000_0000, d, 0x1_0000 * c + a + 0x1000 * b);
    DivUnique(d, 0x10, 0, d);
  }

  lemma BusKeyFields(e: Slot)
    requires InRange(e)
    ensures BusKey(e) == e.destinationBus + 0x1_0000 * e.destinationChannel
  {
    hide And, Or, Shl, Low, Shr;
    Pow2Values();
    Pow2Monotone(12, 16);
    AndMask(e.destinationBus, 12);
    AndMask(e.destinationChannel, 4);
    LowIsMod(e.destinationBus, 12, 0x1000);
    LowIsMod(e.destinationChannel, 4, 0x10);
    OrDisjoint(e.destinationChannel, e.destinationBus, 16);
    ShlIsProduct(e.destinationChannel, 16);
  }

  // ----- the table of one core

  /** A phase of the deployment: what it emitted, and whether it got to its end without an exception. */
  datatype Phase = Phase(effects: seq<Effect>, ok: bool)

  /** The entries of a core, in map order. */
  function Entries(slots: seq<Slot>, core: string): seq<Slot> {
    if slots == [] then []
    else
      var last := slots[|slots| - 1];
      Entries(slots[..|slots| - 1], core) + (if last.sourceId == core then [last] else [])
  }

  ghost predicate InitialsDefined(es: seq<Slot>, ivs: InitialValues) {
    forall e :: e in es && InRange(e) ==> InitialDefined(e, ivs)
  }

  /** Entries one by one, up to the first out-of-range one, which raises an exception. */
  function TableRun(es: seq<Slot>, dma: nat, channels: nat, ivs: InitialValues): Phase
    requires InitialsDefined(es, ivs)
  {
    if es == [] then Phase([], true)
    else
      var n := |es| - 1;
      var before := TableRun(es[..n], dma, channels, ivs);
      if before.ok && InRange(es[n]) then Phase(before.effects + EntryEffects(es[n], dma, n, channels, ivs), true)
      else Phase(before.effects, false)
  }

  lemma TableRunSnoc(es: seq<Slot>, e: Slot, dma: nat, channels: nat, ivs: InitialValues)
    requires InitialsDefined(es + [e], ivs)
    ensures InitialsDefined(es, ivs) && (InRange(e) ==> InitialDefined(e, ivs))
    ensures var before := TableRun(es, dma, channels, ivs);
      TableRun(es + [e], dma, channels, ivs)
      == if before.ok && InRange(e) then Phase(before.effects + EntryEffects(e, dma, |es|, channels, ivs), true)
         else Phase(before.effects, false)
  {
    hide InRange, InitialDefined, EntryEffects;
    assert forall x :: x in es ==> x in es + [e];
    assert e in es + [e];
    assert (es + [e])[..|es|] == es;
  }

  /** A core's whole table, closed by the number of its entries. */
  function CoreRun(es: seq<Slot>, dma: nat, channels: nat, ivs: InitialValues): Phase
    requires InitialsDefined(es, ivs)
  {
    var table := TableRun(es, dma, channels, ivs);
    if table.ok then Phase(table.effects + [Write(dma, Wrap32(|es|))], true) else table
  }

  ghost predicate AllInRange(es: seq<Slot>) {
    forall e :: e in es ==> InRange(e)
  }

  function TableStores(es: seq<Slot>, dma: nat, ivs: InitialValues): seq<Store>
    requires AllInRange(es) && InitialsDefined(es, ivs)
  {
    if es == [] then []
    else TableStores(es[..|es| - 1], dma, ivs) + EntryStores(es[|es| - 1], dma, |es| - 1, ivs)
  }

  function TableLog(es: seq<Slot>, dma: nat, ivs: InitialValues): seq<Store>
    requires AllInRange(es) && InitialsDefined(es, ivs)
  {
    TableStores(es, dma, ivs) + [Store(dma, Wrap32(|es|))]
  }

  /** An entry out of range is always rejected, and nothing else is. */
  lemma {:induction false} RejectsExactlyOutOfRange(es: seq<Slot>, dma: nat, channels: nat, ivs: InitialValues)
    requires InitialsDefined(es, ivs)
    ensures CoreRun(es, dma, channels, ivs).ok <==> AllInRange(es)
  {
    hide InRange, EntryEffects;
    if es != [] {
      RejectsExactlyOutOfRange(es[..|es| - 1], dma, channels, ivs);
    }
  }

  lemma {:induction false} TableRunStores(es: seq<Slot>, dma: nat, channels: nat, ivs: InitialValues)
    requires InitialsDefined(es, ivs) && AllInRange(es)
    ensures TableRun(es, dma, channels, ivs).ok
    ensures Stores(TableRun(es, dma, channels, ivs).effects) == TableStores(es, dma, ivs)
  {
    hide EntryEffects, EntryStores, InRange;
    if es != [] {
      var n := |es| - 1;
      TableRunStores(es[..n], dma, channels, ivs);
      StoresAppend(TableRun(es[..n], dma, channels, ivs).effects, EntryEffects(es[n], dma, n, channels, ivs));
      EntryStoresAre(es[n], dma, n, channels, ivs);
    }
  }

  lemma CoreRunStores(es: seq<Slot>, dma: nat, channels: nat, ivs: InitialValues)
    requires InitialsDefined(es, ivs) && AllInRange(es)
    ensures CoreRun(es, dma, channels, ivs).ok
    ensures Stores(CoreRun(es, dma, channels, ivs).effects) == TableLog(es, dma, ivs)
  {
    hide TableRun;
    TableRunStores(es, dma, channels, ivs);
    StoresAppend(TableRun(es, dma, channels, ivs).effects, [Write(dma, Wrap32(|es|))]);
    StoresOne(Write(dma, Wrap32(|es|)));
  }

  // ----- the format words

  /** The scope reads an entry's width and sign from its format word: exactly, for an integer of width 8 to 23. */
  predicate FormatRead(e: Slot, format: nat) {
    if e.isFloat then format < 0x1_0000 && IsFloat(format) && IsSigned(format) && SizeOf(format) == 16
    else
      (format < 0x1_0000 && SizeOf(format) == e.width && IsSigned(format) == e.isSigned && !IsFloat(format))
      <==> 8 <= e.width <= 23
  }

  lemma FormatReads(e: Slot)
    ensures FormatRead(e, Format(e))
  {
    hide SizeOf, IsSigned, IsFloat, MetadataValue;
    if e.isFloat {
      FloatWidthReadsSixteen();
    } else if 8 <= e.width <= 23 {
      MetadataArithmetic(e.width, e.isSigned, false);
      ReadFields(MetadataValue(e.width, e.isSigned, false), e.width - 8, if e.isSigned then 1 else 0, 0, 0);
    } else {
      SizeIsLowNibble(Format(e));
    }
  }

  // ----- names

  /** The channels of an output of a multichannel core have names of their own. */
  lemma SignalNamesDiffer(e: Slot, f: Slot, channels: nat)
    requires channels != 1 && e.sourceId == f.sourceId && e.sourceName == f.sourceName
    ensures SignalName(e, channels) == SignalName(f, channels) <==> e.sourceChannel == f.sourceChannel
  {
    SimulationText.DecimalsDiffer(e.sourceId + "." + e.sourceName + "[", e.sourceChannel, f.sourceChannel, "]");
  }

  // ----- what the registers mean

  datatype DmaEntry = DmaEntry(fields: MappingFields, format: nat, initial: Option<nat>)

  function Register(log: seq<Store>, a: nat): nat {
    match ReadBack(log, a)
    case None => 0
    case Some(value) => value
  }

  /** The hardware's view of the table after a log of writes. */
  function DecodeDma(log: seq<Store>, dma: nat): seq<DmaEntry> {
    seq(Register(log, dma), i requires i >= 0 =>
      DmaEntry(Unpack(Register(log, dma + MAPPINGS + 4 * i)), Register(log, dma + FORMATS + 4 * i),
               PortSlot(log, dma + FILL_CHANNEL, {dma + FILL_DATA}, i, dma + FILL_DATA)))
  }

  /** What an entry is meant to program. */
  function Meaning(e: Slot, ivs: InitialValues): DmaEntry
    requires InitialDefined(e, ivs)
  {
    DmaEntry(MappingFields(e.sourceIo, e.sourceChannel, e.destinationBus, e.destinationChannel), Format(e),
             Initial(e, ivs))
  }

  function Meanings(es: seq<Slot>, ivs: InitialValues): seq<DmaEntry>
    requires AllInRange(es) && InitialsDefined(es, ivs)
  {
    seq(|es|, i requires 0 <= i < |es| => Meaning(es[i], ivs))
  }

  /** What a table of any length decodes to: past the sixteenth entry the mapping words land on format words. */
  function Decoded(es: seq<Slot>, ivs: InitialValues): seq<DmaEntry>
    requires AllInRange(es) && InitialsDefined(es, ivs)
  {
    seq(|es|, i requires 0 <= i < |es| =>
      Meaning(es[i], ivs).(format := if i + DMA_CHANNELS < |es| then Mapping(es[i + DMA_CHANNELS]) else Format(es[i])))
  }

  /** Word k of the table area, counted from the first mapping word. */
  function TableWord(es: seq<Slot>, k: nat): Option<nat> {
    if k < |es| then Some(Mapping(es[k]))
    else if DMA_CHANNELS <= k < |es| + DMA_CHANNELS then Some(Format(es[k - DMA_CHANNELS]))
    else None
  }

  lemma EntryReads(e: Slot, dma: nat, io: nat, ivs: InitialValues, k: nat)
    requires InitialDefined(e, ivs)
    ensures ReadBack(EntryStores(e, dma, io, ivs), dma + MAPPINGS + 4 * k)
         == if k == io + DMA_CHANNELS then Some(Format(e)) else if k == io then Some(Mapping(e)) else None
  {
    hide Mapping, Format, Wrap32;
    var a := dma + MAPPINGS + 4 * k;
    var m := Store(dma + MAPPINGS + 4 * io, Mapping(e));
    var f := Store(dma + FORMATS + 4 * io, Format(e));
    if HasInitial(e, ivs) {
      var c, d := Store(dma + FILL_CHANNEL, Wrap32(io)), Store(dma + FILL_DATA, Initial(e, ivs).value);
      assert EntryStores(e, dma, io, ivs) == [m, c, d, f];
      ReadBackFour(m, c, d, f, a);
      ReadBackTwo(m, f, a);
    } else {
      assert EntryStores(e, dma, io, ivs) == [m, f];
      ReadBackTwo(m, f, a);
    }
  }

  lemma ReadBackTwo(s: Store, t: Store, a: nat)
    ensures ReadBack([s, t], a)
         == if t.address == a then Some(t.value) else if s.address == a then Some(s.value) else None
  {
    assert [s, t] == [s] + [t] && [s] == [] + [s];
    ReadBackStep([s], t, a);
    ReadBackStep([], s, a);
  }

  lemma ReadBackFour(s: Store, t: Store, u: Store, v: Store, a: nat)
    requires t.address != a && u.address != a
    ensures ReadBack([s, t, u, v], a) == ReadBack([s, v], a)
  {
    assert [s, t, u, v] == [s, t] + [u, v];
    ReadBackAppend([s, t], [u, v], a);
    ReadBackTwo(s, t, a);
    ReadBackTwo(u, v, a);
    ReadBackTwo(s, v, a);
  }

  /** Which entry each word of the table area holds at the end: a mapping word wins over a format word. */
  lemma {:induction false} TableReads(es: seq<Slot>, dma: nat, ivs: InitialValues, k: nat)
    requires AllInRange(es) && InitialsDefined(es, ivs)
    ensures ReadBack(TableStores(es, dma, ivs), dma + MAPPINGS + 4 * k) == TableWord(es, k)
  {
    hide EntryStores, InRange, Mapping, Format, InitialDefined;
    if es != [] {
      var n := |es| - 1;
      var a := dma + MAPPINGS + 4 * k;
      TableReads(es[..n], dma, ivs, k);
      EntryReads(es[n], dma, n, ivs, k);
      ReadBackAppend(TableStores(es[..n], dma, ivs), EntryStores(es[n], dma, n, ivs), a);
    }
  }

  /** Each connected output's initial value ends up in its own fill slot, and no other slot is filled. */
  lemma {:induction false} TableFills(es: seq<Slot>, dma: nat, ivs: InitialValues, i: nat)
    requires AllInRange(es) && InitialsDefined(es, ivs) && |es| < 0x1_0000_0000
    ensures PortSlot(TableStores(es, dma, ivs), dma + FILL_CHANNEL, {dma + FILL_DATA}, i, dma + FILL_DATA)
         == if i < |es| then Initial(es[i], ivs) else None
  {
    hide EntryStores, InRange;
    if es != [] {
      var n := |es| - 1;
      TableFills(es[..n], dma, ivs, i);
      EntryFills(TableStores(es[..n], dma, ivs), es[n], dma, n, ivs, i);
    }
  }

  lemma EntryFills(log: seq<Store>, e: Slot, dma: nat, io: nat, ivs: InitialValues, i: nat)
    requires InitialDefined(e, ivs) && io < 0x1_0000_0000
    ensures PortSlot(log + EntryStores(e, dma, io, ivs), dma + FILL_CHANNEL, {dma + FILL_DATA}, i, dma + FILL_DATA)
         == if i == io && HasInitial(e, ivs) then Initial(e, ivs)
            else PortSlot(log, dma + FILL_CHANNEL, {dma + FILL_DATA}, i, dma + FILL_DATA)
  {
    hide EntryStores, RunPort;
    EntryFillSlots(log, e, dma, io, ivs);
  }

  lemma EntryFillSlots(log: seq<Store>, e: Slot, dma: nat, io: nat, ivs: InitialValues)
    requires InitialDefined(e, ivs) && io < 0x1_0000_0000
    ensures var before := RunPort(log, dma + FILL_CHANNEL, {dma + FILL_DATA}).slots;
      RunPort(log + EntryStores(e, dma, io, ivs), dma + FILL_CHANNEL, {dma + FILL_DATA}).slots
      == if HasInitial(e, ivs) then before[(io, dma + FILL_DATA) := Initial(e, ivs).value] else before
  {
    hide Mapping, Format, StepPort, RunPort, Wrap32;
    var selector, fields := dma + FILL_CHANNEL, {dma + FILL_DATA};
    var m := Store(dma + MAPPINGS + 4 * io, Mapping(e));
    var f := Store(dma + FORMATS + 4 * io, Format(e));
    var before := RunPort(log, selector, fields);
    PortStep(log, m, selector, fields);
    TableStoreIgnored(before, m, dma);
    if HasInitial(e, ivs) {
      var c, d := Store(dma + FILL_CHANNEL, Wrap32(io)), Store(dma + FILL_DATA, Initial(e, ivs).value);
      PortStep(log + [m], c, selector, fields);
      PortStep(log + [m] + [c], d, selector, fields);
      PortStep(log + [m] + [c] + [d], f, selector, fields);
      assert log + EntryStores(e, dma, io, ivs) == log + [m] + [c] + [d] + [f];
      var filled := FillPair(before, io, d.value, dma);
      TableStoreIgnored(filled, f, dma);
    } else {
      PortStep(log + [m], f, selector, fields);
      TableStoreIgnored(before, f, dma);
      assert log + EntryStores(e, dma, io, ivs) == log + [m] + [f];
    }
  }

  lemma TableStoreIgnored(p: Port, s: Store, dma: nat)
    requires s.address >= dma + MAPPINGS
    ensures StepPort(p, s, dma + FILL_CHANNEL, {dma + FILL_DATA}) == p
  {
  }

  lemma FillPair(p: Port, io: nat, value: nat, dma: nat) returns (q: Port)
    requires io < 0x1_0000_0000
    ensures q == StepPort(StepPort(p, Store(dma + FILL_CHANNEL, Wrap32(io)), dma + FILL_CHANNEL, {dma + FILL_DATA}),
                          Store(dma + FILL_DATA, value), dma + FILL_CHANNEL, {dma + FILL_DATA})
    ensures q.slots == p.slots[(io, dma + FILL_DATA) := value]
  {
    q := Port(io, p.slots[(io, dma + FILL_DATA) := value]);
  }

  /** The mapping words past the sixteenth, which land on the format words of earlier entries, say the same. */
  ghost predicate SpillIsHarmless(es: seq<Slot>) {
    forall j :: 0 <= j < |es| - DMA_CHANNELS ==> Mapping(es[j + DMA_CHANNELS]) == Format(es[j])
  }

  lemma DecodesAs(es: seq<Slot>, dma: nat, ivs: InitialValues)
    requires AllInRange(es) && InitialsDefined(es, ivs) && |es| < 0x1_0000_0000
    ensures DecodeDma(TableLog(es, dma, ivs), dma) == Decoded(es, ivs)
  {
    hide Mapping, Format, Unpack, InRange, Initial, DecodeDma, TableLog;
    DecodedCount(es, dma, ivs);
    forall i | 0 <= i < |es| ensures DecodeDma(TableLog(es, dma, ivs), dma)[i] == Decoded(es, ivs)[i] {
      DecodedEntry(es, dma, ivs, i);
    }
  }

  /**
   What the hardware and the scope make of a decoded table: every entry with its fields and initial value, and, as
   far as no later mapping word covers it, with a format that says its width and sign.
   */
  ghost predicate TableRead(decoded: seq<DmaEntry>, es: seq<Slot>, ivs: InitialValues)
    requires InitialsDefined(es, ivs) && AllInRange(es)
  {
    && |decoded| == |es|
    && forall i :: 0 <= i < |es| ==>
         && decoded[i].fields
            == MappingFields(es[i].sourceIo, es[i].sourceChannel, es[i].destinationBus, es[i].destinationChannel)
         && decoded[i].initial == Initial(es[i], ivs)
         && (|es| <= i + DMA_CHANNELS ==> FormatRead(es[i], decoded[i].format))
  }

  lemma DecodedReads(es: seq<Slot>, ivs: InitialValues)
    requires AllInRange(es) && InitialsDefined(es, ivs)
    ensures TableRead(Decoded(es, ivs), es, ivs)
  {
    hide Mapping, Format, InRange, Initial, FormatRead;
    forall i | 0 <= i < |es| ensures FormatRead(es[i], Format(es[i])) { FormatReads(es[i]); }
  }

  lemma DecodedIffNoSpill(es: seq<Slot>, ivs: InitialValues)
    requires AllInRange(es) && InitialsDefined(es, ivs)
    ensures Decoded(es, ivs) == Meanings(es, ivs) <==> SpillIsHarmless(es)
  {
    hide Mapping, Format, InRange, Initial;
    var decoded, meant := Decoded(es, ivs), Meanings(es, ivs);
    if SpillIsHarmless(es) {
      assert forall i :: 0 <= i < |es| ==> decoded[i] == meant[i];
    } else {
      var j :| 0 <= j < |es| - DMA_CHANNELS && Mapping(es[j + DMA_CHANNELS]) != Format(es[j]);
      assert decoded[j].format != meant[j].format;
    }
  }

  /**
   DMA table meaning preservation, exactly. Decoding the registers a core's table leaves gives that core's
   entries in map order, each with its fields, format and initial value, if and only if no mapping word
   past the sixteenth spoils a format word. Up to sixteen entries the condition is vacuous.
   */
  lemma DecodesIffNoSpill(es: seq<Slot>, dma: nat, ivs: InitialValues)
    requires AllInRange(es) && InitialsDefined(es, ivs) && |es| < 0x1_0000_0000
    ensures DecodeDma(TableLog(es, dma, ivs), dma) == Meanings(es, ivs) <==> SpillIsHarmless(es)
  {
    hide Decoded, Meanings, DecodeDma, TableLog, SpillIsHarmless, InRange;
    DecodesAs(es, dma, ivs);
    DecodedIffNoSpill(es, ivs);
  }

  lemma DecodedCount(es: seq<Slot>, dma: nat, ivs: InitialValues)
    requires AllInRange(es) && InitialsDefined(es, ivs) && |es| < 0x1_0000_0000
    ensures |DecodeDma(TableLog(es, dma, ivs), dma)| == |es|
  {
    hide TableStores, ReadBack, Unpack, PortSlot;
    ReadBackStep(TableStores(es, dma, ivs), Store(dma, Wrap32(|es|)), dma);
  }

  /** Every decoded entry, with the one field that may differ from what was meant. */
  lemma DecodedEntry(es: seq<Slot>, dma: nat, ivs: InitialValues, i: nat)
    requires AllInRange(es) && InitialsDefined(es, ivs) && i < |es| < 0x1_0000_0000
    ensures |DecodeDma(TableLog(es, dma, ivs), dma)| == |es|
    ensures DecodeDma(TableLog(es, dma, ivs), dma)[i].fields == Meaning(es[i], ivs).fields
    ensures DecodeDma(TableLog(es, dma, ivs), dma)[i].initial == Meaning(es[i], ivs).initial
    ensures DecodeDma(TableLog(es, dma, ivs), dma)[i].format
         == if i + DMA_CHANNELS < |es| then Mapping(es[i + DMA_CHANNELS]) else Format(es[i])
  {
    hide Mapping, Format, Unpack, TableStores, TableWord, PortSlot, ReadBack;
    var log, table := TableLog(es, dma, ivs), TableStores(es, dma, ivs);
    var count := Store(dma, Wrap32(|es|));
    DecodedCount(es, dma, ivs);
    ReadBackStep(table, count, dma + MAPPINGS + 4 * i);
    ReadBackStep(table, count, dma + FORMATS + 4 * i);
    TableReads(es, dma, ivs, i);
    TableReads(es, dma, ivs, i + DMA_CHANNELS);
    TableWords(es, i);
    UnpackMapping(es[i]);
    TableFills(es, dma, ivs, i);
    OtherPort(table, count, dma, i);
  }

  lemma TableWords(es: seq<Slot>, i: nat)
    requires i < |es|
    ensures TableWord(es, i) == Some(Mapping(es[i]))
    ensures TableWord(es, i + DMA_CHANNELS)
         == Some(if i + DMA_CHANNELS < |es| then Mapping(es[i + DMA_CHANNELS]) else Format(es[i]))
  {
  }

  lemma OtherPort(log: seq<Store>, s: Store, dma: nat, i: nat)
    requires s.address == dma
    ensures PortSlot(log + [s], dma + FILL_CHANNEL, {dma + FILL_DATA}, i, dma + FILL_DATA)
         == PortSlot(log, dma + FILL_CHANNEL, {dma + FILL_DATA}, i, dma + FILL_DATA)
  {
    PortStep(log, s, dma + FILL_CHANNEL, {dma + FILL_DATA});
  }
}

/**
 A DMA table under a core's memory: memories are written after the tables, so the table a core ends with is its own
 except for the words its memory initialises, and it decodes as it should exactly when those say the same.
 */
module TableOverlay {
  import opened Specification
  import opened Operations
  import opened RegisterLog
  import opened DmaTable
  import opened CoreMemory
  import opened Deployment
  import opened Regions
  import opened FinalLog

  /** Word w of a core's table, from its first register on; the two words of the fill port hold commands. */
  function TableRegister(es: seq<Slot>, w: nat): Option<nat> {
    if w == 0 then Some(Wrap32(|es|)) else if w < 3 then None else TableWord(es, w - 3)
  }

  /** The words a table of n entries is decoded from. */
  predicate IsDecoded(n: nat, w: nat) {
    w == 0 || 3 <= w < 3 + n || 3 + DMA_CHANNELS <= w < 3 + DMA_CHANNELS + n
  }

  /** Where the memory initialises a word of the table, it says the same. */
  ghost predicate MemoryAgrees(es: seq<Slot>, inits: seq<MemoryInit>, channels: nat, table: nat)
    requires AllDefined(inits, channels)
  {
    forall w: nat :: IsDecoded(|es|, w) && MemoryWord(inits, channels, table + w).Some? ==>
      MemoryWord(inits, channels, table + w) == TableRegister(es, w)
  }

  lemma TableRegisterReads(es: seq<Slot>, dma: nat, ivs: InitialValues, w: nat)
    requires AllInRange(es) && InitialsDefined(es, ivs) && IsDecoded(|es|, w)
    ensures ReadBack(TableLog(es, dma, ivs), dma + 4 * w) == TableRegister(es, w)
    ensures TableRegister(es, w).Some?
  {
    hide TableStores, InRange, InitialDefined, ReadBack, Mapping, Format;
    ReadBackStep(TableStores(es, dma, ivs), Store(dma, Wrap32(|es|)), dma + 4 * w);
    if w > 0 { TableReads(es, dma, ivs, w - 3); }
  }

  /** What the core's table ends with. */
  function Overlay(es: seq<Slot>, inits: seq<MemoryInit>, channels: nat, table: nat, w: nat): nat
    requires AllDefined(inits, channels)
  {
    if MemoryWord(inits, channels, table + w).Some? then MemoryWord(inits, channels, table + w).value
    else if TableRegister(es, w).Some? then TableRegister(es, w).value
    else 0
  }

  lemma {:induction false} MemoryWordFits(inits: seq<MemoryInit>, channels: nat, word: nat)
    requires AllDefined(inits, channels) && MemoryWord(inits, channels, word).Some?
    ensures MemoryWord(inits, channels, word).value < 0x1_0000_0000
  {
    hide Initialises;
    var last := inits[|inits| - 1];
    if !Initialises(last, channels, word) { MemoryWordFits(inits[..|inits| - 1], channels, word); }
  }

  lemma UnpackInjective(x: nat, y: nat)
    requires x < 0x1_0000_0000 && y < 0x1_0000_0000
    ensures Unpack(x) == Unpack(y) <==> x == y
  {
    WholeOfParts(x);
    WholeOfParts(y);
  }

  lemma WholeOfParts(x: nat)
    requires x < 0x1_0000_0000
    ensures var u := Unpack(x);
      x == u.sourceIo + 0x1000 * u.sourceChannel + 0x1_0000 * u.destinationBus + 0x1000_0000 * u.destinationChannel
  {
    assert x / 0x1_0000 == (x / 0x1000) / 0x10 && x / 0x1000_0000 == (x / 0x1_0000) / 0x1000;
  }

  /** Words off the data register of a port leave its slots alone, whatever they select. */
  lemma {:induction false} SlotsStay(log: seq<Store>, t: seq<Store>, selector: nat, fields: set<nat>)
    requires forall i :: 0 <= i < |t| ==> t[i].address !in fields
    ensures RunPort(log + t, selector, fields).slots == RunPort(log, selector, fields).slots
  {
    if t == [] {
      assert log + t == log;
    } else {
      var n := |t| - 1;
      SlotsStay(log, t[..n], selector, fields);
      assert log + t == (log + t[..n]) + [t[n]];
      PortStep(log + t[..n], t[n], selector, fields);
    }
  }

  /** A core whose table ends below its constant engine and whose memory keeps off the data word of the fill port. */
  ghost predicate FillSpared(layout: Layout, spec: Spec, p: Program) {
    var n := |Entries(spec.slots, p.name)|;
    && n < 0x1_0000_0000 && layout.dmaOffset % 4 == 0 && layout.dmaOffset + TableSpan(n) <= layout.coresInputs
    && WordsOutside(Memories(spec, p.name), p.channels, layout.dmaOffset + FILL_DATA,
                    layout.dmaOffset + FILL_DATA + 4)
  }

  /** Every register of the table holds the memory's word or the table's. */
  lemma OverlayReads(c: Config, spec: Spec, ivs: InitialValues, k: nat, w: nat)
    requires Fitted(c, spec, ivs) && k < |spec.programs| && FillSpared(c.layout, spec, spec.programs[k])
    requires IsDecoded(|Entries(spec.slots, spec.programs[k].name)|, w)
    ensures var p := spec.programs[k];
      && AllDefined(Memories(spec, p.name), p.channels)
      && Register(Log(c, spec, ivs), DmaBase(c.layout, p.index) + 4 * w)
         == Overlay(Entries(spec.slots, p.name), Memories(spec, p.name), p.channels, c.layout.dmaOffset / 4, w)
  {
    hide Deployable, DeployPhase, Placed, WindowsClear, Log, ReadBack, Connected, Entries, TableLog, ControlBase,
      Memories, MemoryWord, InitialsDefined, AllInRange, AllDefined, WordsOutside, TableRegister;
    var p, word := spec.programs[k], c.layout.dmaOffset / 4 + w;
    var es := Entries(spec.slots, p.name);
    BlockBounds(c, spec, ivs);
    MemoryRegister(c, spec, ivs, k, word);
    assert WordAt(ControlBase(c.layout, p.index), word) == DmaBase(c.layout, p.index) + 4 * w;
    TableRegisterReads(es, DmaBase(c.layout, p.index), Connected(spec, ivs), w);
  }

  /** The fill port's slots are the table's. */
  lemma FillsKept(c: Config, spec: Spec, ivs: InitialValues, k: nat, i: nat)
    requires Fitted(c, spec, ivs) && k < |spec.programs| && FillSpared(c.layout, spec, spec.programs[k])
    requires i < |Entries(spec.slots, spec.programs[k].name)|
    ensures var es, dma := Entries(spec.slots, spec.programs[k].name), DmaBase(c.layout, spec.programs[k].index);
      && InitialsDefined(es, Connected(spec, ivs)) && AllInRange(es)
      && PortSlot(Log(c, spec, ivs), dma + FILL_CHANNEL, {dma + FILL_DATA}, i, dma + FILL_DATA)
         == Initial(es[i], Connected(spec, ivs))
  {
    hide Deployable, DeployPhase, WindowsClear, Connected, Project, Log, TableStores, Entries, InRange,
      InitialDefined, MemoryStores, Memories, WordsOutside, ControlBase, RunPort, RunChannels, StaysInBlock;
    var p, base, n := spec.programs[k], ControlBase(c.layout, IndexOf(spec, k)), |spec.programs|;
    var es, lo := Entries(spec.slots, p.name), c.layout.dmaOffset;
    var dma, hi := DmaBase(c.layout, p.index), lo + TableSpan(|es|);
    FittedParts(c, spec, ivs);
    BlockBounds(c, spec, ivs);
    PartSeen(c, spec, ivs, k, lo, hi);
    assert p in spec.programs;
    EntriesReady(spec, p, Connected(spec, ivs));
    TableInside(es, dma, Connected(spec, ivs));
    var table, memory := TableLog(es, dma, Connected(spec, ivs)), MemoryBlocks(c, spec, n)[k];
    ProjectInside(table, base + lo, base + hi);
    OwnRegisterElsewhere(c, spec.programs, k, lo, hi);
    var above := Project(memory, base + lo, base + hi);
    assert table + (above + []) == table + above;
    MemoryOutside(Memories(spec, p.name), base, p.channels, lo + FILL_DATA, lo + FILL_DATA + 4);
    ProjectMembers(memory, base + lo, base + hi);
    forall j | 0 <= j < |above| ensures above[j].address != dma + FILL_DATA {
      assert above[j] in memory;
    }
    PortProject(Log(c, spec, ivs), dma, dma + TableSpan(|es|), dma + FILL_CHANNEL, {dma + FILL_DATA});
    SlotsStay(table, above, dma + FILL_CHANNEL, {dma + FILL_DATA});
    TableFills(es, dma, Connected(spec, ivs), i);
    OtherPort(TableStores(es, dma, Connected(spec, ivs)), Store(dma, Wrap32(|es|)), dma, i);
  }

  lemma {:induction false} ProjectMembers(log: seq<Store>, lo: nat, hi: nat)
    ensures forall s :: s in Project(log, lo, hi) ==> s in log
  {
    if log != [] {
      ProjectMembers(log[..|log| - 1], lo, hi);
      assert log == log[..|log| - 1] + [log[|log| - 1]];
    }
  }

  lemma CountRegister(es: seq<Slot>)
    requires |es| < 0x1_0000_0000
    ensures TableRegister(es, 0) == Some(|es|)
  {
  }

  lemma AgreesIff(es: seq<Slot>, inits: seq<MemoryInit>, channels: nat, table: nat)
    requires AllDefined(inits, channels)
    ensures MemoryAgrees(es, inits, channels, table)
       <==> forall w: nat :: IsDecoded(|es|, w) ==> Some(Overlay(es, inits, channels, table, w)) == TableRegister(es, w)
  {
    hide MemoryWord, AllDefined, Mapping, Format;
    forall w: nat | IsDecoded(|es|, w)
      ensures Some(Overlay(es, inits, channels, table, w)) == TableRegister(es, w)
         <==> (MemoryWord(inits, channels, table + w).Some? ==>
                 MemoryWord(inits, channels, table + w) == TableRegister(es, w))
    {
    }
  }

  /** A table read word by word from the overlay. */
  ghost predicate IsOverlaid(decoded: seq<DmaEntry>, es: seq<Slot>, ivs: InitialValues, inits: seq<MemoryInit>,
                             channels: nat, table: nat)
    requires AllDefined(inits, channels) && InitialsDefined(es, ivs) && AllInRange(es)
  {
    && |decoded| == Overlay(es, inits, channels, table, 0)
    && forall i :: 0 <= i < |es| && i < |decoded| ==> decoded[i] == OverlaidEntry(es, ivs, inits, channels, table, i)
  }

  function OverlaidEntry(es: seq<Slot>, ivs: InitialValues, inits: seq<MemoryInit>, channels: nat, table: nat,
                         i: nat): DmaEntry
    requires AllDefined(inits, channels) && InitialsDefined(es, ivs) && AllInRange(es) && i < |es|
  {
    DmaEntry(Unpack(Overlay(es, inits, channels, table, 3 + i)),
             Overlay(es, inits, channels, table, 3 + DMA_CHANNELS + i), Initial(es[i], ivs))
  }

  /** Entry i of the decoded table, from the words it is decoded from. */
  lemma EntryAlikeIff(es: seq<Slot>, ivs: InitialValues, inits: seq<MemoryInit>, channels: nat, table: nat, i: nat)
    requires AllDefined(inits, channels) && AllInRange(es) && InitialsDefined(es, ivs) && i < |es|
    ensures var m, f := Overlay(es, inits, channels, table, 3 + i),
                        Overlay(es, inits, channels, table, 3 + DMA_CHANNELS + i);
      OverlaidEntry(es, ivs, inits, channels, table, i) == Decoded(es, ivs)[i]
      <==> Some(m) == TableRegister(es, 3 + i) && Some(f) == TableRegister(es, 3 + DMA_CHANNELS + i)
  {
    hide Mapping, Format, MemoryWord, Unpack, InitialDefined, AllDefined;
    var m := Overlay(es, inits, channels, table, 3 + i);
    if MemoryWord(inits, channels, table + (3 + i)).Some? { MemoryWordFits(inits, channels, table + (3 + i)); }
    TableWords(es, i);
    UnpackMapping(es[i]);
    UnpackInjective(m, Mapping(es[i]));
  }

  /** It is the table alone exactly when the memory agrees. */
  lemma OverlaidIff(decoded: seq<DmaEntry>, es: seq<Slot>, ivs: InitialValues, inits: seq<MemoryInit>,
                    channels: nat, table: nat)
    requires AllDefined(inits, channels) && InitialsDefined(es, ivs) && AllInRange(es) && |es| < 0x1_0000_0000
    requires IsOverlaid(decoded, es, ivs, inits, channels, table)
    ensures decoded == Decoded(es, ivs) <==> MemoryAgrees(es, inits, channels, table)
  {
    hide MemoryWord, InRange, InitialDefined, TableRegister, Overlay, AllDefined, OverlaidEntry, Meaning,
      MemoryAgrees;
    AgreesIff(es, inits, channels, table);
    CountRegister(es);
    if decoded == Decoded(es, ivs) {
      forall w: nat | IsDecoded(|es|, w)
        ensures Some(Overlay(es, inits, channels, table, w)) == TableRegister(es, w)
      {
        if w > 0 {
          var i := if w < 3 + |es| then w - 3 else w - 3 - DMA_CHANNELS;
          assert decoded[i] == OverlaidEntry(es, ivs, inits, channels, table, i);
          EntryAlikeIff(es, ivs, inits, channels, table, i);
        }
      }
    }
    if MemoryAgrees(es, inits, channels, table) {
      assert IsDecoded(|es|, 0);
      forall i | 0 <= i < |es| ensures decoded[i] == Decoded(es, ivs)[i] {
        assert IsDecoded(|es|, 3 + i) && IsDecoded(|es|, 3 + DMA_CHANNELS + i);
        assert decoded[i] == OverlaidEntry(es, ivs, inits, channels, table, i);
        EntryAlikeIff(es, ivs, inits, channels, table, i);
      }
    }
  }

  /** The decoded table, word by word. */
  lemma TableAlikeParts(c: Config, spec: Spec, ivs: InitialValues, k: nat)
    requires Fitted(c, spec, ivs) && k < |spec.programs| && FillSpared(c.layout, spec, spec.programs[k])
    ensures var p := spec.programs[k];
      var es, d := Entries(spec.slots, p.name), c.layout.dmaOffset / 4;
      var log, dma := Log(c, spec, ivs), DmaBase(c.layout, p.index);
      && |es| < 0x1_0000_0000 && InitialsDefined(es, Connected(spec, ivs)) && AllInRange(es)
      && AllDefined(Memories(spec, p.name), p.channels)
      && IsOverlaid(DecodeDma(log, dma), es, Connected(spec, ivs), Memories(spec, p.name), p.channels, d)
  {
    hide Deployable, DeployPhase, Placed, LayoutClear, Log, ReadBack, Connected, Entries, DmaBase, RunPort, Register,
      Memories, MemoryWord, InRange, InitialDefined, TableRegister, Overlay, Unpack, WordsOutside;
    var p := spec.programs[k];
    var es, log, dma := Entries(spec.slots, p.name), Log(c, spec, ivs), DmaBase(c.layout, p.index);
    OverlayReads(c, spec, ivs, k, 0);
    assert p in spec.programs;
    EntriesReady(spec, p, Connected(spec, ivs)) by { FittedParts(c, spec, ivs); }
    assert AllInRange(es) by { FittedParts(c, spec, ivs); }
    var inits, d := Memories(spec, p.name), c.layout.dmaOffset / 4;
    forall i | 0 <= i < |es| && i < |DecodeDma(log, dma)|
      ensures DecodeDma(log, dma)[i] == OverlaidEntry(es, Connected(spec, ivs), inits, p.channels, d, i)
    {
      OverlayReads(c, spec, ivs, k, 3 + i);
      OverlayReads(c, spec, ivs, k, 3 + DMA_CHANNELS + i);
      FillsKept(c, spec, ivs, k, i);
    }
  }

  /**
   A core's table, of any length, decodes as if its memory were not there if and only if the memory initialises no
   word the table is decoded from, or with the word that is there already.
   */
  lemma {:induction false} TableSurvivesIff(c: Config, spec: Spec, ivs: InitialValues, k: nat)
    requires Fitted(c, spec, ivs) && k < |spec.programs| && FillSpared(c.layout, spec, spec.programs[k])
    ensures var p := spec.programs[k];
      var es := Entries(spec.slots, p.name);
      && InitialsDefined(es, Connected(spec, ivs)) && AllInRange(es)
      && AllDefined(Memories(spec, p.name), p.channels)
      && (DecodeDma(Log(c, spec, ivs), DmaBase(c.layout, p.index)) == Decoded(es, Connected(spec, ivs))
          <==> MemoryAgrees(es, Memories(spec, p.name), p.channels, c.layout.dmaOffset / 4))
  {
    hide Deployable, DeployPhase, Placed, LayoutClear, Log, Connected, Entries, DmaBase, DecodeDma, Decoded,
      Memories, AllInRange, InitialsDefined, AllDefined, MemoryAgrees, IsOverlaid, FillSpared;
    var p := spec.programs[k];
    TableAlikeParts(c, spec, ivs, k);
    OverlaidIff(DecodeDma(Log(c, spec, ivs), DmaBase(c.layout, p.index)), Entries(spec.slots, p.name),
                Connected(spec, ivs), Memories(spec, p.name), p.channels, c.layout.dmaOffset / 4);
  }
}

/**
 The deployment seen through the bus accessor: the calls it makes, the log they leave, and what the two
 planes hold afterwards.
 */
module BusObservation {
  import opened Operations
  import opened Specification
  import opened RegisterLog
  import opened Effects
  import opened DmaTable
  import opened CoreMemory
  import opened CoreInputs
  import opened Sequencer
  import opened Deployment
  import opened Regions
  import opened FinalLog
  import opened DeployedConstants
  import Arithmetic
  import Bus

  // ----- the calls of a list of effects

  function CallsOfStores(stores: seq<Store>): seq<Bus.Access> {
    seq(|stores|, i requires 0 <= i < |stores| => Bus.Write([stores[i].address], stores[i].value))
  }

  function CallsOf(e: Effect): seq<Bus.Access> {
    match e
    case Load(address, program) => [Bus.Load(address, program)]
    case _ => CallsOfStores(StoresOf(e))
  }

  function AllCalls(es: seq<Effect>): seq<Bus.Access> {
    if es == [] then [] else AllCalls(es[..|es| - 1]) + CallsOf(es[|es| - 1])
  }

  /** The words the program loads among the effects put into the ROM plane. */
  function RomOf(e: Effect): seq<Store> {
    match e
    case Load(address, program) => ProgramStores(address, program)
    case _ => []
  }

  function Roms(es: seq<Effect>): seq<Store> {
    if es == [] then [] else Roms(es[..|es| - 1]) + RomOf(es[|es| - 1])
  }

  lemma OneCall(s: Store)
    ensures var a := Bus.Write([s.address], s.value);
      && Bus.WellFormed(a) && Bus.ControlStores(a) == [s] && Bus.RomStores(a) == [] && Bus.Logged(a) == [DirectOp(s)]
  {
  }

  lemma {:induction false} StoreCalls(stores: seq<Store>)
    ensures Bus.AllWellFormed(CallsOfStores(stores))
    ensures forall a :: a in CallsOfStores(stores) ==> !a.ClearLog? && !a.Read?
    ensures Bus.AllControlStores(CallsOfStores(stores)) == stores && Bus.AllRomStores(CallsOfStores(stores)) == []
    ensures Bus.LoggedAll(CallsOfStores(stores)) == DirectOps(stores)
  {
    hide Bus.WellFormed, Bus.ControlStores, Bus.RomStores, Bus.Logged, DirectOp;
    if stores != [] {
      var n := |stores| - 1;
      StoreCalls(stores[..n]);
      OneCall(stores[n]);
      assert CallsOfStores(stores) == CallsOfStores(stores[..n]) + [Bus.Write([stores[n].address], stores[n].value)];
      assert DirectOps(stores) == DirectOps(stores[..n]) + [DirectOp(stores[n])];
    }
  }

  lemma EffectCalls(e: Effect)
    ensures Bus.AllWellFormed(CallsOf(e)) && forall a :: a in CallsOf(e) ==> !a.ClearLog? && !a.Read?
    ensures Bus.AllControlStores(CallsOf(e)) == StoresOf(e) && Bus.AllRomStores(CallsOf(e)) == RomOf(e)
    ensures Bus.LoggedAll(CallsOf(e)) == OpsOf(e)
  {
    if e.Load? {
      assert CallsOf(e)[..0] == [];
    } else {
      StoreCalls(StoresOf(e));
    }
  }

  lemma {:induction false} LoggedAppend(a: seq<Bus.Access>, b: seq<Bus.Access>)
    ensures Bus.LoggedAll(a + b) == Bus.LoggedAll(a) + Bus.LoggedAll(b)
  {
    hide Bus.Logged;
    if b == [] {
      assert a + b == a;
    } else {
      LoggedAppend(a, b[..|b| - 1]);
      assert (a + b)[..|a + b| - 1] == a + b[..|b| - 1];
    }
  }

  /** The calls carry out exactly the effects' stores, and log exactly their operations. */
  lemma {:induction false} CallsCarryOut(es: seq<Effect>)
    ensures Bus.AllWellFormed(AllCalls(es)) && forall a :: a in AllCalls(es) ==> !a.ClearLog? && !a.Read?
    ensures Bus.AllControlStores(AllCalls(es)) == Stores(es) && Bus.AllRomStores(AllCalls(es)) == Roms(es)
    ensures Bus.LoggedAll(AllCalls(es)) == Ops(es)
  {
    hide CallsOf, StoresOf, OpsOf, RomOf;
    if es != [] {
      var n := |es| - 1;
      CallsCarryOut(es[..n]);
      EffectCalls(es[n]);
      Bus.AllStoresAppend(AllCalls(es[..n]), CallsOf(es[n]));
      LoggedAppend(AllCalls(es[..n]), CallsOf(es[n]));
    }
  }

  // ----- a plane after a log of stores

  /** Word addresses of one plane, and 32-bit values. */
  ghost predicate Words(stores: seq<Store>, base: nat) {
    forall i :: 0 <= i < |stores| ==> stores[i].address % 4 == base % 4 && stores[i].value < 0x1_0000_0000
  }

  lemma SameIndex(base: nat, a: nat, b: nat)
    requires base <= a && base <= b && a % 4 == base % 4 && b % 4 == base % 4
    ensures (a - base) / 4 == (b - base) / 4 <==> a == b
  {
  }

  /** A mapped word holds the last value stored at its address, or what it held before. */
  lemma {:induction false} PlaneHolds(words: seq<nat>, base: nat, stores: seq<Store>, a: nat)
    requires Words(stores, base) && Bus.RunStores(words, base, stores).alive
    requires a % 4 == base % 4 && Bus.Mapped(|words|, base, a)
    ensures Bus.RunStores(words, base, stores).words[(a - base) / 4]
         == match ReadBack(stores, a) case None => words[(a - base) / 4] case Some(value) => value
  {
    if stores != [] {
      var n := |stores| - 1;
      PlaneHolds(words, base, stores[..n], a);
      SameIndex(base, stores[n].address, a);
    }
  }

  // ----- alignment of a deployment

  predicate Aligned(e: Effect) {
    match e
    case Write(address, _) => address % 4 == 0
    case SetConstant(m, _) => m.base % 4 == 0
    case UpdateConstant(m, _) => m.base % 4 == 0
    case _ => true
  }

  ghost predicate AllAligned(es: seq<Effect>) {
    forall e :: e in es ==> Aligned(e)
  }

  lemma {:induction false} AlignedWords(es: seq<Effect>, base: nat)
    requires AllAligned(es) && base % 4 == 0
    ensures Words(Stores(es), base)
  {
    if es != [] {
      AlignedWords(es[..|es| - 1], base);
      assert Aligned(es[|es| - 1]);
    }
  }

  predicate LayoutAligned(layout: Layout) {
    && layout.coresControl % 4 == 0 && layout.coresInputs % 4 == 0 && layout.noiseGenerator % 4 == 0
    && layout.controller % 4 == 0 && layout.dmaOffset % 4 == 0 && layout.timebaseOffset % 4 == 0
    && layout.sequencerOffset % 4 == 0 && layout.controlStride % 4 == 0
  }

  lemma BlockAligned(layout: Layout, i: nat)
    requires LayoutAligned(layout)
    ensures ControlBase(layout, i) % 4 == 0 && DmaBase(layout, i) % 4 == 0 && EngineBase(layout, i) % 4 == 0
  {
    var q := layout.controlStride / 4;
    Arithmetic.Associate(4, q, i);
    Arithmetic.DivExact(layout.controlStride * i, 4, q * i);
  }

  lemma EntryAligned(e: Slot, dma: nat, io: nat, channels: nat, ivs: InitialValues)
    requires InitialDefined(e, ivs) && dma % 4 == 0
    ensures AllAligned(EntryEffects(e, dma, io, channels, ivs))
  {
    hide Mapping, Format, BusKey, SignalName, Wrap32;
  }

  lemma {:induction false} TableAligned(es: seq<Slot>, dma: nat, channels: nat, ivs: InitialValues)
    requires InitialsDefined(es, ivs) && dma % 4 == 0
    ensures AllAligned(TableRun(es, dma, channels, ivs).effects)
  {
    hide InRange, InitialDefined, EntryEffects, Aligned;
    if es != [] {
      var n := |es| - 1;
      TableAligned(es[..n], dma, channels, ivs);
      if TableRun(es[..n], dma, channels, ivs).ok && InRange(es[n]) {
        EntryAligned(es[n], dma, n, channels, ivs);
      }
    }
  }

  lemma {:induction false} DmaAligned(c: Config, spec: Spec, ivs: InitialValues, n: nat)
    requires InitialsReady(spec, ivs) && n <= |spec.programs| && LayoutAligned(c.layout)
    ensures AllAligned(DmaPhase(c, spec, ivs, n).effects)
  {
    hide TableRun, InitialsReady, Entries, DmaBase, Recorded, LayoutAligned;
    if n != 0 {
      var p := spec.programs[n - 1];
      DmaAligned(c, spec, ivs, n - 1);
      EntriesReady(spec, p, ivs);
      BlockAligned(c.layout, Recorded(spec.programs, p).index);
      TableAligned(Entries(spec.slots, p.name), DmaBase(c.layout, Recorded(spec.programs, p).index), p.channels, ivs);
    }
  }

  lemma {:induction false} InitsAligned(inits: seq<MemoryInit>, base: nat, channels: nat)
    requires AllDefined(inits, channels) && base % 4 == 0
    ensures AllAligned(MemoryEffects(inits, base, channels))
  {
    if inits != [] {
      InitsAligned(inits[..|inits| - 1], base, channels);
      InitAligned(inits[|inits| - 1], base, channels);
    }
  }

  lemma InitAligned(init: MemoryInit, base: nat, channels: nat)
    requires Defined(init, channels) && base % 4 == 0
    ensures AllAligned(InitEffects(init, base, channels))
  {
    hide Bits.And, Bits.Shl;
  }

  lemma {:induction false} MemoryAligned(c: Config, spec: Spec, n: nat)
    requires MemoriesDefined(spec) && n <= |spec.programs| && LayoutAligned(c.layout)
    ensures AllAligned(MemoryPhase(c, spec, n))
  {
    hide MemoryEffects, Memories, ControlBase, Recorded, LayoutAligned, Aligned;
    if n != 0 {
      var p := spec.programs[n - 1];
      MemoryAligned(c, spec, n - 1);
      BlockAligned(c.layout, Recorded(spec.programs, p).index);
      InitsAligned(Memories(spec, p.name), ControlBase(c.layout, Recorded(spec.programs, p).index), p.channels);
    }
  }

  lemma SequencerRegistersAligned(layout: Layout, i: nat)
    requires LayoutAligned(layout)
    ensures Divisor(layout, i) % 4 == 0 && Threshold(layout, i) % 4 == 0
    ensures PeriodRegister(layout) % 4 == 0 && EnableRegister(layout) % 4 == 0
  {
  }

  lemma {:induction false} CoreEffectsAligned(layout: Layout, dividers: seq<nat>, shifts: seq<Word>, n: nat)
    requires n <= |dividers| && n <= |shifts| && LayoutAligned(layout)
    ensures AllAligned(CoreEffects(layout, dividers, shifts, n))
  {
    hide DivisorWord, Divisor, Threshold, LayoutAligned;
    if n != 0 {
      CoreEffectsAligned(layout, dividers, shifts, n - 1);
      SequencerRegistersAligned(layout, n - 1);
    }
  }

  lemma SequencerEffectsAligned(layout: Layout, dividers: seq<nat>, shifts: seq<Word>, period: Word)
    requires |dividers| == |shifts| && LayoutAligned(layout)
    ensures AllAligned(SequencerEffects(layout, dividers, shifts, period))
  {
    hide ToUlong, FirstBits, CoreEffects, PeriodRegister, EnableRegister, LayoutAligned, Wrap32;
    CoreEffectsAligned(layout, dividers, shifts, |dividers|);
    SequencerRegistersAligned(layout, 0);
  }

  lemma SequencerAligned(c: Config, ps: seq<Program>)
    requires Convertible(c.clock, Timebase(ps)) && LayoutAligned(c.layout)
    ensures AllAligned(SequencerPhase(c, ps))
  {
    hide SequencerEffects, AllAligned, LayoutAligned;
    SequencerEffectsAligned(c.layout, Dividers(ps), Shifts(c.sort, SlotsOf(c, ps)),
                            Period(c.clock, Timebase(ps), MinTimebase(SlotsOf(c, ps))));
  }

  lemma {:induction false} CoresAligned(c: Config, ps: seq<Program>, n: nat)
    requires n <= |ps| && LayoutAligned(c.layout)
    ensures AllAligned(CorePhase(c, ps, n))
  {
    hide RunChannels, ControlBase, LayoutAligned;
    if n != 0 {
      CoresAligned(c, ps, n - 1);
      BlockAligned(c.layout, ps[n - 1].index);
    }
  }

  lemma InputsAligned(c: Config, spec: Spec)
    requires LayoutAligned(c.layout)
    ensures AllAligned(AllInputEffects(c.layout, spec, spec.programs))
  {
    hide AllInputEffects, RandomLabel, ConstantLabel, Touches, EngineBase, RandomsInPrograms;
    var ps := spec.programs;
    assert ps[..|ps|] == ps;
    forall e | e in AllInputEffects(c.layout, spec, ps) ensures Aligned(e) {
      var k := InputPhaseIsInput(c.layout, spec, |ps|, RandomsInPrograms(spec, ps), e);
      BlockAligned(c.layout, ps[k].index);
    }
  }

  lemma {:induction false} LoadsAligned(layout: Layout, ps: seq<Program>)
    ensures AllAligned(LoadEffects(layout, ps))
  {
    if ps != [] { LoadsAligned(layout, ps[..|ps| - 1]); }
  }

  lemma DeployAligned(c: Config, spec: Spec, ivs: InitialValues)
    requires Accepted(c, spec, ivs) && LayoutAligned(c.layout)
    ensures AllAligned(DeployPhase(c, spec, ivs).effects)
  {
    hide Deployable, MemoriesDefined, InitialsReady, Connected, LoadEffects, DmaPhase, MemoryPhase,
      SequencerPhase, CorePhase, AllInputEffects, DeployPhase, LayoutAligned, Aligned;
    AcceptedParts(c, spec, ivs);
    DeployParts(c, spec, ivs);
    LoadsAligned(c.layout, spec.programs);
    DmaAligned(c, spec, Connected(spec, ivs), |spec.programs|);
    MemoryAligned(c, spec, |spec.programs|);
    InputsAligned(c, spec);
    SequencerAligned(c, spec.programs);
    CoresAligned(c, spec.programs, |spec.programs|);
  }

  // ----- after deploying through the accessor

  /** The accessor after carrying out a deployment. */
  function Deploying(c: Config, spec: Spec, ivs: InitialValues, s: Bus.State): Bus.State
    requires Deployable(c, spec, ivs)
  {
    var calls := AllCalls(DeployPhase(c, spec, ivs).effects);
    CallsCarryOut(DeployPhase(c, spec, ivs).effects);
    Bus.CallsWellFormed(calls);
    Bus.Run(s, Bus.Calls(calls))
  }

  // ----- the programs in the ROM plane

  lemma {:induction false} RomsAppend(es: seq<Effect>, fs: seq<Effect>)
    ensures Roms(es + fs) == Roms(es) + Roms(fs)
  {
    hide RomOf;
    if fs == [] {
      assert es + fs == es;
    } else {
      RomsAppend(es, fs[..|fs| - 1]);
      assert (es + fs)[..|es + fs| - 1] == es + fs[..|fs| - 1];
    }
  }

  lemma {:induction false} NoRoms(es: seq<Effect>)
    requires forall e :: e in es ==> !e.Load?
    ensures Roms(es) == []
  {
    if es != [] {
      NoRoms(es[..|es| - 1]);
      assert es[|es| - 1] in es;
    }
  }

  function RomBase(layout: Layout, index: nat): nat {
    layout.coresRom + index * layout.romStride
  }

  function RomBlocks(layout: Layout, ps: seq<Program>): seq<seq<Store>> {
    seq(|ps|, j requires 0 <= j < |ps| => ProgramStores(RomBase(layout, ps[j].index), ps[j].binary))
  }

  lemma {:induction false} LoadRoms(layout: Layout, ps: seq<Program>)
    ensures Roms(LoadEffects(layout, ps)) == Concat(RomBlocks(layout, ps))
  {
    hide ProgramStores;
    if ps != [] {
      var n := |ps| - 1;
      LoadRoms(layout, ps[..n]);
      RomsAppend(LoadEffects(layout, ps[..n]), [Load(RomBase(layout, ps[n].index), ps[n].binary)]);
      OneRom(Load(RomBase(layout, ps[n].index), ps[n].binary));
      assert RomBlocks(layout, ps)[..n] == RomBlocks(layout, ps[..n]);
    }
  }

  lemma OneRom(e: Effect)
    ensures Roms([e]) == RomOf(e)
  {
    assert [e][..0] == [];
  }

  lemma DeployRoms(c: Config, spec: Spec, ivs: InitialValues)
    requires Accepted(c, spec, ivs)
    ensures Roms(DeployPhase(c, spec, ivs).effects) == Concat(RomBlocks(c.layout, spec.programs))
  {
    hide Deployable, MemoriesDefined, InitialsReady, Connected, LoadEffects, DmaPhase, MemoryPhase,
      SequencerPhase, CorePhase, AllInputEffects, DeployPhase, Roms, RandomsInPrograms,
      RomBlocks, RandomLabel, ConstantLabel, Touches;
    AcceptedParts(c, spec, ivs);
    DeployParts(c, spec, ivs);
    PhasesPlain(c, spec, ivs);
    var n, ps := |spec.programs|, spec.programs;
    var load, dma := LoadEffects(c.layout, ps), DmaPhase(c, spec, Connected(spec, ivs), n).effects;
    var inputs := AllInputEffects(c.layout, spec, ps);
    var late := MemoryPhase(c, spec, n) + inputs + SequencerPhase(c, ps) + CorePhase(c, ps, n);
    assert ps[..|ps|] == ps;
    forall e | e in AllInputEffects(c.layout, spec, ps) ensures !e.Load? {
      var k := InputPhaseIsInput(c.layout, spec, n, RandomsInPrograms(spec, ps), e);
    }
    RomsAppend(load + dma, late);
    RomsAppend(load, dma);
    NoRoms(dma);
    NoRoms(late);
    LoadRoms(c.layout, ps);
  }

  /** Every program fits the room its core has in the ROM plane. */
  ghost predicate ProgramsFit(c: Config, spec: Spec) {
    forall p :: p in spec.programs ==> 4 * |p.binary| <= c.layout.romStride
  }

  lemma RomsApart(layout: Layout, i: nat, j: nat)
    requires i != j
    ensures Clear(RomBase(layout, i), layout.romStride, RomBase(layout, j), layout.romStride)
  {
    StrideStep(layout.romStride, i, j);
    StrideStep(layout.romStride, j, i);
    assert i * layout.romStride == layout.romStride * i && j * layout.romStride == layout.romStride * j;
  }

  lemma {:induction false} ConcatWords(blocks: seq<seq<Store>>, base: nat)
    requires forall j :: 0 <= j < |blocks| ==> Words(blocks[j], base)
    ensures Words(Concat(blocks), base)
  {
    if blocks != [] { ConcatWords(blocks[..|blocks| - 1], base); }
  }

  lemma RomAligned(layout: Layout, i: nat)
    requires layout.coresRom % 4 == 0 && layout.romStride % 4 == 0
    ensures RomBase(layout, i) % 4 == 0
  {
    var q := layout.romStride / 4;
    assert i * layout.romStride == 4 * (i * q) by { assert layout.romStride == q * 4; Arithmetic.Associate(i, q, 4); }
  }

  /** Among the words of all programs, each word of each program is the last at its address. */
  lemma ProgramWord(c: Config, spec: Spec, k: nat, i: nat)
    requires DistinctIndices(spec) && ProgramsFit(c, spec) && k < |spec.programs| && i < |spec.programs[k].binary|
    ensures ReadBack(Concat(RomBlocks(c.layout, spec.programs)), RomBase(c.layout, spec.programs[k].index) + 4 * i)
         == Some(spec.programs[k].binary[i])
  {
    hide ReadBack, Project, Concat, RomBase;
    var blocks, ps := RomBlocks(c.layout, spec.programs), spec.programs;
    var lo, hi := RomBase(c.layout, ps[k].index), RomBase(c.layout, ps[k].index) + c.layout.romStride;
    assert ps[k] in ps;
    forall j | 0 <= j < |blocks| && j != k ensures Outside(blocks[j], lo, hi) {
      assert ps[j] in ps;
      RomsApart(c.layout, ps[j].index, ps[k].index);
    }
    ProjectBlock(blocks, k, lo, hi);
    ProjectInside(blocks[k], lo, hi);
    ReadBackProject(Concat(blocks), lo, hi, lo + 4 * i);
    ReadBackDistinct(blocks[k], i);
  }

  lemma RomWords(c: Config, spec: Spec, base: nat)
    requires c.layout.coresRom % 4 == 0 && c.layout.romStride % 4 == 0 && base % 4 == 0
    ensures Words(Concat(RomBlocks(c.layout, spec.programs)), base)
  {
    hide RomBase;
    var blocks := RomBlocks(c.layout, spec.programs);
    forall j | 0 <= j < |blocks| ensures Words(blocks[j], base) {
      RomAligned(c.layout, spec.programs[j].index);
    }
    ConcatWords(blocks, base);
  }

  // ----- planes that cover the layout

  predicate Covers(base: nat, size: nat, lo: nat, length: nat) {
    base <= lo && lo + length <= base + 4 * size
  }

  /** The control plane reaches over the cores' area, the noise outputs in use and the sequencer's two windows. */
  predicate ControlCovers(layout: Layout, randoms: nat, base: nat, size: nat) {
    && Covers(base, size, layout.coresControl, MAX_CORES * layout.controlStride)
    && Covers(base, size, layout.noiseGenerator, 4 * (randoms + 1))
    && Covers(base, size, layout.controller + layout.sequencerOffset, 4 + 4 * MAX_CORES)
    && Covers(base, size, layout.controller + layout.timebaseOffset, 8 + 4 * MAX_CORES)
  }

  ghost predicate PlanesCover(c: Config, spec: Spec, s: Bus.State) {
    && ControlCovers(c.layout, RandomsInPrograms(spec, spec.programs), s.controlAddr, |s.registers|)
    && forall p :: p in spec.programs ==> Covers(s.coreAddr, |s.rom|, RomBase(c.layout, p.index), 4 * |p.binary|)
  }

  ghost predicate AllMapped(stores: seq<Store>, base: nat, size: nat) {
    forall i :: 0 <= i < |stores| ==> Bus.Mapped(size, base, stores[i].address)
  }

  lemma InsideMapped(stores: seq<Store>, lo: nat, hi: nat, base: nat, size: nat)
    requires Inside(stores, lo, hi) && lo <= hi && Covers(base, size, lo, hi - lo)
    ensures AllMapped(stores, base, size)
  {
  }

  lemma {:induction false} BlocksMapped(blocks: seq<seq<Store>>, base: nat, size: nat)
    requires forall j :: 0 <= j < |blocks| ==> AllMapped(blocks[j], base, size)
    ensures AllMapped(Concat(blocks), base, size)
  {
    if blocks != [] { BlocksMapped(blocks[..|blocks| - 1], base, size); }
  }

  lemma {:induction false} EffectsMapped(es: seq<Effect>, base: nat, size: nat)
    requires forall e :: e in es ==> AllMapped(StoresOf(e), base, size)
    ensures AllMapped(Stores(es), base, size)
  {
    hide StoresOf;
    if es != [] {
      EffectsMapped(es[..|es| - 1], base, size);
      assert es[|es| - 1] in es;
    }
  }

  lemma CoreBlocksMapped(c: Config, spec: Spec, ivs: InitialValues, base: nat, size: nat)
    requires Fitted(c, spec, ivs) && Covers(base, size, c.layout.coresControl, MAX_CORES * c.layout.controlStride)
    ensures MemoriesDefined(spec) && InitialsReady(spec, Connected(spec, ivs)) && EntriesInRange(spec)
    ensures AllMapped(Concat(DmaBlocks(c, spec, Connected(spec, ivs), |spec.programs|)), base, size)
    ensures AllMapped(Concat(MemoryBlocks(c, spec, |spec.programs|)), base, size)
    ensures AllMapped(Concat(CoreBlocks(c, spec.programs, |spec.programs|)), base, size)
  {
    hide Accepted, Connected, Concat, DmaBlocks, MemoryBlocks, CoreBlocks, EntriesInRange, MemoriesDefined,
      InitialsReady, OwnBlocks, AllMapped, RandomsInPrograms, StaysInBlock;
    FittedParts(c, spec, ivs);
    TablesInBlocks(c, spec, Connected(spec, ivs));
    MemoriesInBlocks(c, spec);
    CoresInBlocks(c, spec);
    OwnBlocksMapped(c.layout, spec, DmaBlocks(c, spec, Connected(spec, ivs), |spec.programs|), base, size);
    OwnBlocksMapped(c.layout, spec, MemoryBlocks(c, spec, |spec.programs|), base, size);
    OwnBlocksMapped(c.layout, spec, CoreBlocks(c, spec.programs, |spec.programs|), base, size);
  }

  lemma OwnBlocksMapped(layout: Layout, spec: Spec, blocks: seq<seq<Store>>, base: nat, size: nat)
    requires OwnBlocks(layout, spec, blocks) && SmallIndices(spec)
    requires Covers(base, size, layout.coresControl, MAX_CORES * layout.controlStride)
    ensures AllMapped(Concat(blocks), base, size)
  {
    hide ControlBase, AllMapped, Inside;
    forall j | 0 <= j < |blocks| ensures AllMapped(blocks[j], base, size) {
      var b := ControlBase(layout, IndexOf(spec, j));
      BlockInArea(layout, IndexOf(spec, j));
      InsideMapped(blocks[j], b, b + layout.controlStride, base, size);
    }
    BlocksMapped(blocks, base, size);
  }

  lemma InputsMapped(c: Config, spec: Spec, ivs: InitialValues, base: nat, size: nat)
    requires Fitted(c, spec, ivs) && ControlCovers(c.layout, RandomsInPrograms(spec, spec.programs), base, size)
    ensures AllMapped(Stores(AllInputEffects(c.layout, spec, spec.programs)), base, size)
  {
    hide Accepted, StaysInBlock, AllInputEffects, RandomLabel, ConstantLabel, Touches,
      RandomsInPrograms, Stores;
    var ps := spec.programs;
    assert ps[..|ps|] == ps;
    forall e | e in AllInputEffects(c.layout, spec, ps) ensures AllMapped(StoresOf(e), base, size) {
      var k := InputPhaseIsInput(c.layout, spec, |ps|, RandomsInPrograms(spec, ps), e);
      EngineInArea(c.layout, ps[k].index);
    }
    EffectsMapped(AllInputEffects(c.layout, spec, ps), base, size);
  }

  lemma SequencerMapped(c: Config, spec: Spec, base: nat, size: nat)
    requires Convertible(c.clock, Timebase(spec.programs)) && |spec.programs| <= MAX_CORES
    requires ControlCovers(c.layout, RandomsInPrograms(spec, spec.programs), base, size)
    ensures AllMapped(Stores(SequencerPhase(c, spec.programs)), base, size)
  {
    hide SequencerPhase, Stores, RandomsInPrograms;
    SequencerIs(c, spec.programs);
  }

  lemma LogMapped(c: Config, spec: Spec, ivs: InitialValues, base: nat, size: nat)
    requires Fitted(c, spec, ivs) && ControlCovers(c.layout, RandomsInPrograms(spec, spec.programs), base, size)
    ensures AllMapped(Log(c, spec, ivs), base, size)
  {
    hide Deployable, DeployPhase, Placed, LayoutClear, Connected, Concat, DmaBlocks, MemoryBlocks, CoreBlocks,
      EntriesInRange, MemoriesDefined, InitialsReady, Log, AllInputEffects, SequencerPhase, Stores, RandomsInPrograms,
      Bus.Mapped, DistinctPrograms;
    FittedParts(c, spec, ivs);
    LogParts(c, spec, ivs);
    CoreBlocksMapped(c, spec, ivs, base, size);
    InputsMapped(c, spec, ivs, base, size);
    SequencerMapped(c, spec, base, size);
  }

  lemma RomsMapped(c: Config, spec: Spec, s: Bus.State)
    requires PlanesCover(c, spec, s)
    ensures AllMapped(Concat(RomBlocks(c.layout, spec.programs)), s.coreAddr, |s.rom|)
  {
    hide RomBase, Concat, ControlCovers;
    var blocks := RomBlocks(c.layout, spec.programs);
    forall j | 0 <= j < |blocks| ensures AllMapped(blocks[j], s.coreAddr, |s.rom|) {
      assert spec.programs[j] in spec.programs;
    }
    BlocksMapped(blocks, s.coreAddr, |s.rom|);
  }

  lemma {:induction false} BlockMapped(blocks: seq<seq<Store>>, j: nat, base: nat, size: nat)
    requires AllMapped(Concat(blocks), base, size) && j < |blocks|
    ensures AllMapped(blocks[j], base, size)
  {
    var front, last := blocks[..|blocks| - 1], blocks[|blocks| - 1];
    var all := Concat(front) + last;
    assert forall i :: 0 <= i < |Concat(front)| ==> all[i] == Concat(front)[i];
    assert forall i :: 0 <= i < |last| ==> all[|Concat(front)| + i] == last[i];
    if j < |front| { BlockMapped(front, j, base, size); }
  }

  lemma WordMapped(c: Config, spec: Spec, s: Bus.State, k: nat, i: nat)
    requires AllMapped(Concat(RomBlocks(c.layout, spec.programs)), s.coreAddr, |s.rom|)
    requires k < |spec.programs| && i < |spec.programs[k].binary|
    ensures Bus.Mapped(|s.rom|, s.coreAddr, RomBase(c.layout, spec.programs[k].index) + 4 * i)
  {
    hide RomBase, Concat, Bus.Mapped;
    BlockMapped(RomBlocks(c.layout, spec.programs), k, s.coreAddr, |s.rom|);
    assert ProgramStores(RomBase(c.layout, spec.programs[k].index), spec.programs[k].binary)[i].address
        == RomBase(c.layout, spec.programs[k].index) + 4 * i;
  }

  /** Every address a deployment writes or loads to is mapped. */
  ghost predicate AddressesMapped(c: Config, spec: Spec, ivs: InitialValues, s: Bus.State)
    requires Deployable(c, spec, ivs)
  {
    && AllMapped(Log(c, spec, ivs), s.controlAddr, |s.registers|)
    && AllMapped(Roms(DeployPhase(c, spec, ivs).effects), s.coreAddr, |s.rom|)
  }

  /** A live accessor survives a deployment, accepted or not, exactly when no address of it is unmapped. */
  lemma DeploySurvivesIff(c: Config, spec: Spec, ivs: InitialValues, s: Bus.State)
    requires Deployable(c, spec, ivs) && s.alive && !s.sink
    ensures Deploying(c, spec, ivs, s).alive <==> AddressesMapped(c, spec, ivs, s)
  {
    hide Deployable, DeployPhase, AllCalls, Stores, Bus.RunStores, Bus.Run, Bus.Calls, Bus.AllWellFormed,
      Bus.AllControlStores, Bus.AllRomStores, Roms, Bus.Mapped;
    var es := DeployPhase(c, spec, ivs).effects;
    CallsCarryOut(es);
    Bus.AliveIffMapped(s.registers, s.controlAddr, Stores(es));
    Bus.AliveIffMapped(s.rom, s.coreAddr, Roms(es));
    Bus.CallsAliveIff(s, AllCalls(es));
  }

  /** On planes that cover the layout it does. */
  lemma PlanesReach(c: Config, spec: Spec, ivs: InitialValues, s: Bus.State)
    requires Fitted(c, spec, ivs) && PlanesCover(c, spec, s)
    ensures AddressesMapped(c, spec, ivs, s)
  {
    hide Deployable, Placed, LayoutClear, DeployPhase, Stores, Roms, RomBlocks, Concat, ControlCovers, AllMapped;
    LogMapped(c, spec, ivs, s.controlAddr, |s.registers|);
    DeployRoms(c, spec, ivs);
    RomsMapped(c, spec, s);
  }

  /** Words in a plane of the default number of pages. */
  const PLANE_WORDS: nat := 344000 * 1024

  const CONTROL_PLANE: nat := 0x4_0000_0000

  const ROM_PLANE: nat := 0x5_0000_0000

  /**
   The planes of the larger device under the repository's address map: the control plane covers it all, but the
   ROM plane holds whole rooms for five cores only and ends before the seventh.
   */
  lemma RepositoryPlanes(index: nat)
    ensures ControlCovers(REPOSITORY_LAYOUT, 16383, CONTROL_PLANE, PLANE_WORDS)
    ensures Covers(ROM_PLANE, PLANE_WORDS, RomBase(REPOSITORY_LAYOUT, index), REPOSITORY_LAYOUT.romStride)
       <==> index < 5
    ensures Bus.Mapped(PLANE_WORDS, ROM_PLANE, RomBase(REPOSITORY_LAYOUT, index)) <==> index < 6
  {
  }

  // ----- what the bus reads back

  /**
   A deployment carried out by the accessor out of sink mode, when all its addresses are mapped: the process
   survives, the log is the one the deployer keeps, and every mapped register reads over the bus as the last
   value the deployment gives it, or as it was before.
   */
  lemma RegistersObserved(c: Config, spec: Spec, ivs: InitialValues, s: Bus.State, a: nat)
    requires Accepted(c, spec, ivs) && LayoutAligned(c.layout) && s.controlAddr % 4 == 0 && a % 4 == 0
    requires s.alive && !s.sink && s.log == [] && AddressesMapped(c, spec, ivs, s)
    requires Bus.Mapped(|s.registers|, s.controlAddr, a)
    ensures Deploying(c, spec, ivs, s).alive
    ensures var t, i := Deploying(c, spec, ivs, s), (a - s.controlAddr) / 4;
      && t.log == Ops(DeployPhase(c, spec, ivs).effects)
      && |t.registers| == |s.registers|
      && t.registers[i] == match ReadBack(Log(c, spec, ivs), a) case None => s.registers[i] case Some(value) => value
  {
    hide AddressesMapped, Deployable, DeployPhase, AllCalls, Stores, Ops, ReadBack, Bus.RunStores, Bus.Run,
      Bus.Calls, Bus.AllWellFormed, Bus.AllControlStores, Bus.LoggedAll, Roms, LayoutAligned, AllAligned, Words;
    var es := DeployPhase(c, spec, ivs).effects;
    DeploySurvivesIff(c, spec, ivs, s);
    CallsCarryOut(es);
    Bus.LiveCalls(s, AllCalls(es));
    Bus.LiveLog(s, AllCalls(es));
    DeployAligned(c, spec, ivs);
    AlignedWords(es, s.controlAddr);
    PlaneHolds(s.registers, s.controlAddr, Stores(es), a);
  }

  lemma RomPlane(c: Config, spec: Spec, ivs: InitialValues, s: Bus.State)
    requires Accepted(c, spec, ivs) && s.alive && !s.sink && AddressesMapped(c, spec, ivs, s)
    ensures AllMapped(Concat(RomBlocks(c.layout, spec.programs)), s.coreAddr, |s.rom|)
    ensures var t := Deploying(c, spec, ivs, s);
      t.alive
      && Bus.Image(t.rom, true) == Bus.RunStores(s.rom, s.coreAddr, Concat(RomBlocks(c.layout, spec.programs)))
  {
    hide AllMapped, Deployable, DeployPhase, AllCalls, Stores, Bus.RunStores, Bus.Run, Roms, Bus.Calls,
      Bus.AllWellFormed, Bus.AllControlStores, Bus.AllRomStores, Concat, RomBlocks;
    var es := DeployPhase(c, spec, ivs).effects;
    DeploySurvivesIff(c, spec, ivs, s);
    DeployRoms(c, spec, ivs);
    CallsCarryOut(es);
    Bus.LiveCalls(s, AllCalls(es));
  }

  /** ... and each program is in the ROM plane, word for word. */
  lemma ProgramsObserved(c: Config, spec: Spec, ivs: InitialValues, s: Bus.State, k: nat, i: nat)
    requires Accepted(c, spec, ivs) && DistinctIndices(spec) && ProgramsFit(c, spec)
    requires k < |spec.programs| && i < |spec.programs[k].binary|
    requires c.layout.coresRom % 4 == 0 && c.layout.romStride % 4 == 0 && s.coreAddr % 4 == 0
    requires s.alive && !s.sink && AddressesMapped(c, spec, ivs, s)
    ensures Bus.Mapped(|s.rom|, s.coreAddr, RomBase(c.layout, spec.programs[k].index) + 4 * i)
    ensures Deploying(c, spec, ivs, s).alive
    ensures var t, a := Deploying(c, spec, ivs, s), RomBase(c.layout, spec.programs[k].index) + 4 * i;
      |t.rom| == |s.rom| && t.rom[(a - s.coreAddr) / 4] == spec.programs[k].binary[i]
  {
    hide Deployable, DeployPhase, AllMapped, ReadBack, Bus.RunStores, Deploying, Words, Concat, RomBlocks, RomBase,
      ProgramsFit, DistinctIndices;
    var ps, a := spec.programs, RomBase(c.layout, spec.programs[k].index) + 4 * i;
    RomPlane(c, spec, ivs, s);
    WordMapped(c, spec, s, k, i);
    RomWords(c, spec, s.coreAddr);
    RomAligned(c.layout, ps[k].index);
    PlaneHolds(s.rom, s.coreAddr, Concat(RomBlocks(c.layout, ps)), a);
    ProgramWord(c, spec, k, i);
  }
}

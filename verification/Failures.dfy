/**
 Accepted specifications that a deployment does not program as meant: a memory that overwrites its core's table,
 a table of seventeen entries, and a table that inherits an initial value from the deployment before.
 */
module Failures {
  import opened Specification
  import opened RegisterLog
  import opened Operations
  import opened Schedule
  import opened ChannelFormat
  import opened Bits
  import opened DmaTable
  import opened CoreMemory
  import opened CoreInputs
  import opened Interconnect
  import opened Deployment
  import opened Rates
  import opened Regions
  import opened FinalLog
  import opened DeployedSystem
  import opened ConstantEngine
  import Arithmetic
  import Reciprocal

  function Settings(isa: Reciprocal.Isa, sort: Sorting): Config {
    Config(REPOSITORY_LAYOUT, 100000000.0, isa, true, sort)
  }

  /** A core without a sampling frequency and without inputs. */
  function Core(name: string, index: nat, channels: nat): Program {
    Program(name, index, 0, 0, channels, [], 100, 0, [])
  }

  function System(p: Program, slots: seq<Slot>, inits: seq<MemoryInit>): Spec {
    Spec([p], slots, map[], map[p.name := inits])
  }

  const DMA: nat := 18316857344

  // ----- when such a system is deployed

  lemma NoRates(ps: seq<Program>)
    requires ps != [] && forall p :: p in ps ==> p.samplingFrequency == 0
    ensures Timebase(ps) == 0 && FoldDefined(Frequencies(ps))
  {
    LcmZeros(Frequencies(ps));
  }

  lemma {:induction false} LcmZeros(s: seq<nat>)
    requires forall i :: 0 <= i < |s| ==> s[i] == 0
    ensures s != [] ==> Arithmetic.LcmAll(s) == 0
    ensures FoldDefined(s)
  {
    if s != [] {
      var n := |s| - 1;
      LcmZeros(s[..n]);
      forall i | 0 <= i <= |s| ensures StepDefined(s, i) {
        if i <= n {
          assert s[..n][..i] == s[..i] && StepDefined(s[..n], i);
        } else {
          assert s[..i] == s;
        }
      }
    }
  }

  lemma OneCoreFits(c: Config, p: Program, slots: seq<Slot>, inits: seq<MemoryInit>, ivs: InitialValues)
    requires c.layout == REPOSITORY_LAYOUT && c.clock > 0.0 && p.index == 0 && p.samplingFrequency == 0
    requires AllDefined(inits, p.channels) && WordsInside(inits, p.channels, 0, 0x1_0000)
    requires InitialsReady(System(p, slots, inits), Connected(System(p, slots, inits), ivs))
    requires AllInRange(Entries(slots, p.name)) && |Entries(slots, p.name)| <= 100
    ensures Fitted(c, System(p, slots, inits), ivs)
  {
    hide DeployPhase, FoldDefined, Timebase, WordsInside, AllInRange, Entries, AfterConnections, Initialises, InRange;
    var spec := System(p, slots, inits);
    NoRates([p]);
    assert [p][..0] == [];
    assert RandomsInPrograms(spec, []) == 0 && RandomsInPrograms(spec, [p]) == 0;
    DeployAcceptedIff(c, spec, ivs);
  }

  /** Connections that lead to no core supply nothing. */
  lemma {:induction false} NoConnections(ivs: InitialValues, slots: seq<Slot>, ps: seq<Program>)
    requires forall s :: s in slots ==> ConnectedValue(ps, s).None?
    ensures AfterConnections(ivs, slots, ps) == ivs
  {
    hide ConnectedValue;
    if slots != [] { NoConnections(ivs, slots[..|slots| - 1], ps); }
  }

  lemma {:induction false} AllEntries(slots: seq<Slot>, core: string)
    requires forall s :: s in slots ==> s.sourceId == core
    ensures Entries(slots, core) == slots
  {
    if slots != [] { AllEntries(slots[..|slots| - 1], core); }
  }

  // ----- memories over tables

  /**
   At the offsets of the repository, with a table of n entries: a vector initialisation spares the table exactly
   when it has at most four channels or its address, modulo 256, lies past the table's length in words, and
   the constant engine exactly when it has at most eight channels or that address is at least four.
   */
  lemma VectorSpares(init: MemoryInit, n: nat)
    requires 19 + n <= 256
    ensures WordsOutside([init], |init.values|, REPOSITORY_LAYOUT.dmaOffset,
                         REPOSITORY_LAYOUT.dmaOffset + TableSpan(n))
       <==> |init.values| <= 4 || init.address % 256 >= 19 + n
    ensures WordsOutside([init], |init.values|, REPOSITORY_LAYOUT.coresInputs,
                         REPOSITORY_LAYOUT.coresInputs + ENGINE_SIZE)
       <==> |init.values| <= 8 || init.address % 256 >= 4
  {
    var channels, a := |init.values|, init.address % 256;
    if channels > 4 && a < 19 + n { assert Initialises(init, channels, a + 1024); }
    if channels > 8 && a < 4 { assert Initialises(init, channels, a + 2048); }
  }

  const STATE: MemoryInit := MemoryInit(3, [10, 20, 30, 40, 50])
  const OUT: Slot := Slot("core", "out", 1, 0, "", "", 2, 0, true, 16, true)

  lemma OutIs()
    ensures InRange(OUT) && Entries([OUT], "core") == [OUT] && ConnectedValue([Core("core", 0, 5)], OUT).None?
  {
    assert [OUT][..0] == [] && [Core("core", 0, 5)][..0] == [];
  }

  lemma StateIs()
    ensures AllDefined([STATE], 5) && WordsInside([STATE], 5, 0, 0x1_0000)
    ensures MemoryWord([STATE], 5, 1027) == Some(50)
  {
  }

  /**
   Five channels: memories are written after the tables, so the fifth word of a vector replaces the first mapping
   word of the core's table, which then decodes wrongly.
   */
  lemma TableOverwritten(isa: Reciprocal.Isa, sort: Sorting)
    ensures var c, spec := Settings(isa, sort), System(Core("core", 0, 5), [OUT], [STATE]);
      && Fitted(c, spec, map[]) && InitialsDefined([OUT], map[]) && AllInRange([OUT])
      && ReadBack(Log(c, spec, map[]), DMA + MAPPINGS) == Some(50)
      && DecodeDma(Log(c, spec, map[]), DMA) != Meanings([OUT], map[])
  {
    hide Fitted, Log, ReadBack, WordsInside, Entries, MemoryWord, ConnectedValue, Deployable, DeployPhase, DecodeDma,
      Meanings, InRange, ControlBase;
    var c, spec := Settings(isa, sort), System(Core("core", 0, 5), [OUT], [STATE]);
    OutIs();
    StateIs();
    NoConnections(map[], [OUT], spec.programs);
    OneCoreFits(c, spec.programs[0], [OUT], [STATE], map[]);
    assert Accepted(c, spec, map[]) by { FittedParts(c, spec, map[]); }
    MemoriesDecode(c, spec, map[], 0, 1027);
    FirstCell();
    FirstDecoded(Log(c, spec, map[]));
  }

  lemma FirstCell()
    ensures WordAt(ControlBase(REPOSITORY_LAYOUT, 0), 1027) == DMA + MAPPINGS
    ensures InitialsDefined([OUT], map[]) && AllInRange([OUT])
  {
  }

  lemma FirstDecoded(log: seq<Store>)
    requires ReadBack(log, DMA + MAPPINGS) == Some(50)
    ensures InitialsDefined([OUT], map[]) && AllInRange([OUT]) && DecodeDma(log, DMA) != Meanings([OUT], map[])
  {
    hide ReadBack, RunPort;
    var decoded := DecodeDma(log, DMA);
    assert |decoded| > 0 ==> decoded[0].fields == Unpack(50);
    assert Meanings([OUT], map[])[0].fields.sourceIo == 1;
  }

  // ----- too many entries

  const SEVENTEEN: seq<Slot> := seq(17, _ => OUT)

  lemma OutWords()
    ensures Mapping(OUT) == 131073 && Format(OUT) == 56
  {
    hide And, Or, Shl, Portion;
    PortionFields(1, 0);
    PortionFields(2, 0);
    PackPortions(1, 2);
    FloatWidthReadsSixteen();
  }

  /** Seventeen entries: the last mapping word lands on the first format word, and the table decodes wrongly. */
  lemma SeventeenEntries(isa: Reciprocal.Isa, sort: Sorting)
    ensures var c, spec := Settings(isa, sort), System(Core("core", 0, 1), SEVENTEEN, []);
      && Fitted(c, spec, map[]) && InitialsDefined(SEVENTEEN, map[]) && AllInRange(SEVENTEEN)
      && DecodeDma(Log(c, spec, map[]), DMA) != Meanings(SEVENTEEN, map[])
  {
    hide Fitted, Log, Mapping, Format, DecodeDma, Meanings, Decoded, Entries, InRange, ConnectedValue;
    var c, spec := Settings(isa, sort), System(Core("core", 0, 1), SEVENTEEN, []);
    OutIs();
    OutUnsupplied(Core("core", 0, 1));
    AllEntries(SEVENTEEN, "core");
    NoConnections(map[], SEVENTEEN, spec.programs);
    OneCoreFits(c, spec.programs[0], SEVENTEEN, [], map[]);
    assert Accepted(c, spec, map[]) by { FittedParts(c, spec, map[]); }
    TablesDecode(c, spec, map[], 0);
    OutWords();
    assert Mapping(SEVENTEEN[16]) != Format(SEVENTEEN[0]);
  }

  lemma OutUnsupplied(p: Program)
    requires p.name == "core" && p.inputs == []
    ensures ConnectedValue([p], OUT).None?
  {
    assert [p][..0] == [];
  }

  // ----- values left behind

  const SENSOR: Input := Input("in", Constant, 9, [7], false)
  const WIRE: Slot := OUT.(destinationId := "other", destinationName := "in")

  /** The core's output feeds an input of another core, from whose value it starts. */
  const FIRST: Spec := Spec([Core("core", 0, 1), Core("other", 1, 1).(inputs := [SENSOR])], [WIRE], map[], map[])

  /** The same core on its own. */
  const SECOND: Spec := System(Core("core", 0, 1), [OUT], [])

  lemma FirstSupplies()
    ensures Connected(FIRST, map[]) == map[("core", "out") := [7]]
  {
    var ps := FIRST.programs;
    assert ps == [ps[0]] + [ps[1]] && [WIRE][..0] == [] && [SENSOR][..0] == [];
    assert InputValue([SENSOR], 1, "in") == Some([7]);
    assert ConnectedValue(ps, WIRE) == Some([7]);
    assert AfterConnections(map[], [], ps) == map[];
  }

  lemma FirstAccepted(c: Config)
    requires c.layout == REPOSITORY_LAYOUT && c.clock > 0.0
    ensures Accepted(c, FIRST, map[])
  {
    hide DeployPhase, FoldDefined, Timebase, Entries, AfterConnections, InRange;
    FirstSupplies();
    NoRates(FIRST.programs);
    WireInRange();
    EntriesFrom(FIRST.slots, "core");
    EntriesFrom(FIRST.slots, "other");
    DeployAcceptedIff(c, FIRST, map[]);
  }

  lemma WireInRange()
    ensures InRange(WIRE)
  {
  }

  /** Deployed after the first specification, the second one's table starts from a value it never mentions. */
  lemma InitialInherited(isa: Reciprocal.Isa, sort: Sorting)
    ensures var c, left := Settings(isa, sort), Connected(FIRST, map[]);
      && Accepted(c, FIRST, map[]) && Fitted(c, SECOND, left) && Fitted(c, SECOND, map[])
      && InitialsDefined([OUT], left) && InitialsDefined([OUT], map[]) && AllInRange([OUT])
      && DecodeDma(Log(c, SECOND, left), DMA) == Meanings([OUT], left)
      && DecodeDma(Log(c, SECOND, map[]), DMA) == Meanings([OUT], map[])
      && Meaning(OUT, left).initial == Some(7) && Meaning(OUT, map[]).initial == None
  {
    hide Fitted, Log, Mapping, Format, DecodeDma, Meanings, Decoded, Entries, InRange, ConnectedValue, Accepted;
    var c, left := Settings(isa, sort), Connected(FIRST, map[]);
    FirstAccepted(c);
    FirstSupplies();
    OutIs();
    OutUnsupplied(Core("core", 0, 1));
    NoConnections(map[], [OUT], SECOND.programs);
    NoConnections(left, [OUT], SECOND.programs);
    OneCoreFits(c, SECOND.programs[0], [OUT], [], map[]);
    OneCoreFits(c, SECOND.programs[0], [OUT], [], left);
    TablesDecode(c, SECOND, map[], 0);
    TablesDecode(c, SECOND, left, 0);
  }
}

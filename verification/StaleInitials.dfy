/**
 Initial values that earlier deployments left behind: exactly when they show in the tables of a later one.
 */
module StaleInitials {
  import opened Specification
  import opened DmaTable
  import opened Interconnect
  import opened Deployment
  import opened Regions
  import opened FinalLog
  import opened DeployedSystem

  /** Every table is one that nothing else of its core writes. */
  ghost predicate TablesSpared(c: Config, spec: Spec) {
    forall p :: p in spec.programs ==> TableSpared(c.layout, spec, p)
  }

  /** An entry of one of the deployed cores. */
  ghost predicate IsDeployed(spec: Spec, e: Slot) {
    exists p :: p in spec.programs && e in Entries(spec.slots, p.name)
  }

  /** No connection supplies the entry's output with a value. */
  predicate Unsupplied(spec: Spec, e: Slot) {
    LastConnected(spec.slots, spec.programs, Source(e)).None?
  }

  /** What was left behind for an entry's output on its channel. */
  function Inherited(e: Slot, ivs: InitialValues): Option<Word> {
    if InitialDefined(e, ivs) then Initial(e, ivs) else None
  }

  /** Tables differ in their initial values only. */
  lemma DecodedAlikeIff(es: seq<Slot>, ivs: InitialValues, other: InitialValues)
    requires AllInRange(es) && InitialsDefined(es, ivs) && InitialsDefined(es, other)
    ensures Decoded(es, ivs) == Decoded(es, other) <==> forall e :: e in es ==> Initial(e, ivs) == Initial(e, other)
  {
    hide Mapping, Format, InRange;
    var a, b := Decoded(es, ivs), Decoded(es, other);
    if a == b {
      forall e | e in es ensures Initial(e, ivs) == Initial(e, other) {
        var i :| 0 <= i < |es| && es[i] == e;
        assert a[i].initial == b[i].initial;
      }
    }
    if forall e :: e in es ==> Initial(e, ivs) == Initial(e, other) {
      assert forall i :: 0 <= i < |es| ==> a[i] == b[i];
    }
  }

  /** An entry's initial value depends on what was left behind only if no connection of its output supplies one. */
  lemma InitialAlikeIff(spec: Spec, ivs: InitialValues, other: InitialValues, e: Slot)
    requires InitialDefined(e, Connected(spec, ivs)) && InitialDefined(e, Connected(spec, other))
    ensures Initial(e, Connected(spec, ivs)) == Initial(e, Connected(spec, other))
       <==> Unsupplied(spec, e) ==> Inherited(e, ivs) == Inherited(e, other)
  {
    hide LastConnected, AfterConnections;
    InitialIs(ivs, spec.slots, spec.programs, e);
    InitialIs(other, spec.slots, spec.programs, e);
  }

  /**
   Deployed on top of two different histories, a specification's tables decode alike if and only if the histories
   left the same for every deployed entry whose output no connection supplies with a value.
   */
  lemma {:induction false} TablesAlikeIff(c: Config, spec: Spec, ivs: InitialValues, other: InitialValues)
    requires Fitted(c, spec, ivs) && Fitted(c, spec, other) && TablesSpared(c, spec)
    ensures (forall k :: 0 <= k < |spec.programs| ==>
               var dma := DmaBase(c.layout, spec.programs[k].index);
               DecodeDma(Log(c, spec, ivs), dma) == DecodeDma(Log(c, spec, other), dma))
       <==> forall e :: IsDeployed(spec, e) && Unsupplied(spec, e) ==>
              Inherited(e, ivs) == Inherited(e, other)
  {
    hide Deployable, DeployPhase, Placed, LayoutClear, Log, Entries, DecodeDma, DmaBase, TableSpared, Unsupplied,
      Inherited, AllInRange, Connected, Decoded;
    forall k | 0 <= k < |spec.programs|
      ensures var p := spec.programs[k];
        var dma := DmaBase(c.layout, p.index);
        DecodeDma(Log(c, spec, ivs), dma) == DecodeDma(Log(c, spec, other), dma)
        <==> forall e :: e in Entries(spec.slots, p.name) && Unsupplied(spec, e) ==>
               Inherited(e, ivs) == Inherited(e, other)
    {
      CoreAlikeIff(c, spec, ivs, other, k);
    }
    assert forall k :: 0 <= k < |spec.programs| ==> spec.programs[k] in spec.programs;
  }

  lemma CoreAlikeIff(c: Config, spec: Spec, ivs: InitialValues, other: InitialValues, k: nat)
    requires Fitted(c, spec, ivs) && Fitted(c, spec, other) && TablesSpared(c, spec) && k < |spec.programs|
    ensures var p := spec.programs[k];
      var dma := DmaBase(c.layout, p.index);
      DecodeDma(Log(c, spec, ivs), dma) == DecodeDma(Log(c, spec, other), dma)
      <==> forall e :: e in Entries(spec.slots, p.name) && Unsupplied(spec, e) ==>
             Inherited(e, ivs) == Inherited(e, other)
  {
    hide Deployable, DeployPhase, Placed, LayoutClear, Log, Entries, DecodeDma, DmaBase, TableSpared, Unsupplied,
      Inherited, InRange, Connected, Decoded, InitialDefined, Initial, Meanings, SpillIsHarmless;
    var p := spec.programs[k];
    var es := Entries(spec.slots, p.name);
    assert p in spec.programs;
    TablesDecode(c, spec, ivs, k);
    TablesDecode(c, spec, other, k);
    DecodedAlikeIff(es, Connected(spec, ivs), Connected(spec, other));
    forall e | e in es
      ensures InitialDefined(e, Connected(spec, ivs)) && InitialDefined(e, Connected(spec, other))
      ensures Initial(e, Connected(spec, ivs)) == Initial(e, Connected(spec, other))
         <==> Unsupplied(spec, e) ==> Inherited(e, ivs) == Inherited(e, other)
    {
      InitialAlikeIff(spec, ivs, other, e);
    }
  }

  /** What fits on top of a history fits without one. */
  lemma FreshFits(c: Config, spec: Spec, ivs: InitialValues)
    requires Fitted(c, spec, ivs)
    ensures Fitted(c, spec, map[])
  {
    hide DmaPhase, LoadEffects, LatePhases, AfterConnections, Placed, LayoutClear, ScheduleDefined, InRange,
      DeployPhase, EntriesInRange;
    FittedParts(c, spec, ivs);
    forall p, e | p in spec.programs && e in spec.slots && e.sourceId == p.name && InRange(e)
      ensures InitialDefined(e, Connected(spec, map[]))
    {
      ConnectionLookup(ivs, spec.slots, spec.programs, Source(e));
      ConnectionLookup(map[], spec.slots, spec.programs, Source(e));
    }
    DeployAcceptedIff(c, spec, ivs);
    DeployAcceptedIff(c, spec, map[]);
  }

  /**
   A specification's tables are those of a fresh deployer if and only if nothing was left behind for a deployed
   entry whose output no connection supplies with a value.
   */
  lemma {:induction false} TablesFreshIff(c: Config, spec: Spec, ivs: InitialValues)
    requires Fitted(c, spec, ivs) && TablesSpared(c, spec)
    ensures Fitted(c, spec, map[])
    ensures (forall k :: 0 <= k < |spec.programs| ==>
               var dma := DmaBase(c.layout, spec.programs[k].index);
               DecodeDma(Log(c, spec, ivs), dma) == DecodeDma(Log(c, spec, map[]), dma))
       <==> forall e :: IsDeployed(spec, e) && Unsupplied(spec, e) ==>
              Source(e) !in ivs
  {
    hide Deployable, DeployPhase, Placed, LayoutClear, Log, Entries, DecodeDma, DmaBase, TablesSpared, Unsupplied,
      AllInRange, Connected, IsDeployed;
    FreshFits(c, spec, ivs);
    TablesAlikeIff(c, spec, ivs, map[]);
    forall e | IsDeployed(spec, e) && Unsupplied(spec, e)
      ensures Inherited(e, ivs) == Inherited(e, map[]) <==> Source(e) !in ivs
    {
      LeftDefined(c, spec, ivs, e);
    }
  }

  /** What is left behind for an unsupplied entry is defined for its channel. */
  lemma LeftDefined(c: Config, spec: Spec, ivs: InitialValues, e: Slot)
    requires Fitted(c, spec, ivs) && IsDeployed(spec, e)
    requires Unsupplied(spec, e)
    ensures InitialDefined(e, ivs)
  {
    hide Deployable, DeployPhase, Placed, LayoutClear, AfterConnections, LastConnected, InRange;
    FittedParts(c, spec, ivs);
    var p :| p in spec.programs && e in Entries(spec.slots, p.name);
    EntriesReady(spec, p, Connected(spec, ivs));
    InitialIs(ivs, spec.slots, spec.programs, e);
  }
}

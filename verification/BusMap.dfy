/**
 The interconnect table of the deployer: finding a free bus address, and the bus address of an output.
 */
module BusMap {
  import opened Specification

  /** Bus addresses are 16 bits wide. */
  const ADDRESSES: nat := 0x1_0000

  datatype BusAddress = BusAddress(address: nat, channel: nat)

  predicate IsFree(slots: seq<Slot>, addr: nat) {
    forall i :: 0 <= i < |slots| ==> slots[i].destinationBus != addr
  }

  /** The entry drives the named output. */
  predicate Drives(e: Slot, core: string, output: string, channel: nat) {
    e.sourceId == core && e.sourceName == output && e.sourceChannel == channel
  }

  class HilBusMap {
    var busMap: seq<Slot>

    constructor ()
      ensures busMap == []
    {
      busMap := [];
    }

    method SetMap(slots: seq<Slot>)
      modifies this
      ensures busMap == slots
    {
      busMap := slots;
    }

    method PushBack(e: Slot)
      modifies this
      ensures busMap == old(busMap) + [e]
    {
      busMap := busMap + [e];
    }

    method Clear()
      modifies this
      ensures busMap == []
    {
      busMap := [];
    }

    /**
     The original address when it is free, otherwise the least free one from the size of the map up. No
     result stands for the exception.
     */
    method GetFreeAddress(original: nat) returns (r: Option<nat>)
      requires original < ADDRESSES
      ensures IsFree(busMap, original) ==> r == Some(original)
      ensures !IsFree(busMap, original) && r.Some? ==>
                && |busMap| <= r.value < ADDRESSES && IsFree(busMap, r.value)
                && forall a :: |busMap| <= a < r.value ==> !IsFree(busMap, a)
      ensures r.None? <==> !IsFree(busMap, original) && forall a :: |busMap| <= a < ADDRESSES ==> !IsFree(busMap, a)
      ensures |busMap| < 0x8000 ==> r.Some?
    {
      if IsFree(busMap, original) {
        return Some(original);
      }
      var i := |busMap|;
      while i < ADDRESSES
        invariant |busMap| <= i
        invariant i <= ADDRESSES || i == |busMap|
        invariant forall a :: |busMap| <= a < i && a < ADDRESSES ==> !IsFree(busMap, a)
      {
        if IsFree(busMap, i) {
          return Some(i);
        }
        i := i + 1;
      }
      if |busMap| < 0x8000 {
        FreeAddressExists(busMap);
      }
      return None;
    }

    /** The address of the first entry for the output; no result stands for the exception. */
    method TranslateOutput(core: string, output: string, channel: nat) returns (r: Option<BusAddress>)
      ensures r == AddressOf(FirstDriver(busMap, core, output, channel))
    {
      for i := 0 to |busMap|
        invariant FirstDriver(busMap, core, output, channel) == FirstDriver(busMap[i..], core, output, channel)
      {
        var e := busMap[i];
        assert busMap[i..][1..] == busMap[i + 1..];
        if e.sourceId == core {
          if e.sourceName == output && e.sourceChannel == channel {
            return Some(BusAddress(e.destinationBus, e.destinationChannel));
          }
        }
      }
      return None;
    }
  }

  /** The first entry that drives the output. */
  function FirstDriver(slots: seq<Slot>, core: string, output: string, channel: nat): Option<Slot> {
    if slots == [] then None
    else if Drives(slots[0], core, output, channel) then Some(slots[0])
    else FirstDriver(slots[1..], core, output, channel)
  }

  function AddressOf(e: Option<Slot>): Option<BusAddress> {
    match e
    case None => None
    case Some(slot) => Some(BusAddress(slot.destinationBus, slot.destinationChannel))
  }

  /** An output is found exactly when some entry starts from that output and channel, and then the first that does. */
  lemma {:induction false} DriverFound(slots: seq<Slot>, core: string, output: string, channel: nat)
    ensures var r := FirstDriver(slots, core, output, channel);
      && (r.None? <==> forall e :: e in slots ==>
            e.sourceId != core || e.sourceName != output || e.sourceChannel != channel)
      && (r.Some? ==>
            && r.value.sourceId == core && r.value.sourceName == output && r.value.sourceChannel == channel
            && exists i :: 0 <= i < |slots| && slots[i] == r.value
                 && forall j :: 0 <= j < i ==> !Drives(slots[j], core, output, channel))
  {
    if slots != [] {
      var r := FirstDriver(slots, core, output, channel);
      DriverFound(slots[1..], core, output, channel);
      assert slots == [slots[0]] + slots[1..];
      if r.Some? && !Drives(slots[0], core, output, channel) {
        var i :| 0 <= i < |slots| - 1 && slots[1..][i] == r.value
                 && forall j :: 0 <= j < i ==> !Drives(slots[1..][j], core, output, channel);
        assert slots[i + 1] == r.value;
        forall j | 0 <= j < i + 1 ensures !Drives(slots[j], core, output, channel) {
          assert j > 0 ==> slots[j] == slots[1..][j - 1];
        }
      }
    }
  }

  // ----- the allocator never fails on a map of fewer than 32768 entries

  ghost function Range(lo: nat, hi: nat): (s: set<nat>)
    requires lo <= hi
    ensures forall x :: x in s <==> lo <= x < hi
    ensures |s| == hi - lo
    decreases hi - lo
  {
    if lo == hi then {} else {lo} + Range(lo + 1, hi)
  }

  ghost function Used(slots: seq<Slot>): (s: set<nat>)
    ensures forall x :: x in s <==> !IsFree(slots, x)
    ensures |s| <= |slots|
  {
    if slots == [] then {}
    else
      var rest := Used(slots[1..]);
      assert forall x :: IsFree(slots, x) <==> slots[0].destinationBus != x && IsFree(slots[1..], x) by {
        FreeCons(slots);
      }
      {slots[0].destinationBus} + rest
  }

  lemma FreeCons(slots: seq<Slot>)
    requires slots != []
    ensures forall x :: IsFree(slots, x) <==> slots[0].destinationBus != x && IsFree(slots[1..], x)
  {
    forall x ensures IsFree(slots, x) <==> slots[0].destinationBus != x && IsFree(slots[1..], x) {
      if slots[0].destinationBus != x && IsFree(slots[1..], x) {
        forall i | 0 <= i < |slots| ensures slots[i].destinationBus != x {
          if i > 0 { assert slots[1..][i - 1] == slots[i]; }
        }
      }
    }
  }

  lemma SubsetSize(a: set<nat>, b: set<nat>)
    requires a <= b
    ensures |a| <= |b|
  {
    assert b == a + (b - a);
  }

  /** Pigeonhole: a map smaller than half the address space leaves a free address at or above its size. */
  lemma FreeAddressExists(slots: seq<Slot>)
    requires |slots| < 0x8000
    ensures exists a :: |slots| <= a < ADDRESSES && IsFree(slots, a)
  {
    if forall a :: |slots| <= a < ADDRESSES ==> !IsFree(slots, a) {
      SubsetSize(Range(|slots|, ADDRESSES), Used(slots));
    }
  }

  /** The bound is tight: with 32768 entries the search can find nothing. */
  lemma AllocatorBoundTight(e: Slot)
    ensures var slots := seq(0x8000, i requires 0 <= i < 0x8000 => e.(destinationBus := 0x8000 + i));
      forall a :: |slots| <= a < ADDRESSES ==> !IsFree(slots, a)
  {
    var slots := seq(0x8000, i requires 0 <= i < 0x8000 => e.(destinationBus := 0x8000 + i));
    forall a | |slots| <= a < ADDRESSES ensures !IsFree(slots, a) {
      assert slots[a - 0x8000].destinationBus == a;
    }
  }
}

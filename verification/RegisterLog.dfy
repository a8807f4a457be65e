/**
 The control plane as the hardware sees it: a log of word stores. A plain register reads back its last
 store; a command port is a selector register that picks the slot the following data stores fill.
 */
module RegisterLog {
  import opened Operations
  import opened Specification

  function ReadBack(log: seq<Store>, a: nat): Option<nat> {
    if log == [] then None
    else if log[|log| - 1].address == a then Some(log[|log| - 1].value)
    else ReadBack(log[..|log| - 1], a)
  }

  /** The stores into [lo, hi), in order. */
  function Project(log: seq<Store>, lo: nat, hi: nat): seq<Store> {
    if log == [] then []
    else
      var last := log[|log| - 1];
      Project(log[..|log| - 1], lo, hi) + (if lo <= last.address < hi then [last] else [])
  }

  ghost predicate Inside(log: seq<Store>, lo: nat, hi: nat) {
    forall i :: 0 <= i < |log| ==> lo <= log[i].address < hi
  }

  ghost predicate Outside(log: seq<Store>, lo: nat, hi: nat) {
    forall i :: 0 <= i < |log| ==> log[i].address < lo || hi <= log[i].address
  }

  lemma {:induction false} ReadBackAppend(s: seq<Store>, t: seq<Store>, a: nat)
    ensures ReadBack(s + t, a) == if ReadBack(t, a).Some? then ReadBack(t, a) else ReadBack(s, a)
  {
    if t == [] {
      assert s + t == s;
    } else {
      ReadBackAppend(s, t[..|t| - 1], a);
      assert (s + t)[..|s + t| - 1] == s + t[..|t| - 1];
    }
  }

  lemma ReadBackStep(log: seq<Store>, s: Store, a: nat)
    ensures ReadBack(log + [s], a) == if s.address == a then Some(s.value) else ReadBack(log, a)
  {
    assert (log + [s])[..|log|] == log;
  }

  lemma {:induction false} ReadBackMissing(log: seq<Store>, a: nat)
    requires forall i :: 0 <= i < |log| ==> log[i].address != a
    ensures ReadBack(log, a) == None
  {
    if log != [] { ReadBackMissing(log[..|log| - 1], a); }
  }

  /** With pairwise distinct addresses every store is read back. */
  lemma {:induction false} ReadBackDistinct(log: seq<Store>, k: nat)
    requires k < |log|
    requires forall i, j :: 0 <= i < j < |log| ==> log[i].address != log[j].address
    ensures ReadBack(log, log[k].address) == Some(log[k].value)
  {
    if k < |log| - 1 { ReadBackDistinct(log[..|log| - 1], k); }
  }

  lemma {:induction false} ProjectAppend(s: seq<Store>, t: seq<Store>, lo: nat, hi: nat)
    ensures Project(s + t, lo, hi) == Project(s, lo, hi) + Project(t, lo, hi)
  {
    if t == [] {
      assert s + t == s;
    } else {
      ProjectAppend(s, t[..|t| - 1], lo, hi);
      assert (s + t)[..|s + t| - 1] == s + t[..|t| - 1];
    }
  }

  lemma {:induction false} ProjectInside(log: seq<Store>, lo: nat, hi: nat)
    requires Inside(log, lo, hi)
    ensures Project(log, lo, hi) == log
  {
    if log != [] { ProjectInside(log[..|log| - 1], lo, hi); }
  }

  lemma {:induction false} ProjectOutside(log: seq<Store>, lo: nat, hi: nat)
    requires Outside(log, lo, hi)
    ensures Project(log, lo, hi) == []
  {
    if log != [] { ProjectOutside(log[..|log| - 1], lo, hi); }
  }

  lemma {:induction false} NothingProjected(log: seq<Store>, lo: nat, hi: nat)
    requires Project(log, lo, hi) == []
    ensures Outside(log, lo, hi)
  {
    if log != [] { NothingProjected(log[..|log| - 1], lo, hi); }
  }

  /** Registers of a region depend on its own stores only. */
  lemma {:induction false} ReadBackProject(log: seq<Store>, lo: nat, hi: nat, a: nat)
    requires lo <= a < hi
    ensures ReadBack(log, a) == ReadBack(Project(log, lo, hi), a)
  {
    if log != [] {
      var last := log[|log| - 1];
      var p := Project(log[..|log| - 1], lo, hi);
      ReadBackProject(log[..|log| - 1], lo, hi, a);
      if lo <= last.address < hi {
        assert (p + [last])[..|p|] == p;
      } else {
        assert p + [] == p;
      }
    }
  }

  // ----- blocks of stores, one window each

  function Concat(blocks: seq<seq<Store>>): seq<Store> {
    if blocks == [] then [] else Concat(blocks[..|blocks| - 1]) + blocks[|blocks| - 1]
  }

  /** A window that no block reaches. */
  lemma {:induction false} ConcatOutside(blocks: seq<seq<Store>>, lo: nat, hi: nat)
    requires forall j :: 0 <= j < |blocks| ==> Outside(blocks[j], lo, hi)
    ensures Outside(Concat(blocks), lo, hi)
  {
    if blocks != [] { ConcatOutside(blocks[..|blocks| - 1], lo, hi); }
  }

  /** A window that only one block reaches. */
  lemma {:induction false} ProjectBlock(blocks: seq<seq<Store>>, k: nat, lo: nat, hi: nat)
    requires k < |blocks|
    requires forall j :: 0 <= j < |blocks| && j != k ==> Outside(blocks[j], lo, hi)
    ensures Project(Concat(blocks), lo, hi) == Project(blocks[k], lo, hi)
  {
    hide Project, Outside;
    var n := |blocks| - 1;
    var front := blocks[..n];
    ProjectAppend(Concat(front), blocks[n], lo, hi);
    if k == n {
      ConcatOutside(front, lo, hi);
      ProjectOutside(Concat(front), lo, hi);
    } else {
      assert front[k] == blocks[k];
      ProjectBlock(front, k, lo, hi);
      ProjectOutside(blocks[n], lo, hi);
    }
  }

  // ----- command ports

  /** Selected slot, and what each (slot, data register) holds. */
  datatype Port = Port(selected: nat, slots: map<(nat, nat), nat>)

  function RunPort(log: seq<Store>, selector: nat, fields: set<nat>): Port {
    if log == [] then Port(0, map[])
    else StepPort(RunPort(log[..|log| - 1], selector, fields), log[|log| - 1], selector, fields)
  }

  function StepPort(p: Port, s: Store, selector: nat, fields: set<nat>): Port {
    if s.address == selector then p.(selected := s.value)
    else if s.address in fields then p.(slots := p.slots[(p.selected, s.address) := s.value])
    else p
  }

  function PortSlot(log: seq<Store>, selector: nat, fields: set<nat>, slot: nat, field: nat): Option<nat> {
    var slots := RunPort(log, selector, fields).slots;
    if (slot, field) in slots then Some(slots[(slot, field)]) else None
  }

  /** A port depends on the stores of its own region only. */
  lemma {:induction false} PortProject(log: seq<Store>, lo: nat, hi: nat, selector: nat, fields: set<nat>)
    requires lo <= selector < hi && forall f :: f in fields ==> lo <= f < hi
    ensures RunPort(log, selector, fields) == RunPort(Project(log, lo, hi), selector, fields)
  {
    hide StepPort;
    if log != [] {
      var last := log[|log| - 1];
      var p := Project(log[..|log| - 1], lo, hi);
      PortProject(log[..|log| - 1], lo, hi, selector, fields);
      PortStays(RunPort(p, selector, fields), last, lo, hi, selector, fields);
      if lo <= last.address < hi {
        assert (p + [last])[..|p|] == p;
      } else {
        assert p + [] == p;
      }
    }
  }

  lemma PortStays(p: Port, s: Store, lo: nat, hi: nat, selector: nat, fields: set<nat>)
    requires lo <= selector < hi && forall f :: f in fields ==> lo <= f < hi
    ensures s.address < lo || hi <= s.address ==> StepPort(p, s, selector, fields) == p
  {
  }

  lemma PortStep(log: seq<Store>, s: Store, selector: nat, fields: set<nat>)
    ensures RunPort(log + [s], selector, fields) == StepPort(RunPort(log, selector, fields), s, selector, fields)
  {
    assert (log + [s])[..|log|] == log;
  }

  /** Stores that touch neither the selector nor a data register leave the port alone. */
  lemma {:induction false} PortIgnores(log: seq<Store>, t: seq<Store>, selector: nat, fields: set<nat>)
    requires forall i :: 0 <= i < |t| ==> t[i].address != selector && t[i].address !in fields
    ensures RunPort(log + t, selector, fields) == RunPort(log, selector, fields)
  {
    if t == [] {
      assert log + t == log;
    } else {
      var n := |t| - 1;
      PortIgnores(log, t[..n], selector, fields);
      assert log + t == (log + t[..n]) + [t[n]];
      PortStep(log + t[..n], t[n], selector, fields);
    }
  }
}

/**
 Time slots: the cores sorted by execution order, each starting 90 cycles after its predecessor ends,
 and what the resulting offsets mean over an unbounded run of frames.
 */
module Schedule {

  /** What the slot calculation keeps of a program. */
  datatype SlotData = SlotData(name: string, order: nat, length: nat)

  /** Cycles left free between two cores. */
  const GUARD: nat := 90

  /** Offset of the first core. */
  const FIRST_START: nat := 2

  // ----- sorting

  ghost predicate IsSorted(v: seq<SlotData>) {
    forall i, j :: 0 <= i < j < |v| ==> v[i].order <= v[j].order
  }

  ghost predicate IsSortOf(v: seq<SlotData>, w: seq<SlotData>) {
    IsSorted(v) && multiset(v) == multiset(w)
  }

  ghost predicate Distinct<K>(v: seq<SlotData>, key: SlotData -> K) {
    forall i, j :: 0 <= i < j < |v| ==> key(v[i]) != key(v[j])
  }

  ghost predicate DistinctNames(v: seq<SlotData>) {
    Distinct(v, (d: SlotData) => d.name)
  }

  ghost predicate DistinctOrders(v: seq<SlotData>) {
    Distinct(v, (d: SlotData) => d.order)
  }

  /** x put after every element of no larger order. */
  function Insert(v: seq<SlotData>, x: SlotData): seq<SlotData> {
    if v == [] || v[|v| - 1].order <= x.order then v + [x]
    else Insert(v[..|v| - 1], x) + [v[|v| - 1]]
  }

  /** One way to sort; std::ranges::sort may order ties differently. */
  function SortByOrder(data: seq<SlotData>): seq<SlotData> {
    if data == [] then [] else Insert(SortByOrder(data[..|data| - 1]), data[|data| - 1])
  }

  ghost predicate AtMost(v: seq<SlotData>, m: nat) {
    forall i :: 0 <= i < |v| ==> v[i].order <= m
  }

  lemma SortedSnoc(v: seq<SlotData>, x: SlotData)
    ensures IsSorted(v + [x]) <==> IsSorted(v) && AtMost(v, x.order)
  {
    var r := v + [x];
    if IsSorted(r) {
      forall i, j | 0 <= i < j < |v| ensures v[i].order <= v[j].order { assert r[i] == v[i] && r[j] == v[j]; }
      forall i | 0 <= i < |v| ensures v[i].order <= x.order { assert r[i] == v[i] && r[|v|] == x; }
    }
  }

  lemma {:induction false} InsertAtMost(v: seq<SlotData>, x: SlotData, m: nat)
    requires AtMost(v, m) && x.order <= m
    ensures AtMost(Insert(v, x), m)
  {
    if v != [] && v[|v| - 1].order > x.order { InsertAtMost(v[..|v| - 1], x, m); }
  }

  lemma {:induction false} InsertSorted(v: seq<SlotData>, x: SlotData)
    requires IsSorted(v)
    ensures IsSorted(Insert(v, x))
  {
    hide IsSorted;
    if v == [] {
      SortedEmpty();
      SortedSnoc([], x);
    } else {
      var n := |v| - 1;
      assert v == v[..n] + [v[n]];
      SortedSnoc(v[..n], v[n]);
      if v[n].order <= x.order {
        SortedSnoc(v, x);
      } else {
        InsertSorted(v[..n], x);
        InsertAtMost(v[..n], x, v[n].order);
        SortedSnoc(Insert(v[..n], x), v[n]);
      }
    }
  }

  lemma SortedEmpty()
    ensures IsSorted([])
  {
  }

  lemma {:induction false} InsertMultiset(v: seq<SlotData>, x: SlotData)
    ensures multiset(Insert(v, x)) == multiset(v) + multiset{x}
  {
    if v != [] {
      assert v == v[..|v| - 1] + [v[|v| - 1]];
      InsertMultiset(v[..|v| - 1], x);
    }
  }

  lemma {:induction false} SortOrders(data: seq<SlotData>)
    ensures IsSorted(SortByOrder(data))
  {
    hide IsSorted, Insert;
    if data == [] {
      SortedEmpty();
    } else {
      SortOrders(data[..|data| - 1]);
      InsertSorted(SortByOrder(data[..|data| - 1]), data[|data| - 1]);
    }
  }

  lemma {:induction false} SortPermutes(data: seq<SlotData>)
    ensures multiset(SortByOrder(data)) == multiset(data)
  {
    hide Insert;
    if data != [] {
      var n := |data| - 1;
      SortPermutes(data[..n]);
      InsertMultiset(SortByOrder(data[..n]), data[n]);
      assert data == data[..n] + [data[n]];
    }
  }

  lemma SortSorts(data: seq<SlotData>)
    ensures IsSortOf(SortByOrder(data), data)
  {
    hide IsSorted, SortByOrder;
    SortOrders(data);
    SortPermutes(data);
  }

  ghost predicate Sorts(f: seq<SlotData> -> seq<SlotData>) {
    forall data :: IsSortOf(f(data), data)
  }

  lemma SortByOrderSorts()
    ensures Sorts(SortByOrder)
  {
    forall data ensures IsSortOf(SortByOrder(data), data) { SortSorts(data); }
  }

  /** Whatever std::ranges::sort does with ties. */
  type Sorting = f: seq<SlotData> -> seq<SlotData> | Sorts(f) witness (SortByOrderSorts(); SortByOrder)

  // ----- sums over the cores

  /** Cycles taken by the cores in v that satisfy p, each with its guard. */
  function Sum(v: seq<SlotData>, p: SlotData -> bool): nat {
    if v == [] then 0
    else Sum(v[..|v| - 1], p) + (if p(v[|v| - 1]) then v[|v| - 1].length + GUARD else 0)
  }

  function Total(v: seq<SlotData>): nat {
    Sum(v, (_: SlotData) => true)
  }

  /** Where the i-th core of a sorted list starts. */
  function StartOffset(v: seq<SlotData>, i: nat): nat
    requires i <= |v|
  {
    FIRST_START + Total(v[..i])
  }

  lemma {:induction false} SumAppend(v: seq<SlotData>, w: seq<SlotData>, p: SlotData -> bool)
    ensures Sum(v + w, p) == Sum(v, p) + Sum(w, p)
  {
    if w == [] {
      assert v + w == v;
    } else {
      SumAppend(v, w[..|w| - 1], p);
      assert (v + w)[..|v + w| - 1] == v + w[..|w| - 1];
    }
  }

  lemma SumSplit(v: seq<SlotData>, k: nat, p: SlotData -> bool)
    requires k < |v|
    ensures Sum(v, p) == Sum(v[..k], p) + (if p(v[k]) then v[k].length + GUARD else 0) + Sum(v[k + 1..], p)
  {
    assert v == v[..k + 1] + v[k + 1..];
    SumAppend(v[..k + 1], v[k + 1..], p);
    assert v[..k + 1][..k] == v[..k];
  }

  lemma IndexInSort(data: seq<SlotData>, v: seq<SlotData>, k: nat) returns (i: nat)
    requires multiset(v) == multiset(data) && k < |data|
    ensures i < |v| && v[i] == data[k]
  {
    assert data[k] in multiset(v);
    i :| 0 <= i < |v| && v[i] == data[k];
  }

  function Without(w: seq<SlotData>, k: nat): seq<SlotData>
    requires k < |w|
  {
    w[..k] + w[k + 1..]
  }

  lemma WithoutMultiset(w: seq<SlotData>, k: nat)
    requires k < |w|
    ensures multiset(Without(w, k)) == multiset(w) - multiset{w[k]}
  {
    assert w == w[..k] + [w[k]] + w[k + 1..];
  }

  lemma SumWithout(w: seq<SlotData>, k: nat, p: SlotData -> bool)
    requires k < |w|
    ensures Sum(w, p) == Sum(Without(w, k), p) + (if p(w[k]) then w[k].length + GUARD else 0)
  {
    SumSplit(w, k, p);
    SumAppend(w[..k], w[k + 1..], p);
  }

  /** A sum does not depend on the order of the list. */
  lemma {:induction false} SumOfPermutation(v: seq<SlotData>, w: seq<SlotData>, p: SlotData -> bool)
    requires multiset(v) == multiset(w)
    ensures Sum(v, p) == Sum(w, p)
    decreases |v|
  {
    if v == [] {
      assert |multiset(w)| == 0;
    } else {
      var k := IndexInSort(v, w, 0);
      WithoutMultiset(v, 0);
      WithoutMultiset(w, k);
      SumOfPermutation(Without(v, 0), Without(w, k), p);
      SumWithout(v, 0, p);
      SumWithout(w, k, p);
    }
  }

  lemma StartStep(v: seq<SlotData>, i: nat)
    requires i < |v|
    ensures StartOffset(v, i + 1) == StartOffset(v, i) + v[i].length + GUARD
  {
    assert v[..i + 1][..i] == v[..i];
  }

  lemma {:induction false} StartMonotone(v: seq<SlotData>, i: nat, j: nat)
    requires i < j <= |v|
    ensures StartOffset(v, i) + v[i].length + GUARD <= StartOffset(v, j)
    decreases j
  {
    StartStep(v, j - 1);
    if i < j - 1 { StartMonotone(v, i, j - 1); }
  }

  // ----- the table of start offsets

  /** The offsets by name, as the loop fills them: a later core of the same name overwrites. */
  function StartTable(v: seq<SlotData>): map<string, nat> {
    if v == [] then map[]
    else StartTable(v[..|v| - 1])[v[|v| - 1].name := StartOffset(v, |v| - 1)]
  }

  lemma {:induction false} StartTableKeys(v: seq<SlotData>)
    ensures forall s :: s in StartTable(v) <==> exists i :: 0 <= i < |v| && v[i].name == s
  {
    if v != [] {
      var n := |v| - 1;
      StartTableKeys(v[..n]);
      forall s ensures s in StartTable(v) <==> exists i :: 0 <= i < |v| && v[i].name == s {
        if s in StartTable(v) && s != v[n].name {
          assert s in StartTable(v[..n]);
          var i :| 0 <= i < |v[..n]| && v[..n][i].name == s;
          assert v[i].name == s;
        }
        if i :| 0 <= i < |v| && v[i].name == s {
          assert i < n ==> v[..n][i].name == s;
        }
      }
    }
  }

  lemma {:induction false} StartTableLookup(v: seq<SlotData>, i: nat)
    requires i < |v| && forall j, k :: 0 <= j < k < |v| ==> v[j].name != v[k].name
    ensures v[i].name in StartTable(v) && StartTable(v)[v[i].name] == StartOffset(v, i)
  {
    var n := |v| - 1;
    if i < n {
      StartTableLookup(v[..n], i);
      assert v[..n][..i] == v[..i];
    }
  }

  /** The offsets the calculation returns, one per program in list order, for some sort of the cores. */
  ghost predicate ShiftsOf(data: seq<SlotData>, v: seq<SlotData>, shifts: seq<nat>) {
    && IsSortOf(v, data)
    && |shifts| == |data|
    && forall k :: 0 <= k < |data| ==>
         data[k].name in StartTable(v) && shifts[k] == StartTable(v)[data[k].name]
  }

  lemma DistinctOfPermutation<K>(v: seq<SlotData>, w: seq<SlotData>, key: SlotData -> K)
    requires multiset(v) == multiset(w) && Distinct(v, key)
    ensures Distinct(w, key)
  {
    forall i, j | 0 <= i < j < |w| ensures key(w[i]) != key(w[j]) {
      var a := IndexInSort(w, v, i);
      var b := IndexInSort(w, v, j);
      if a == b {
        assert w == w[..i] + [w[i]] + w[i + 1..j] + [w[j]] + w[j + 1..];
        assert multiset(w)[w[i]] >= 2;
        OnceOnly(v, key, a);
      }
    }
  }

  lemma OnceOnly<K>(v: seq<SlotData>, key: SlotData -> K, a: nat)
    requires Distinct(v, key) && a < |v|
    ensures multiset(v)[v[a]] == 1
  {
    assert v == v[..a] + [v[a]] + v[a + 1..];
    assert v[a] !in v[..a] && v[a] !in v[a + 1..];
  }

  // ----- closed form

  /**
   Each core starts after 2 cycles plus the slots of every core of smaller order, and cores that tie with
   it can only push it back within the slots of their common order. With distinct orders this is exact.
   */
  lemma ShiftBounds(data: seq<SlotData>, v: seq<SlotData>, shifts: seq<nat>, k: nat)
    requires ShiftsOf(data, v, shifts) && DistinctNames(data) && k < |data|
    ensures FIRST_START + Sum(data, (d: SlotData) => d.order < data[k].order) <= shifts[k]
    ensures shifts[k] + data[k].length + GUARD
            <= FIRST_START + Sum(data, (d: SlotData) => d.order <= data[k].order)
  {
    var below := (d: SlotData) => d.order < data[k].order;
    var upTo := (d: SlotData) => d.order <= data[k].order;
    DistinctOfPermutation(data, v, (d: SlotData) => d.name);
    var i := IndexInSort(data, v, k);
    StartTableLookup(v, i);
    SumOfPermutation(data, v, below);
    SumOfPermutation(data, v, upTo);
    SlotBounds(v, i, below, upTo);
  }

  lemma SlotBounds(v: seq<SlotData>, i: nat, below: SlotData -> bool, upTo: SlotData -> bool)
    requires IsSorted(v) && i < |v|
    requires forall d :: below(d) <==> d.order < v[i].order
    requires forall d :: upTo(d) <==> d.order <= v[i].order
    ensures FIRST_START + Sum(v, below) <= StartOffset(v, i)
    ensures StartOffset(v, i) + v[i].length + GUARD <= FIRST_START + Sum(v, upTo)
  {
    SumSplit(v, i, below);
    SumSplit(v, i, upTo);
    SumNone(v[i + 1..], below);
    SumMore(v[..i], below, (_: SlotData) => true);
    SumMore(v[..i], (_: SlotData) => true, upTo);
  }

  lemma {:induction false} SumNone(v: seq<SlotData>, p: SlotData -> bool)
    requires forall d :: d in v ==> !p(d)
    ensures Sum(v, p) == 0
  {
    if v != [] { SumNone(v[..|v| - 1], p); }
  }

  lemma {:induction false} SumMore(v: seq<SlotData>, p: SlotData -> bool, q: SlotData -> bool)
    requires forall d :: d in v && p(d) ==> q(d)
    ensures Sum(v, p) <= Sum(v, q)
  {
    if v != [] { SumMore(v[..|v| - 1], p, q); }
  }

  /** The exact offsets when no two cores share an order: any sort, any list order, the same offsets. */
  lemma ShiftClosedForm(data: seq<SlotData>, v: seq<SlotData>, shifts: seq<nat>, k: nat)
    requires ShiftsOf(data, v, shifts) && DistinctNames(data) && DistinctOrders(data) && k < |data|
    ensures shifts[k] == FIRST_START + Sum(data, (d: SlotData) => d.order < data[k].order)
  {
    ShiftBounds(data, v, shifts, k);
    var below := (d: SlotData) => d.order < data[k].order;
    var upTo := (d: SlotData) => d.order <= data[k].order;
    var l, r := data[..k], data[k + 1..];
    SumSplit(data, k, below);
    SumSplit(data, k, upTo);
    SumMore(l, upTo, below);
    SumMore(r, upTo, below);
  }

  /** Permuting the program list permutes the offsets with it. */
  lemma ShiftsFollowPermutation(data: seq<SlotData>, v: seq<SlotData>, shifts: seq<nat>, k: nat,
                                data': seq<SlotData>, v': seq<SlotData>, shifts': seq<nat>, k': nat)
    requires ShiftsOf(data, v, shifts) && ShiftsOf(data', v', shifts')
    requires DistinctNames(data) && DistinctOrders(data) && multiset(data) == multiset(data')
    requires k < |data| && k' < |data'| && data[k] == data'[k']
    ensures shifts[k] == shifts'[k']
  {
    DistinctOfPermutation(data, data', (d: SlotData) => d.name);
    DistinctOfPermutation(data, data', (d: SlotData) => d.order);
    ShiftClosedForm(data, v, shifts, k);
    ShiftClosedForm(data', v', shifts', k');
    SumOfPermutation(data, data', (d: SlotData) => d.order < data[k].order);
    SameSum(data', (d: SlotData) => d.order < data[k].order, (d: SlotData) => d.order < data'[k'].order);
  }

  lemma SameSum(v: seq<SlotData>, p: SlotData -> bool, q: SlotData -> bool)
    requires forall d :: d in v ==> p(d) == q(d)
    ensures Sum(v, p) == Sum(v, q)
  {
    SumMore(v, p, q);
    SumMore(v, q, p);
  }

  /** The last core of the frame ends exactly 88 cycles before the sum of all slots. */
  lemma LastSlotEnd(v: seq<SlotData>)
    requires v != []
    ensures StartOffset(v, |v| - 1) + v[|v| - 1].length == Total(v) - 88
  {
    StartStep(v, |v| - 1);
    assert v[..|v|] == v;
  }
}

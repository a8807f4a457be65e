/**
 The text dump of an operation log: one `address:value` line per word, in decimal, ROM and control plane
 apart. A parser shows that a dump determines its lines.
 */
module SimulationText {
  import opened Operations

  function Digit(d: nat): char
    requires d < 10
  {
    '0' + d as char
  }

  predicate IsDigit(c: char) {
    '0' <= c <= '9'
  }

  /** std::to_string of an unsigned number. */
  function ToDecimal(n: nat): string {
    if n < 10 then [Digit(n)] else ToDecimal(n / 10) + [Digit(n % 10)]
  }

  function Line(s: Store): string {
    ToDecimal(s.address) + ":" + ToDecimal(s.value) + "\n"
  }

  function Text(stores: seq<Store>): string {
    if stores == [] then "" else Text(stores[..|stores| - 1]) + Line(stores[|stores| - 1])
  }

  /** The lines of one operation in the ROM dump. */
  function RomLines(op: BusOp): seq<Store>
    requires Loggable(op)
  {
    if op.kind.RomPlaneWrite? then
      seq(|op.data|, i requires 0 <= i < |op.data| => Store(op.address[0] + 4 * i, op.data[i]))
    else []
  }

  /** The lines of one operation in the control dump: the i-th address with the i-th word. */
  function ControlLines(op: BusOp): seq<Store>
    requires Loggable(op)
  {
    if op.kind.ControlPlaneWrite? then
      seq(|op.data|, i requires 0 <= i < |op.data| => Store(op.address[i], op.data[i]))
    else []
  }

  function AllRomLines(log: seq<BusOp>): seq<Store>
    requires AllLoggable(log)
  {
    if log == [] then [] else AllRomLines(log[..|log| - 1]) + RomLines(log[|log| - 1])
  }

  function AllControlLines(log: seq<BusOp>): seq<Store>
    requires AllLoggable(log)
  {
    if log == [] then [] else AllControlLines(log[..|log| - 1]) + ControlLines(log[|log| - 1])
  }

  lemma TextStep(stores: seq<Store>, i: nat)
    requires i < |stores|
    ensures Text(stores[..i + 1]) == Text(stores[..i]) + Line(stores[i])
  {
    assert stores[..i + 1][..i] == stores[..i];
  }

  lemma {:induction false} TextAppend(s: seq<Store>, t: seq<Store>)
    ensures Text(s + t) == Text(s) + Text(t)
  {
    hide Line;
    if t == [] {
      assert s + t == s;
    } else {
      TextAppend(s, t[..|t| - 1]);
      assert (s + t)[..|s + t| - 1] == s + t[..|t| - 1];
    }
  }

  lemma TextsStep(log: seq<BusOp>, k: nat)
    requires k < |log| && AllLoggable(log) && AllLoggable(log[..k]) && AllLoggable(log[..k + 1])
    ensures Text(AllRomLines(log[..k + 1])) == Text(AllRomLines(log[..k])) + Text(RomLines(log[k]))
    ensures Text(AllControlLines(log[..k + 1])) == Text(AllControlLines(log[..k])) + Text(ControlLines(log[k]))
  {
    hide RomLines, ControlLines, Loggable;
    assert log[..k + 1][..k] == log[..k];
    TextAppend(AllRomLines(log[..k]), RomLines(log[k]));
    TextAppend(AllControlLines(log[..k]), ControlLines(log[k]));
  }

  // ----- reading a dump back

  datatype Parsed = Malformed | Lines(stores: seq<Store>)

  /** Reads numbers digit by digit; `address` is set between the colon and the end of a line. */
  function Parse(t: string, number: nat, address: seq<nat>): Parsed
    decreases |t|
  {
    if t == "" then (if number == 0 && address == [] then Lines([]) else Malformed)
    else if IsDigit(t[0]) then Parse(t[1..], 10 * number + (t[0] - '0') as nat, address)
    else if t[0] == ':' && address == [] then Parse(t[1..], 0, [number])
    else if t[0] == '\n' && |address| == 1 then
      var rest := Parse(t[1..], 0, []);
      if rest.Malformed? then Malformed else Lines([Store(address[0], number)] + rest.stores)
    else Malformed
  }

  lemma {:induction false} ParseDecimal(n: nat, rest: string, address: seq<nat>)
    ensures Parse(ToDecimal(n) + rest, 0, address) == Parse(rest, n, address)
  {
    if n < 10 {
      assert ([Digit(n)] + rest)[1..] == rest;
    } else {
      var d := [Digit(n % 10)];
      assert ToDecimal(n) + rest == ToDecimal(n / 10) + (d + rest);
      ParseDecimal(n / 10, d + rest, address);
      assert (d + rest)[1..] == rest;
    }
  }

  lemma ParseLine(s: Store, rest: string)
    ensures Parse(Line(s) + rest, 0, []) ==
            var r := Parse(rest, 0, []);
            if r.Malformed? then Malformed else Lines([s] + r.stores)
  {
    var value := ToDecimal(s.value) + ("\n" + rest);
    assert Line(s) + rest == ToDecimal(s.address) + (":" + value);
    ParseDecimal(s.address, ":" + value, []);
    assert (":" + value)[1..] == value;
    ParseDecimal(s.value, "\n" + rest, [s.address]);
    assert ("\n" + rest)[1..] == rest;
  }

  /** A dump parses back to exactly its lines, so no two different line lists share a dump. */
  lemma {:induction false} TextParsesBack(stores: seq<Store>, rest: string)
    ensures Parse(Text(stores) + rest, 0, []) ==
            var r := Parse(rest, 0, []);
            if r.Malformed? then Malformed else Lines(stores + r.stores)
  {
    hide Parse, Line;
    if stores == [] {
      assert Text(stores) + rest == rest;
      var r := Parse(rest, 0, []);
      if !r.Malformed? { assert stores + r.stores == r.stores; }
    } else {
      var n := |stores| - 1;
      var last := Line(stores[n]);
      assert Text(stores) + rest == Text(stores[..n]) + (last + rest);
      TextParsesBack(stores[..n], last + rest);
      ParseLine(stores[n], rest);
      var r := Parse(rest, 0, []);
      if !r.Malformed? {
        assert stores[..n] + ([stores[n]] + r.stores) == stores + r.stores;
      }
    }
  }

  /** Two lists print alike only if they are the same. */
  lemma TextInjective(s: seq<Store>, t: seq<Store>)
    requires Text(s) == Text(t)
    ensures s == t
  {
    TextParsesBack(s, "");
    TextParsesBack(t, "");
    assert Text(s) + "" == Text(s) && s + [] == s && t + [] == t;
  }

  /** Different numbers print differently, also between the same texts. */
  lemma DecimalsDiffer(before: string, m: nat, n: nat, after: string)
    ensures before + ToDecimal(m) + after == before + ToDecimal(n) + after <==> m == n
  {
    hide ToDecimal;
    var s, t := before + ToDecimal(m) + after, before + ToDecimal(n) + after;
    if s == t {
      assert |ToDecimal(m)| == |ToDecimal(n)|;
      assert ToDecimal(m) == s[|before|..|before| + |ToDecimal(m)|];
      assert ToDecimal(n) == t[|before|..|before| + |ToDecimal(n)|];
      OneLine(Store(m, 0));
      OneLine(Store(n, 0));
      TextInjective([Store(m, 0)], [Store(n, 0)]);
      assert [Store(m, 0)][0].address == [Store(n, 0)][0].address;
    }
  }

  /** One more digit. */
  lemma NextDigit(n: nat, s: string, d: nat)
    requires n > 0 && ToDecimal(n) == s && d < 10
    ensures ToDecimal(10 * n + d) == s + [Digit(d)]
  {
  }

  /** A line as the repository's test lists it: the last write of its reference deployment. */
  lemma LineExpected()
    ensures Line(Store(18316853248, 11)) == "18316853248:11\n"
  {
    NextDigit(1, "1", 8);
    NextDigit(18, "18", 3);
    NextDigit(183, "183", 1);
    NextDigit(1831, "1831", 6);
    NextDigit(18316, "18316", 8);
    NextDigit(183168, "183168", 5);
    NextDigit(1831685, "1831685", 3);
    NextDigit(18316853, "18316853", 2);
    NextDigit(183168532, "183168532", 4);
    NextDigit(1831685324, "1831685324", 8);
    NextDigit(1, "1", 1);
  }

  lemma OneLine(s: Store)
    ensures Text([s]) == Line(s)
  {
    assert [s][..0] == [];
  }

  // ----- what the dump is for: replaying the log

  lemma {:induction false} RomLinesReplay(log: seq<BusOp>)
    requires AllLoggable(log)
    ensures AllRomLines(log) == RomReplayAll(log)
  {
    if log != [] {
      RomLinesReplay(log[..|log| - 1]);
      assert RomLines(log[|log| - 1]) == RomReplay(log[|log| - 1]);
    }
  }

  lemma {:induction false} ControlLinesReplay(log: seq<BusOp>)
    requires AllLoggable(log) && forall op :: op in log ==> IsDirect(op)
    ensures AllControlLines(log) == ControlReplayAll(log)
  {
    if log != [] {
      ControlLinesReplay(log[..|log| - 1]);
      assert ControlLines(log[|log| - 1]) == ControlReplay(log[|log| - 1]);
    }
  }

  /** A proxied write has one line but two stores. */
  lemma {:induction false} LinesCount(log: seq<BusOp>)
    requires AllLoggable(log)
    ensures |AllControlLines(log)| <= |ControlReplayAll(log)|
    ensures |AllControlLines(log)| == |ControlReplayAll(log)| <==> forall op :: op in log ==> IsDirect(op)
  {
    hide Loggable, IsDirect, ControlLines, ControlReplay;
    if log != [] {
      var n := |log| - 1;
      assert log == log[..n] + [log[n]];
      LinesCount(log[..n]);
      LinesOfOp(log[n]);
    }
  }

  lemma LinesOfOp(op: BusOp)
    requires Loggable(op)
    ensures |ControlLines(op)| <= |ControlReplay(op)|
    ensures |ControlLines(op)| == |ControlReplay(op)| <==> IsDirect(op)
  {
  }

  /**
   Faithful dumps, exactly: parsing the ROM text always gives the stores that replaying the log carries out,
   in order, and parsing the control text gives them if and only if every write in the log is direct.
   */
  lemma {:induction false} DumpIsFaithful(log: seq<BusOp>)
    requires AllLoggable(log)
    ensures Parse(Text(AllRomLines(log)), 0, []) == Lines(RomReplayAll(log))
    ensures Parse(Text(AllControlLines(log)), 0, []) == Lines(ControlReplayAll(log))
       <==> forall op :: op in log ==> IsDirect(op)
  {
    hide Parse, Text, AllRomLines, AllControlLines, Loggable, IsDirect, ControlReplayAll, RomReplayAll;
    RomLinesReplay(log);
    LinesCount(log);
    ParsesToItself(AllRomLines(log));
    ParsesToItself(AllControlLines(log));
    if forall op :: op in log ==> IsDirect(op) {
      ControlLinesReplay(log);
    }
  }

  lemma ParsesToItself(stores: seq<Store>)
    ensures Parse(Text(stores), 0, []) == Lines(stores)
  {
    TextParsesBack(stores, "");
    assert Text(stores) + "" == Text(stores) && stores + [] == stores;
  }

  /**
   Nor can any other reading of the dump help: a proxied write prints as a direct write to its target, so two
   logs that store different words dump alike.
   */
  lemma ProxiedWriteDumpsAsDirect(target: nat, proxy: nat, data: nat)
    ensures var direct := BusOp([target], [data], ControlPlaneWrite);
      var proxied := BusOp([target, proxy], [data], ControlPlaneWrite);
      && AllLoggable([direct]) && AllLoggable([proxied])
      && Text(AllControlLines([direct])) == Text(AllControlLines([proxied]))
      && ControlReplayAll([direct]) != ControlReplayAll([proxied])
  {
    var direct := BusOp([target], [data], ControlPlaneWrite);
    var proxied := BusOp([target, proxy], [data], ControlPlaneWrite);
    assert [direct][..0] == [] && [proxied][..0] == [];
    assert ControlLines(direct) == ControlLines(proxied);
    assert |ControlReplay(direct)| == 1 && |ControlReplay(proxied)| == 2;
  }
}

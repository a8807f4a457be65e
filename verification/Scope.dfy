/**
 The scope's sample path: a 64-bit word holds 32 data bits, a 16-bit channel tag and the 16-bit format
 word. The demultiplexer splits a buffer by tag and scales each sample; the kernel emulator interleaves.
 */
module Scope {
  import opened Arithmetic
  import opened Bits
  import opened ChannelFormat

  const N_CHANNELS: nat := 6

  /** A float sample is the raw bit pattern, any other one a scaled integer. */
  datatype Sample = Scaled(value: real) | FloatBits(bits: nat)

  function GetData(word: nat): nat {
    And(word, 0xffffffff)
  }

  function GetChannel(word: nat): nat {
    Shr(And(word, 0x0000ffff00000000), 32)
  }

  function GetMetadata(word: nat): nat {
    Shr(And(word, 0xffff000000000000), 48)
  }

  function ToInt32(x: int): int {
    var u := x % 0x1_0000_0000;
    if u < 0x8000_0000 then u else u - 0x1_0000_0000
  }

  /** The xor-subtract trick, in 32-bit unsigned arithmetic read back as signed. */
  function SignExtend(value: nat, bits: nat): int
    requires bits > 0
  {
    var mask := Shl(1, bits - 1);
    var v := And(value, Shl(1, bits) - 1);
    ToInt32(Xor(v, mask) - mask)
  }

  function ScaleData(raw: nat, size: nat, factor: real, signed: bool, float: bool): Sample
    requires size > 0
  {
    if float then FloatBits(raw)
    else
      var masked := And(raw, Shl(1, size) - 1);
      var sample := if signed then SignExtend(masked, size) else masked;
      Scaled(factor * sample as real)
  }

  /** One buffer word, read with the format it carries. */
  function ScaleWord(word: nat, factor: real): Sample {
    var format := GetMetadata(word);
    ScaleData(GetData(word), SizeOf(format), factor, IsSigned(format), IsFloat(format))
  }

  /** A number, times the factor of its channel. */
  function Scale(factor: real, x: int): Sample {
    Scaled(factor * x as real)
  }

  /**
   What a buffer word stands for: the bits of a float, or a number of the format's width, in two's complement if the
   format says so, times the factor.
   */
  function SampleOf(word: nat, factor: real): Sample {
    var format, data := GetMetadata(word), GetData(word);
    if IsFloat(format) then FloatBits(data)
    else if IsSigned(format) then Scale(factor, TwosComplement(data, SizeOf(format)))
    else Scale(factor, Low(data, SizeOf(format)))
  }

  // ----- sign extension is two's complement decoding

  /** The value of the low w bits read as two's complement. */
  function TwosComplement(x: nat, w: nat): int
    requires w > 0
  {
    var low := Low(x, w);
    if low < Pow2(w - 1) then low else low - Pow2(w)
  }

  /** s lies in [-2^(w-1), 2^(w-1)). */
  predicate FitsSigned(s: int, w: nat)
    requires w > 0
  {
    s < Pow2(w - 1) && -s <= Pow2(w - 1)
  }

  /** For every width, the decoding is two's complement and lands in the signed range of the width. */
  lemma SignExtendIsTwosComplement(value: nat, w: nat)
    requires 0 < w <= 31
    ensures SignExtend(value, w) == TwosComplement(value, w)
    ensures FitsSigned(SignExtend(value, w), w)
  {
    hide And, Xor, Shr, Low, Shl, ToInt32;
    var v := Low(value, w);
    OneShifted(w);
    OneShifted(w - 1);
    AndMask(value, w);
    SplitAt(value, w);
    XorBit(v, w - 1);
    HighBit(v, w - 1);
    Pow2Values();
    Pow2Monotone(w, 31);
    WrapSmall(if v >= Pow2(w - 1) then v - Pow2(w) else v);
  }

  lemma WrapSmall(x: int)
    requires -0x8000_0000 <= x < 0x8000_0000
    ensures ToInt32(x) == x
  {
  }

  lemma OneShifted(w: nat)
    ensures Shl(1, w) == Pow2(w)
  {
    ShlIsProduct(1, w);
  }

  lemma HighBit(v: nat, k: nat)
    requires v < 2 * Pow2(k)
    ensures Bit(v, k) <==> v >= Pow2(k)
  {
    var b := if v < Pow2(k) then 0 else 1;
    ShlIsProduct(b, k);
    SplitUnique(b, v - b * Pow2(k), k);
  }

  /** Truncating to w bits and extending again is the identity on the w-bit signed range, for every width. */
  lemma SignExtendInvertsTruncation(s: int, w: nat)
    requires 0 < w <= 31 && FitsSigned(s, w)
    ensures SignExtend(s % 0x1_0000_0000, w) == s
  {
    hide And, Xor, Shr, Low, Shl, SignExtend;
    var u := s % 0x1_0000_0000;
    SignExtendIsTwosComplement(u, w);
    Pow2Values();
    Pow2Monotone(w, 31);
    if s >= 0 {
      assert u == s;
      LowOfSmall(s, w);
    } else {
      assert u == s + Pow2(32);
      Pow2Add(32 - w, w);
      Pow2Split(w);
      SplitUnique(Pow2(32 - w) - 1, s + Pow2(w), w);
    }
  }

  lemma LowOfSmall(x: nat, w: nat)
    requires x < Pow2(w)
    ensures Low(x, w) == x
  {
    ShlIsProduct(0, w);
    SplitUnique(0, x, w);
  }

  lemma Pow2Split(w: nat)
    requires w <= 32
    ensures Shl(Pow2(32 - w) - 1, w) == Pow2(32) - Pow2(w)
  {
    hide Pow2, Shl;
    var p, q := Pow2(32 - w), Pow2(w);
    ShlIsProduct(p - 1, w);
    ShlIsProduct(q, 32 - w);
    Pow2Add(32 - w, w);
    assert Pow2(32) == q * p;
    Distribute(p, -1, q);
  }

  // ----- the fields of a word

  lemma WordFields(format: nat, tag: nat, data: nat)
    requires format < 0x1_0000 && tag < 0x1_0000 && data < 0x1_0000_0000
    ensures var word := Or(HighSideField(format, tag), data);
      GetData(word) == data && GetChannel(word) == tag && GetMetadata(word) == format
  {
    hide And, Or, Shr, Low, Shl;
    Pow2Values();
    var high := Shl(format, 16) + tag;
    var word := Shl(high, 32) + data;
    OrDisjoint(format, tag, 16);
    OrDisjoint(high, data, 32);
    SplitUnique(high, data, 32);
    SplitUnique(format, tag, 16);
    ShrShr(word, 32, 16);
    LowOfSmall(format, 16);
    AndMask(word, 32);
    FieldMasks();
    GetField(word, 16, 32);
    GetField(word, 16, 48);
  }

  lemma FieldMasks()
    ensures Shl(0xffff, 32) == 0x0000ffff00000000 && Shl(0xffff, 48) == 0xffff000000000000
  {
    Pow2Values();
    ShlIsProduct(0xffff, 32);
    ShlIsProduct(0xffff, 48);
    Pow2Add(16, 32);
    ShlIsProduct(0x1_0000_0000, 16);
  }

  /** Masking before the extension changes nothing. */
  lemma MaskedSample(data: nat, w: nat)
    requires 0 < w <= 31
    ensures And(data, Shl(1, w) - 1) == Low(data, w)
    ensures SignExtend(Low(data, w), w) == TwosComplement(data, w)
  {
    hide And, Xor, Shr, Low, Shl, SignExtend, Pow2;
    OneShifted(w);
    AndMask(data, w);
    SignExtendIsTwosComplement(Low(data, w), w);
    LowOfLow(data, w, w);
  }

  /** Every word is scaled to what it stands for, whatever its width, flags and factor. */
  lemma ScaleWordMeans(word: nat, factor: real)
    ensures ScaleWord(word, factor) == SampleOf(word, factor)
  {
    hide And, Xor, Low, Shl, SignExtend, TwosComplement, GetMetadata, GetData, IsSigned, IsFloat, SizeOf;
    var format := GetMetadata(word);
    SizeIsLowNibble(format);
    MaskedSample(GetData(word), SizeOf(format));
  }

  // ----- demultiplexing

  /** Output channel c: the samples tagged c, in buffer order, each scaled with the factor of c. */
  function Demux(words: seq<nat>, c: nat, factor: real): seq<Sample> {
    if words == [] then []
    else
      var n := |words| - 1;
      Demux(words[..n], c, factor) + (if GetChannel(words[n]) == c then [SampleOf(words[n], factor)] else [])
  }

  class ScopeManager {
    var scalingFactors: seq<real>

    constructor ()
      ensures scalingFactors == [1.0, 1.0, 1.0, 1.0, 1.0, 1.0]
    {
      scalingFactors := [1.0, 1.0, 1.0, 1.0, 1.0, 1.0];
    }

    /**
     Tags above 6 are skipped. A tag of 6 passes the range test and reads the factor table past its end;
     `beyond` stands for whatever lies there. The sample is then dropped, so the result does not depend on it.
     */
    method ShuntData(buffer: array<nat>, beyond: real) returns (ret: seq<seq<Sample>>)
      requires |scalingFactors| == N_CHANNELS
      ensures ret == Shunted(buffer[..], scalingFactors)
    {
      hide ScaleWord, SampleOf, GetChannel;
      ret := [[], [], [], [], [], []];
      for i := 0 to buffer.Length
        invariant |ret| == N_CHANNELS
        invariant forall c :: 0 <= c < N_CHANNELS ==> ret[c] == Demux(buffer[..i], c, scalingFactors[c])
      {
        assert buffer[..i + 1][..i] == buffer[..i];
        var base := GetChannel(buffer[i]);
        if base > N_CHANNELS {
          continue;
        }
        var scalingFactor := if base < N_CHANNELS then scalingFactors[base] else beyond;
        var sample := ScaleWord(buffer[i], scalingFactor);
        ScaleWordMeans(buffer[i], scalingFactor);
        if base < N_CHANNELS {
          ret := ret[base := ret[base] + [sample]];
        }
      }
      assert buffer[..buffer.Length] == buffer[..];
    }
  }

  /** All six outputs, each with its own factor. */
  function Shunted(words: seq<nat>, factors: seq<real>): seq<seq<Sample>>
    requires |factors| == N_CHANNELS
  {
    seq(N_CHANNELS, c requires 0 <= c < N_CHANNELS => Demux(words, c, factors[c]))
  }

  /** How many of the words carry tag c. */
  function Count(words: seq<nat>, c: nat): nat {
    if words == [] then 0
    else Count(words[..|words| - 1], c) + (if GetChannel(words[|words| - 1]) == c then 1 else 0)
  }

  /**
   Nothing is lost, duplicated or reordered: output c has as many samples as words tagged c, and the word
   at position i is its sample number "words tagged c before i".
   */
  lemma {:induction false} DemuxElement(words: seq<nat>, c: nat, factor: real, i: nat)
    requires i < |words| && GetChannel(words[i]) == c
    ensures |Demux(words, c, factor)| == Count(words, c) && Count(words[..i], c) < Count(words, c)
    ensures Demux(words, c, factor)[Count(words[..i], c)] == SampleOf(words[i], factor)
  {
    hide SampleOf, GetChannel;
    var n := |words| - 1;
    DemuxLength(words[..n], c, factor);
    if i < n {
      DemuxElement(words[..n], c, factor, i);
      assert words[..n][..i] == words[..i];
    }
  }

  lemma {:induction false} DemuxLength(words: seq<nat>, c: nat, factor: real)
    ensures |Demux(words, c, factor)| == Count(words, c)
  {
    if words != [] { DemuxLength(words[..|words| - 1], c, factor); }
  }

  // ----- conservation

  /** The samples of one output, marked with its channel. */
  function Marked(c: nat, samples: seq<Sample>): multiset<(nat, Sample)> {
    if samples == [] then multiset{}
    else Marked(c, samples[..|samples| - 1]) + multiset{(c, samples[|samples| - 1])}
  }

  /** The samples of outputs 0 to n - 1. */
  function Collected(outputs: seq<seq<Sample>>, n: nat): multiset<(nat, Sample)>
    requires n <= |outputs|
  {
    if n == 0 then multiset{} else Collected(outputs, n - 1) + Marked(n - 1, outputs[n - 1])
  }

  /** What a buffer holds for channels 0 to n - 1, each word scaled with the factor of its own tag. */
  function Sent(words: seq<nat>, factors: seq<real>, n: nat): multiset<(nat, Sample)>
    requires n <= |factors|
  {
    if words == [] then multiset{}
    else
      var w := words[|words| - 1];
      Sent(words[..|words| - 1], factors, n)
      + (if GetChannel(w) < n then multiset{(GetChannel(w), SampleOf(w, factors[GetChannel(w)]))} else multiset{})
  }

  lemma {:induction false} SentStep(words: seq<nat>, factors: seq<real>, n: nat)
    requires n < |factors|
    ensures Sent(words, factors, n + 1) == Sent(words, factors, n) + Marked(n, Demux(words, n, factors[n]))
  {
    hide GetChannel, SampleOf;
    if words != [] {
      var front, w := words[..|words| - 1], words[|words| - 1];
      SentStep(front, factors, n);
      var samples := Demux(front, n, factors[n]);
      var sample := SampleOf(w, factors[n]);
      assert (samples + [sample])[..|samples|] == samples;
      assert samples + [] == samples;
    }
  }

  lemma {:induction false} CollectedIsSent(words: seq<nat>, factors: seq<real>, n: nat)
    requires |factors| == N_CHANNELS && n <= N_CHANNELS
    ensures Collected(Shunted(words, factors), n) == Sent(words, factors, n)
  {
    hide Demux, GetChannel, SampleOf, Marked;
    if n == 0 {
      NothingSent(words, factors);
    } else {
      CollectedIsSent(words, factors, n - 1);
      SentStep(words, factors, n - 1);
    }
  }

  lemma {:induction false} NothingSent(words: seq<nat>, factors: seq<real>)
    ensures Sent(words, factors, 0) == multiset{}
  {
    if words != [] { NothingSent(words[..|words| - 1], factors); }
  }

  function Skipped(words: seq<nat>): nat {
    if words == [] then 0
    else Skipped(words[..|words| - 1]) + (if GetChannel(words[|words| - 1]) >= N_CHANNELS then 1 else 0)
  }

  lemma {:induction false} SentCount(words: seq<nat>, factors: seq<real>)
    requires |factors| == N_CHANNELS
    ensures |Sent(words, factors, N_CHANNELS)| + Skipped(words) == |words|
  {
    hide GetChannel, SampleOf;
    if words != [] { SentCount(words[..|words| - 1], factors); }
  }

  /**
   Conservation: the six outputs hold exactly the samples of the words tagged 0 to 5, each as often as it was
   sent, at its own channel and with that channel's factor; with the skipped words they make up the buffer.
   */
  lemma Conservation(words: seq<nat>, factors: seq<real>)
    requires |factors| == N_CHANNELS
    ensures Collected(Shunted(words, factors), N_CHANNELS) == Sent(words, factors, N_CHANNELS)
    ensures |Collected(Shunted(words, factors), N_CHANNELS)| + Skipped(words) == |words|
  {
    hide Collected, Sent, Shunted, Skipped;
    CollectedIsSent(words, factors, N_CHANNELS);
    SentCount(words, factors);
  }

  lemma DemuxEmpty(c: nat, factor: real)
    ensures Demux([], c, factor) == []
  {
  }

  lemma {:induction false} DemuxAppend(v: seq<nat>, w: seq<nat>, c: nat, factor: real)
    ensures Demux(v + w, c, factor) == Demux(v, c, factor) + Demux(w, c, factor)
  {
    hide SampleOf, GetChannel;
    if w == [] {
      assert v + w == v;
    } else {
      DemuxAppend(v, w[..|w| - 1], c, factor);
      assert (v + w)[..|v + w| - 1] == v + w[..|w| - 1];
    }
  }

  // ----- interleaving

  /** The format word of the kernel emulator: signed, 16 bits wide. */
  const EMULATOR_FORMAT: nat := 0x18

  /** The word the kernel emulator writes for sample v of channel j. */
  function Encode(v: int, j: nat): nat {
    Or(HighSideField(EMULATOR_FORMAT, j), And(v % 0x1_0000_0000, 0xFFFFFFFF))
  }

  /** Interleaves the channels point by point; the emulator does this with 1024 points. */
  method FillBuffer(channelData: seq<seq<int>>, points: nat) returns (data: array<nat>)
    requires |channelData| == N_CHANNELS
    requires forall j :: 0 <= j < N_CHANNELS ==> |channelData[j]| == points
    ensures fresh(data) && data.Length == points * N_CHANNELS
    ensures Interleaved(data[..], channelData, points)
  {
    hide And, Or, HighSideField, WithSigned, WithSize;
    data := new nat[points * N_CHANNELS];
    var m := new ChannelMetadata();
    m.SetSigned(true);
    m.SetSize(16);
    EmulatorFormat();
    for i := 0 to points
      invariant m.raw == EMULATOR_FORMAT
      invariant forall k :: 0 <= k < i * N_CHANNELS ==> data[k] == WordAt(channelData, points, k)
    {
      for j := 0 to N_CHANNELS
        invariant m.raw == EMULATOR_FORMAT
        invariant forall k :: 0 <= k < i * N_CHANNELS + j ==> data[k] == WordAt(channelData, points, k)
      {
        var metadata := HighSideField(m.raw, j);
        var sample := And(channelData[j][i] % 0x1_0000_0000, 0xFFFFFFFF);
        DivUnique(i * N_CHANNELS + j, N_CHANNELS, i, j);
        assert Or(metadata, sample) == Encode(channelData[j][i], j);
        data[i * N_CHANNELS + j] := Or(metadata, sample);
      }
    }
  }

  /** Word k is sample k/6 of channel k mod 6. */
  function WordAt(channelData: seq<seq<int>>, points: nat, k: nat): nat
    requires |channelData| == N_CHANNELS && k < points * N_CHANNELS
    requires forall j :: 0 <= j < N_CHANNELS ==> |channelData[j]| >= points
  {
    Encode(channelData[k % N_CHANNELS][k / N_CHANNELS], k % N_CHANNELS)
  }

  ghost predicate Interleaved(words: seq<nat>, channelData: seq<seq<int>>, points: nat)
    requires |channelData| == N_CHANNELS
    requires forall j :: 0 <= j < N_CHANNELS ==> |channelData[j]| >= points
  {
    && |words| == points * N_CHANNELS
    && forall k :: 0 <= k < |words| ==> words[k] == WordAt(channelData, points, k)
  }

  /** What sixteen bits keep of a sample. */
  function Wrapped(v: int): int {
    TwosComplement(v % 0x1_0000_0000, 16)
  }

  lemma WrappedKeeps(v: int)
    ensures Wrapped(v) == v <==> FitsSigned(v, 16)
  {
    hide Low, Shl;
    var data := v % 0x1_0000_0000;
    SignExtendIsTwosComplement(data, 16);
    if FitsSigned(v, 16) { SignExtendInvertsTruncation(v, 16); }
  }

  /** An encoded sample carries its channel as tag and stands for its low sixteen bits. */
  lemma EncodedSample(v: int, j: nat, factor: real)
    requires j < 0x1_0000
    ensures GetChannel(Encode(v, j)) == j
    ensures SampleOf(Encode(v, j), factor) == Scale(factor, Wrapped(v))
  {
    hide And, Or, Shr, Low, TwosComplement, SizeOf, IsSigned, IsFloat, GetData, GetChannel, GetMetadata, HighSideField;
    EmulatorFormat();
    var data := v % 0x1_0000_0000;
    MaskThirtyTwo(data);
    WordFields(EMULATOR_FORMAT, j, data);
  }

  lemma EmulatorFormat()
    ensures WithSize(WithSigned(0, true), 16) == EMULATOR_FORMAT
    ensures SizeOf(EMULATOR_FORMAT) == 16 && IsSigned(EMULATOR_FORMAT) && !IsFloat(EMULATOR_FORMAT)
  {
    hide And, Or, SizeOf, IsSigned, IsFloat, WithSize;
    OrFlags(0);
    WithSizeArithmetic(0x10, 16);
    ReadFields(0x18, 8, 1, 0, 0);
  }

  lemma MaskThirtyTwo(data: nat)
    requires data < 0x1_0000_0000
    ensures And(data, 0xFFFFFFFF) == data
  {
    Pow2Values();
    AndMask(data, 32);
    LowOfSmall(data, 32);
  }

  /** Interleaving then demultiplexing returns every channel, in order, sixteen bits a sample, times the factor. */
  lemma {:induction false} MuxDemux(words: seq<nat>, channelData: seq<seq<int>>, points: nat, c: nat, factor: real)
    requires |channelData| == N_CHANNELS && c < N_CHANNELS
    requires forall j :: 0 <= j < N_CHANNELS ==> |channelData[j]| >= points
    requires Interleaved(words, channelData, points)
    ensures Demux(words, c, factor)
         == seq(points, i requires 0 <= i < points => Scale(factor, Wrapped(channelData[c][i])))
  {
    hide Demux, Encode, Wrapped, Scale;
    if points == 0 {
      assert words == [];
      DemuxEmpty(c, factor);
    } else {
      var k := points - 1;
      var earlier, row := words[..k * 6], words[k * 6..];
      assert words == earlier + row;
      DemuxAppend(earlier, row, c, factor);
      MuxDemux(earlier, channelData, k, c, factor);
      forall b | 0 <= b < N_CHANNELS ensures row[b] == Encode(channelData[b][k], b) {
        assert row[b] == words[k * 6 + b];
        DivUnique(k * 6 + b, 6, k, b);
      }
      DemuxRow(row, seq(6, b requires 0 <= b < 6 => channelData[b][k]), c, factor);
    }
  }

  /**
   The round trip is exact, for any number of points and any factor but zero, on exactly the channels whose samples
   all lie in [-2^15, 2^15).
   */
  lemma MuxDemuxRoundTrip(words: seq<nat>, channelData: seq<seq<int>>, points: nat, c: nat, factor: real)
    requires |channelData| == N_CHANNELS && c < N_CHANNELS
    requires forall j :: 0 <= j < N_CHANNELS ==> |channelData[j]| >= points
    requires Interleaved(words, channelData, points)
    ensures Demux(words, c, factor)
         == seq(points, i requires 0 <= i < points => Scale(factor, channelData[c][i]))
       <==> factor == 0.0 || forall i :: 0 <= i < points ==> -0x8000 <= channelData[c][i] < 0x8000
  {
    hide Demux, Wrapped, Interleaved, Pow2, Scale;
    MuxDemux(words, channelData, points, c, factor);
    Pow2Values();
    var got := Demux(words, c, factor);
    var sent := seq(points, i requires 0 <= i < points => Scale(factor, channelData[c][i]));
    forall i | 0 <= i < points
      ensures got[i] == sent[i] <==> factor == 0.0 || -0x8000 <= channelData[c][i] < 0x8000
    {
      WrappedKeeps(channelData[c][i]);
      Cancel(factor, Wrapped(channelData[c][i]), channelData[c][i]);
    }
  }

  lemma Cancel(factor: real, x: int, y: int)
    ensures Scale(factor, x) == Scale(factor, y) <==> factor == 0.0 || x == y
  {
    assert factor * x as real - factor * y as real == factor * (x - y) as real;
    if factor != 0.0 && x != y { assert factor * (x - y) as real != 0.0; }
  }

  /** One point: six words, of which channel c keeps its own. */
  lemma {:induction false} DemuxRow(row: seq<nat>, values: seq<int>, c: nat, factor: real)
    requires |row| == |values| <= N_CHANNELS
    requires forall b :: 0 <= b < |row| ==> row[b] == Encode(values[b], b)
    ensures Demux(row, c, factor) == if c < |row| then [Scale(factor, Wrapped(values[c]))] else []
  {
    hide Encode, SampleOf, GetChannel, Wrapped, Scale;
    if row != [] {
      var n := |row| - 1;
      DemuxRow(row[..n], values[..n], c, factor);
      assert row == row[..n] + [row[n]];
      EncodedSample(values[n], n, factor);
    }
  }
}

/**
 From a deployed output to the scope's numbers: the format word the deployment leaves for an output is the one with
 which the scope reads its samples back.
 */
module DeployedSamples {
  import opened Specification
  import opened Bits
  import opened ChannelFormat
  import opened Scope
  import opened DmaTable
  import opened Deployment
  import opened Regions
  import opened FinalLog
  import opened DeployedSystem

  /** A sample as it reaches the scope's buffer: format and tag above 32 bits of data. */
  function BufferWord(format: nat, tag: nat, v: int): nat {
    Or(HighSideField(format, tag), v % 0x1_0000_0000)
  }

  /** The numbers an integer output can send. */
  predicate Sendable(e: Slot, v: int)
    requires 8 <= e.width <= 23
  {
    if e.isSigned then FitsSigned(v, e.width) else 0 <= v < Pow2(e.width)
  }

  /** With the format word of an entry every number it can send arrives as it is, times the factor. */
  lemma SampleArrives(e: Slot, format: nat, tag: nat, v: int, factor: real)
    requires FormatRead(e, format) && tag < 0x1_0000 && (e.isFloat || 8 <= e.width <= 23)
    ensures GetChannel(BufferWord(format, tag, v)) == tag
    ensures e.isFloat ==> SampleOf(BufferWord(format, tag, v), factor) == FloatBits(v % 0x1_0000_0000)
    ensures !e.isFloat && Sendable(e, v) ==> SampleOf(BufferWord(format, tag, v), factor) == Scale(factor, v)
  {
    hide And, Or, Shr, Low, Shl, Pow2, TwosComplement, SizeOf, IsSigned, IsFloat, GetData, GetChannel, GetMetadata,
      HighSideField, Scale, SignExtend;
    var data := v % 0x1_0000_0000;
    WordFields(format, tag, data);
    if !e.isFloat && Sendable(e, v) {
      if e.isSigned {
        SignExtendInvertsTruncation(v, e.width);
        SignExtendIsTwosComplement(data, e.width);
      } else {
        Pow2Values();
        Pow2Monotone(e.width, 32);
        LowOfSmall(v, e.width);
      }
    }
  }

  /**
   From the specification through the registers to the screen: what the scope makes of a sample of a deployed output,
   read with the format word in the core's final registers, is the number sent times the channel's factor, for
   integers of any width from 8 to 23, signed or not, and the float's own bits for floats.
   */
  lemma {:induction false} OutputSample(c: Config, spec: Spec, ivs: InitialValues, k: nat, i: nat, tag: nat, v: int,
                                        factor: real)
    requires Fitted(c, spec, ivs) && k < |spec.programs| && TableSpared(c.layout, spec, spec.programs[k])
    requires i < |Entries(spec.slots, spec.programs[k].name)| <= i + DMA_CHANNELS && tag < 0x1_0000
    ensures var e := Entries(spec.slots, spec.programs[k].name)[i];
      var decoded := DecodeDma(Log(c, spec, ivs), DmaBase(c.layout, spec.programs[k].index));
      && i < |decoded|
      && var word := BufferWord(decoded[i].format, tag, v);
      && (e.isFloat ==> GetChannel(word) == tag && SampleOf(word, factor) == FloatBits(v % 0x1_0000_0000))
      && (!e.isFloat && 8 <= e.width <= 23 && Sendable(e, v) ==>
            GetChannel(word) == tag && SampleOf(word, factor) == Scale(factor, v))
  {
    hide Deployable, Placed, LayoutClear, DeployPhase, Log, DecodeDma, Decoded, Meanings, Entries, DmaBase,
      TableSpared, Connected, InRange, InitialDefined, FormatRead, BufferWord, SampleOf, GetChannel, Sendable, Scale,
      SpillIsHarmless;
    var e := Entries(spec.slots, spec.programs[k].name)[i];
    TablesDecode(c, spec, ivs, k);
    var decoded := DecodeDma(Log(c, spec, ivs), DmaBase(c.layout, spec.programs[k].index));
    if e.isFloat || 8 <= e.width <= 23 {
      SampleArrives(e, decoded[i].format, tag, v, factor);
    }
  }
}

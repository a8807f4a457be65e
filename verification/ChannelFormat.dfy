/**
 The 16-bit format word of a scope channel: width-8 in the low four bits, then the sign and float flags.
 The deployer builds it with one function, the scope reads it with another.
 */
module ChannelFormat {
  import opened Arithmetic
  import opened Bits

  // ----- reading (scope side)

  function SizeOf(raw: nat): nat {
    And(raw, 0xF) + 8
  }

  predicate IsSigned(raw: nat) {
    Shr(And(raw, 0x10), 4) != 0
  }

  predicate IsFloat(raw: nat) {
    Shr(And(raw, 0x20), 5) != 0
  }

  /** The metadata above a tag, in the high half of a 64-bit sample; the 16-bit word is shifted as 32 bits. */
  function HighSideField(raw: nat, dest: nat): nat {
    Shl(Or(Shl(raw, 16), dest), 32)
  }

  // ----- writing (deployer side)

  /** `size - 8` is computed in 32-bit unsigned arithmetic from an 8-bit size. */
  function MetadataValue(size: nat, signed: bool, float: bool): nat {
    var ret := (size - 8) % 0x1_0000_0000;
    var ret' := if signed then Or(ret, 0x10) else ret;
    if float then Or(ret', 0x20) else ret'
  }

  // ----- what the fields are

  lemma SizeIsLowNibble(raw: nat)
    ensures SizeOf(raw) == raw % 16 + 8
  {
    Pow2Values();
    AndMask(raw, 4);
    LowIsMod(raw, 4, 16);
  }

  lemma FlagsAreBits(raw: nat)
    ensures IsSigned(raw) <==> (raw / 16) % 2 == 1
    ensures IsFloat(raw) <==> (raw / 32) % 2 == 1
  {
    hide And, Shr;
    Pow2Values();
    AndBit(raw, 4);
    AndBit(raw, 5);
    LowIsMod(raw, 4, 16);
    LowIsMod(raw, 5, 32);
    LowIsMod(16, 4, 16);
    LowIsMod(32, 5, 32);
    LowIsMod(0, 4, 16);
    LowIsMod(0, 5, 32);
  }

  lemma OrFlags(x: nat)
    ensures Or(x, 0x10) == if (x / 16) % 2 == 1 then x else x + 16
    ensures Or(x, 0x20) == if (x / 32) % 2 == 1 then x else x + 32
  {
    hide Or, Shr;
    Pow2Values();
    OrBit(x, 4);
    OrBit(x, 5);
    LowIsMod(x, 4, 16);
    LowIsMod(x, 5, 32);
  }

  lemma AndFlags(x: nat)
    requires x < 0x1_0000
    ensures And(x, 0xFFEF) == if (x / 16) % 2 == 1 then x - 16 else x
    ensures And(x, 0xFFDF) == if (x / 32) % 2 == 1 then x - 32 else x
  {
    hide And, Shr;
    Pow2Values();
    AndComplement(x, 0x10, 16);
    AndComplement(x, 0x20, 16);
    AndBit(x, 4);
    AndBit(x, 5);
    LowIsMod(x, 4, 16);
    LowIsMod(x, 5, 32);
  }

  lemma MetadataArithmetic(size: nat, signed: bool, float: bool)
    requires 8 <= size <= 23
    ensures MetadataValue(size, signed, float)
         == size - 8 + (if signed then 16 else 0) + (if float then 32 else 0)
  {
    hide Or;
    var ret := size - 8;
    OrFlags(ret);
    OrFlags(ret + 16);
  }

  /**
   Format codec across components, exactly: for an 8-bit width the scope reads back the width, sign and
   float flag the deployer wrote for every choice of flags if and only if the width is 8 to 23.
   */
  lemma CodecIffWidthFits(size: nat)
    requires size < 256
    ensures (forall signed, float :: ReadsBack(size, signed, float)) <==> 8 <= size <= 23
  {
    if 8 <= size <= 23 {
      forall signed, float ensures ReadsBack(size, signed, float) {
        hide SizeOf, IsSigned, IsFloat, MetadataValue;
        MetadataArithmetic(size, signed, float);
        ReadFields(MetadataValue(size, signed, float), size - 8, if signed then 1 else 0, if float then 1 else 0, 0);
      }
    } else {
      SizeIsLowNibble(MetadataValue(size, false, false));
      assert !ReadsBack(size, false, false);
    }
  }

  ghost predicate ReadsBack(size: nat, signed: bool, float: bool) {
    var raw := MetadataValue(size, signed, float);
    SizeOf(raw) == size && IsSigned(raw) == signed && IsFloat(raw) == float
  }

  /** A float output is announced as 32 bits wide; the scope reads 16, and the float flag, from it. */
  lemma FloatWidthReadsSixteen()
    ensures MetadataValue(32, true, true) == 0x38
    ensures SizeOf(0x38) == 16 && IsSigned(0x38) && IsFloat(0x38)
  {
    hide Or;
    OrFlags(24);
    ReadFields(0x38, 8, 1, 1, 0);
  }

  // ----- setters

  function WithSigned(raw: nat, s: bool): nat {
    if s then Or(raw, 0x10) else And(raw, 0xFFEF)
  }

  function WithFloat(raw: nat, f: bool): nat {
    if f then Or(raw, 0x20) else And(raw, 0xFFDF)
  }

  function WithSize(raw: nat, size: nat): nat {
    Or(And(raw, 0xFFF0), And((size - 8) % 0x1_0000_0000, 0xF))
  }

  /** Bits 6 to 15, which no setter may touch. */
  function Unused(raw: nat): nat {
    raw / 64
  }

  /** The four fields determine the word and are read by division. */
  lemma FieldsByDivision(x: nat, low: nat, b4: nat, b5: nat, rest: nat)
    requires low < 16 && b4 < 2 && b5 < 2 && x == low + 16 * b4 + 32 * b5 + 64 * rest
    ensures x % 16 == low && (x / 16) % 2 == b4 && (x / 32) % 2 == b5 && x / 64 == rest
  {
    DivUnique(x, 16, b4 + 2 * b5 + 4 * rest, low);
    DivUnique(x, 32, b5 + 2 * rest, low + 16 * b4);
    DivUnique(x, 64, rest, low + 16 * b4 + 32 * b5);
    DivUnique(b4 + 2 * b5 + 4 * rest, 2, b5 + 2 * rest, b4);
    DivUnique(b5 + 2 * rest, 2, rest, b5);
  }

  lemma FieldsExist(x: nat)
    ensures x == x % 16 + 16 * ((x / 16) % 2) + 32 * ((x / 32) % 2) + 64 * (x / 64)
  {
    var q, low := x / 16, x % 16;
    var q', b4 := q / 2, q % 2;
    var rest, b5 := q' / 2, q' % 2;
    FieldsByDivision(x, low, b4, b5, rest);
  }

  /** What the readers make of a word given by its fields. */
  lemma ReadFields(x: nat, low: nat, b4: nat, b5: nat, rest: nat)
    requires low < 16 && b4 < 2 && b5 < 2 && x == low + 16 * b4 + 32 * b5 + 64 * rest
    ensures SizeOf(x) == low + 8 && IsSigned(x) == (b4 == 1) && IsFloat(x) == (b5 == 1) && Unused(x) == rest
  {
    hide And, Shr;
    FieldsByDivision(x, low, b4, b5, rest);
    SizeIsLowNibble(x);
    FlagsAreBits(x);
  }

  /** Each field is read back as set, and setting it leaves every other field alone. */
  lemma SetSignedReads(raw: nat, s: bool)
    requires raw < 0x1_0000
    ensures var r := WithSigned(raw, s);
      && r < 0x1_0000 && IsSigned(r) == s
      && SizeOf(r) == SizeOf(raw) && IsFloat(r) == IsFloat(raw) && Unused(r) == Unused(raw)
  {
    hide SizeOf, IsSigned, IsFloat, Or, And;
    OrFlags(raw);
    AndFlags(raw);
    var low, b4, b5, rest := raw % 16, (raw / 16) % 2, (raw / 32) % 2, raw / 64;
    FieldsExist(raw);
    ReadFields(raw, low, b4, b5, rest);
    ReadFields(WithSigned(raw, s), low, if s then 1 else 0, b5, rest);
  }

  lemma SetFloatReads(raw: nat, f: bool)
    requires raw < 0x1_0000
    ensures var r := WithFloat(raw, f);
      && r < 0x1_0000 && IsFloat(r) == f
      && SizeOf(r) == SizeOf(raw) && IsSigned(r) == IsSigned(raw) && Unused(r) == Unused(raw)
  {
    hide SizeOf, IsSigned, IsFloat, Or, And;
    OrFlags(raw);
    AndFlags(raw);
    var low, b4, b5, rest := raw % 16, (raw / 16) % 2, (raw / 32) % 2, raw / 64;
    FieldsExist(raw);
    ReadFields(raw, low, b4, b5, rest);
    ReadFields(WithFloat(raw, f), low, b4, if f then 1 else 0, rest);
  }

  lemma WithSizeArithmetic(raw: nat, size: nat)
    requires raw < 0x1_0000
    ensures WithSize(raw, size) == raw - raw % 16 + (size - 8) % 16
  {
    hide And, Or, Low, Shl, Shr;
    Pow2Values();
    var d := (size - 8) % 0x1_0000_0000;
    AndComplement(raw, 0xF, 16);
    AndMask(raw, 4);
    AndMask(d, 4);
    LowIsMod(raw, 4, 16);
    LowIsMod(d, 4, 16);
    ModMultiple(size - 8, 16, 0x1000_0000);
    ShlIsProduct(raw / 16, 4);
    OrDisjoint(raw / 16, d % 16, 4);
  }

  /** Only the low four bits of size-8 are kept, so a width reads back exactly when it is 8 to 23. */
  lemma SetSizeReads(raw: nat, size: nat)
    requires raw < 0x1_0000
    ensures var r := WithSize(raw, size);
      r < 0x1_0000 && IsSigned(r) == IsSigned(raw) && IsFloat(r) == IsFloat(raw) && Unused(r) == Unused(raw)
    ensures SizeOf(WithSize(raw, size)) == size <==> 8 <= size <= 23
  {
    hide SizeOf, IsSigned, IsFloat, WithSize;
    WithSizeArithmetic(raw, size);
    var low, b4, b5, rest := raw % 16, (raw / 16) % 2, (raw / 32) % 2, raw / 64;
    FieldsExist(raw);
    ReadFields(raw, low, b4, b5, rest);
    ReadFields(WithSize(raw, size), (size - 8) % 16, b4, b5, rest);
  }

  /** The format word as the driver holds it, changed in place one field at a time. */
  class ChannelMetadata {
    var raw: nat

    constructor ()
      ensures raw == 0
    {
      raw := 0;
    }

    method SetSigned(s: bool)
      modifies this
      ensures raw == WithSigned(old(raw), s)
    {
      if s {
        raw := Or(raw, 0x10);
      } else {
        raw := And(raw, 0xFFEF);
      }
    }

    method SetSize(size: nat)
      modifies this
      ensures raw == WithSize(old(raw), size)
    {
      raw := And(raw, 0xFFF0);
      raw := Or(raw, And((size - 8) % 0x1_0000_0000, 0xF));
    }

    method SetFloat(f: bool)
      modifies this
      ensures raw == WithFloat(old(raw), f)
    {
      if f {
        raw := Or(raw, 0x20);
      } else {
        raw := And(raw, 0xFFDF);
      }
    }
  }
}

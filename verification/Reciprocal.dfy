/**
 The scan that decides how many channels a core must be given: it looks for a reciprocal instruction in a
 program image, past two separator words, without being misled by the constants embedded in the code.
 */
module Reciprocal {
  import opened Bits

  /** The opcode field and the two opcodes the scan knows; their values belong to the instruction set. */
  datatype Isa = Isa(opcodeWidth: nat, ldc: nat, rec: nat)

  const SEPARATOR: nat := 0xC

  function Opcode(isa: Isa, word: nat): nat {
    And(word, Shl(1, isa.opcodeWidth) - 1)
  }

  /** The opcode is the word's lowest bits, as many as the opcode field has. */
  lemma OpcodeIsLow(isa: Isa, word: nat)
    ensures Opcode(isa, word) == word % Pow2(isa.opcodeWidth)
  {
    hide And, Shl, Pow2, Low;
    ShlIsProduct(1, isa.opcodeWidth);
    AndMask(word, isa.opcodeWidth);
    LowIsMod(word, isa.opcodeWidth, Pow2(isa.opcodeWidth));
  }

  /** The words after the second separator; none when there are fewer than two. */
  function Code(program: seq<nat>, separators: nat): seq<nat> {
    if separators == 0 then program
    else if program == [] then []
    else Code(program[1..], if program[0] == SEPARATOR then separators - 1 else separators)
  }

  /** A program image is two sections, each closed by the word 0xC, and then the code; the code may hold 0xC. */
  lemma CodeIs(first: seq<nat>, second: seq<nat>, code: seq<nat>)
    requires 0xC !in first && 0xC !in second
    ensures Code(first + [0xC] + second + [0xC] + code, 2) == code
  {
    SectionEnds(first, second + [0xC] + code, 2);
    SectionEnds(second, code, 1);
    assert first + [0xC] + second + [0xC] + code == first + [0xC] + (second + [0xC] + code);
  }

  lemma {:induction false} SectionEnds(section: seq<nat>, rest: seq<nat>, separators: nat)
    requires 0xC !in section && separators > 0
    ensures Code(section + [0xC] + rest, separators) == Code(rest, separators - 1)
  {
    var program := section + [0xC] + rest;
    if section == [] {
      assert program[1..] == rest;
    } else {
      SectionEnds(section[1..], rest, separators);
      assert program[1..] == section[1..] + [0xC] + rest;
    }
  }

  /** An instruction stream holds a reciprocal; a load-constant takes the following word as its operand. */
  predicate HasReciprocal(isa: Isa, code: seq<nat>) {
    if code == [] then false
    else if Opcode(isa, code[0]) == isa.ldc then
      isa.ldc == isa.rec || (|code| > 1 && HasReciprocal(isa, code[2..]))
    else
      Opcode(isa, code[0]) == isa.rec || HasReciprocal(isa, code[1..])
  }

  /** The scanner: one pass with a section counter and a skip flag, against the recursive decoder. */
  method CheckReciprocal(isa: Isa, program: seq<nat>, fullCoresOverride: bool) returns (channels: nat)
    ensures channels == if HasReciprocal(isa, Code(program, 2)) || fullCoresOverride then 11 else 8
  {
    var recPresent := false;
    var section := 0;
    var skipNext := false;
    for i := 0 to |program|
      invariant section <= 2
      invariant section < 2 ==> !recPresent && !skipNext && Code(program, 2) == Code(program[i..], 2 - section)
      invariant section == 2 ==>
        (HasReciprocal(isa, Code(program, 2))
         <==> recPresent || HasReciprocal(isa, if skipNext && i < |program| then program[i + 1..] else program[i..]))
    {
      var instr := program[i];
      assert program[i..][1..] == program[i + 1..];
      if section < 2 {
        if instr == SEPARATOR {
          section := section + 1;
        }
      } else {
        if skipNext {
          skipNext := false;
          continue;
        }
        if Opcode(isa, instr) == isa.ldc {
          skipNext := true;
          assert i + 1 < |program| ==> program[i..][2..] == program[i + 2..];
        }
        if Opcode(isa, instr) == isa.rec {
          recPresent := true;
        }
      }
    }
    return if recPresent || fullCoresOverride then 11 else 8;
  }

  // ----- the decoder by instruction positions

  /** Position i of the code starts an instruction, rather than being the operand of one. */
  predicate StartsInstruction(isa: Isa, code: seq<nat>, i: nat)
    requires i <= |code|
  {
    i == 0 || !StartsInstruction(isa, code, i - 1) || Opcode(isa, code[i - 1]) != isa.ldc
  }

  /** The decoder finds a reciprocal exactly when some instruction, and not some operand, is one. */
  lemma {:induction false} ReciprocalAtInstruction(isa: Isa, code: seq<nat>)
    ensures HasReciprocal(isa, code)
       <==> exists i :: 0 <= i < |code| && StartsInstruction(isa, code, i) && Opcode(isa, code[i]) == isa.rec
    decreases |code|
  {
    if code != [] {
      assert StartsInstruction(isa, code, 0);
      var step := if Opcode(isa, code[0]) == isa.ldc then 2 else 1;
      if step <= |code| {
        var rest := code[step..];
        ReciprocalAtInstruction(isa, rest);
        forall i | 0 <= i < |rest|
          ensures StartsInstruction(isa, code, step + i) == StartsInstruction(isa, rest, i) && code[step + i] == rest[i]
        {
          StartsShift(isa, code, step, i);
        }
        if i :| 0 <= i < |rest| && StartsInstruction(isa, rest, i) && Opcode(isa, rest[i]) == isa.rec {
          assert StartsInstruction(isa, code, step + i);
        }
        if i :| 0 < i < |code| && StartsInstruction(isa, code, i) && Opcode(isa, code[i]) == isa.rec {
          assert step == 2 ==> !StartsInstruction(isa, code, 1);
          assert StartsInstruction(isa, rest, i - step);
        }
      }
    }
  }

  lemma {:induction false} StartsShift(isa: Isa, code: seq<nat>, step: nat, i: nat)
    requires code != [] && step == (if Opcode(isa, code[0]) == isa.ldc then 2 else 1)
    requires step <= |code| && i <= |code| - step
    ensures StartsInstruction(isa, code, step + i) == StartsInstruction(isa, code[step..], i)
    decreases i
  {
    if i == 0 {
      assert StartsInstruction(isa, code, 0);
      assert step == 2 ==> !StartsInstruction(isa, code, 1);
    } else {
      StartsShift(isa, code, step, i - 1);
    }
  }

  /** Changing a load-constant's operand never changes the answer, whatever pattern it holds. */
  lemma OperandsDoNotCount(isa: Isa, code: seq<nat>, k: nat, word: nat)
    requires k < |code| && !StartsInstruction(isa, code, k)
    ensures HasReciprocal(isa, code[k := word]) == HasReciprocal(isa, code)
  {
    var code' := code[k := word];
    ReciprocalAtInstruction(isa, code);
    ReciprocalAtInstruction(isa, code');
    forall i | 0 <= i < |code| ensures StartsInstruction(isa, code, i) == StartsInstruction(isa, code', i) {
      OperandStarts(isa, code, k, word, i);
    }
  }

  lemma {:induction false} OperandStarts(isa: Isa, code: seq<nat>, k: nat, word: nat, i: nat)
    requires k < |code| && i <= |code| && !StartsInstruction(isa, code, k)
    ensures StartsInstruction(isa, code[k := word], i) == StartsInstruction(isa, code, i)
  {
    if i != 0 { OperandStarts(isa, code, k, word, i - 1); }
  }
}

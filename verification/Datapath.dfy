/** The combinational units the pipeline theorems leave arbitrary, as the core has them:
    ALU (alu.sv), immediate extender (sign_ext.sv), branch comparisons (bu.sv). */
module Datapath {
  import opened Width
  import opened Bits
  import opened Isa
  import opened Core
  import ControlUnit
  import MulDiv

  function Alu(op: AluOp, a: Word, b: Word): Word {
    match op
    case ADD => Add32(a, b)
    case SUB => ToWord(a - b)
    case OR => Or(a, b)
    case AND => And(a, b)
    case XOR => Xor(a, b)
    case SLT => if Signed(a) < Signed(b) then 1 else 0
    case SLTU => if a < b then 1 else 0
    case SLL => ToWord(a * Pow2(b % 32))
    case SRL => ToWord(a / Pow2(b % 32))
    case SRA => ToWord(Signed(a) / Pow2(b % 32))
  }

  predicate Compare(op: BuOp, a: Word, b: Word) {
    match op
    case NEVER => false
    case ALWAYS => true
    case EQ => a == b
    case NE => a != b
    case LT => Signed(a) < Signed(b)
    case GE => Signed(a) >= Signed(b)
    case LTU => a < b
    case GEU => a >= b
  }

  /** A field of the given number of values, its top digit repeated to the left. */
  function Extend(v: nat, size: nat): Word
    requires v < size <= 0x20_0000
  {
    if v >= size / 2 then TWO_32 - size + v else v
  }

  function Immediate(sel: ImmSel, i: Word): Word {
    match sel
    case IMM_I => Extend(i / 0x10_0000, 0x1000)
    case IMM_S => Extend(i / 0x200_0000 * 0x20 + i / 0x80 % 0x20, 0x1000)
    case IMM_B =>
      Extend(i / 0x8000_0000 * 0x1000 + i / 0x80 % 2 * 0x800 + i / 0x200_0000 % 0x40 * 0x20 + i / 0x100 % 0x10 * 2, 0x2000)
    case IMM_U => i - i % 0x1000
    case IMM_J =>
      Extend(i / 0x8000_0000 * 0x10_0000 + i / 0x1000 % 0x100 * 0x1000 + i / 0x10_0000 % 2 * 0x800
             + i / 0x20_0000 % 0x400 * 2, 0x20_0000)
  }

  /** The core with these units and its own control unit, for any ROM. */
  function Machine(rom: Word -> Word): Units {
    Units(rom, ControlUnit.Decode, Immediate, Alu, Compare, MulDiv.Result)
  }

  // ---------------------------------------------------------------- what the ALU computes

  /** Sums and differences are right modulo 2^32 under either reading; the signed comparison is the
      unsigned one of words moved by half the range. */
  lemma AluNumbers(a: Word, b: Word)
    ensures Alu(ADD, a, b) == ToWord(a + b) == ToWord(Signed(a) + Signed(b))
    ensures Alu(ADD, Alu(SUB, a, b), b) == a && Alu(SUB, Alu(ADD, a, b), b) == a
  {
    SameSum(a, b);
    Undone(a, b);
  }

  lemma SameSum(a: Word, b: Word)
    ensures ToWord(Signed(a) + Signed(b)) == ToWord(a + b)
  {
  }

  lemma Undone(a: Word, b: Word)
    ensures ToWord(ToWord(a - b) + b) == a && ToWord(ToWord(a + b) - b) == a
  {
  }

  lemma AluOrder(a: Word, b: Word)
    ensures a < b ==> Alu(SLTU, a, b) == 1 && Alu(SLTU, b, a) == 0
    ensures Alu(SLTU, a, a) == 0 && Alu(SLT, a, b) == Alu(SLTU, ToWord(a + 0x8000_0000), ToWord(b + 0x8000_0000))
  {
  }

  /** Digit by digit: the logical operations, and the shifts by the low five digits of b. A left shift
      fills with zeros, a right one with zeros or the sign. */
  lemma AluBits(a: Word, b: Word, k: nat)
    requires k < 32
    ensures BitAt(Alu(OR, a, b), k) <==> BitAt(a, k) || BitAt(b, k)
    ensures BitAt(Alu(AND, a, b), k) <==> BitAt(a, k) && BitAt(b, k)
    ensures BitAt(Alu(XOR, a, b), k) <==> BitAt(a, k) != BitAt(b, k)
    ensures var s := b % 32;
            && (BitAt(Alu(SLL, a, b), k) <==> k >= s && BitAt(a, k - s))
            && (BitAt(Alu(SRL, a, b), k) <==> k + s < 32 && BitAt(a, k + s))
            && (BitAt(Alu(SRA, a, b), k) <==> BitAt(a, if k + s < 32 then k + s else 31))
  {
    LogicBits(a, b, k);
    ShiftLeft(a, b % 32, k);
    ShiftRight(a, b % 32, k);
    ShiftSigned(a, b % 32, k);
  }

  lemma ShiftLeft(a: Word, s: nat, k: nat)
    requires k < 32
    ensures BitAt(ToWord(a * Pow2(s)), k) <==> k >= s && BitAt(a, k - s)
  {
    Pow2Word();
    LowBit(a * Pow2(s), 32, k);
    UpBit(a, s, k);
  }

  lemma ShiftRight(a: Word, s: nat, k: nat)
    requires k < 32
    ensures BitAt(ToWord(a / Pow2(s)), k) <==> k + s < 32 && BitAt(a, k + s)
  {
    Pow2Word();
    LowBit(a / Pow2(s), 32, k);
    DownBit(a, s, k);
    if k + s >= 32 {
      BelowHasNoBit(a, 32, k + s);
    }
  }

  lemma ShiftSigned(a: Word, s: nat, k: nat)
    requires k < 32
    ensures BitAt(ToWord(Signed(a) / Pow2(s)), k) <==> BitAt(a, if k + s < 32 then k + s else 31)
  {
    Pow2Word();
    LowBit(Signed(a) / Pow2(s), 32, k);
    DownBit(Signed(a), s, k);
    SignBits(a, k + s);
  }
}

/** Which words are instructions: the control unit accepts the encodings and one family more. */
module Legality {
  import opened Width
  import opened Bits
  import opened Isa
  import opened Instructions
  import opened Decoding
  import ControlUnit

  ghost predicate IsInstruction(w: Word) {
    exists i :: Encodable(i) && Encode(i) == w
  }

  /** A jalr with a function code, which the instruction set does not define. */
  predicate LooseJalr(w: Word) { w % 0x80 == 0x67 && w / 0x1000 % 8 != 0 }

  // ---------------------------------------------------------------- words from their fields

  lemma FieldsOf(w: Word)
    ensures w == RWord(ControlUnit.Funct7(w), ControlUnit.Rs2(w), ControlUnit.Rs1(w), ControlUnit.Funct3(w),
                       ControlUnit.Rd(w), ControlUnit.Opcode(w))
    ensures w == IWord(ControlUnit.CsrAddr(w), ControlUnit.Rs1(w), ControlUnit.Funct3(w), ControlUnit.Rd(w), ControlUnit.Opcode(w))
    ensures w == UWord(w / 0x1000, ControlUnit.Rd(w), ControlUnit.Opcode(w))
    ensures ControlUnit.CsrAddr(w) == ControlUnit.Funct7(w) * 0x20 + ControlUnit.Rs2(w)
  {
    Nested(w, 0x80, 0x20, 0x1000);
    Nested(w, 0x1000, 8, 0x8000);
    Nested(w, 0x8000, 0x20, 0x10_0000);
    Nested(w, 0x10_0000, 0x20, 0x200_0000);
  }

  /** The signed number with these low digits. */
  function SignedOf(v: nat, size: nat): int
    requires v < size
  {
    if v >= size / 2 then v - size else v
  }

  lemma SignedBack(v: nat, size: nat)
    requires v < size && (size == 0x1000 || size == 0x2000 || size == 0x20_0000)
    ensures SignedOf(v, size) % size == v && 0 <= SignedOf(v, size) + size / 2 < size
  {
  }

  // ---------------------------------------------------------------- opcode by opcode

  lemma RegisterWord(w: Word)
    requires ControlUnit.Opcode(w) == 0x33
    requires ControlUnit.AluOf(ControlUnit.Funct7(w), ControlUnit.Funct3(w)).Some?
             || ControlUnit.MuOf(ControlUnit.Funct7(w), ControlUnit.Funct3(w)).Some?
    ensures IsInstruction(w)
  {
    FieldsOf(w);
    var f7, f3, rd, rs1, rs2 := ControlUnit.Funct7(w), ControlUnit.Funct3(w), ControlUnit.Rd(w), ControlUnit.Rs1(w), ControlUnit.Rs2(w);
    match ControlUnit.AluOf(f7, f3)
    case Some(op) =>
      assert AluVariant(op) == f7 && AluCode(op) == f3;
      assert Encode(OpReg(op, rd, rs1, rs2)) == w;
    case None =>
      var op := ControlUnit.MuOf(f7, f3).value;
      assert MuCode(op) == f3 && f7 == 1;
      assert Encode(OpMul(op, rd, rs1, rs2)) == w;
  }

  lemma ImmediateWord(w: Word)
    requires ControlUnit.Opcode(w) == 0x13 && ControlUnit.ImmAluOf(ControlUnit.Funct7(w), ControlUnit.Funct3(w)).1
    ensures IsInstruction(w)
  {
    FieldsOf(w);
    var f7, f3, rd, rs1, rs2 := ControlUnit.Funct7(w), ControlUnit.Funct3(w), ControlUnit.Rd(w), ControlUnit.Rs1(w), ControlUnit.Rs2(w);
    var op := ControlUnit.ImmAluOf(f7, f3).0;
    assert AluCode(op) == f3;
    if IsShift(op) {
      assert AluVariant(op) == f7;
      assert Encode(OpImm(op, rd, rs1, rs2)) == w;
    } else {
      var imm := SignedOf(ControlUnit.CsrAddr(w), 0x1000);
      SignedBack(ControlUnit.CsrAddr(w), 0x1000);
      assert Encode(OpImm(op, rd, rs1, imm)) == w;
    }
  }

  lemma LoadWordIs(w: Word)
    requires ControlUnit.Opcode(w) == 0x03 && !ControlUnit.LoadOf(ControlUnit.Funct3(w)).LS_NONE?
    ensures IsInstruction(w)
  {
    FieldsOf(w);
    var ls, imm := ControlUnit.LoadOf(ControlUnit.Funct3(w)), SignedOf(ControlUnit.CsrAddr(w), 0x1000);
    SignedBack(ControlUnit.CsrAddr(w), 0x1000);
    assert LsCode(ls) == ControlUnit.Funct3(w);
    assert Encode(OpLoad(ls, ControlUnit.Rd(w), ControlUnit.Rs1(w), imm)) == w;
  }

  lemma StoreWordIs(w: Word)
    requires ControlUnit.Opcode(w) == 0x23 && !ControlUnit.StoreOf(ControlUnit.Funct3(w)).LS_NONE?
    ensures IsInstruction(w)
  {
    FieldsOf(w);
    var ls := ControlUnit.StoreOf(ControlUnit.Funct3(w));
    assert LsCode(ls) == ControlUnit.Funct3(w);
    StoreFields(ls, ControlUnit.Funct7(w), ControlUnit.Rs2(w), ControlUnit.Rs1(w), ControlUnit.Rd(w));
  }

  lemma StoreFields(ls: LsOp, hi: Bits7, rs2: RegIdx, rs1: RegIdx, lo: RegIdx)
    requires ls.IsStore()
    ensures IsInstruction(RWord(hi, rs2, rs1, LsCode(ls), lo, 0x23))
  {
    var v := hi * 0x20 + lo;
    SignedBack(v, 0x1000);
    QuotientIs(v, 0x20, hi, lo);
    assert Encode(OpStore(ls, rs1, rs2, SignedOf(v, 0x1000))) == RWord(hi, rs2, rs1, LsCode(ls), lo, 0x23);
  }

  /** The even offset whose scattered digits these fields are. */
  function BranchOffset(hi: Bits7, lo: RegIdx): nat {
    hi / 0x40 * 0x1000 + lo % 2 * 0x800 + hi % 0x40 * 0x20 + lo / 2 * 2
  }

  lemma BranchOffsetBack(hi: Bits7, lo: RegIdx)
    ensures var v := BranchOffset(hi, lo);
            v < 0x2000 && v % 2 == 0 && BHigh(v) == hi && BLow(v) == lo
  {
    BranchDigits(hi / 0x40, lo % 2, hi % 0x40, lo / 2);
  }

  lemma BranchDigits(d: nat, c: nat, b: nat, a: nat)
    requires d < 2 && c < 2 && b < 0x40 && a < 0x10
    ensures var v := d * 0x1000 + c * 0x800 + b * 0x20 + a * 2;
            v < 0x2000 && v % 2 == 0 && BHigh(v) == d * 0x40 + b && BLow(v) == a * 2 + c
  {
    var v := d * 0x1000 + c * 0x800 + b * 0x20 + a * 2;
    var x := d * 2 + c;
    var y := x * 0x40 + b;
    QuotientIs(v, 0x2000, 0, v);
    QuotientIs(v, 0x1000, d, c * 0x800 + b * 0x20 + a * 2);
    QuotientIs(v, 0x800, x, b * 0x20 + a * 2);
    QuotientIs(x, 2, d, c);
    QuotientIs(v, 0x20, y, a * 2);
    QuotientIs(y, 0x40, x, b);
    QuotientIs(v, 2, y * 0x10 + a, 0);
    QuotientIs(y * 0x10 + a, 0x10, y, a);
  }

  lemma BranchWordIs(w: Word)
    requires ControlUnit.Opcode(w) == 0x63 && !ControlUnit.BranchOf(ControlUnit.Funct3(w)).NEVER?
    ensures IsInstruction(w)
  {
    FieldsOf(w);
    var hi, lo := ControlUnit.Funct7(w), ControlUnit.Rd(w);
    var bu, v := ControlUnit.BranchOf(ControlUnit.Funct3(w)), BranchOffset(hi, lo);
    BranchOffsetBack(hi, lo);
    SignedBack(v, 0x2000);
    EvenSigned(v, 0x2000);
    BranchRest(SignedOf(v, 0x2000));
    assert BuCode(bu) == ControlUnit.Funct3(w);
    assert Encode(OpBranch(bu, ControlUnit.Rs1(w), ControlUnit.Rs2(w), SignedOf(v, 0x2000))) == w;
  }

  lemma EvenSigned(v: nat, size: nat)
    requires v < size && v % 2 == 0 && (size == 0x2000 || size == 0x20_0000)
    ensures SignedOf(v, size) % 2 == 0
  {
  }

  function JumpOffset(t: Top): nat {
    t / 0x8_0000 * 0x10_0000 + t % 0x100 * 0x1000 + t / 0x100 % 2 * 0x800 + t / 0x200 % 0x400 * 2
  }

  lemma JumpOffsetBack(t: Top)
    ensures var v := JumpOffset(t);
            v < 0x20_0000 && v % 2 == 0 && JTop(v) == t
  {
    Nested(t, 0x100, 2, 0x200);
    Nested(t, 0x200, 0x400, 0x8_0000);
    JumpDigits(t / 0x8_0000, t % 0x100, t / 0x100 % 2, t / 0x200 % 0x400);
  }

  lemma JumpDigits(d: nat, c: nat, b: nat, a: nat)
    requires d < 2 && c < 0x100 && b < 2 && a < 0x400
    ensures var v := d * 0x10_0000 + c * 0x1000 + b * 0x800 + a * 2;
            v < 0x20_0000 && v % 2 == 0 && JTop(v) == d * 0x8_0000 + a * 0x200 + b * 0x100 + c
  {
    var v := d * 0x10_0000 + c * 0x1000 + b * 0x800 + a * 2;
    var x := d * 0x100 + c;
    var y := x * 2 + b;
    QuotientIs(v, 0x20_0000, 0, v);
    QuotientIs(v, 0x10_0000, d, c * 0x1000 + b * 0x800 + a * 2);
    QuotientIs(v, 0x1000, x, b * 0x800 + a * 2);
    QuotientIs(x, 0x100, d, c);
    QuotientIs(v, 0x800, y, a * 2);
    QuotientIs(y, 2, x, b);
    QuotientIs(v, 2, y * 0x400 + a, 0);
    QuotientIs(y * 0x400 + a, 0x400, y, a);
  }

  lemma JalWordIs(w: Word)
    requires ControlUnit.Opcode(w) == 0x6F
    ensures IsInstruction(w)
  {
    FieldsOf(w);
    var t := w / 0x1000;
    var v := JumpOffset(t);
    JumpOffsetBack(t);
    SignedBack(v, 0x20_0000);
    EvenSigned(v, 0x20_0000);
    JumpRest(SignedOf(v, 0x20_0000));
    assert Encode(OpJal(ControlUnit.Rd(w), SignedOf(v, 0x20_0000))) == w;
  }

  lemma OtherWordIs(w: Word)
    requires ControlUnit.Opcode(w) in {0x37, 0x17, 0x0F} || (ControlUnit.Opcode(w) == 0x67 && ControlUnit.Funct3(w) == 0)
    ensures IsInstruction(w)
  {
    FieldsOf(w);
    var op, rd, rs1, imm := ControlUnit.Opcode(w), ControlUnit.Rd(w), ControlUnit.Rs1(w), ControlUnit.CsrAddr(w);
    if op == 0x37 {
      assert Encode(OpLui(rd, w / 0x1000)) == w;
    } else if op == 0x17 {
      assert Encode(OpAuipc(rd, w / 0x1000)) == w;
    } else if op == 0x0F {
      assert Encode(OpFence(ControlUnit.Funct3(w), rd, rs1, imm)) == w;
    } else {
      SignedBack(imm, 0x1000);
      assert Encode(OpJalr(rd, rs1, SignedOf(imm, 0x1000))) == w;
    }
  }

  lemma SystemWordIs(w: Word)
    requires ControlUnit.Opcode(w) == 0x73
    requires w in {0x73, 0x0010_0073, 0x1050_0073, 0x3020_0073} || ControlUnit.Funct3(w) in {1, 2, 3, 5, 6, 7}
    ensures IsInstruction(w)
  {
    if w in {0x73, 0x0010_0073, 0x1050_0073, 0x3020_0073} {
      KnownSystemWords();
      assert Encode(OpEcall) == w || Encode(OpEbreak) == w || Encode(OpWfi) == w || Encode(OpMret) == w;
    } else {
      FieldsOf(w);
      CsrWordIs(w, ControlUnit.Funct3(w), ControlUnit.Rd(w), ControlUnit.Rs1(w), ControlUnit.CsrAddr(w));
    }
  }

  lemma CsrWordIs(w: Word, f3: Bits3, rd: RegIdx, rs1: RegIdx, addr: CsrNum)
    requires w == IWord(addr, rs1, f3, rd, 0x73) && f3 in {1, 2, 3, 5, 6, 7}
    ensures IsInstruction(w)
  {
    var op := if f3 % 4 == 1 then CSR_RW else if f3 % 4 == 2 then CSR_RS else CSR_RC;
    if f3 < 4 {
      assert Encode(OpCsr(op, rd, rs1, addr)) == w;
    } else {
      assert Encode(OpCsrImm(op, rd, rs1, addr)) == w;
    }
  }

  // ---------------------------------------------------------------- the whole

  lemma AcceptedIsInstruction(w: Word, j: Ctl)
    requires !ControlUnit.Decode(w, PRIV_M, j).m.illegal && !LooseJalr(w)
    ensures IsInstruction(w)
  {
    var op := ControlUnit.Opcode(w);
    if op == 0x33 {
      RegisterWord(w);
    } else if op == 0x13 {
      ImmediateWord(w);
    } else if op == 0x03 {
      LoadWordIs(w);
    } else if op == 0x23 {
      StoreWordIs(w);
    } else if op == 0x63 {
      BranchWordIs(w);
    } else if op == 0x6F {
      JalWordIs(w);
    } else if op == 0x73 {
      SystemWordIs(w);
    } else {
      OtherWordIs(w);
    }
  }

  /** In machine mode the control unit takes a word for an instruction exactly if it encodes one, or is a
      jalr with a function code. */
  lemma LegalExactly(w: Word, j: Ctl)
    ensures !ControlUnit.Decode(w, PRIV_M, j).m.illegal <==> IsInstruction(w) || LooseJalr(w)
  {
    if IsInstruction(w) {
      var i :| Encodable(i) && Encode(i) == w;
      DecodesBack(i, PRIV_M, j);
    } else if !ControlUnit.Decode(w, PRIV_M, j).m.illegal && !LooseJalr(w) {
      AcceptedIsInstruction(w, j);
    }
  }
}

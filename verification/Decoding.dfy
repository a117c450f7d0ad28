/** The control unit and the immediate extender undo the encoding of every instruction. */
module Decoding {
  import opened Width
  import opened Bits
  import opened Isa
  import opened Instructions
  import opened Datapath
  import ControlUnit

  // ---------------------------------------------------------------- fields

  lemma RFields(f7: Bits7, rs2: RegIdx, rs1: RegIdx, f3: Bits3, rd: RegIdx, op: Bits7)
    ensures var i := RWord(f7, rs2, rs1, f3, rd, op);
            && ControlUnit.Opcode(i) == op && ControlUnit.Rd(i) == rd && ControlUnit.Funct3(i) == f3
            && ControlUnit.Rs1(i) == rs1 && ControlUnit.Rs2(i) == rs2 && ControlUnit.Funct7(i) == f7
            && ControlUnit.CsrAddr(i) == f7 * 0x20 + rs2
  {
    var i := RWord(f7, rs2, rs1, f3, rd, op);
    var upper := f7 * 0x20 + rs2;
    var up15 := upper * 0x20 + rs1;
    var up12 := up15 * 8 + f3;
    QuotientIs(i, 0x80, up12 * 0x20 + rd, op);
    QuotientIs(i, 0x1000, up12, rd * 0x80 + op);
    QuotientIs(i, 0x8000, up15, f3 * 0x1000 + rd * 0x80 + op);
    QuotientIs(i, 0x10_0000, upper, rs1 * 0x8000 + f3 * 0x1000 + rd * 0x80 + op);
    QuotientIs(i, 0x200_0000, f7, rs2 * 0x10_0000 + rs1 * 0x8000 + f3 * 0x1000 + rd * 0x80 + op);
  }

  /** An I-type word is an R-type one whose upper fields are the halves of the immediate. */
  lemma IFields(imm: CsrNum, rs1: RegIdx, f3: Bits3, rd: RegIdx, op: Bits7)
    ensures var i := IWord(imm, rs1, f3, rd, op);
            && ControlUnit.Opcode(i) == op && ControlUnit.Rd(i) == rd && ControlUnit.Funct3(i) == f3
            && ControlUnit.Rs1(i) == rs1 && ControlUnit.CsrAddr(i) == imm
  {
    assert imm == imm / 0x20 * 0x20 + imm % 0x20;
    RFields(imm / 0x20, imm % 0x20, rs1, f3, rd, op);
  }

  lemma UFields(top: Top, rd: RegIdx, op: Bits7)
    ensures var i := UWord(top, rd, op);
            ControlUnit.Opcode(i) == op && ControlUnit.Rd(i) == rd && i - i % 0x1000 == top * 0x1000
  {
    var i := UWord(top, rd, op);
    QuotientIs(i, 0x80, top * 0x20 + rd, op);
    QuotientIs(top * 0x20 + rd, 0x20, top, rd);
    QuotientIs(i, 0x1000, top, rd * 0x80 + op);
  }

  // ---------------------------------------------------------------- control signals

  predicate Jumps(i: Instr) { i.OpJal? || i.OpJalr? || i.OpBranch? }
  predicate UsesCsr(i: Instr) { i.OpCsr? || i.OpCsrImm? }
  predicate Privileged(i: Instr) { i.OpMret? || i.OpWfi? }
  predicate WritesRd(i: Instr) {
    i.OpReg? || i.OpMul? || i.OpImm? || i.OpLoad? || i.OpJal? || i.OpJalr? || i.OpLui? || i.OpAuipc? || UsesCsr(i)
  }

  /** Multiply and jump signals: on exactly for the instructions they belong to. */
  predicate ExPurpose(i: Instr, x: ExCtl) {
    && x.muOp == (if i.OpMul? then i.mu else MU_NOP)
    && x.buBe == Jumps(i) && (Jumps(i) ==> x.buOp == if i.OpBranch? then i.bu else ALWAYS)
  }

  /** So are memory, CSR and system signals. */
  predicate MemPurpose(i: Instr, p: Priv, m: MemCtl) {
    && m.ls == (if i.OpLoad? || i.OpStore? then i.ls else LS_NONE)
    && m.csrOp == (if UsesCsr(i) then i.csr else CSR_NONE)
    && (UsesCsr(i) ==> m.csrAddr == i.addr)
    && (m.csrWe <==> UsesCsr(i) && (i.csr.CSR_RW? || (if i.OpCsr? then i.rs1 else i.zimm) != 0))
    && (m.ecall <==> i.OpEcall?) && (m.ebreak <==> i.OpEbreak?)
    && (m.mret <==> i.OpMret? && p == PRIV_M) && (m.wfi <==> i.OpWfi? && p == PRIV_M)
    && (m.illegal <==> Privileged(i) && p != PRIV_M)
  }

  /** The destination and where its value comes from. */
  predicate Writes(i: Instr, c: Ctl) {
    && c.m.regWe == WritesRd(i)
    && (WritesRd(i) ==>
          && c.m.rd == i.rd
          && c.m.wbSel == if i.OpMul? then WB_MU else if i.OpLoad? then WB_LSU else if Jumps(i) then WB_PC4
                          else if UsesCsr(i) then WB_CSR else WB_ALU)
  }

  predicate Sum(c: Ctl, a: ASel, imm: ImmSel) {
    c.x.aluOp == ADD && c.x.aSel == a && c.x.bSel == B_IMM && c.immSel == imm
  }

  /** Operands. */
  predicate Operands(i: Instr, c: Ctl) {
    match i
    case OpReg(op, _, rs1, rs2) => c.x.aluOp == op && c.x.aSel == A_RS1 && c.x.bSel == B_RS2 && c.x.rs1 == rs1 && c.x.rs2 == rs2
    case OpMul(_, _, rs1, rs2) => c.x.rs1 == rs1 && c.x.rs2 == rs2
    case OpImm(op, _, rs1, _) => c.x.aluOp == op && c.x.aSel == A_RS1 && c.x.bSel == B_IMM && c.immSel == IMM_I && c.x.rs1 == rs1
    case OpLoad(_, _, rs1, _) => Sum(c, A_RS1, IMM_I) && c.x.rs1 == rs1
    case OpStore(_, rs1, rs2, _) => Sum(c, A_RS1, IMM_S) && c.x.rs1 == rs1 && c.x.rs2 == rs2
    case OpBranch(_, rs1, rs2, _) => Sum(c, A_PC, IMM_B) && c.x.rs1 == rs1 && c.x.rs2 == rs2
    case OpJal(_, _) => Sum(c, A_PC, IMM_J)
    case OpJalr(_, rs1, _) => Sum(c, A_RS1, IMM_I) && c.x.rs1 == rs1
    case OpLui(_, _) => Sum(c, A_RS1, IMM_U) && c.x.rs1 == 0
    case OpAuipc(_, _) => Sum(c, A_PC, IMM_U)
    case OpCsr(_, _, rs1, _) => c.x.rs1 == rs1 && c.m.csrSel == FROM_RS1
    case OpCsrImm(_, _, zimm, _) => c.m.csrSel == FROM_IMM && c.m.zimm == zimm
    case _ => true
  }

  predicate Controls(i: Instr, p: Priv, c: Ctl) {
    ExPurpose(i, c.x) && MemPurpose(i, p, c.m) && Writes(i, c) && Operands(i, c)
  }

  // ---------------------------------------------------------------- decoding, format by format

  lemma RegisterDecodes(i: Instr, p: Priv, j: Ctl)
    requires Encodable(i) && (i.OpReg? || i.OpMul?)
    ensures Controls(i, p, ControlUnit.Decode(Encode(i), p, j))
  {
    if i.OpReg? {
      RFields(AluVariant(i.alu), i.rs2, i.rs1, AluCode(i.alu), i.rd, 0x33);
    } else {
      RFields(1, i.rs2, i.rs1, MuCode(i.mu), i.rd, 0x33);
    }
  }

  lemma ImmediateDecodes(i: Instr, p: Priv, j: Ctl)
    requires Encodable(i) && i.OpImm?
    ensures Controls(i, p, ControlUnit.Decode(Encode(i), p, j))
  {
    if IsShift(i.alu) {
      RFields(AluVariant(i.alu), i.imm, i.rs1, AluCode(i.alu), i.rd, 0x13);
    } else {
      IFields(i.imm % 0x1000, i.rs1, AluCode(i.alu), i.rd, 0x13);
    }
  }

  lemma MemoryDecodes(i: Instr, p: Priv, j: Ctl)
    requires Encodable(i) && (i.OpLoad? || i.OpStore?)
    ensures Controls(i, p, ControlUnit.Decode(Encode(i), p, j))
  {
    if i.OpLoad? {
      IFields(i.imm % 0x1000, i.rs1, LsCode(i.ls), i.rd, 0x03);
    } else {
      var v := i.imm % 0x1000;
      RFields(v / 0x20, i.rs2, i.rs1, LsCode(i.ls), v % 0x20, 0x23);
    }
  }

  lemma BranchDecodes(i: Instr, p: Priv, j: Ctl)
    requires Encodable(i) && i.OpBranch?
    ensures Controls(i, p, ControlUnit.Decode(Encode(i), p, j))
  {
    BranchWordDecodes(i, BHigh(i.imm), BLow(i.imm), p, j);
  }

  lemma BranchWordDecodes(i: Instr, hi: Bits7, lo: RegIdx, p: Priv, j: Ctl)
    requires Encodable(i) && i.OpBranch?
    ensures Controls(i, p, ControlUnit.Decode(RWord(hi, i.rs2, i.rs1, BuCode(i.bu), lo, 0x63), p, j))
  {
    RFields(hi, i.rs2, i.rs1, BuCode(i.bu), lo, 0x63);
  }

  lemma JumpDecodes(i: Instr, p: Priv, j: Ctl)
    requires Encodable(i) && (i.OpJal? || i.OpJalr?)
    ensures Controls(i, p, ControlUnit.Decode(Encode(i), p, j))
  {
    if i.OpJal? {
      UFields(JTop(i.imm), i.rd, 0x6F);
    } else {
      IFields(i.imm % 0x1000, i.rs1, 0, i.rd, 0x67);
    }
  }

  lemma UpperDecodes(i: Instr, p: Priv, j: Ctl)
    requires Encodable(i) && (i.OpLui? || i.OpAuipc?)
    ensures Controls(i, p, ControlUnit.Decode(Encode(i), p, j))
  {
    UFields(i.top, i.rd, if i.OpLui? then 0x37 else 0x17);
  }

  lemma CsrDecodes(i: Instr, p: Priv, j: Ctl)
    requires Encodable(i) && UsesCsr(i)
    ensures Controls(i, p, ControlUnit.Decode(Encode(i), p, j))
  {
    if i.OpCsr? {
      IFields(i.addr, i.rs1, CsrCode(i.csr), i.rd, 0x73);
      CsrWord(Encode(i), p, ControlUnit.Defaults(Encode(i), j));
    } else {
      IFields(i.addr, i.zimm, CsrCode(i.csr) + 4, i.rd, 0x73);
      CsrWord(Encode(i), p, ControlUnit.Defaults(Encode(i), j));
    }
  }

  /** A word with a function code is none of the four exact system words. */
  lemma CsrWord(w: Word, p: Priv, d: Ctl)
    requires ControlUnit.Opcode(w) == 0x73 && ControlUnit.Funct3(w) != 0
    ensures ControlUnit.Arm(w, p, d) == ControlUnit.Csr(w, p, d)
  {
  }

  lemma SystemDecodes(i: Instr, p: Priv, j: Ctl)
    requires i.OpEcall? || i.OpEbreak? || i.OpMret? || i.OpWfi?
    ensures Controls(i, p, ControlUnit.Decode(Encode(i), p, j))
  {
    KnownSystemWords();
    SystemWord(Encode(i), p, ControlUnit.Defaults(Encode(i), j));
  }

  lemma SystemWord(w: Word, p: Priv, d: Ctl)
    requires w == 0x73 || w == 0x0010_0073 || w == 0x1050_0073 || w == 0x3020_0073
    ensures ControlUnit.Arm(w, p, d) == ControlUnit.System(w, p, d)
  {
  }

  lemma FenceDecodes(i: Instr, p: Priv, j: Ctl)
    requires Encodable(i) && i.OpFence?
    ensures Controls(i, p, ControlUnit.Decode(Encode(i), p, j))
  {
    IFields(i.rest, i.rs1, i.f3, i.rd, 0x0F);
  }

  /** Every instruction decodes to its own signals, whatever the unassigned outputs hold. */
  lemma DecodesBack(i: Instr, p: Priv, j: Ctl)
    requires Encodable(i)
    ensures Controls(i, p, ControlUnit.Decode(Encode(i), p, j))
  {
    match i
    case OpReg(_, _, _, _) => RegisterDecodes(i, p, j);
    case OpMul(_, _, _, _) => RegisterDecodes(i, p, j);
    case OpImm(_, _, _, _) => ImmediateDecodes(i, p, j);
    case OpLoad(_, _, _, _) => MemoryDecodes(i, p, j);
    case OpStore(_, _, _, _) => MemoryDecodes(i, p, j);
    case OpBranch(_, _, _, _) => BranchDecodes(i, p, j);
    case OpJal(_, _) => JumpDecodes(i, p, j);
    case OpJalr(_, _, _) => JumpDecodes(i, p, j);
    case OpLui(_, _) => UpperDecodes(i, p, j);
    case OpAuipc(_, _) => UpperDecodes(i, p, j);
    case OpCsr(_, _, _, _) => CsrDecodes(i, p, j);
    case OpCsrImm(_, _, _, _) => CsrDecodes(i, p, j);
    case OpFence(_, _, _, _) => FenceDecodes(i, p, j);
    case OpEcall => SystemDecodes(i, p, j);
    case OpEbreak => SystemDecodes(i, p, j);
    case OpMret => SystemDecodes(i, p, j);
    case OpWfi => SystemDecodes(i, p, j);
  }

  // ---------------------------------------------------------------- immediates

  lemma SignedField(x: int, size: nat)
    requires (size == 0x1000 || size == 0x2000 || size == 0x20_0000) && 0 <= x + size / 2 < size
    ensures Extend(x % size, size) == ToWord(x)
  {
  }

  /** The extender gives back the immediate. */
  lemma ImmediateBack(i: Instr)
    requires Encodable(i)
    ensures i.OpImm? && !IsShift(i.alu) ==> Immediate(IMM_I, Encode(i)) == ToWord(i.imm)
    ensures i.OpImm? && IsShift(i.alu) ==> Immediate(IMM_I, Encode(i)) % 32 == i.imm
    ensures i.OpLoad? || i.OpJalr? ==> Immediate(IMM_I, Encode(i)) == ToWord(i.imm)
    ensures i.OpStore? ==> Immediate(IMM_S, Encode(i)) == ToWord(i.imm)
    ensures i.OpBranch? ==> Immediate(IMM_B, Encode(i)) == ToWord(i.imm)
    ensures i.OpLui? || i.OpAuipc? ==> Immediate(IMM_U, Encode(i)) == i.top * 0x1000
    ensures i.OpJal? ==> Immediate(IMM_J, Encode(i)) == ToWord(i.imm)
  {
    match i
    case OpImm(op, rd, rs1, imm) => IImmediate(i);
    case OpLoad(_, _, _, _) => IImmediate(i);
    case OpJalr(_, _, _) => IImmediate(i);
    case OpStore(ls, rs1, rs2, imm) => SImmediate(imm, rs2, rs1, LsCode(ls));
    case OpBranch(bu, rs1, rs2, imm) => BImmediate(imm, rs2, rs1, BuCode(bu));
    case OpJal(rd, imm) => JImmediate(imm, rd);
    case OpLui(rd, top) => UFields(top, rd, 0x37);
    case OpAuipc(rd, top) => UFields(top, rd, 0x17);
    case _ =>
  }

  lemma IImmediate(i: Instr)
    requires Encodable(i) && (i.OpImm? || i.OpLoad? || i.OpJalr?)
    ensures if i.OpImm? && IsShift(i.alu) then Immediate(IMM_I, Encode(i)) % 32 == i.imm
            else Immediate(IMM_I, Encode(i)) == ToWord(i.imm)
  {
    match i
    case OpImm(op, rd, rs1, imm) =>
      if IsShift(op) {
        RFields(AluVariant(op), imm, rs1, AluCode(op), rd, 0x13);
      } else {
        IFields(imm % 0x1000, rs1, AluCode(op), rd, 0x13);
        SignedField(imm, 0x1000);
      }
    case OpLoad(ls, rd, rs1, imm) =>
      IFields(imm % 0x1000, rs1, LsCode(ls), rd, 0x03);
      SignedField(imm, 0x1000);
    case OpJalr(rd, rs1, imm) =>
      IFields(imm % 0x1000, rs1, 0, rd, 0x67);
      SignedField(imm, 0x1000);
  }

  lemma SImmediate(imm: int, rs2: RegIdx, rs1: RegIdx, f3: Bits3)
    requires -0x800 <= imm < 0x800
    ensures Immediate(IMM_S, SWord(imm, rs2, rs1, f3, 0x23)) == ToWord(imm)
  {
    var v := imm % 0x1000;
    RFields(v / 0x20, rs2, rs1, f3, v % 0x20, 0x23);
    SignedField(imm, 0x1000);
  }

  lemma BImmediate(imm: int, rs2: RegIdx, rs1: RegIdx, f3: Bits3)
    requires -0x1000 <= imm < 0x1000 && imm % 2 == 0
    ensures Immediate(IMM_B, BWord(imm, rs2, rs1, f3, 0x63)) == ToWord(imm)
  {
    BranchImmediate(BHigh(imm), rs2, rs1, f3, BLow(imm));
    BranchRest(imm);
    BranchFields(imm % 0x2000);
    SignedField(imm, 0x2000);
  }

  lemma BranchImmediate(hi: Bits7, rs2: RegIdx, rs1: RegIdx, f3: Bits3, lo: RegIdx)
    ensures Immediate(IMM_B, RWord(hi, rs2, rs1, f3, lo, 0x63)) ==
            Extend(hi / 0x40 * 0x1000 + lo % 2 * 0x800 + hi % 0x40 * 0x20 + lo / 2 * 2, 0x2000)
  {
    var i := RWord(hi, rs2, rs1, f3, lo, 0x63);
    RFields(hi, rs2, rs1, f3, lo, 0x63);
    Nested(i, 0x200_0000, 0x40, 0x8000_0000);
    Nested(i, 0x80, 2, 0x100);
    var x := i / 0x80;
    QuotientIs(x, 2, x / 0x20 * 0x10 + lo / 2, lo % 2);
    QuotientIs(x / 2, 0x10, x / 0x20, lo / 2);
  }

  /** The thirteen digits of an even offset, put together again. */
  lemma BranchFields(v: nat)
    requires v < 0x2000 && v % 2 == 0
    ensures BHigh(v) / 0x40 * 0x1000 + BLow(v) % 2 * 0x800 + BHigh(v) % 0x40 * 0x20 + BLow(v) / 2 * 2 == v
  {
    var b := v / 0x20;
    var c := v / 0x800;
    QuotientIs(v, 0x2000, 0, v);
    Nested(v, 2, 0x10, 0x20);
    Nested(v, 0x20, 0x40, 0x800);
    Nested(v, 0x800, 2, 0x1000);
    QuotientIs(v / 0x1000 * 0x40 + b % 0x40, 0x40, v / 0x1000, b % 0x40);
    QuotientIs(v / 2 % 0x10 * 2 + c % 2, 2, v / 2 % 0x10, c % 2);
  }

  lemma JumpFields(v: nat)
    requires v < 0x20_0000 && v % 2 == 0
    ensures var t := JTop(v);
            t / 0x8_0000 * 0x10_0000 + t % 0x100 * 0x1000 + t / 0x100 % 2 * 0x800 + t / 0x200 % 0x400 * 2 == v
  {
    var a := v / 2;
    var b := a / 0x400;
    var c := b / 2;
    var d := c / 0x100;
    Nested(v, 2, 0x400, 0x800);
    Nested(v, 0x800, 2, 0x1000);
    Nested(v, 0x1000, 0x100, 0x10_0000);
    var t := JTop(v);
    var s := (d * 0x400 + a % 0x400) * 2 + b % 2;
    QuotientIs(t, 0x100, s, c % 0x100);
    QuotientIs(s, 2, d * 0x400 + a % 0x400, b % 2);
    Nested(t, 0x100, 2, 0x200);
    QuotientIs(t / 0x200, 0x400, d, a % 0x400);
    Nested(t, 0x200, 0x400, 0x8_0000);
  }

  lemma JImmediate(imm: int, rd: RegIdx)
    requires -0x10_0000 <= imm < 0x10_0000 && imm % 2 == 0
    ensures Immediate(IMM_J, JWord(imm, rd, 0x6F)) == ToWord(imm)
  {
    JumpImmediate(JTop(imm), rd);
    JumpRest(imm);
    JumpFields(imm % 0x20_0000);
    SignedField(imm, 0x20_0000);
  }

  lemma BranchRest(imm: int)
    requires imm % 2 == 0
    ensures BHigh(imm % 0x2000) == BHigh(imm) && BLow(imm % 0x2000) == BLow(imm) && imm % 0x2000 % 2 == 0
  {
    HalfOfRest(imm, 0x1000);
    QuotientIs(imm % 0x2000, 0x2000, 0, imm % 0x2000);
  }

  lemma JumpRest(imm: int)
    requires imm % 2 == 0
    ensures JTop(imm % 0x20_0000) == JTop(imm) && imm % 0x20_0000 % 2 == 0
  {
    HalfOfRest(imm, 0x10_0000);
    QuotientIs(imm % 0x20_0000, 0x20_0000, 0, imm % 0x20_0000);
  }

  lemma JumpImmediate(t: Top, rd: RegIdx)
    ensures Immediate(IMM_J, UWord(t, rd, 0x6F)) ==
            Extend(t / 0x8_0000 * 0x10_0000 + t % 0x100 * 0x1000 + t / 0x100 % 2 * 0x800 + t / 0x200 % 0x400 * 2, 0x20_0000)
  {
    var i := UWord(t, rd, 0x6F);
    QuotientIs(i, 0x1000, t, rd * 0x80 + 0x6F);
    Nested(i, 0x1000, 0x8_0000, 0x8000_0000);
    Nested(i, 0x1000, 0x100, 0x10_0000);
    Nested(i, 0x1000, 0x200, 0x20_0000);
  }
}

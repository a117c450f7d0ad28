/** The instructions of RV32IM with Zicsr and the machine-mode system instructions, and their words,
    built from the field layout of the instruction formats (cotm32_pkg.sv, cotm32_priv_pkg.sv). */
module Instructions {
  import opened Width
  import opened Isa

  type Top = x: int | 0 <= x < 0x10_0000
  type CsrNum = x: int | 0 <= x < 0x1000

  datatype Instr =
    | OpReg(alu: AluOp, rd: RegIdx, rs1: RegIdx, rs2: RegIdx)
    | OpMul(mu: MuOp, rd: RegIdx, rs1: RegIdx, rs2: RegIdx)
    | OpImm(alu: AluOp, rd: RegIdx, rs1: RegIdx, imm: int)
    | OpLoad(ls: LsOp, rd: RegIdx, rs1: RegIdx, imm: int)
    | OpStore(ls: LsOp, rs1: RegIdx, rs2: RegIdx, imm: int)
    | OpBranch(bu: BuOp, rs1: RegIdx, rs2: RegIdx, imm: int)
    | OpJal(rd: RegIdx, imm: int)
    | OpJalr(rd: RegIdx, rs1: RegIdx, imm: int)
    | OpLui(rd: RegIdx, top: Top)
    | OpAuipc(rd: RegIdx, top: Top)
    | OpCsr(csr: CsrOp, rd: RegIdx, rs1: RegIdx, addr: CsrNum)
    | OpCsrImm(csr: CsrOp, rd: RegIdx, zimm: RegIdx, addr: CsrNum)
    | OpFence(f3: int, rd: RegIdx, rs1: RegIdx, rest: CsrNum)
    | OpEcall
    | OpEbreak
    | OpMret
    | OpWfi

  predicate IsShift(op: AluOp) { op.SLL? || op.SRL? || op.SRA? }

  /** Operands the formats can hold. */
  predicate Encodable(i: Instr) {
    match i
    case OpReg(_, _, _, _) => true
    case OpMul(mu, _, _, _) => !mu.MU_NOP?
    case OpImm(op, _, _, imm) => !op.SUB? && if IsShift(op) then 0 <= imm < 32 else -0x800 <= imm < 0x800
    case OpLoad(ls, _, _, imm) => ls.IsLoad() && -0x800 <= imm < 0x800
    case OpStore(ls, _, _, imm) => ls.IsStore() && -0x800 <= imm < 0x800
    case OpBranch(bu, _, _, imm) => !bu.NEVER? && !bu.ALWAYS? && -0x1000 <= imm < 0x1000 && imm % 2 == 0
    case OpJal(_, imm) => -0x10_0000 <= imm < 0x10_0000 && imm % 2 == 0
    case OpJalr(_, _, imm) => -0x800 <= imm < 0x800
    case OpCsr(op, _, _, _) => !op.CSR_NONE?
    case OpCsrImm(op, _, _, _) => !op.CSR_NONE?
    case OpFence(f3, _, _, _) => 0 <= f3 < 8
    case _ => true
  }

  // ---------------------------------------------------------------- formats

  type Bits3 = x: int | 0 <= x < 8
  type Bits7 = x: int | 0 <= x < 0x80

  function RWord(f7: Bits7, rs2: RegIdx, rs1: RegIdx, f3: Bits3, rd: RegIdx, op: Bits7): Word {
    f7 * 0x200_0000 + rs2 * 0x10_0000 + rs1 * 0x8000 + f3 * 0x1000 + rd * 0x80 + op
  }

  function IWord(imm: CsrNum, rs1: RegIdx, f3: Bits3, rd: RegIdx, op: Bits7): Word {
    imm * 0x10_0000 + rs1 * 0x8000 + f3 * 0x1000 + rd * 0x80 + op
  }

  function SWord(imm: int, rs2: RegIdx, rs1: RegIdx, f3: Bits3, op: Bits7): Word {
    var v := imm % 0x1000;
    RWord(v / 0x20, rs2, rs1, f3, v % 0x20, op)
  }

  /** Bit 12, bits 10 to 5. */
  function BHigh(imm: int): Bits7 {
    var v := imm % 0x2000;
    v / 0x1000 * 0x40 + v / 0x20 % 0x40
  }

  /** Bits 4 to 1, bit 11. */
  function BLow(imm: int): RegIdx {
    var v := imm % 0x2000;
    v / 2 % 0x10 * 2 + v / 0x800 % 2
  }

  function BWord(imm: int, rs2: RegIdx, rs1: RegIdx, f3: Bits3, op: Bits7): Word {
    RWord(BHigh(imm), rs2, rs1, f3, BLow(imm), op)
  }

  function UWord(top: Top, rd: RegIdx, op: Bits7): Word {
    top * 0x1000 + rd * 0x80 + op
  }

  /** Bit 20, bits 10 to 1, bit 11, bits 19 to 12. */
  function JTop(imm: int): Top {
    var v := imm % 0x20_0000;
    v / 0x10_0000 * 0x8_0000 + v / 2 % 0x400 * 0x200 + v / 0x800 % 2 * 0x100 + v / 0x1000 % 0x100
  }

  function JWord(imm: int, rd: RegIdx, op: Bits7): Word {
    UWord(JTop(imm), rd, op)
  }

  // ---------------------------------------------------------------- operation codes

  function AluCode(op: AluOp): Bits3 {
    match op
    case ADD => 0
    case SUB => 0
    case SLL => 1
    case SLT => 2
    case SLTU => 3
    case XOR => 4
    case SRL => 5
    case SRA => 5
    case OR => 6
    case AND => 7
  }

  function AluVariant(op: AluOp): Bits7 { if op.SUB? || op.SRA? then 0x20 else 0 }

  function MuCode(op: MuOp): Bits3 {
    match op
    case MU_NOP => 0
    case MUL => 0
    case MULH => 1
    case MULHSU => 2
    case MULHU => 3
    case DIV => 4
    case DIVU => 5
    case REM => 6
    case REMU => 7
  }

  /** The width in the low two bits, 4 for zero extension. */
  function LsCode(op: LsOp): Bits3 {
    match op
    case LOAD_B | STORE_B => 0
    case LOAD_H | STORE_H => 1
    case LOAD_W | STORE_W => 2
    case LOAD_BU => 4
    case LOAD_HU => 5
    case LS_NONE => 7
  }

  function BuCode(op: BuOp): Bits3 {
    match op
    case EQ => 0
    case NE => 1
    case LT => 4
    case GE => 5
    case LTU => 6
    case GEU => 7
    case _ => 2
  }

  function CsrCode(op: CsrOp): Bits3 {
    match op
    case CSR_RW => 1
    case CSR_RS => 2
    case CSR_RC => 3
    case CSR_NONE => 0
  }

  function Encode(i: Instr): Word
    requires Encodable(i)
  {
    match i
    case OpReg(op, rd, rs1, rs2) => RWord(AluVariant(op), rs2, rs1, AluCode(op), rd, 0x33)
    case OpMul(op, rd, rs1, rs2) => RWord(1, rs2, rs1, MuCode(op), rd, 0x33)
    case OpImm(op, rd, rs1, imm) =>
      if IsShift(op) then RWord(AluVariant(op), imm, rs1, AluCode(op), rd, 0x13)
      else IWord(imm % 0x1000, rs1, AluCode(op), rd, 0x13)
    case OpLoad(ls, rd, rs1, imm) => IWord(imm % 0x1000, rs1, LsCode(ls), rd, 0x03)
    case OpStore(ls, rs1, rs2, imm) => SWord(imm, rs2, rs1, LsCode(ls), 0x23)
    case OpBranch(bu, rs1, rs2, imm) => BWord(imm, rs2, rs1, BuCode(bu), 0x63)
    case OpJal(rd, imm) => JWord(imm, rd, 0x6F)
    case OpJalr(rd, rs1, imm) => IWord(imm % 0x1000, rs1, 0, rd, 0x67)
    case OpLui(rd, top) => UWord(top, rd, 0x37)
    case OpAuipc(rd, top) => UWord(top, rd, 0x17)
    case OpCsr(op, rd, rs1, addr) => IWord(addr, rs1, CsrCode(op), rd, 0x73)
    case OpCsrImm(op, rd, zimm, addr) => IWord(addr, zimm, CsrCode(op) + 4, rd, 0x73)
    case OpFence(f3, rd, rs1, rest) => IWord(rest, rs1, f3, rd, 0x0F)
    case OpEcall => IWord(0, 0, 0, 0, 0x73)
    case OpEbreak => IWord(1, 0, 0, 0, 0x73)
    case OpMret => IWord(0x302, 0, 0, 0, 0x73)
    case OpWfi => IWord(0x105, 0, 0, 0, 0x73)
  }

  // ---------------------------------------------------------------- words as an assembler gives them

  lemma KnownRegisterWords()
    ensures Encode(OpReg(SUB, 3, 4, 5)) == 0x4052_01B3 && Encode(OpMul(MULHSU, 3, 4, 5)) == 0x0252_21B3
    ensures Encode(OpImm(ADD, 0, 0, 0)) == INST_NOP && Encode(OpImm(SRA, 5, 6, 7)) == 0x4073_5293
  {
  }

  lemma KnownMemoryWords()
    ensures Encode(OpLoad(LOAD_BU, 10, 2, -1)) == 0xFFF1_4503 && Encode(OpStore(STORE_H, 2, 10, -2)) == 0xFEA1_1F23
    ensures Encode(OpLui(7, 0x12345)) == 0x1234_53B7
  {
  }

  lemma KnownBranchWord()
    ensures BWord(8, 2, 1, BuCode(EQ), 0x63) == 0x0020_8463
  {
    KnownOffset();
  }

  lemma KnownOffset()
    ensures BHigh(8) == 0 && BLow(8) == 8
  {
  }

  lemma KnownBackwardBranchWord()
    ensures Encode(OpBranch(GEU, 10, 11, -4)) == 0xFEB5_7EE3
  {
    assert -4 % 0x2000 == 0x1FFC && BHigh(-4) == 0x7F && BLow(-4) == 0x1D;
  }

  lemma KnownJumpWord()
    ensures Encode(OpJal(1, 8)) == 0x0080_00EF
  {
    assert 8 % 0x20_0000 == 8 && JTop(8) == 0x800;
  }

  lemma KnownReturnWord()
    ensures Encode(OpJalr(0, 1, 0)) == 0x0000_8067
  {
  }

  lemma KnownBackwardJumpWord()
    ensures Encode(OpJal(0, -2048)) == 0x801F_F06F
  {
    assert -2048 % 0x20_0000 == 0x1F_F800;
  }

  lemma KnownSystemWords()
    ensures Encode(OpCsr(CSR_RW, 2, 2, 0x340)) == 0x3401_1173 && Encode(OpMret) == 0x3020_0073
    ensures Encode(OpEcall) == 0x73 && Encode(OpEbreak) == 0x0010_0073 && Encode(OpWfi) == 0x1050_0073
  {
  }
}

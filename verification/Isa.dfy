/** Words, control-signal enumerations and the signal bundles that travel between
    the core's units (cotm32_pkg.sv, cotm32_priv_pkg.sv, cotm32_pipeline_pkg.sv). */
module Isa {

  import opened Width

  type RegIdx = x: int | 0 <= x < 32
  /** A two-bit privilege field; only PRIV_U and PRIV_M are named, but software can write the others. */
  type Priv = x: int | 0 <= x < 4

  const PRIV_U: Priv := 0
  const PRIV_M: Priv := 3

  /** addi x0, x0, 0: the instruction word every pipeline latch holds after a flush. */
  const INST_NOP: Word := 0x00000013

  function Add32(a: Word, b: Word): Word {
    (a + b) % TWO_32
  }

  datatype AluOp = ADD | SUB | OR | AND | XOR | SLT | SLTU | SLL | SRL | SRA
  datatype BuOp = NEVER | ALWAYS | EQ | NE | LT | GE | LTU | GEU
  datatype ImmSel = IMM_I | IMM_S | IMM_B | IMM_U | IMM_J
  datatype ASel = A_RS1 | A_PC
  datatype BSel = B_RS2 | B_IMM
  datatype LsOp = LS_NONE | LOAD_B | LOAD_H | LOAD_W | LOAD_BU | LOAD_HU | STORE_B | STORE_H | STORE_W {
    predicate IsLoad() { LOAD_B? || LOAD_H? || LOAD_W? || LOAD_BU? || LOAD_HU? }
    predicate IsStore() { STORE_B? || STORE_H? || STORE_W? }
  }
  datatype WbSel = WB_ZERO | WB_ALU | WB_MU | WB_PC4 | WB_LSU | WB_CSR
  datatype MuOp = MU_NOP | MUL | MULH | MULHU | MULHSU | DIV | DIVU | REM | REMU
  datatype CsrOp = CSR_NONE | CSR_RW | CSR_RS | CSR_RC
  datatype CsrSel = FROM_RS1 | FROM_IMM

  /** Control signals consumed in EX. */
  datatype ExCtl = ExCtl(aluOp: AluOp, aSel: ASel, bSel: BSel, buBe: bool, buOp: BuOp,
                         rs1: RegIdx, rs2: RegIdx, muOp: MuOp)

  /** Control signals that travel on to MEM and WB. */
  datatype MemCtl = MemCtl(regWe: bool, rd: RegIdx, ls: LsOp, wbSel: WbSel,
                           csrWe: bool, csrSel: CsrSel, csrAddr: int, csrOp: CsrOp, zimm: Word,
                           illegal: bool, ecall: bool, ebreak: bool, mret: bool, wfi: bool)

  /** Every output of the control unit. */
  datatype Ctl = Ctl(immSel: ImmSel, x: ExCtl, m: MemCtl)

  /** What an all-zero latch holds: no write, no memory operation, no jump. */
  const BUBBLE_EX := ExCtl(ADD, A_RS1, B_RS2, false, NEVER, 0, 0, MU_NOP)
  const BUBBLE_MEM := MemCtl(false, 0, LS_NONE, WB_ZERO, false, FROM_RS1, 0, CSR_NONE, 0,
                            false, false, false, false, false)
  const BUBBLE_CTL := Ctl(IMM_I, BUBBLE_EX, BUBBLE_MEM)

  /** The combinational units the core instantiates, left arbitrary: ROM contents, control
      unit, immediate extender, ALU, branch comparisons and multiply/divide arithmetic.
      The control unit's last argument supplies the values of the outputs that its case
      arms leave unassigned; the core passes a fresh one each cycle. */
  datatype Units = Units(rom: Word -> Word,
                         cu: (Word, Priv, Ctl) -> Ctl,
                         imm: (ImmSel, Word) -> Word,
                         alu: (AluOp, Word, Word) -> Word,
                         cmp: (BuOp, Word, Word) -> bool,
                         mul: (MuOp, Word, Word) -> Word)

  // ---------------------------------------------------------------- register file

  type Regs = s: seq<Word> | |s| == 32 witness seq(32, _ => 0)

  function ReadReg(r: Regs, i: RegIdx): Word {
    if i == 0 then 0 else r[i]
  }

  function WriteReg(r: Regs, we: bool, i: RegIdx, v: Word): Regs {
    if we && i != 0 then r[i := v] else r
  }

  // ---------------------------------------------------------------- which outputs count

  predicate WritesAlu(m: MemCtl) {
    m.regWe && !m.illegal && (m.wbSel.WB_ALU? || m.wbSel.WB_LSU?)
  }

  predicate WritesMu(m: MemCtl) {
    m.regWe && !m.illegal && m.rd != 0 && m.wbSel.WB_MU?
  }

  predicate UsesAlu(c: Ctl) {
    !c.m.ls.LS_NONE? || c.x.buBe || WritesAlu(c.m)
  }

  predicate Compares(x: ExCtl) {
    x.buBe && !x.buOp.NEVER? && !x.buOp.ALWAYS?
  }

  /** The instruction really consumes the register its rs1 field names. */
  predicate UsesRs1(c: Ctl) {
    (UsesAlu(c) && c.x.aSel.A_RS1?) || Compares(c.x) || !c.x.muOp.MU_NOP?
    || (!c.m.csrOp.CSR_NONE? && c.m.csrSel.FROM_RS1?)
  }

  predicate UsesRs2(c: Ctl) {
    (UsesAlu(c) && c.x.bSel.B_RS2?) || Compares(c.x) || !c.x.muOp.MU_NOP? || c.m.ls.IsStore()
  }

  predicate UsesImm(c: Ctl) {
    UsesAlu(c) && c.x.bSel.B_IMM?
  }

  /** Agreement of the signals MEM and WB act on. */
  predicate AgreeMemCtl(a: MemCtl, b: MemCtl) {
    && a.regWe == b.regWe && a.ls == b.ls && a.csrWe == b.csrWe && a.csrOp == b.csrOp
    && a.csrAddr == b.csrAddr && a.zimm == b.zimm
    && a.illegal == b.illegal && a.ecall == b.ecall && a.ebreak == b.ebreak
    && a.mret == b.mret && a.wfi == b.wfi
    && (a.regWe ==> a.rd == b.rd)
    && (a.regWe && !a.illegal ==> a.wbSel == b.wbSel)
    && (!a.csrOp.CSR_NONE? ==> a.csrSel == b.csrSel)
  }

  /** Agreement of everything an instruction acts on: what is left may be any value. */
  predicate AgreeCtl(a: Ctl, b: Ctl) {
    && AgreeMemCtl(a.m, b.m)
    && a.x.muOp == b.x.muOp && a.x.buBe == b.x.buBe
    && (a.x.buBe ==> a.x.buOp == b.x.buOp)
    && (UsesAlu(a) ==> a.x.aluOp == b.x.aluOp && a.x.aSel == b.x.aSel && a.x.bSel == b.x.bSel)
    && (UsesImm(a) ==> a.immSel == b.immSel)
    && (UsesRs1(a) ==> a.x.rs1 == b.x.rs1)
    && (UsesRs2(a) ==> a.x.rs2 == b.x.rs2)
  }

  predicate Inert(c: Ctl) {
    c.x.muOp.MU_NOP? && !c.x.buBe && c.m.ls.LS_NONE? && !c.m.mret && !c.m.wfi
  }

  /** A multiply or divide uses nothing but its two registers; a jump accesses no memory. */
  predicate SinglePurpose(c: Ctl) {
    && (!c.x.muOp.MU_NOP? ==> !UsesAlu(c) && c.m.csrOp.CSR_NONE?)
    && (c.x.buBe ==> c.m.ls.LS_NONE?)
  }

  /** What the pipeline needs of its control unit: unassigned outputs never matter, every
      instruction is single-purpose, and the flush word is inert. */
  ghost predicate CuContract(cu: (Word, Priv, Ctl) -> Ctl) {
    && (forall i, p, j, k :: AgreeCtl(cu(i, p, j), cu(i, p, k)))
    && (forall i, p, j :: SinglePurpose(cu(i, p, j)))
    && (forall p, j :: Inert(cu(INST_NOP, p, j)))
  }
}

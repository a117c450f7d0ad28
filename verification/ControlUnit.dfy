/** The control unit (cu.sv). Outputs that a case arm leaves unassigned keep the value
    supplied in j. */
module ControlUnit {
  import opened Width
  import opened Isa

  const OP_CREG := 0x33
  const OP_CIMM := 0x13
  const OP_JALR := 0x67
  const OP_LOAD := 0x03
  const OP_STORE := 0x23
  const OP_BRANCH := 0x63
  const OP_LUI := 0x37
  const OP_AUIPC := 0x17
  const OP_JAL := 0x6F
  const OP_MSCMEM := 0x0F
  const OP_SYSTEM := 0x73

  const INST_ECALL := 0x0000_0073
  const INST_EBREAK := 0x0010_0073
  const INST_WFI := 0x1050_0073
  const INST_MRET := 0x3020_0073

  function Opcode(i: Word): int { i % 0x80 }
  function Rd(i: Word): RegIdx { (i / 0x80) % 32 }
  function Funct3(i: Word): int { (i / 0x1000) % 8 }
  function Rs1(i: Word): RegIdx { (i / 0x8000) % 32 }
  function Rs2(i: Word): RegIdx { (i / 0x10_0000) % 32 }
  function Funct7(i: Word): int { i / 0x200_0000 }
  function CsrAddr(i: Word): int { i / 0x10_0000 }

  datatype Option<T> = None | Some(value: T)

  /** funct7 and funct3 of a register-register ALU operation. */
  function AluOf(f7: int, f3: int): Option<AluOp> {
    if f7 == 0 then
      Some(if f3 == 0 then ADD else if f3 == 1 then SLL else if f3 == 2 then SLT else if f3 == 3 then SLTU
           else if f3 == 4 then XOR else if f3 == 5 then SRL else if f3 == 6 then OR else AND)
    else if f7 == 0x20 && f3 == 0 then Some(SUB)
    else if f7 == 0x20 && f3 == 5 then Some(SRA)
    else None
  }

  function MuOf(f7: int, f3: int): Option<MuOp> {
    if f7 != 1 then None
    else Some(if f3 == 0 then MUL else if f3 == 1 then MULH else if f3 == 2 then MULHSU else if f3 == 3 then MULHU
              else if f3 == 4 then DIV else if f3 == 5 then DIVU else if f3 == 6 then REM else REMU)
  }

  /** Immediate ALU operations; only the shifts look at funct7. */
  function ImmAluOf(f7: int, f3: int): (AluOp, bool) {
    if f3 == 0 then (ADD, true)
    else if f3 == 1 then (SLL, f7 == 0)
    else if f3 == 2 then (SLT, true)
    else if f3 == 3 then (SLTU, true)
    else if f3 == 4 then (XOR, true)
    else if f3 == 5 then (if f7 == 0x20 then SRA else SRL, f7 == 0 || f7 == 0x20)
    else if f3 == 6 then (OR, true)
    else (AND, true)
  }

  function LoadOf(f3: int): LsOp {
    if f3 == 0 then LOAD_B else if f3 == 1 then LOAD_H else if f3 == 2 then LOAD_W
    else if f3 == 4 then LOAD_BU else if f3 == 5 then LOAD_HU else LS_NONE
  }

  function StoreOf(f3: int): LsOp {
    if f3 == 0 then STORE_B else if f3 == 1 then STORE_H else if f3 == 2 then STORE_W else LS_NONE
  }

  function BranchOf(f3: int): BuOp {
    if f3 == 0 then EQ else if f3 == 1 then NE else if f3 == 4 then LT else if f3 == 5 then GE
    else if f3 == 6 then LTU else if f3 == 7 then GEU else NEVER
  }

  /** Every output with a default takes it; the others take j. */
  function Defaults(i: Word, j: Ctl): Ctl {
    Ctl(j.immSel,
        j.x.(buBe := false, muOp := MU_NOP),
        MemCtl(false, j.m.rd, LS_NONE, j.m.wbSel, false, j.m.csrSel, CsrAddr(i), CSR_NONE, Rs1(i),
               false, false, false, false, false))
  }

  function Creg(i: Word, d: Ctl): Ctl {
    var x := d.x.(rs1 := Rs1(i), rs2 := Rs2(i), aSel := A_RS1, bSel := B_RS2, aluOp := ADD);
    var m := d.m.(rd := Rd(i), regWe := true);
    match AluOf(Funct7(i), Funct3(i))
    case Some(op) => d.(x := x.(aluOp := op), m := m.(wbSel := WB_ALU))
    case None =>
      match MuOf(Funct7(i), Funct3(i))
      case Some(op) => d.(x := x.(muOp := op), m := m.(wbSel := WB_MU))
      case None => d.(x := x, m := m.(illegal := true))
  }

  function Cimm(i: Word, d: Ctl): Ctl {
    var (op, ok) := ImmAluOf(Funct7(i), Funct3(i));
    Ctl(IMM_I, d.x.(rs1 := Rs1(i), aSel := A_RS1, bSel := B_IMM, aluOp := op),
        d.m.(rd := Rd(i), regWe := true, wbSel := WB_ALU, illegal := !ok))
  }

  function Csr(i: Word, p: Priv, d: Ctl): Ctl {
    var m := d.m.(rd := Rd(i), wbSel := WB_CSR, regWe := true);
    var reg := d.x.(rs1 := Rs1(i));
    var nz := Rs1(i) != 0;
    var f3 := Funct3(i);
    if f3 == 1 then d.(x := reg, m := m.(csrWe := true, csrOp := CSR_RW, csrSel := FROM_RS1))
    else if f3 == 2 then d.(x := reg, m := m.(csrWe := nz, csrOp := CSR_RS, csrSel := FROM_RS1))
    else if f3 == 3 then d.(x := reg, m := m.(csrWe := nz, csrOp := CSR_RC, csrSel := FROM_RS1))
    else if f3 == 5 then d.(m := m.(csrWe := true, csrOp := CSR_RW, csrSel := FROM_IMM))
    else if f3 == 6 then d.(m := m.(csrWe := nz, csrOp := CSR_RS, csrSel := FROM_IMM))
    else if f3 == 7 then d.(m := m.(csrWe := nz, csrOp := CSR_RC, csrSel := FROM_IMM))
    else d.(m := m.(regWe := false, illegal := true))
  }

  function System(i: Word, p: Priv, d: Ctl): Ctl {
    if i == INST_ECALL then d.(m := d.m.(ecall := true))
    else if i == INST_EBREAK then d.(m := d.m.(ebreak := true))
    else if i == INST_WFI then d.(m := if p == PRIV_M then d.m.(wfi := true) else d.m.(illegal := true))
    else if i == INST_MRET then d.(m := if p == PRIV_M then d.m.(mret := true) else d.m.(illegal := true))
    else Csr(i, p, d)
  }

  /** d with the ALU adding its A input to an immediate. */
  function AddImm(d: Ctl, a: ASel, imm: ImmSel): Ctl {
    d.(immSel := imm, x := d.x.(aSel := a, bSel := B_IMM, aluOp := ADD))
  }

  function Jalr(i: Word, d: Ctl): Ctl {
    var e := AddImm(d, A_RS1, IMM_I);
    e.(x := e.x.(rs1 := Rs1(i), buOp := ALWAYS, buBe := true), m := d.m.(rd := Rd(i), wbSel := WB_PC4, regWe := true))
  }

  function Load(i: Word, d: Ctl): Ctl {
    var e := AddImm(d, A_RS1, IMM_I);
    var ls := LoadOf(Funct3(i));
    e.(x := e.x.(rs1 := Rs1(i)), m := d.m.(rd := Rd(i), ls := ls, illegal := ls.LS_NONE?, wbSel := WB_LSU, regWe := true))
  }

  function Store(i: Word, d: Ctl): Ctl {
    var e := AddImm(d, A_RS1, IMM_S);
    var ls := StoreOf(Funct3(i));
    e.(x := e.x.(rs1 := Rs1(i), rs2 := Rs2(i)), m := d.m.(ls := ls, illegal := ls.LS_NONE?))
  }

  function Branch(i: Word, d: Ctl): Ctl {
    var e := AddImm(d, A_PC, IMM_B);
    var bu := BranchOf(Funct3(i));
    e.(x := e.x.(rs1 := Rs1(i), rs2 := Rs2(i), buOp := bu, buBe := true), m := d.m.(illegal := bu.NEVER?))
  }

  function Lui(i: Word, d: Ctl): Ctl {
    var e := AddImm(d, A_RS1, IMM_U);
    e.(x := e.x.(rs1 := 0), m := d.m.(rd := Rd(i), wbSel := WB_ALU, regWe := true))
  }

  function Auipc(i: Word, d: Ctl): Ctl {
    AddImm(d, A_PC, IMM_U).(m := d.m.(rd := Rd(i), wbSel := WB_ALU, regWe := true))
  }

  function Jal(i: Word, d: Ctl): Ctl {
    var e := AddImm(d, A_PC, IMM_J);
    e.(x := e.x.(buOp := ALWAYS, buBe := true), m := d.m.(rd := Rd(i), wbSel := WB_PC4, regWe := true))
  }

  function Arm(i: Word, p: Priv, d: Ctl): Ctl {
    var op := Opcode(i);
    if op == OP_CREG then Creg(i, d)
    else if op == OP_CIMM then Cimm(i, d)
    else if op == OP_JALR then Jalr(i, d)
    else if op == OP_LOAD then Load(i, d)
    else if op == OP_STORE then Store(i, d)
    else if op == OP_BRANCH then Branch(i, d)
    else if op == OP_LUI then Lui(i, d)
    else if op == OP_AUIPC then Auipc(i, d)
    else if op == OP_JAL then Jal(i, d)
    else if op == OP_MSCMEM then d
    else if op == OP_SYSTEM then System(i, p, d)
    else d.(m := d.m.(illegal := true))
  }

  function Decode(i: Word, p: Priv, j: Ctl): Ctl {
    Arm(i, p, Defaults(i, j))
  }

  // ---------------------------------------------------------------- the contract

  /** What the defaults guarantee before any arm runs. */
  predicate Defaulted(d: Ctl) {
    d.m == MemCtl(false, d.m.rd, LS_NONE, d.m.wbSel, false, d.m.csrSel, d.m.csrAddr, CSR_NONE, d.m.zimm,
                  false, false, false, false, false)
    && !d.x.buBe && d.x.muOp.MU_NOP?
  }

  predicate SameDefaults(d: Ctl, e: Ctl) {
    Defaulted(d) && Defaulted(e) && d.m.csrAddr == e.m.csrAddr && d.m.zimm == e.m.zimm
  }

  lemma CregAgrees(i: Word, d: Ctl, e: Ctl)
    requires SameDefaults(d, e)
    ensures AgreeCtl(Creg(i, d), Creg(i, e)) && SinglePurpose(Creg(i, d))
  {
  }

  lemma CimmAgrees(i: Word, d: Ctl, e: Ctl)
    requires SameDefaults(d, e)
    ensures AgreeCtl(Cimm(i, d), Cimm(i, e)) && SinglePurpose(Cimm(i, d))
  {
  }

  lemma SystemAgrees(i: Word, p: Priv, d: Ctl, e: Ctl)
    requires SameDefaults(d, e)
    ensures AgreeCtl(System(i, p, d), System(i, p, e)) && SinglePurpose(System(i, p, d))
  {
  }

  lemma MemoryArmsAgree(i: Word, d: Ctl, e: Ctl)
    requires SameDefaults(d, e)
    ensures AgreeCtl(Load(i, d), Load(i, e)) && SinglePurpose(Load(i, d))
    ensures AgreeCtl(Store(i, d), Store(i, e)) && SinglePurpose(Store(i, d))
  {
  }

  lemma JumpArmsAgree(i: Word, d: Ctl, e: Ctl)
    requires SameDefaults(d, e)
    ensures AgreeCtl(Jal(i, d), Jal(i, e)) && SinglePurpose(Jal(i, d))
    ensures AgreeCtl(Jalr(i, d), Jalr(i, e)) && SinglePurpose(Jalr(i, d))
    ensures AgreeCtl(Branch(i, d), Branch(i, e)) && SinglePurpose(Branch(i, d))
  {
  }

  lemma UpperArmsAgree(i: Word, d: Ctl, e: Ctl)
    requires SameDefaults(d, e)
    ensures AgreeCtl(Lui(i, d), Lui(i, e)) && SinglePurpose(Lui(i, d))
    ensures AgreeCtl(Auipc(i, d), Auipc(i, e)) && SinglePurpose(Auipc(i, d))
  {
  }

  lemma ArmAgrees(i: Word, p: Priv, d: Ctl, e: Ctl)
    requires SameDefaults(d, e)
    ensures AgreeCtl(Arm(i, p, d), Arm(i, p, e)) && SinglePurpose(Arm(i, p, d))
  {
    var op := Opcode(i);
    if op == OP_CREG {
      CregAgrees(i, d, e);
    } else if op == OP_CIMM {
      CimmAgrees(i, d, e);
    } else if op == OP_LOAD || op == OP_STORE {
      MemoryArmsAgree(i, d, e);
    } else if op == OP_JALR || op == OP_BRANCH || op == OP_JAL {
      JumpArmsAgree(i, d, e);
    } else if op == OP_LUI || op == OP_AUIPC {
      UpperArmsAgree(i, d, e);
    } else if op == OP_SYSTEM {
      SystemAgrees(i, p, d, e);
    } else {
    }
  }

  /** Whatever the unassigned outputs hold, the instruction acts the same. */
  lemma UnassignedOutputsNeverMatter(i: Word, p: Priv, j: Ctl, k: Ctl)
    ensures AgreeCtl(Decode(i, p, j), Decode(i, p, k)) && SinglePurpose(Decode(i, p, j))
  {
    ArmAgrees(i, p, Defaults(i, j), Defaults(i, k));
  }

  lemma NopIsInert(p: Priv, j: Ctl)
    ensures Inert(Decode(INST_NOP, p, j))
  {
  }

  /** The control unit gives the pipeline what it relies on. */
  lemma DecodeMeetsContract()
    ensures CuContract(Decode)
  {
    forall i, p, j, k
      ensures AgreeCtl(Decode(i, p, j), Decode(i, p, k)) && SinglePurpose(Decode(i, p, j))
    {
      UnassignedOutputsNeverMatter(i, p, j, k);
    }
    forall p, j
      ensures Inert(Decode(INST_NOP, p, j))
    {
      NopIsInert(p, j);
    }
  }
}

/** What one step of the core does for each instruction, in the terms of the instruction set. */
module Conformance {
  import opened Width
  import opened Bits
  import opened Isa
  import opened CsrUnit
  import opened Memory
  import opened Causes
  import opened Core
  import opened Sequential
  import opened Instructions
  import opened Datapath
  import opened Decoding
  import ControlUnit
  import MulDiv
  import Refinement
  import Runs

  /** The next instruction is i, properly fetched, and no interrupt comes before it. */
  ghost predicate At(rom: Word -> Word, a: Arch, i: Instr) {
    Encodable(i) && a.pc < 0x2000 && a.pc % 4 == 0 && rom(a.pc) == Encode(i) && Undisturbed(a.csrs)
  }

  predicate Undisturbed(c: Csrs) {
    !c.mstatus.mie
    || (!(c.mie.ext && c.mip.ext) && !(c.mie.soft && c.mip.soft) && !(c.mie.tim && c.mip.tim))
  }

  /** Register k; register 0 is zero. */
  function X(a: Arch, k: RegIdx): Word { if k == 0 then 0 else a.regs[k] }

  function Written(a: Arch, rd: RegIdx, v: Word): Regs { if rd == 0 then a.regs else a.regs[rd := v] }

  /** b is a with this pc and these registers; the pending bits follow the interrupt lines. */
  predicate Goes(a: Arch, n: Input, b: Arch, pc: Word, regs: Regs) {
    b == Arch(pc, regs, a.dmem, Lines(a.csrs, n), a.priv)
  }

  function Lines(c: Csrs, n: Input): Csrs { c.(mip := c.mip.(tim := n.mtip, ext := n.meip)) }

  /** What the units make of the instruction at pc. */
  ghost predicate Presents(u: Units, a: Arch, i: Instr, c: Ctl) {
    && c == Decoded(u, a.pc, a.priv) && Controls(i, a.priv, c)
    && a.pc < 0x2000 && a.pc % 4 == 0 && Undisturbed(a.csrs)
    && (forall op, x, y :: u.alu(op, x, y) == Alu(op, x, y))
    && (forall op, x, y :: u.cmp(op, x, y) == Compare(op, x, y))
    && (forall op, x, y :: u.mul(op, x, y) == MulDiv.Result(op, x, y))
    && GivesImmediate(i, u.imm(c.immSel, u.rom(a.pc)))
  }

  /** v is the instruction's immediate, if it has one; of a shift amount only five digits count. */
  predicate GivesImmediate(i: Instr, v: Word) {
    match i
    case OpImm(op, _, _, imm) => if IsShift(op) then v % 32 == imm else v == ToWord(imm)
    case OpLoad(_, _, _, imm) => v == ToWord(imm)
    case OpStore(_, _, _, imm) => v == ToWord(imm)
    case OpBranch(_, _, _, imm) => v == ToWord(imm)
    case OpJal(_, imm) => v == ToWord(imm)
    case OpJalr(_, _, imm) => v == ToWord(imm)
    case OpLui(_, top) => v == top * 0x1000
    case OpAuipc(_, top) => v == top * 0x1000
    case _ => true
  }

  lemma Presented(rom: Word -> Word, a: Arch, i: Instr)
    requires At(rom, a, i)
    ensures Presents(Machine(rom), a, i, Decoded(Machine(rom), a.pc, a.priv))
  {
    DecodesBack(i, a.priv, BUBBLE_CTL);
    ImmediateBack(i);
  }

  /** The slot and successor for signals c and immediate v. */
  predicate Slotted(q: Issue, a: Arch, c: Ctl, v: Word) {
    var x, y := X(a, c.x.rs1), X(a, c.x.rs2);
    && q.slot.valid && q.slot.m == c.m && !q.slot.misaligned && !q.slot.access
    && q.slot.pc == a.pc && q.slot.pc4 == ToWord(a.pc + 4) && q.slot.v1 == x && q.slot.v2 == y
    && q.slot.aluOut == Alu(c.x.aluOp, if c.x.aSel.A_RS1? then x else a.pc, if c.x.bSel.B_RS2? then y else v)
    && (!c.x.muOp.MU_NOP? ==> q.slot.muOut == MulDiv.Result(c.x.muOp, x, y))
    && q.next == if c.x.buBe && Compare(c.x.buOp, x, y) then q.slot.aluOut else q.slot.pc4
  }

  lemma SlotOf(u: Units, a: Arch, i: Instr, c: Ctl)
    requires Presents(u, a, i, c)
    ensures Slotted(Issued(u, a), a, c, u.imm(c.immSel, u.rom(a.pc)))
  {
    assert forall op, x, y :: u.cmp(op, x, y) == Compare(op, x, y);
  }

  /** The slot raises no exception of its own. */
  predicate Unharmed(m: MemCtl) { !m.illegal && !m.ecall && !m.ebreak }

  // ---------------------------------------------------------------- computation

  predicate Computes(i: Instr) { i.OpReg? || i.OpImm? || i.OpMul? || i.OpLui? || i.OpAuipc? }

  function Computed(i: Instr, a: Arch): Word
    requires Computes(i)
  {
    match i
    case OpReg(op, _, rs1, rs2) => Alu(op, X(a, rs1), X(a, rs2))
    case OpImm(op, _, rs1, imm) => Alu(op, X(a, rs1), ToWord(imm))
    case OpMul(op, _, rs1, rs2) => MulDiv.Result(op, X(a, rs1), X(a, rs2))
    case OpLui(_, top) => top * 0x1000
    case OpAuipc(_, top) => ToWord(a.pc + top * 0x1000)
  }

  lemma ShiftAmount(op: AluOp, x: Word, v: Word, w: Word)
    requires IsShift(op) && v % 32 == w % 32
    ensures Alu(op, x, v) == Alu(op, x, w)
  {
  }

  lemma ComputeSlot(i: Instr, a: Arch, c: Ctl, q: Issue, v: Word)
    requires Encodable(i) && Computes(i) && Controls(i, a.priv, c) && GivesImmediate(i, v) && Slotted(q, a, c, v)
    ensures q.next == ToWord(a.pc + 4) && (if i.OpMul? then q.slot.muOut else q.slot.aluOut) == Computed(i, a)
  {
    match i
    case OpReg(_, _, _, _) =>
    case OpMul(_, _, _, _) =>
    case OpImm(op, _, rs1, imm) => AnyImmediate(i, X(a, rs1), v);
    case OpLui(_, top) => UpperSum(0, top);
    case OpAuipc(_, top) => UpperSum(a.pc, top);
  }

  lemma AnyImmediate(i: Instr, x: Word, v: Word)
    requires Encodable(i) && i.OpImm? && GivesImmediate(i, v)
    ensures Alu(i.alu, x, v) == Alu(i.alu, x, ToWord(i.imm))
  {
    if IsShift(i.alu) {
      QuotientIs(i.imm, TWO_32, 0, i.imm);
      QuotientIs(i.imm, 32, 0, i.imm);
      ShiftAmount(i.alu, x, v, i.imm);
    }
  }

  lemma UpperSum(x: Word, top: Top)
    ensures Alu(ADD, x, top * 0x1000) == ToWord(x + top * 0x1000) && ToWord(top * 0x1000) == top * 0x1000
  {
  }

  /** A slot with no memory access, CSR access or return. */
  lemma PlainCommit(u: Units, a: Arch, n: Input, c: Ctl, q: Issue, v: Word)
    requires Issued(u, a) == q && Slotted(q, a, c, v) && Undisturbed(a.csrs) && Unharmed(c.m)
    requires c.m.ls.LS_NONE? && c.m.csrOp.CSR_NONE? && !c.m.csrWe && !c.m.mret
    ensures var x := q.slot;
            Goes(a, n, Step(u, a, n), q.next, if !c.m.regWe then a.regs else
                 Written(a, c.m.rd, WbMux(c.m.wbSel, x.aluOut, x.muOut, x.pc4, LoadData(u, x, a.dmem, n), ReadCsr(a.csrs, c.m.csrAddr))))
  {
  }

  /** rd gets the result, and execution goes on behind the instruction. */
  lemma ComputeSteps(rom: Word -> Word, a: Arch, n: Input, i: Instr)
    requires At(rom, a, i) && Computes(i)
    ensures Goes(a, n, Step(Machine(rom), a, n), ToWord(a.pc + 4), Written(a, i.rd, Computed(i, a)))
  {
    Presented(rom, a, i);
    Computing(Machine(rom), a, n, i, Decoded(Machine(rom), a.pc, a.priv));
  }

  lemma Computing(u: Units, a: Arch, n: Input, i: Instr, c: Ctl)
    requires Encodable(i) && Presents(u, a, i, c) && Computes(i)
    ensures Goes(a, n, Step(u, a, n), ToWord(a.pc + 4), Written(a, i.rd, Computed(i, a)))
  {
    SlotOf(u, a, i, c);
    ComputeSlot(i, a, c, Issued(u, a), u.imm(c.immSel, u.rom(a.pc)));
    PlainCommit(u, a, n, c, Issued(u, a), u.imm(c.immSel, u.rom(a.pc)));
  }

  // ---------------------------------------------------------------- control transfer

  predicate Branches(a: Arch, n: Input, b: Arch, i: Instr, taken: bool)
    requires i.OpBranch?
  {
    Goes(a, n, b, ToWord(a.pc + if taken then i.imm else 4), a.regs)
  }

  /** A conditional branch goes to its target exactly if the operands compare as its name says. */
  lemma BranchSteps(rom: Word -> Word, a: Arch, n: Input, i: Instr)
    requires At(rom, a, i) && i.OpBranch?
    ensures var b, x, y := Step(Machine(rom), a, n), X(a, i.rs1), X(a, i.rs2);
            match i.bu
            case EQ => Branches(a, n, b, i, x == y)
            case NE => Branches(a, n, b, i, x != y)
            case LT => Branches(a, n, b, i, Signed(x) < Signed(y))
            case GE => Branches(a, n, b, i, Signed(x) >= Signed(y))
            case LTU => Branches(a, n, b, i, x < y)
            case GEU => Branches(a, n, b, i, x >= y)
            case _ => true
  {
    Presented(rom, a, i);
    Branching(Machine(rom), a, n, i, Decoded(Machine(rom), a.pc, a.priv));
  }

  lemma Branching(u: Units, a: Arch, n: Input, i: Instr, c: Ctl)
    requires Encodable(i) && Presents(u, a, i, c) && i.OpBranch?
    ensures Branches(a, n, Step(u, a, n), i, Compare(i.bu, X(a, i.rs1), X(a, i.rs2)))
  {
    SlotOf(u, a, i, c);
    Target(a.pc, i.imm);
    PlainCommit(u, a, n, c, Issued(u, a), u.imm(c.immSel, u.rom(a.pc)));
  }

  lemma Target(x: Word, imm: int)
    ensures Alu(ADD, x, ToWord(imm)) == ToWord(x + imm)
  {
  }

  /** A jump links the address behind it. Bit 0 of a jalr target is not cleared. */
  lemma JumpSteps(rom: Word -> Word, a: Arch, n: Input, i: Instr)
    requires At(rom, a, i) && (i.OpJal? || i.OpJalr?)
    ensures var target := if i.OpJal? then a.pc + i.imm else X(a, i.rs1) + i.imm;
            Goes(a, n, Step(Machine(rom), a, n), ToWord(target), Written(a, i.rd, ToWord(a.pc + 4)))
  {
    Presented(rom, a, i);
    Jumping(Machine(rom), a, n, i, Decoded(Machine(rom), a.pc, a.priv));
  }

  lemma Jumping(u: Units, a: Arch, n: Input, i: Instr, c: Ctl)
    requires Encodable(i) && Presents(u, a, i, c) && (i.OpJal? || i.OpJalr?)
    ensures var target := if i.OpJal? then a.pc + i.imm else X(a, i.rs1) + i.imm;
            Goes(a, n, Step(u, a, n), ToWord(target), Written(a, i.rd, ToWord(a.pc + 4)))
  {
    SlotOf(u, a, i, c);
    Target(if i.OpJal? then a.pc else X(a, i.rs1), i.imm);
    PlainCommit(u, a, n, c, Issued(u, a), u.imm(c.immSel, u.rom(a.pc)));
  }

  // ---------------------------------------------------------------- memory

  predicate InData(q: int) { 0x8000_0000 <= q < 0x8001_0000 }
  predicate InRom(q: int) { 0 <= q < 0x2000 }
  predicate InClint(q: int) { 0x0200_0000 <= q < 0x0201_0000 }
  predicate InUart(q: int) { 0x1000_0000 <= q < 0x1000_0100 }

  predicate Readable(priv: Priv, p: int) {
    if priv == PRIV_M then InRom(p) || InClint(p) || InUart(p) || InData(p) else priv == PRIV_U && (InRom(p) || InData(p))
  }

  predicate Writable(priv: Priv, p: int) {
    if priv == PRIV_M then InClint(p) || InUart(p) || InData(p) else priv == PRIV_U && InData(p)
  }

  /** Bytes an access moves. */
  function Bytes(op: LsOp): nat {
    match op
    case LOAD_B | LOAD_BU | STORE_B => 1
    case LOAD_H | LOAD_HU | STORE_H => 2
    case LOAD_W | STORE_W => 4
    case LS_NONE => 0
  }

  /** The byte of data memory at address q. */
  function DataByte(d: Dmem, q: int): Byte
    requires InData(q)
  {
    d[q - 0x8000_0000]
  }

  /** n bytes from address p up, the lowest first. */
  function Number(d: Dmem, p: int, n: nat): nat
    requires n > 0 ==> InData(p) && InData(p + n - 1)
    decreases n
  {
    if n == 0 then 0 else DataByte(d, p) + 0x100 * Number(d, p + 1, n - 1)
  }

  /** Byte k of a word. */
  function Piece(w: Word, k: nat): Byte {
    if k == 0 then w % 0x100 else Piece(w / 0x100, k - 1)
  }

  /** What a load makes of the number it reads. */
  function Loaded(op: LsOp, v: int): Word
  {
    match op
    case LOAD_B => ToWord(if v % 0x100 >= 0x80 then v % 0x100 - 0x100 else v % 0x100)
    case LOAD_H => ToWord(if v % 0x1_0000 >= 0x8000 then v % 0x1_0000 - 0x1_0000 else v % 0x1_0000)
    case LOAD_BU => v % 0x100
    case LOAD_HU => v % 0x1_0000
    case _ => ToWord(v)
  }

  function Address(a: Arch, i: Instr): Word
    requires i.OpLoad? || i.OpStore?
  {
    ToWord(X(a, i.rs1) + i.imm)
  }

  /** What a load from p finds: bytes of data memory, or the word its ROM or device delivers. */
  function Found(rom: Word -> Word, a: Arch, n: Input, op: LsOp, p: Word): int
    requires op.IsLoad() && Readable(a.priv, p) && p % Bytes(op) == 0
  {
    if InData(p) then AlignedFits(op, p); Number(a.dmem, p, Bytes(op))
    else if InRom(p) then rom(p) else if InClint(p) then n.clint else n.uart
  }

  lemma AlignedFits(op: LsOp, p: int)
    requires InData(p) && !op.LS_NONE? && p % Bytes(op) == 0
    ensures InData(p + Bytes(op) - 1)
  {
  }

  /** The unit's extension, arithmetically. */
  lemma ExtendsAs(op: LsOp, raw: Word)
    requires op.IsLoad()
    ensures LoadResult(op, raw) == Loaded(op, raw)
  {
  }

  lemma LoadedLow(op: LsOp, v: nat, w: nat)
    requires op.IsLoad() && w < TWO_32 && v == w % (if Bytes(op) == 1 then 0x100 else if Bytes(op) == 2 then 0x1_0000 else TWO_32)
    ensures Loaded(op, v) == Loaded(op, w)
  {
    match op
    case LOAD_B | LOAD_BU => QuotientIs(v, 0x100, 0, v);
    case LOAD_H | LOAD_HU => QuotientIs(v, 0x1_0000, 0, v);
    case LOAD_W => QuotientIs(w, TWO_32, 0, w);
  }

  /** The low bytes of the word the memory port delivers. */
  lemma PortWord(d: Dmem, p: int, op: LsOp)
    requires op.IsLoad() && InData(p) && p % Bytes(op) == 0 && InData(p + Bytes(op) - 1)
    ensures Loaded(op, Number(d, p, Bytes(op))) == Loaded(op, LoadWord(d, p - 0x8000_0000))
  {
    var q := p - 0x8000_0000;
    LowBytes(ByteAt(d, q), ByteAt(d, q + 1), ByteAt(d, q + 2), ByteAt(d, q + 3));
    NumberOfBytes(d, p, Bytes(op));
    LoadedLow(op, Number(d, p, Bytes(op)), LoadWord(d, q));
  }

  lemma NumberOfBytes(d: Dmem, p: int, n: nat)
    requires n in {1, 2, 4} && InData(p) && InData(p + n - 1)
    ensures var q := p - 0x8000_0000;
            Number(d, p, n) == if n == 1 then ByteAt(d, q) else if n == 2 then ByteAt(d, q) + ByteAt(d, q + 1) * 0x100
                               else LoadWord(d, q)
  {
    var q := p - 0x8000_0000;
    assert Number(d, p, n) == ByteAt(d, q) + 0x100 * Number(d, p + 1, n - 1);
    if n > 1 {
      assert Number(d, p + 1, n - 1) == ByteAt(d, q + 1) + 0x100 * Number(d, p + 2, n - 2);
    }
    if n == 4 {
      assert Number(d, p + 2, 2) == ByteAt(d, q + 2) + 0x100 * Number(d, p + 3, 1);
    }
  }

  /** The load-store unit delivers what the load finds. */
  lemma Delivers(u: Units, x: ExMem, a: Arch, n: Input)
    requires x.m.ls.IsLoad() && Readable(a.priv, x.aluOut) && x.aluOut % Bytes(x.m.ls) == 0
    ensures LoadData(u, x, a.dmem, n) == Loaded(x.m.ls, Found(u.rom, a, n, x.m.ls, x.aluOut))
  {
    var p, op := x.aluOut, x.m.ls;
    if InData(p) {
      AlignedFits(op, p);
      PortWord(a.dmem, p, op);
      ExtendsAs(op, LoadWord(a.dmem, p - 0x8000_0000));
    } else {
      ExtendsAs(op, Found(u.rom, a, n, op, p));
    }
  }

  /** A load that raises no fault puts what it finds, extended, into rd. */
  lemma LoadSteps(rom: Word -> Word, a: Arch, n: Input, i: Instr)
    requires At(rom, a, i) && i.OpLoad? && Readable(a.priv, Address(a, i)) && Address(a, i) % Bytes(i.ls) == 0
    ensures Goes(a, n, Step(Machine(rom), a, n), ToWord(a.pc + 4),
                 Written(a, i.rd, Loaded(i.ls, Found(rom, a, n, i.ls, Address(a, i)))))
  {
    Presented(rom, a, i);
    Loading(Machine(rom), a, n, i, Decoded(Machine(rom), a.pc, a.priv));
  }

  lemma Loading(u: Units, a: Arch, n: Input, i: Instr, c: Ctl)
    requires Encodable(i) && Presents(u, a, i, c) && i.OpLoad?
    requires Readable(a.priv, Address(a, i)) && Address(a, i) % Bytes(i.ls) == 0
    ensures Goes(a, n, Step(u, a, n), ToWord(a.pc + 4),
                 Written(a, i.rd, Loaded(i.ls, Found(u.rom, a, n, i.ls, Address(a, i)))))
  {
    SlotOf(u, a, i, c);
    Target(X(a, i.rs1), i.imm);
    Delivers(u, Issued(u, a).slot, a, n);
    LoadCommit(u, a, n, c, Issued(u, a), u.imm(c.immSel, u.rom(a.pc)));
  }

  lemma LoadCommit(u: Units, a: Arch, n: Input, c: Ctl, q: Issue, v: Word)
    requires Issued(u, a) == q && Slotted(q, a, c, v) && Undisturbed(a.csrs) && Unharmed(c.m)
    requires c.m.ls.IsLoad() && Readable(a.priv, q.slot.aluOut) && q.slot.aluOut % Bytes(c.m.ls) == 0
    requires c.m.csrOp.CSR_NONE? && !c.m.csrWe && !c.m.mret && c.m.regWe && c.m.wbSel.WB_LSU?
    ensures Goes(a, n, Step(u, a, n), q.next, Written(a, c.m.rd, LoadData(u, q.slot, a.dmem, n)))
  {
    LoadStage(u, q.slot, a, n);
    NoTrapStep(u, a, n, q, StepOut(u, a, n));
  }

  lemma LoadStage(u: Units, x: ExMem, a: Arch, n: Input)
    requires x.valid && !x.misaligned && !x.access && Undisturbed(a.csrs) && Unharmed(x.m)
    requires x.m.ls.IsLoad() && Readable(a.priv, x.aluOut) && x.aluOut % Bytes(x.m.ls) == 0
    requires x.m.csrOp.CSR_NONE? && !x.m.csrWe && !x.m.mret && x.m.wbSel.WB_LSU?
    ensures var o := MemStage(u, x, a.csrs, a.priv, a.dmem, n);
            && o.trap == NoTrap && o.priv == a.priv && o.csrs == Lines(a.csrs, n) && o.dmem == a.dmem
            && o.wb == LoadData(u, x, a.dmem, n)
  {
  }

  /** A store that raises no fault changes exactly the bytes it names, and leads to exactly one device
      write if it names a device. */
  lemma StoreSteps(rom: Word -> Word, a: Arch, n: Input, i: Instr, q: int)
    requires At(rom, a, i) && i.OpStore? && Writable(a.priv, Address(a, i)) && Address(a, i) % Bytes(i.ls) == 0
    requires InData(q)
    ensures var b, p, w := Step(Machine(rom), a, n), Address(a, i), X(a, i.rs2);
            && b == Arch(ToWord(a.pc + 4), a.regs, b.dmem, Lines(a.csrs, n), a.priv)
            && DataByte(b.dmem, q) == if p <= q < p + Bytes(i.ls) then Piece(w, q - p) else DataByte(a.dmem, q)
  {
    Presented(rom, a, i);
    Storing(Machine(rom), a, n, i, Decoded(Machine(rom), a.pc, a.priv), q);
  }

  /** What the slot of a store holds. */
  predicate StoreSlot(q: Issue, a: Arch, i: Instr)
    requires i.OpStore?
  {
    var x := q.slot;
    && x.valid && !x.misaligned && !x.access && Unharmed(x.m) && x.m.ls == i.ls && x.m.csrOp.CSR_NONE? && !x.m.csrWe
    && !x.m.mret && !x.m.regWe && x.aluOut == Address(a, i) && x.v2 == X(a, i.rs2) && q.next == ToWord(a.pc + 4)
  }

  lemma Storing(u: Units, a: Arch, n: Input, i: Instr, c: Ctl, q: int)
    requires Encodable(i) && Presents(u, a, i, c) && i.OpStore? && InData(q)
    requires Writable(a.priv, Address(a, i)) && Address(a, i) % Bytes(i.ls) == 0
    ensures var b, p, w := Step(u, a, n), Address(a, i), X(a, i.rs2);
            && b == Arch(ToWord(a.pc + 4), a.regs, b.dmem, Lines(a.csrs, n), a.priv)
            && DataByte(b.dmem, q) == if p <= q < p + Bytes(i.ls) then Piece(w, q - p) else DataByte(a.dmem, q)
  {
    SlotOf(u, a, i, c);
    Target(X(a, i.rs1), i.imm);
    assert StoreSlot(Issued(u, a), a, i);
    StoreDone(u, a, n, i, Issued(u, a), q);
  }

  lemma StoreDone(u: Units, a: Arch, n: Input, i: Instr, s: Issue, q: int)
    requires Encodable(i) && i.OpStore? && InData(q) && s == Issued(u, a) && StoreSlot(s, a, i) && Undisturbed(a.csrs)
    requires Writable(a.priv, Address(a, i)) && Address(a, i) % Bytes(i.ls) == 0
    ensures var b, p, w := Step(u, a, n), Address(a, i), X(a, i.rs2);
            && b == Arch(ToWord(a.pc + 4), a.regs, b.dmem, Lines(a.csrs, n), a.priv)
            && DataByte(b.dmem, q) == if p <= q < p + Bytes(i.ls) then Piece(w, q - p) else DataByte(a.dmem, q)
  {
    StoreStage(u, s.slot, a, n);
    NoTrapStep(u, a, n, s, StepOut(u, a, n));
    StoredByte(a.dmem, Address(a, i), i.ls, X(a, i.rs2), q);
  }

  lemma StoredByte(d: Dmem, p: Word, op: LsOp, w: Word, q: int)
    requires op.IsStore() && InData(q)
    ensures DataByte(if InData(p) then StoreBytes(d, p - 0x8000_0000, StoreData(op, w), StoreWidth(op)) else d, q) ==
            if InData(p) && p <= q < p + Bytes(op) then Piece(w, q - p) else DataByte(d, q)
  {
    if InData(p) {
      StoreBytesAt(d, p - 0x8000_0000, StoreData(op, w), StoreWidth(op), q - 0x8000_0000);
      if p <= q < p + Bytes(op) {
        StoredPiece(op, w, q - p);
      }
    }
  }

  lemma StoredPiece(op: LsOp, w: Word, k: nat)
    requires op.IsStore() && k < Bytes(op)
    ensures ByteOf(StoreData(op, w), k) == Piece(w, k)
  {
    PieceAt(w, k);
    if op.STORE_B? {
      QuotientIs(w % 0x100, 0x100, 0, w % 0x100);
    } else if op.STORE_H? {
      LowHalf(w);
    }
  }

  lemma PieceAt(w: Word, k: nat)
    requires k < 4
    ensures Piece(w, k) == ByteOf(w, k)
  {
    Nested(w, 0x100, 0x100, 0x1_0000);
    Nested(w, 0x1_0000, 0x100, 0x100_0000);
    assert Piece(w, 1) == Piece(w / 0x100, 0) && Piece(w / 0x100, 1) == Piece(w / 0x1_0000, 0);
    assert Piece(w, 2) == Piece(w / 0x100, 1) && Piece(w / 0x100, 2) == Piece(w / 0x1_0000, 1);
    assert Piece(w, 3) == Piece(w / 0x100, 2) && Piece(w / 0x1_0000, 1) == Piece(w / 0x100_0000, 0);
  }

  /** The two bytes of the low half. */
  lemma LowHalf(w: Word)
    ensures var h := w % 0x1_0000;
            h % 0x100 == w % 0x100 && h / 0x100 % 0x100 == w / 0x100 % 0x100
  {
    var y := w / 0x100;
    Nested(w, 0x100, 0x100, 0x1_0000);
    QuotientIs(w, 0x1_0000, y / 0x100, y % 0x100 * 0x100 + w % 0x100);
    QuotientIs(w % 0x1_0000, 0x100, y % 0x100, w % 0x100);
    QuotientIs(y % 0x100, 0x100, 0, y % 0x100);
  }

  lemma StoreStage(u: Units, x: ExMem, a: Arch, n: Input)
    requires x.valid && !x.misaligned && !x.access && Undisturbed(a.csrs) && Unharmed(x.m)
    requires x.m.ls.IsStore() && Writable(a.priv, x.aluOut) && x.aluOut % Bytes(x.m.ls) == 0
    requires x.m.csrOp.CSR_NONE? && !x.m.csrWe && !x.m.mret
    ensures var o, p := MemStage(u, x, a.csrs, a.priv, a.dmem, n), x.aluOut;
            && o.trap == NoTrap && o.priv == a.priv && o.csrs == Lines(a.csrs, n)
            && o.dmem == if InData(p) then StoreBytes(a.dmem, p - 0x8000_0000, StoreData(x.m.ls, x.v2), StoreWidth(x.m.ls)) else a.dmem
  {
  }

  /** Stores to a device, and loads from the terminal, are requests on the bus in that very cycle. */
  lemma DeviceRequests(rom: Word -> Word, a: Arch, n: Input, i: Instr)
    requires At(rom, a, i) && (i.OpLoad? || i.OpStore?) && Address(a, i) % Bytes(i.ls) == 0
    requires if i.OpLoad? then Readable(a.priv, Address(a, i)) else Writable(a.priv, Address(a, i))
    ensures var bus, p := StepOut(Machine(rom), a, n).bus, Address(a, i);
            && (bus.clintWe <==> i.OpStore? && InClint(p)) && (bus.uartWe <==> i.OpStore? && InUart(p))
            && (bus.uartRe <==> i.OpLoad? && InUart(p))
            && (bus.clintWe ==> bus.addr == p - 0x0200_0000)
            && (bus.uartWe || bus.uartRe ==> bus.addr == p - 0x1000_0000)
            && (bus.clintWe || bus.uartWe ==> bus.data == Moved(i.ls, X(a, i.rs2)))
  {
    Presented(rom, a, i);
    Requesting(Machine(rom), a, n, i, Decoded(Machine(rom), a.pc, a.priv));
  }

  /** The low bytes of a word. */
  function Moved(op: LsOp, w: Word): Word {
    if Bytes(op) == 1 then w % 0x100 else if Bytes(op) == 2 then w % 0x1_0000 else w
  }

  lemma Requesting(u: Units, a: Arch, n: Input, i: Instr, c: Ctl)
    requires Encodable(i) && Presents(u, a, i, c) && (i.OpLoad? || i.OpStore?) && Address(a, i) % Bytes(i.ls) == 0
    requires if i.OpLoad? then Readable(a.priv, Address(a, i)) else Writable(a.priv, Address(a, i))
    ensures var bus, p := StepOut(u, a, n).bus, Address(a, i);
            && (bus.clintWe <==> i.OpStore? && InClint(p)) && (bus.uartWe <==> i.OpStore? && InUart(p))
            && (bus.uartRe <==> i.OpLoad? && InUart(p))
            && (bus.clintWe ==> bus.addr == p - 0x0200_0000)
            && (bus.uartWe || bus.uartRe ==> bus.addr == p - 0x1000_0000)
            && (bus.clintWe || bus.uartWe ==> bus.data == Moved(i.ls, X(a, i.rs2)))
  {
    SlotOf(u, a, i, c);
    Target(X(a, i.rs1), i.imm);
    MemoryRequest(Issued(u, a).slot, a);
  }

  lemma MemoryRequest(x: ExMem, a: Arch)
    requires x.valid && !x.misaligned && !x.access && Unharmed(x.m) && Undisturbed(a.csrs) && x.m.csrOp.CSR_NONE?
    requires !x.m.ls.LS_NONE? && x.aluOut % Bytes(x.m.ls) == 0
    requires if x.m.ls.IsLoad() then Readable(a.priv, x.aluOut) else Writable(a.priv, x.aluOut)
    ensures TrapRequest(x, a.csrs, a.priv) == NoTrap
    ensures var bus, p, store := BusRequest(x, NoTrap), x.aluOut, x.m.ls.IsStore();
            && (bus.clintWe <==> store && InClint(p)) && (bus.uartWe <==> store && InUart(p)) && (bus.uartRe <==> !store && InUart(p))
            && (bus.clintWe ==> bus.addr == p - 0x0200_0000)
            && (bus.uartWe || bus.uartRe ==> bus.addr == p - 0x1000_0000)
            && (bus.clintWe || bus.uartWe ==> bus.data == Moved(x.m.ls, x.v2))
  {
  }

  // ---------------------------------------------------------------- CSRs

  predicate IsCsr(addr: int) {
    addr in {0x300, 0x304, 0x305, 0x340, 0x341, 0x342, 0x343, 0x344}
  }

  /** The operand of a CSR instruction. */
  function CsrOperand(i: Instr, a: Arch): Word
    requires UsesCsr(i)
  {
    if i.OpCsr? then X(a, i.rs1) else i.zimm
  }

  /** The bit a CSR instruction makes of an old one and one of its operand. */
  predicate NewBit(op: CsrOp, before: bool, operand: bool) {
    match op
    case CSR_RW => operand
    case CSR_RS => before || operand
    case CSR_RC => before && !operand
    case CSR_NONE => before
  }

  /** In machine mode an existing CSR is exchanged, set or cleared bit by bit, its old value goes to rd, and
      no other CSR but mip changes. */
  lemma CsrSteps(rom: Word -> Word, a: Arch, n: Input, i: Instr, k: nat, other: int)
    requires At(rom, a, i) && UsesCsr(i) && IsCsr(i.addr) && a.priv == PRIV_M
    requires k < 32 && other != i.addr
    ensures var b, w := Step(Machine(rom), a, n), CsrOperand(i, a);
            && b == Arch(ToWord(a.pc + 4), Written(a, i.rd, ReadCsr(a.csrs, i.addr)), a.dmem, b.csrs, a.priv)
            && (i.addr != 0x344 ==>
                  (BitAt(ReadCsr(b.csrs, i.addr), k) <==> NewBit(i.csr, BitAt(ReadCsr(a.csrs, i.addr), k), BitAt(w, k))))
            && (other != 0x344 ==> ReadCsr(b.csrs, other) == ReadCsr(a.csrs, other))
  {
    Presented(rom, a, i);
    CsrAccess(Machine(rom), a, n, i, Decoded(Machine(rom), a.pc, a.priv), k, other);
  }

  lemma CsrAccess(u: Units, a: Arch, n: Input, i: Instr, c: Ctl, k: nat, other: int)
    requires Encodable(i) && Presents(u, a, i, c) && UsesCsr(i) && IsCsr(i.addr) && a.priv == PRIV_M
    requires k < 32 && other != i.addr
    ensures var b, w := Step(u, a, n), CsrOperand(i, a);
            && b == Arch(ToWord(a.pc + 4), Written(a, i.rd, ReadCsr(a.csrs, i.addr)), a.dmem, b.csrs, a.priv)
            && (i.addr != 0x344 ==>
                  (BitAt(ReadCsr(b.csrs, i.addr), k) <==> NewBit(i.csr, BitAt(ReadCsr(a.csrs, i.addr), k), BitAt(w, k))))
            && (other != 0x344 ==> ReadCsr(b.csrs, other) == ReadCsr(a.csrs, other))
  {
    SlotOf(u, a, i, c);
    var w := CsrOperand(i, a);
    CsrCommit(u, a, n, c, Issued(u, a), u.imm(c.immSel, u.rom(a.pc)), w);
    CsrAfter(a.csrs, i.csr, i.addr, w, c.m.csrWe, n, k, other);
  }

  /** The CSRs after an operation, which is left out only if it would change no bit. */
  lemma CsrAfter(c: Csrs, op: CsrOp, addr: int, w: Word, we: bool, n: Input, k: nat, other: int)
    requires IsCsr(addr) && k < 32 && other != addr && !op.CSR_NONE? && (we || (!op.CSR_RW? && w == 0))
    ensures var d := Lines(if we then WriteCsr(c, addr, WriteValue(c, op, addr, w)) else c, n);
            && (addr != 0x344 ==> (BitAt(ReadCsr(d, addr), k) <==> NewBit(op, BitAt(ReadCsr(c, addr), k), BitAt(w, k))))
            && (other != 0x344 ==> ReadCsr(d, other) == ReadCsr(c, other))
  {
    if we {
      CsrBits(c, op, addr, w, k);
      SampledWriteReadsBack(c, addr, other, WriteValue(c, op, addr, w), n.mtip, n.meip);
    } else {
      ZeroHasNoBit(k);
    }
  }

  /** Bit by bit, what each operation writes. */
  lemma CsrBits(c: Csrs, op: CsrOp, addr: int, w: Word, k: nat)
    requires k < 32 && !op.CSR_NONE?
    ensures BitAt(WriteValue(c, op, addr, w), k) <==> NewBit(op, BitAt(ReadCsr(c, addr), k), BitAt(w, k))
  {
    LogicBits(ReadCsr(c, addr), w, k);
  }

  lemma CsrCommit(u: Units, a: Arch, n: Input, c: Ctl, q: Issue, v: Word, w: Word)
    requires Issued(u, a) == q && Slotted(q, a, c, v) && Undisturbed(a.csrs) && Unharmed(c.m) && a.priv == PRIV_M
    requires c.m.ls.LS_NONE? && !c.m.csrOp.CSR_NONE? && IsCsr(c.m.csrAddr) && !c.m.mret && c.m.regWe && c.m.wbSel.WB_CSR?
    requires w == if c.m.csrSel.FROM_RS1? then q.slot.v1 else c.m.zimm
    ensures Step(u, a, n) ==
            Arch(q.next, Written(a, c.m.rd, ReadCsr(a.csrs, c.m.csrAddr)), a.dmem,
                 Lines(if c.m.csrWe then WriteCsr(a.csrs, c.m.csrAddr, WriteValue(a.csrs, c.m.csrOp, c.m.csrAddr, w)) else a.csrs, n),
                 a.priv)
  {
    CsrStage(u, q.slot, a, n, w);
    NoTrapStep(u, a, n, q, StepOut(u, a, n));
  }

  lemma NoTrapStep(u: Units, a: Arch, n: Input, q: Issue, o: MemOut)
    requires q == Issued(u, a) && o == StepOut(u, a, n) && o.trap == NoTrap && !q.slot.m.mret
    ensures Step(u, a, n) == Arch(q.next, if q.slot.m.regWe then Written(a, q.slot.m.rd, o.wb) else a.regs, o.dmem, o.csrs, o.priv)
  {
  }

  lemma CsrStage(u: Units, x: ExMem, a: Arch, n: Input, w: Word)
    requires x.valid && !x.misaligned && !x.access && Undisturbed(a.csrs) && Unharmed(x.m) && a.priv == PRIV_M
    requires x.m.ls.LS_NONE? && !x.m.csrOp.CSR_NONE? && IsCsr(x.m.csrAddr) && !x.m.mret && x.m.wbSel.WB_CSR?
    requires w == if x.m.csrSel.FROM_RS1? then x.v1 else x.m.zimm
    ensures var o := MemStage(u, x, a.csrs, a.priv, a.dmem, n);
            && o.trap == NoTrap && o.priv == a.priv && o.dmem == a.dmem && o.wb == ReadCsr(a.csrs, x.m.csrAddr)
            && o.csrs == Lines(if x.m.csrWe then WriteCsr(a.csrs, x.m.csrAddr, WriteValue(a.csrs, x.m.csrOp, x.m.csrAddr, w))
                               else a.csrs, n)
  {
  }

  // ---------------------------------------------------------------- system instructions

  /** A fence and a WFI do nothing here but go on; that the core then sleeps is the pipeline's matter. */
  lemma NothingSteps(rom: Word -> Word, a: Arch, n: Input, i: Instr)
    requires At(rom, a, i) && (i.OpFence? || (i.OpWfi? && a.priv == PRIV_M))
    ensures Goes(a, n, Step(Machine(rom), a, n), ToWord(a.pc + 4), a.regs)
  {
    Presented(rom, a, i);
    var u := Machine(rom);
    var c := Decoded(u, a.pc, a.priv);
    SlotOf(u, a, i, c);
    PlainCommit(u, a, n, c, Issued(u, a), u.imm(c.immSel, u.rom(a.pc)));
  }

  /** A return goes to mepc, with the privilege and the enable bit that were saved. */
  lemma ReturnSteps(rom: Word -> Word, a: Arch, n: Input)
    requires At(rom, a, OpMret) && a.priv == PRIV_M
    ensures var s := a.csrs.mstatus;
            Step(Machine(rom), a, n) ==
            Arch(ReadCsr(a.csrs, 0x341), a.regs, a.dmem,
                 Lines(a.csrs.(mstatus := s.(mie := s.mpie, mpie := true, mpp := PRIV_U)), n), s.mpp)
  {
    Presented(rom, a, OpMret);
    var u := Machine(rom);
    var c := Decoded(u, a.pc, a.priv);
    SlotOf(u, a, OpMret, c);
    ReturnCommit(u, a, n, c, Issued(u, a), u.imm(c.immSel, u.rom(a.pc)));
  }

  lemma ReturnCommit(u: Units, a: Arch, n: Input, c: Ctl, q: Issue, v: Word)
    requires Issued(u, a) == q && Slotted(q, a, c, v) && Undisturbed(a.csrs) && Unharmed(c.m)
    requires c.m.ls.LS_NONE? && c.m.csrOp.CSR_NONE? && !c.m.csrWe && c.m.mret && !c.m.regWe
    ensures var s := a.csrs.mstatus;
            Step(u, a, n) ==
            Arch(ReadCsr(a.csrs, 0x341), a.regs, a.dmem,
                 Lines(a.csrs.(mstatus := s.(mie := s.mpie, mpie := true, mpp := PRIV_U)), n), s.mpp)
  {
  }

  // ---------------------------------------------------------------- traps

  /** An instruction its privilege does not allow. */
  predicate Unlawful(i: Instr, priv: Priv) {
    (Privileged(i) && priv != PRIV_M) || (UsesCsr(i) && !(IsCsr(i.addr) && priv == PRIV_M))
  }

  const NO_FAULT := -1

  /** The exception the instruction at pc raises. */
  function FaultOf(i: Instr, a: Arch): int
    requires Encodable(i)
  {
    if Unlawful(i, a.priv) then 2
    else if a.pc % 4 != 0 then 0
    else match i
      case OpEcall => if a.priv == PRIV_U then 8 else if a.priv == PRIV_M then 11 else 2
      case OpEbreak => 3
      case OpLoad(ls, _, _, _) =>
        if !Readable(a.priv, Address(a, i)) then 5 else if Address(a, i) % Bytes(ls) != 0 then 4 else NO_FAULT
      case OpStore(ls, _, _, _) =>
        if !Writable(a.priv, Address(a, i)) then 7 else if Address(a, i) % Bytes(ls) != 0 then 6 else NO_FAULT
      case _ => NO_FAULT
  }

  function FaultValue(i: Instr, a: Arch): Word
    requires Encodable(i)
  {
    if Unlawful(i, a.priv) then Encode(i)
    else if a.pc % 4 != 0 then a.pc
    else if i.OpLoad? || i.OpStore? then Address(a, i)
    else 0
  }

  /** b is a after a trap: nothing of the instruction is done, the trap CSRs tell what happened, and
      machine mode goes on at the base of mtvec. */
  predicate TrapsTo(a: Arch, n: Input, b: Arch, cause: Word, tval: Word) {
    && b == Arch(ReadCsr(a.csrs, 0x305) / 4 * 4, a.regs, a.dmem, b.csrs, PRIV_M)
    && Entered(a.csrs, b.csrs, a.pc, a.priv, cause, tval, n)
  }

  lemma TrapCommit(u: Units, a: Arch, n: Input, x: ExMem, cause: Word)
    requires x == Issued(u, a).slot && x.pc == a.pc && Raises(x, a.csrs, a.priv, cause)
    ensures TrapsTo(a, n, Step(u, a, n), cause, ValueFor(x, a.priv, cause))
  {
    CauseExactly(u, x, a.csrs, a.priv, a.dmem, n, cause);
    StepTraps(u, a, n, MemStage(u, x, a.csrs, a.priv, a.dmem, n));
  }

  lemma StepTraps(u: Units, a: Arch, n: Input, o: MemOut)
    requires o == StepOut(u, a, n) && o.trap.Trap?
    ensures Step(u, a, n) == Arch(ReadCsr(a.csrs, 0x305) / 4 * 4, a.regs, o.dmem, o.csrs, o.priv)
  {
  }

  /** The instruction at pc, which need not be aligned. */
  ghost predicate Fetched(rom: Word -> Word, a: Arch, i: Instr) {
    Encodable(i) && a.pc < 0x2000 && rom(a.pc) == Encode(i)
  }

  /** Beyond the ROM nothing can be executed. */
  lemma FetchFaultSteps(u: Units, a: Arch, n: Input)
    requires a.pc >= 0x2000
    ensures TrapsTo(a, n, Step(u, a, n), 1, a.pc)
  {
    TrapCommit(u, a, n, Issued(u, a).slot, 1);
  }

  /** An instruction that raises an exception takes the trap with its cause, whatever interrupts wait. */
  lemma FaultSteps(rom: Word -> Word, a: Arch, n: Input, i: Instr)
    requires Fetched(rom, a, i) && FaultOf(i, a) != NO_FAULT
    ensures TrapsTo(a, n, Step(Machine(rom), a, n), FaultOf(i, a), FaultValue(i, a))
  {
    var x := AnySlot(rom, a, i);
    FaultRaises(i, a, x);
    TrapCommit(Machine(rom), a, n, x, FaultOf(i, a));
  }

  function FirstDue(c: Csrs): Word {
    if External(c) then 0x8000_000B else if Software(c) then 0x8000_0003 else 0x8000_0007
  }

  /** One that raises none takes the first interrupt that is enabled and pending: external, software, timer. */
  lemma InterruptSteps(rom: Word -> Word, a: Arch, n: Input, i: Instr)
    requires Fetched(rom, a, i) && FaultOf(i, a) == NO_FAULT && !Undisturbed(a.csrs)
    ensures TrapsTo(a, n, Step(Machine(rom), a, n), FirstDue(a.csrs), 0)
  {
    var x := AnySlot(rom, a, i);
    FaultRaises(i, a, x);
    TrapCommit(Machine(rom), a, n, x, FirstDue(a.csrs));
  }

  /** What the slot of the instruction at pc shows of it. */
  predicate Carries(x: ExMem, i: Instr, a: Arch)
    requires Encodable(i)
  {
    && x.valid && MemPurpose(i, a.priv, x.m) && x.pc == a.pc && x.inst == Encode(i)
    && (x.misaligned <==> a.pc % 4 != 0) && !x.access && (i.OpLoad? || i.OpStore? ==> x.aluOut == Address(a, i))
  }

  lemma AnySlot(rom: Word -> Word, a: Arch, i: Instr) returns (x: ExMem)
    requires Fetched(rom, a, i)
    ensures x == Issued(Machine(rom), a).slot && Carries(x, i, a)
  {
    var u := Machine(rom);
    DecodesBack(i, a.priv, BUBBLE_CTL);
    AddressSum(i, a);
    x := CarriedSlot(u, a, i, Decoded(u, a.pc, a.priv));
  }

  lemma AddressSum(i: Instr, a: Arch)
    requires Encodable(i)
    ensures i.OpLoad? ==> Alu(ADD, X(a, i.rs1), Immediate(IMM_I, Encode(i))) == Address(a, i)
    ensures i.OpStore? ==> Alu(ADD, X(a, i.rs1), Immediate(IMM_S, Encode(i))) == Address(a, i)
  {
    ImmediateBack(i);
    if i.OpLoad? || i.OpStore? {
      Target(X(a, i.rs1), i.imm);
    }
  }

  lemma CarriedSlot(u: Units, a: Arch, i: Instr, c: Ctl) returns (x: ExMem)
    requires Encodable(i) && a.pc < 0x2000 && u.rom(a.pc) == Encode(i)
    requires c == Decoded(u, a.pc, a.priv) && Controls(i, a.priv, c)
    requires i.OpLoad? || i.OpStore? ==> u.alu(ADD, X(a, i.rs1), u.imm(c.immSel, u.rom(a.pc))) == Address(a, i)
    ensures x == Issued(u, a).slot && Carries(x, i, a)
  {
    x := Issued(u, a).slot;
    SlotAnyhow(u, a, i, c, u.imm(c.immSel, u.rom(a.pc)));
  }

  lemma SlotAnyhow(u: Units, a: Arch, i: Instr, c: Ctl, v: Word)
    requires c == Decoded(u, a.pc, a.priv) && Controls(i, a.priv, c) && v == u.imm(c.immSel, u.rom(a.pc))
    ensures var x := Issued(u, a).slot;
            && x.valid && x.m == c.m && x.pc == a.pc && x.inst == u.rom(a.pc)
            && (x.misaligned <==> a.pc % 4 != 0) && (x.access <==> a.pc >= 0x2000)
            && (i.OpLoad? || i.OpStore? ==> x.aluOut == u.alu(ADD, X(a, i.rs1), v))
  {
  }

  lemma FaultRaises(i: Instr, a: Arch, x: ExMem)
    requires Encodable(i) && Carries(x, i, a)
    ensures FaultOf(i, a) != NO_FAULT ==>
              Raises(x, a.csrs, a.priv, FaultOf(i, a)) && ValueFor(x, a.priv, FaultOf(i, a)) == FaultValue(i, a)
    ensures FaultOf(i, a) == NO_FAULT ==> NoFault(MemFaults(x, a.priv))
  {
  }

  // ---------------------------------------------------------------- the pipeline

  /** In any clean run from reset with these units, a cycle with a valid slot in MEM is the step of the
      instruction the program order names, and any other leaves what it leaves. */
  lemma PipelineSteps(rom: Word -> Word, d: Dmem, r: Runs.Run, n: nat)
    requires Runs.FromReset(Machine(rom), d, r) && forall k: nat :: k <= n ==> Runs.Clean(Machine(rom), r, k)
    ensures Refinement.Abs(r.s(n + 1)) ==
            if r.s(n).exmem.valid then Step(Machine(rom), Refinement.Abs(r.s(n)), r.ins(n)) else Idle(Refinement.Abs(r.s(n)), r.ins(n))
  {
    ControlUnit.DecodeMeetsContract();
    Runs.CleanCycleSteps(Machine(rom), d, r, n);
  }
}

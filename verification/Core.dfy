/** The five-stage core as a clock-step function (processor_core.sv and the pipeline latches,
    fwd_unit.sv, hazard_unit.sv, register_file.sv, inst_fetch.sv, mu.sv timing, wfi.sv). */
module Core {
  import opened Width
  import opened Isa
  import opened CsrUnit
  import opened Memory

  /** What the outside world and the unassigned control outputs present in one cycle. */
  datatype Input = Input(clint: Word, uart: Word, mtip: bool, meip: bool, junk: Ctl)

  // ---------------------------------------------------------------- latches

  datatype IfId = IfId(valid: bool, pc: Word, pc4: Word, inst: Word, misaligned: bool, access: bool)

  datatype IdEx = IdEx(valid: bool, x: ExCtl, m: MemCtl, v1: Word, v2: Word, imm: Word,
                       pc: Word, pc4: Word, inst: Word, misaligned: bool, access: bool)

  datatype ExMem = ExMem(valid: bool, m: MemCtl, aluOut: Word, v1: Word, v2: Word, muOut: Word,
                         pc: Word, pc4: Word, inst: Word, misaligned: bool, access: bool)

  datatype MemWb = MemWb(valid: bool, regWe: bool, rd: RegIdx, wbSel: WbSel, lsuData: Word, aluOut: Word,
                         csrData: Word, muOut: Word, pc4: Word)

  const FLUSHED_IFID := IfId(false, 0, 0, INST_NOP, false, false)
  const FLUSHED_IDEX := IdEx(false, BUBBLE_EX, BUBBLE_MEM, 0, 0, 0, 0, 0, INST_NOP, false, false)
  const FLUSHED_EXMEM := ExMem(false, BUBBLE_MEM, 0, 0, 0, 0, 0, 0, INST_NOP, false, false)
  const FLUSHED_MEMWB := MemWb(false, false, 0, WB_ZERO, 0, 0, 0, 0, 0)

  /** Flush beats stall in every latch. */
  function Latch<T>(flush: bool, stall: bool, zero: T, held: T, data: T): T {
    if flush then zero else if stall then held else data
  }

  // ---------------------------------------------------------------- multiply/divide timing

  datatype Mu = Mu(busy: bool, timer: int, a: Word, b: Word)

  const IDLE_MU := Mu(false, 0, 0, 0)

  function MuLatency(op: MuOp): int {
    match op
    case MUL | MULH | MULHU | MULHSU => 4
    case DIV | DIVU | REM | REMU => 12
    case MU_NOP => 0
  }

  predicate MuStart(mu: Mu, op: MuOp) { !mu.busy && !op.MU_NOP? }
  predicate MuBusy(mu: Mu, op: MuOp) { mu.busy || MuStart(mu, op) }
  predicate MuDone(mu: Mu) { mu.busy && mu.timer == 1 }

  function MuClock(mu: Mu, op: MuOp, a: Word, b: Word): Mu {
    if MuStart(mu, op) then Mu(true, MuLatency(op), a, b)
    else if mu.busy then mu.(timer := mu.timer - 1, busy := mu.timer != 1)
    else mu
  }

  function MuOut(u: Units, mu: Mu, op: MuOp): Word {
    if op.MU_NOP? then 0 else u.mul(op, mu.a, mu.b)
  }

  // ---------------------------------------------------------------- whole state

  datatype State = State(pc: Word, ifid: IfId, idex: IdEx, exmem: ExMem, memwb: MemWb,
                         regs: Regs, dmem: Dmem, csrs: Csrs, priv: Priv, mu: Mu, sleep: bool)

  /** The state one reset cycle leaves; data memory is not reset. */
  function Reset(d: Dmem): State {
    State(0, FLUSHED_IFID, FLUSHED_IDEX, FLUSHED_EXMEM, FLUSHED_MEMWB, seq(32, _ => 0), d, RESET_CSRS, PRIV_M, IDLE_MU, false)
  }

  // ---------------------------------------------------------------- fetch and decode

  predicate FetchMisaligned(pc: Word) { pc % 4 != 0 }
  predicate FetchFault(pc: Word) { pc > IMEM_END }

  function Fetch(u: Units, pc: Word): IfId {
    IfId(true, pc, Add32(pc, 4), u.rom(pc), FetchMisaligned(pc), FetchFault(pc))
  }

  /** Register file read port with the write-through bypass. */
  function ReadPort(r: Regs, we: bool, waddr: RegIdx, wdata: Word, i: RegIdx): Word {
    if i == 0 then 0 else if we && waddr != 0 && waddr == i then wdata else r[i]
  }

  function Decode(u: Units, f: IfId, priv: Priv, junk: Ctl): Ctl {
    u.cu(f.inst, priv, junk)
  }

  // ---------------------------------------------------------------- execute

  datatype Forward = FWD_NONE | FWD_EXMEM | FWD_MEMWB

  function ForwardSource(rs: RegIdx, memWe: bool, memValid: bool, memRd: RegIdx,
                         wbWe: bool, wbValid: bool, wbRd: RegIdx): Forward {
    if memWe && memValid && memRd != 0 && memRd == rs then FWD_EXMEM
    else if wbWe && wbValid && wbRd != 0 && wbRd == rs then FWD_MEMWB
    else FWD_NONE
  }

  function ForwardMux(f: Forward, none: Word, mem: Word, wb: Word): Word {
    match f
    case FWD_NONE => none
    case FWD_EXMEM => mem
    case FWD_MEMWB => wb
  }

  predicate TakeBranch(u: Units, x: ExCtl, a: Word, b: Word) {
    x.buBe && (x.buOp.ALWAYS? || (!x.buOp.NEVER? && u.cmp(x.buOp, a, b)))
  }

  function AluResult(u: Units, x: ExCtl, a: Word, b: Word, pc: Word, imm: Word): Word {
    u.alu(x.aluOp, if x.aSel.A_RS1? then a else pc, if x.bSel.B_RS2? then b else imm)
  }

  function Execute(u: Units, e: IdEx, a: Word, b: Word, muOut: Word): ExMem {
    ExMem(e.valid, e.m, AluResult(u, e.x, a, b, e.pc, e.imm), a, b, muOut, e.pc, e.pc4, e.inst, e.misaligned, e.access)
  }

  // ---------------------------------------------------------------- memory stage

  function WbMux(sel: WbSel, alu: Word, mu: Word, pc4: Word, lsu: Word, csr: Word): Word {
    match sel
    case WB_ZERO => 0
    case WB_ALU => alu
    case WB_MU => mu
    case WB_PC4 => pc4
    case WB_LSU => lsu
    case WB_CSR => csr
  }

  function LoadData(u: Units, x: ExMem, d: Dmem, i: Input): Word {
    var a := LocalAddr(x.aluOut);
    LoadResult(x.m.ls, match Source(x.aluOut)
                       case IMEM => u.rom(a)
                       case CLINT => i.clint
                       case UART => i.uart
                       case DMEM => LoadWord(d, a)
                       case UNKNOWN => 0)
  }

  function MemFaults(x: ExMem, priv: Priv): Faults {
    Faults(x.misaligned, x.access,
           x.m.illegal || (!x.m.csrOp.CSR_NONE? && !Accessible(x.m.csrAddr, priv, x.m.csrWe && x.valid)),
           x.m.ebreak, x.m.ecall,
           LoadMisaligned(x.m.ls, x.aluOut), LoadFault(x.m.ls, x.aluOut, priv),
           StoreMisaligned(x.m.ls, x.aluOut), StoreFault(x.m.ls, x.aluOut, priv))
  }

  /** Exceptions before interrupts; both only for a valid slot. */
  function TrapRequest(x: ExMem, c: Csrs, priv: Priv): Trap {
    if !x.valid then NoTrap
    else
      var e := SelectException(MemFaults(x, priv), x.pc, x.inst, x.aluOut, priv);
      if e.Trap? then e else SelectInterrupt(c)
  }

  function NextCsrs(x: ExMem, c: Csrs, priv: Priv, t: Trap, i: Input): Csrs {
    var we := x.m.csrWe && x.valid;
    var w := if x.m.csrSel.FROM_RS1? then x.v1 else x.m.zimm;
    var n := if t.Trap? then TrapEntry(c, x.pc, priv, t.cause, t.tval)
             else if x.m.mret then TrapReturn(c)
             else if we && Accessible(x.m.csrAddr, priv, we) then
               WriteCsr(c, x.m.csrAddr, WriteValue(c, x.m.csrOp, x.m.csrAddr, w))
             else c;
    Sample(n, i.mtip, i.meip)
  }

  /** An accessible CSR written by a slot that neither traps nor returns reads back as the word written,
      in the next cycle, exactly if it is not mip or the word agrees with the interrupt lines in bits 7
      and 11; no other CSR but mip changes. */
  lemma WrittenCsrReadsBack(x: ExMem, c: Csrs, priv: Priv, i: Input, other: int)
    requires x.valid && x.m.csrWe && !x.m.mret && Accessible(x.m.csrAddr, priv, true) && other != x.m.csrAddr
    ensures var n := NextCsrs(x, c, priv, NoTrap, i);
            var w := WriteValue(c, x.m.csrOp, x.m.csrAddr, if x.m.csrSel.FROM_RS1? then x.v1 else x.m.zimm);
            && (ReadCsr(n, x.m.csrAddr) == w <==> x.m.csrAddr != CSR_MIP || SampledBits(w, i.mtip, i.meip))
            && (other != CSR_MIP ==> ReadCsr(n, other) == ReadCsr(c, other))
  {
    var w := WriteValue(c, x.m.csrOp, x.m.csrAddr, if x.m.csrSel.FROM_RS1? then x.v1 else x.m.zimm);
    SampledWriteReadsBack(c, x.m.csrAddr, other, w, i.mtip, i.meip);
  }

  function NextPriv(x: ExMem, c: Csrs, priv: Priv, t: Trap): Priv {
    if t.Trap? then PRIV_M else if x.m.mret then c.mstatus.mpp else priv
  }

  function NextDmem(x: ExMem, d: Dmem, t: Trap): Dmem {
    if x.m.ls.IsStore() && Source(x.aluOut).DMEM? && x.valid && !t.Trap?
    then StoreBytes(d, LocalAddr(x.aluOut), StoreData(x.m.ls, x.v2), StoreWidth(x.m.ls)) else d
  }

  /** A device write is suppressed by a trap, a device read is not. */
  function BusRequest(x: ExMem, t: Trap): Bus {
    var s := Source(x.aluOut);
    var we := x.m.ls.IsStore() && !t.Trap?;
    var b := Bus(we && s.CLINT?, we && s.UART?, x.m.ls.IsLoad() && s.UART?, LocalAddr(x.aluOut), StoreData(x.m.ls, x.v2));
    if b.clintWe || b.uartWe then b else if b.uartRe then b.(data := 0) else QUIET_BUS
  }

  /** Everything MEM computes for a slot. */
  datatype MemOut = MemOut(trap: Trap, csrs: Csrs, priv: Priv, dmem: Dmem, bus: Bus,
                           lsuData: Word, csrData: Word, wb: Word)

  function MemStage(u: Units, x: ExMem, c: Csrs, priv: Priv, d: Dmem, i: Input): MemOut {
    var t := TrapRequest(x, c, priv);
    var l := LoadData(u, x, d, i);
    var r := ReadCsr(c, x.m.csrAddr);
    MemOut(t, NextCsrs(x, c, priv, t, i), NextPriv(x, c, priv, t), NextDmem(x, d, t), BusRequest(x, t),
           l, r, WbMux(x.m.wbSel, x.aluOut, x.muOut, x.pc4, l, r))
  }

  // ---------------------------------------------------------------- write back

  function WbValue(w: MemWb): Word {
    WbMux(w.wbSel, w.aluOut, w.muOut, w.pc4, w.lsuData, w.csrData)
  }

  function WriteBack(r: Regs, w: MemWb): Regs {
    WriteReg(r, w.regWe && w.valid, w.rd, WbValue(w))
  }

  // ---------------------------------------------------------------- hazards

  predicate LoadUse(e: IdEx, idRs1: RegIdx, idRs2: RegIdx) {
    e.m.ls.IsLoad() && e.valid && e.m.regWe && e.m.rd != 0 && (e.m.rd == idRs1 || e.m.rd == idRs2)
  }

  predicate LockEx(e: IdEx, mu: Mu) {
    e.valid && MuBusy(mu, e.x.muOp) && !MuDone(mu)
  }

  // ---------------------------------------------------------------- one clock

  /** Every combinational value the latches sample at the clock edge. */
  datatype Wires = Wires(id: Ctl, mem: MemOut, mret: bool, a: Word, b: Word, take: bool, target: Word,
                         loadUse: bool, lock: bool)

  function Comb(u: Units, s: State, i: Input): Wires {
    var id := Decode(u, s.ifid, s.priv, i.junk);
    var mem := MemStage(u, s.exmem, s.csrs, s.priv, s.dmem, i);
    var fa := ForwardSource(s.idex.x.rs1, s.exmem.m.regWe, s.exmem.valid, s.exmem.m.rd,
                            s.memwb.regWe, s.memwb.valid, s.memwb.rd);
    var fb := ForwardSource(s.idex.x.rs2, s.exmem.m.regWe, s.exmem.valid, s.exmem.m.rd,
                            s.memwb.regWe, s.memwb.valid, s.memwb.rd);
    var a := ForwardMux(fa, s.idex.v1, mem.wb, WbValue(s.memwb));
    var b := ForwardMux(fb, s.idex.v2, mem.wb, WbValue(s.memwb));
    Wires(id, mem, s.exmem.m.mret, a, b,
          TakeBranch(u, s.idex.x, a, b) && s.idex.valid,
          AluResult(u, s.idex.x, a, b, s.idex.pc, s.idex.imm),
          LoadUse(s.idex, id.x.rs1, id.x.rs2), LockEx(s.idex, s.mu))
  }

  predicate Redirect(w: Wires) { w.mem.trap.Trap? || w.mret }

  function NextPc(s: State, w: Wires): Word {
    if w.mem.trap.Trap? then Vector(s.csrs.mtvec)
    else if w.mret then s.csrs.mepc
    else if w.take then w.target
    else if w.loadUse || w.lock || s.sleep then s.pc
    else Add32(s.pc, 4)
  }

  function NextIfId(u: Units, s: State, w: Wires): IfId {
    Latch(w.take || Redirect(w), w.loadUse || w.lock || s.sleep, FLUSHED_IFID, s.ifid, Fetch(u, s.pc))
  }

  function NextIdEx(u: Units, s: State, w: Wires): IdEx {
    var we := s.memwb.regWe && s.memwb.valid;
    Latch(w.loadUse || w.take || Redirect(w), w.lock || s.sleep, FLUSHED_IDEX, s.idex,
          IdEx(s.ifid.valid, w.id.x, w.id.m,
               ReadPort(s.regs, we, s.memwb.rd, WbValue(s.memwb), w.id.x.rs1),
               ReadPort(s.regs, we, s.memwb.rd, WbValue(s.memwb), w.id.x.rs2),
               u.imm(w.id.immSel, s.ifid.inst), s.ifid.pc, s.ifid.pc4, s.ifid.inst, s.ifid.misaligned, s.ifid.access))
  }

  function NextExMem(u: Units, s: State, w: Wires): ExMem {
    Latch(w.lock || Redirect(w), s.sleep, FLUSHED_EXMEM, s.exmem,
          Execute(u, s.idex, w.a, w.b, MuOut(u, s.mu, s.idex.x.muOp)))
  }

  function NextMemWb(s: State, w: Wires): MemWb {
    Latch(s.sleep, false, FLUSHED_MEMWB, s.memwb,
          MemWb(s.exmem.valid && !w.mem.trap.Trap?, s.exmem.m.regWe, s.exmem.m.rd, s.exmem.m.wbSel,
                w.mem.lsuData, s.exmem.aluOut, w.mem.csrData, s.exmem.muOut, s.exmem.pc4))
  }

  function NextSleep(s: State, w: Wires): bool {
    if !s.sleep && s.exmem.m.wfi && !w.mem.trap.Trap? then true
    else if s.sleep && s.exmem.valid && SelectInterrupt(s.csrs).Trap? then false
    else s.sleep
  }

  function Clock(u: Units, s: State, i: Input): State {
    var w := Comb(u, s, i);
    State(NextPc(s, w), NextIfId(u, s, w), NextIdEx(u, s, w), NextExMem(u, s, w), NextMemWb(s, w),
          WriteBack(s.regs, s.memwb), w.mem.dmem, w.mem.csrs, w.mem.priv,
          MuClock(s.mu, s.idex.x.muOp, w.a, w.b), NextSleep(s, w))
  }

  /** Device requests of this cycle. */
  function BusOut(u: Units, s: State, i: Input): Bus {
    Comb(u, s, i).mem.bus
  }
}

/** The reference machine: one instruction at a time, built from the same decode,
    execute and memory functions, with no latches, forwarding, stalls or flushes. */
module Sequential {
  import opened Width
  import opened Isa
  import opened CsrUnit
  import opened Memory
  import opened Core

  datatype Arch = Arch(pc: Word, regs: Regs, dmem: Dmem, csrs: Csrs, priv: Priv)

  /** The instruction at pc, fetched, decoded and executed on the given registers. */
  datatype Issue = Issue(slot: ExMem, next: Word)

  function Decoded(u: Units, pc: Word, priv: Priv): Ctl {
    u.cu(u.rom(pc), priv, BUBBLE_CTL)
  }

  function IssueAt(u: Units, pc: Word, regs: Regs, priv: Priv): Issue {
    var c := Decoded(u, pc, priv);
    var a := ReadReg(regs, c.x.rs1);
    var b := ReadReg(regs, c.x.rs2);
    var f := Fetch(u, pc);
    var e := IdEx(true, c.x, c.m, a, b, u.imm(c.immSel, f.inst), pc, f.pc4, f.inst, f.misaligned, f.access);
    var x := Execute(u, e, a, b, if c.x.muOp.MU_NOP? then 0 else u.mul(c.x.muOp, a, b));
    Issue(x, if TakeBranch(u, c.x, a, b) then x.aluOut else f.pc4)
  }

  function Issued(u: Units, a: Arch): Issue {
    IssueAt(u, a.pc, a.regs, a.priv)
  }

  function StepOut(u: Units, a: Arch, i: Input): MemOut {
    MemStage(u, Issued(u, a).slot, a.csrs, a.priv, a.dmem, i)
  }

  /** Execute, trap or return: exactly one instruction. */
  function Step(u: Units, a: Arch, i: Input): Arch {
    var q := Issued(u, a);
    var o := StepOut(u, a, i);
    if o.trap.Trap? then Arch(Vector(a.csrs.mtvec), a.regs, o.dmem, o.csrs, o.priv)
    else Arch(if q.slot.m.mret then a.csrs.mepc else q.next,
              WriteReg(a.regs, q.slot.m.regWe, q.slot.m.rd, o.wb), o.dmem, o.csrs, o.priv)
  }

  /** A cycle in which no instruction completes: only the interrupt lines are sampled. */
  function Idle(a: Arch, i: Input): Arch {
    a.(csrs := Sample(a.csrs, i.mtip, i.meip))
  }
}

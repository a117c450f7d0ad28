/** Which trap a slot in MEM takes, and what the trap CSRs then hold (exception_dispatch.sv,
    interrupt_dispatch.sv, csr_file.sv). */
module Causes {
  import opened Width
  import opened Isa
  import opened CsrUnit
  import opened Memory
  import opened Core

  /** Faults that come before any other: what was fetched is no instruction to execute. */
  predicate NoInstruction(f: Faults) { f.instAccess || f.illegal || f.instMisaligned }

  predicate SystemFault(f: Faults) { f.ecall || f.ebreak }

  predicate AccessFault(f: Faults) { f.loadAccess || f.storeAccess }

  predicate NoFault(f: Faults) {
    !NoInstruction(f) && !SystemFault(f) && !AccessFault(f) && !f.loadMisaligned && !f.storeMisaligned
  }

  predicate External(c: Csrs) { c.mie.ext && c.mip.ext }
  predicate Software(c: Csrs) { c.mie.soft && c.mip.soft }
  predicate Timer(c: Csrs) { c.mie.tim && c.mip.tim }

  /** The slot takes the trap with this cause: a table by cause, with what keeps each from being taken. */
  predicate Raises(x: ExMem, c: Csrs, priv: Priv, cause: int) {
    var f := MemFaults(x, priv);
    x.valid &&
    if cause == 0 then f.instMisaligned && !f.instAccess && !f.illegal
    else if cause == 1 then f.instAccess
    else if cause == 2 then !f.instAccess && (f.illegal || (!f.instMisaligned && f.ecall && priv != PRIV_U && priv != PRIV_M))
    else if cause == 3 then f.ebreak && !f.ecall && !NoInstruction(f)
    else if cause == 4 then f.loadMisaligned && !AccessFault(f) && !SystemFault(f) && !NoInstruction(f)
    else if cause == 5 then f.loadAccess && !SystemFault(f) && !NoInstruction(f)
    else if cause == 6 then f.storeMisaligned && !f.loadMisaligned && !AccessFault(f) && !SystemFault(f) && !NoInstruction(f)
    else if cause == 7 then f.storeAccess && !f.loadAccess && !SystemFault(f) && !NoInstruction(f)
    else if cause == 8 then f.ecall && priv == PRIV_U && !NoInstruction(f)
    else if cause == 11 then f.ecall && priv == PRIV_M && !NoInstruction(f)
    else if cause == 0x8000_0003 then NoFault(f) && c.mstatus.mie && Software(c) && !External(c)
    else if cause == 0x8000_0007 then NoFault(f) && c.mstatus.mie && Timer(c) && !Software(c) && !External(c)
    else if cause == 0x8000_000B then NoFault(f) && c.mstatus.mie && External(c)
    else false
  }

  /** The value that goes with a cause. */
  function ValueFor(x: ExMem, priv: Priv, cause: int): Word {
    if cause == 0 || cause == 1 then x.pc
    else if cause == 2 && MemFaults(x, priv).illegal then x.inst
    else if 4 <= cause <= 7 then x.aluOut
    else 0
  }

  /** The CSRs c after a trap at pc, from privilege priv. */
  predicate Entered(c: Csrs, n: Csrs, pc: Word, priv: Priv, cause: Word, tval: Word, i: Input) {
    && ReadCsr(n, CSR_MCAUSE) == cause && ReadCsr(n, CSR_MTVAL) == tval && ReadCsr(n, CSR_MEPC) == pc
    && n.mstatus == c.mstatus.(mpie := c.mstatus.mie, mie := false, mpp := priv)
    && ReadCsr(n, CSR_MIE) == ReadCsr(c, CSR_MIE) && ReadCsr(n, CSR_MTVEC) == ReadCsr(c, CSR_MTVEC)
    && ReadCsr(n, CSR_MSCRATCH) == ReadCsr(c, CSR_MSCRATCH)
    && n.mip == c.mip.(tim := i.mtip, ext := i.meip)
  }

  /** A trap is taken exactly if some cause is raised; there is only ever one, and it is what mcause
      holds afterwards, with its value in mtval. */
  lemma CauseExactly(u: Units, x: ExMem, c: Csrs, priv: Priv, d: Dmem, i: Input, cause: Word)
    ensures var o := MemStage(u, x, c, priv, d, i);
            && (Raises(x, c, priv, cause) ==>
                  && o.trap.Trap? && o.priv == PRIV_M && o.dmem == d
                  && Entered(c, o.csrs, x.pc, priv, cause, ValueFor(x, priv, cause), i))
            && (o.trap.Trap? ==> (ReadCsr(o.csrs, CSR_MCAUSE) == cause <==> Raises(x, c, priv, cause)))
  {
    if Raises(x, c, priv, cause) {
      RaisedIsSelected(x, c, priv, cause);
    }
    if TrapRequest(x, c, priv).Trap? {
      SelectedIsRaised(x, c, priv);
    }
  }

  /** What mcause holds after a trap. */
  lemma CauseTold(u: Units, x: ExMem, c: Csrs, priv: Priv, d: Dmem, i: Input)
    requires MemStage(u, x, c, priv, d, i).trap.Trap?
    ensures var o := MemStage(u, x, c, priv, d, i);
            var cause := ReadCsr(o.csrs, CSR_MCAUSE);
            && x.valid && Raises(x, c, priv, cause) && Entered(c, o.csrs, x.pc, priv, cause, ValueFor(x, priv, cause), i)
  {
    var cause := TrapRequest(x, c, priv).cause;
    SelectedIsRaised(x, c, priv);
    CauseExactly(u, x, c, priv, d, i, cause);
  }

  lemma RaisedIsSelected(x: ExMem, c: Csrs, priv: Priv, cause: int)
    requires Raises(x, c, priv, cause)
    ensures TrapRequest(x, c, priv) == Trap(cause, ValueFor(x, priv, cause))
  {
  }

  lemma SelectedIsRaised(x: ExMem, c: Csrs, priv: Priv)
    requires TrapRequest(x, c, priv).Trap?
    ensures Raises(x, c, priv, TrapRequest(x, c, priv).cause)
  {
  }
}

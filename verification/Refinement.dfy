/** The core refines the sequential machine cycle by cycle. */
module Refinement {
  import opened Width
  import opened Isa
  import opened CsrUnit
  import opened Memory
  import opened Core
  import opened Sequential

  // ---------------------------------------------------------------- abstraction

  /** pc of the next instruction behind EX/MEM. */
  function BehindMem(s: State): Word {
    if s.idex.valid then s.idex.pc else BehindEx(s)
  }

  function BehindEx(s: State): Word {
    if s.ifid.valid then s.ifid.pc else s.pc
  }

  /** Architectural state: registers with the pending write applied, pc of the oldest valid slot. */
  function Abs(s: State): Arch {
    Arch(if s.exmem.valid then s.exmem.pc else BehindMem(s),
         WriteBack(s.regs, s.memwb), s.dmem, s.csrs, s.priv)
  }

  // ---------------------------------------------------------------- slot agreement

  /** Two MEM slots that MEM and WB cannot tell apart. */
  predicate AgreeSlot(x: ExMem, y: ExMem) {
    && x.valid == y.valid && AgreeMemCtl(x.m, y.m)
    && x.pc == y.pc && x.pc4 == y.pc4 && x.inst == y.inst
    && x.misaligned == y.misaligned && x.access == y.access
    && (!x.m.ls.LS_NONE? || WritesAlu(x.m) ==> x.aluOut == y.aluOut)
    && (WritesMu(x.m) ==> x.muOut == y.muOut)
    && (x.m.ls.IsStore() ==> x.v2 == y.v2)
    && (!x.m.csrOp.CSR_NONE? && x.m.csrSel.FROM_RS1? ==> x.v1 == y.v1)
  }

  /** MEM acts alike on slots that agree; the written-back value agrees when it is written. */
  lemma MemStageAgrees(u: Units, x: ExMem, y: ExMem, c: Csrs, p: Priv, d: Dmem, i: Input)
    requires AgreeSlot(x, y) && x.valid
    ensures var m, n := MemStage(u, x, c, p, d, i), MemStage(u, y, c, p, d, i);
            && m.trap == n.trap && m.csrs == n.csrs && m.priv == n.priv && m.dmem == n.dmem && m.bus == n.bus
            && (!m.trap.Trap? && x.m.regWe && x.m.rd != 0 ==> m.wb == n.wb)
  {
  }

  // ---------------------------------------------------------------- invariant

  ghost predicate IfIdInv(u: Units, s: State) {
    && (s.ifid.valid ==> s.ifid == Fetch(u, s.ifid.pc) && s.pc == Add32(s.ifid.pc, 4))
    && (!s.ifid.valid ==> s.ifid == FLUSHED_IFID)
  }

  /** A valid EX slot holds the decoded instruction at its pc. */
  ghost predicate DecodedSlot(u: Units, e: IdEx, priv: Priv) {
    var c := Decoded(u, e.pc, priv);
    && AgreeCtl(c, Ctl(c.immSel, e.x, e.m)) && SinglePurpose(Ctl(c.immSel, e.x, e.m))
    && (UsesImm(c) ==> e.imm == u.imm(c.immSel, e.inst))
    && e.pc4 == Add32(e.pc, 4) && e.inst == u.rom(e.pc)
    && e.misaligned == FetchMisaligned(e.pc) && e.access == FetchFault(e.pc)
  }

  ghost predicate IdExInv(u: Units, s: State) {
    && (s.idex.valid ==> DecodedSlot(u, s.idex, s.priv) && BehindEx(s) == Add32(s.idex.pc, 4))
    && (!s.idex.valid ==> Inert(Ctl(IMM_I, s.idex.x, s.idex.m)))
  }

  /** A valid MEM slot is the sequential machine's next instruction, and what is behind it
      is that instruction's successor. */
  ghost predicate ExMemInv(u: Units, s: State) {
    && (s.exmem.valid ==>
          var q := Issued(u, Abs(s));
          AgreeSlot(q.slot, s.exmem) && BehindMem(s) == q.next)
    && (!s.exmem.valid ==> s.exmem.m.ls.LS_NONE? && !s.exmem.m.mret && !s.exmem.m.wfi)
  }

  /** Register operands. The latched pair is current in the register file, except that while
      EX waits for the multiply/divide unit the pair that counts is the unit's own. The flag
      sq says that the instruction the unit works for has been squashed. */
  ghost predicate OperandInv(s: State, sq: bool) {
    && (s.idex.valid && (!s.mu.busy || sq) ==>
          s.idex.v1 == ReadReg(s.regs, s.idex.x.rs1) && s.idex.v2 == ReadReg(s.regs, s.idex.x.rs2))
    && (s.mu.busy ==> 1 <= s.mu.timer <= 12 && !s.exmem.valid)
    && (s.mu.busy && !sq ==>
          var r := WriteBack(s.regs, s.memwb);
          && s.idex.valid && !s.idex.x.muOp.MU_NOP?
          && s.mu.a == ReadReg(r, s.idex.x.rs1) && s.mu.b == ReadReg(r, s.idex.x.rs2))
    && (sq ==> s.mu.busy && (s.idex.valid || s.ifid.valid ==> !s.memwb.valid))
  }

  ghost predicate Inv(u: Units, s: State, sq: bool) {
    IfIdInv(u, s) && IdExInv(u, s) && ExMemInv(u, s) && OperandInv(s, sq) && !s.sleep
  }

  /** The squashed flag after one clock. */
  function NextSquashed(u: Units, s: State, sq: bool, i: Input): bool {
    Clock(u, s, i).mu.busy && (sq || Redirect(Comb(u, s, i)))
  }

  // ---------------------------------------------------------------- hypotheses

  /** A WFI completes. */
  predicate Sleeps(u: Units, s: State, i: Input) {
    s.exmem.m.wfi && !Comb(u, s, i).mem.trap.Trap?
  }

  /** Held in EX by a multiply/divide run left over from a squashed instruction, the instruction
      is lost to a flush: that of a load-use bubble, or of its own taken branch elsewhere. */
  predicate Lost(u: Units, s: State, sq: bool, i: Input) {
    var w := Comb(u, s, i);
    sq && s.idex.valid && w.lock && (w.loadUse || (w.take && w.target != s.idex.pc))
  }

  /** An M instruction leaves EX with the result of a left-over run on other operands. */
  predicate LeavesWrong(u: Units, s: State, sq: bool) {
    var op := s.idex.x.muOp;
    sq && s.idex.valid && MuDone(s.mu) && !op.MU_NOP? && WritesMu(s.idex.m)
    && u.mul(op, s.mu.a, s.mu.b) != u.mul(op, s.idex.v1, s.idex.v2)
  }

  predicate Collides(u: Units, s: State, sq: bool, i: Input) {
    Lost(u, s, sq, i) || LeavesWrong(u, s, sq)
  }

  // ---------------------------------------------------------------- operands

  /** Registers once the instruction in MEM has committed. */
  function AfterMem(u: Units, s: State, i: Input): Regs {
    var r := WriteBack(s.regs, s.memwb);
    if s.exmem.valid then WriteReg(r, s.exmem.m.regWe, s.exmem.m.rd, Comb(u, s, i).mem.wb) else r
  }

  /** Forwarding, the register-file bypass and the stalls together deliver current operands. */
  lemma ForwardedOperands(u: Units, s: State, sq: bool, i: Input)
    requires Inv(u, s, sq) && s.idex.valid && (!s.mu.busy || sq)
    ensures Comb(u, s, i).a == ReadReg(AfterMem(u, s, i), s.idex.x.rs1)
    ensures Comb(u, s, i).b == ReadReg(AfterMem(u, s, i), s.idex.x.rs2)
  {
  }

  /** Executing a decoded slot on current operands gives the slot and successor the
      sequential machine computes; a finished M instruction needs only its result. */
  lemma ExecuteAgrees(u: Units, e: IdEx, priv: Priv, regs: Regs, a: Word, b: Word, muOut: Word)
    requires e.valid && DecodedSlot(u, e, priv)
    requires e.x.muOp.MU_NOP? ==> a == ReadReg(regs, e.x.rs1) && b == ReadReg(regs, e.x.rs2) && muOut == 0
    requires !e.x.muOp.MU_NOP? && WritesMu(e.m) ==>
               muOut == u.mul(e.x.muOp, ReadReg(regs, e.x.rs1), ReadReg(regs, e.x.rs2))
    ensures var q := IssueAt(u, e.pc, regs, priv);
            && AgreeSlot(q.slot, Execute(u, e, a, b, muOut))
            && q.next == if TakeBranch(u, e.x, a, b) then AluResult(u, e.x, a, b, e.pc, e.imm) else e.pc4
  {
  }

  // ---------------------------------------------------------------- one clock, part by part

  ghost predicate Ready(u: Units, s: State, sq: bool, i: Input) {
    Sound(u, s, sq, i) && !Sleeps(u, s, i)
  }

  /** The slots that leave EX in this cycle leave as they should. */
  ghost predicate Sound(u: Units, s: State, sq: bool, i: Input) {
    Steady(u, s, sq, i) && !LeavesWrong(u, s, sq)
  }

  /** Nothing is lost in EX in this cycle. */
  ghost predicate Steady(u: Units, s: State, sq: bool, i: Input) {
    CuContract(u.cu) && Inv(u, s, sq) && !Lost(u, s, sq, i)
  }

  lemma IfIdStep(u: Units, s: State, sq: bool, i: Input)
    requires Sound(u, s, sq, i)
    ensures IfIdInv(u, Clock(u, s, i))
  {
  }

  lemma IdExStep(u: Units, s: State, sq: bool, i: Input)
    requires Sound(u, s, sq, i)
    ensures IdExInv(u, Clock(u, s, i))
  {
  }

  /** An instruction that stays in EX does so only under the lock. */
  lemma HeldInEx(u: Units, s: State, sq: bool, i: Input)
    requires Ready(u, s, sq, i) && Clock(u, s, i).idex.valid
    ensures var w, t := Comb(u, s, i), Clock(u, s, i);
            && !Redirect(w) && !w.loadUse && !w.take
            && if w.lock then t.idex == s.idex && !t.memwb.valid == !s.exmem.valid else
                 && t.idex.x == w.id.x
                 && t.idex.v1 == ReadReg(t.regs, w.id.x.rs1) && t.idex.v2 == ReadReg(t.regs, w.id.x.rs2)
  {
  }

  /** Operands latched into ID/EX come from the register file through its bypass. */
  lemma LatchedOperandStep(u: Units, s: State, sq: bool, i: Input)
    requires Ready(u, s, sq, i)
    ensures var t := Clock(u, s, i);
            t.idex.valid && (!t.mu.busy || NextSquashed(u, s, sq, i)) ==>
              && t.idex.v1 == ReadReg(t.regs, t.idex.x.rs1)
              && t.idex.v2 == ReadReg(t.regs, t.idex.x.rs2)
  {
    if Clock(u, s, i).idex.valid {
      HeldInEx(u, s, sq, i);
    }
  }

  /** The unit samples current operands when it starts. */
  lemma MuStartsOnCurrentOperands(u: Units, s: State, sq: bool, i: Input)
    requires Ready(u, s, sq, i) && !s.mu.busy && MuStart(s.mu, s.idex.x.muOp) && !Redirect(Comb(u, s, i))
    ensures var t := Clock(u, s, i);
            && t.idex == s.idex && s.idex.valid
            && t.mu.a == ReadReg(Abs(t).regs, t.idex.x.rs1) && t.mu.b == ReadReg(Abs(t).regs, t.idex.x.rs2)
  {
    RegsStep(u, s, sq, i);
    assert s.idex.valid;
    ForwardedOperands(u, s, sq, i);
  }

  /** While it counts, everything older drains without touching them. */
  lemma MuKeepsOperands(u: Units, s: State, sq: bool, i: Input)
    requires Ready(u, s, sq, i) && s.mu.busy && !sq && s.mu.timer != 1
    ensures var t := Clock(u, s, i);
            && t.idex == s.idex && t.mu.a == s.mu.a && t.mu.b == s.mu.b && Abs(t).regs == Abs(s).regs
  {
    RegsStep(u, s, sq, i);
  }

  /** A running unit holds the operands of the instruction waiting in EX. */
  lemma MuOperandStep(u: Units, s: State, sq: bool, i: Input)
    requires Ready(u, s, sq, i)
    ensures var t := Clock(u, s, i);
            t.mu.busy && !NextSquashed(u, s, sq, i) ==>
              var r := Abs(t).regs;
              && t.idex.valid && !t.idex.x.muOp.MU_NOP?
              && t.mu.a == ReadReg(r, t.idex.x.rs1) && t.mu.b == ReadReg(r, t.idex.x.rs2)
  {
    var t := Clock(u, s, i);
    if t.mu.busy && !NextSquashed(u, s, sq, i) {
      if s.mu.busy {
        MuKeepsOperands(u, s, sq, i);
      } else {
        MuStartsOnCurrentOperands(u, s, sq, i);
      }
    }
  }

  lemma MuTimerStep(u: Units, s: State, sq: bool, i: Input)
    requires Ready(u, s, sq, i)
    ensures var t := Clock(u, s, i);
            && (t.mu.busy ==> 1 <= t.mu.timer <= 12 && !t.exmem.valid)
            && (NextSquashed(u, s, sq, i) ==> t.mu.busy && (t.idex.valid || t.ifid.valid ==> !t.memwb.valid))
  {
  }

  lemma OperandStep(u: Units, s: State, sq: bool, i: Input)
    requires Ready(u, s, sq, i)
    ensures OperandInv(Clock(u, s, i), NextSquashed(u, s, sq, i))
  {
    LatchedOperandStep(u, s, sq, i);
    MuOperandStep(u, s, sq, i);
    MuTimerStep(u, s, sq, i);
  }

  /** With no trap or return, the oldest instruction after the clock is the one that was behind MEM. */
  lemma OldestStep(u: Units, s: State, sq: bool, i: Input)
    requires Steady(u, s, sq, i) && !Redirect(Comb(u, s, i))
    ensures Abs(Clock(u, s, i)).pc == BehindMem(s)
  {
  }

  lemma RegsStep(u: Units, s: State, sq: bool, i: Input)
    requires Steady(u, s, sq, i)
    ensures Abs(Clock(u, s, i)).regs ==
            if Comb(u, s, i).mem.trap.Trap? then WriteBack(s.regs, s.memwb) else AfterMem(u, s, i)
  {
  }

  lemma ExMemStep(u: Units, s: State, sq: bool, i: Input)
    requires Sound(u, s, sq, i)
    ensures ExMemInv(u, Clock(u, s, i))
  {
    var t := Clock(u, s, i);
    if t.exmem.valid {
      var w := Comb(u, s, i);
      RegsStep(u, s, sq, i);
      if !s.mu.busy || sq {
        ForwardedOperands(u, s, sq, i);
      }
      ExecuteAgrees(u, s.idex, s.priv, Abs(t).regs, w.a, w.b, MuOut(u, s.mu, s.idex.x.muOp));
    }
  }

  lemma InvStep(u: Units, s: State, sq: bool, i: Input)
    requires Ready(u, s, sq, i)
    ensures Inv(u, Clock(u, s, i), NextSquashed(u, s, sq, i))
  {
    IfIdStep(u, s, sq, i);
    IdExStep(u, s, sq, i);
    OperandStep(u, s, sq, i);
    ExMemStep(u, s, sq, i);
  }

  /** A cycle with a valid EX/MEM slot is one step of the sequential machine. */
  lemma ValidCycleIsStep(u: Units, s: State, sq: bool, i: Input)
    requires Steady(u, s, sq, i) && s.exmem.valid
    ensures Abs(Clock(u, s, i)) == Step(u, Abs(s), i)
    ensures BusOut(u, s, i) == StepOut(u, Abs(s), i).bus
  {
    var t := Clock(u, s, i);
    RegsStep(u, s, sq, i);
    if !Redirect(Comb(u, s, i)) {
      OldestStep(u, s, sq, i);
    }
    MemStageAgrees(u, Issued(u, Abs(s)).slot, s.exmem, s.csrs, s.priv, s.dmem, i);
    var e := Step(u, Abs(s), i);
    assert Abs(t).pc == e.pc;
    assert Abs(t).regs == e.regs;
  }

  /** Any other cycle is a stutter and asks nothing of the devices. */
  lemma InvalidCycleIsStutter(u: Units, s: State, sq: bool, i: Input)
    requires Steady(u, s, sq, i) && !s.exmem.valid
    ensures Abs(Clock(u, s, i)) == Idle(Abs(s), i)
    ensures BusOut(u, s, i) == QUIET_BUS
  {
    RegsStep(u, s, sq, i);
    OldestStep(u, s, sq, i);
  }

  /** What an observer of registers, memory, CSRs, privilege, pc and device requests sees of this
      cycle: one step of the sequential machine if EX/MEM is valid, and a stutter otherwise. */
  predicate Shows(u: Units, s: State, i: Input) {
    var t := Clock(u, s, i);
    && Abs(t) == (if s.exmem.valid then Step(u, Abs(s), i) else Idle(Abs(s), i))
    && BusOut(u, s, i) == (if s.exmem.valid then StepOut(u, Abs(s), i).bus else QUIET_BUS)
  }

  lemma LostShows(u: Units, s: State, sq: bool, i: Input)
    requires CuContract(u.cu) && Inv(u, s, sq) && Lost(u, s, sq, i)
    ensures !Shows(u, s, i)
  {
    assert Abs(s).pc == s.idex.pc;
    assert Abs(Clock(u, s, i)).pc != s.idex.pc;
  }

  /** From a state in which the pipeline invariant holds, a cycle is a step or a stutter exactly when
      no instruction is lost in EX: a WFI that completes and a wrong M result that leaves EX do not
      show in that cycle. */
  lemma ClockShowsExactly(u: Units, s: State, sq: bool, i: Input)
    requires CuContract(u.cu) && Inv(u, s, sq)
    ensures Shows(u, s, i) <==> !Lost(u, s, sq, i)
  {
    if Lost(u, s, sq, i) {
      LostShows(u, s, sq, i);
    } else if s.exmem.valid {
      ValidCycleIsStep(u, s, sq, i);
    } else {
      InvalidCycleIsStutter(u, s, sq, i);
    }
  }
}

/** Whole runs of the core from reset: refinement, precise traps, squashing and progress. */
module Runs {
  import opened Width
  import opened Isa
  import opened CsrUnit
  import opened Memory
  import opened Core
  import opened Causes
  import opened Sequential
  import opened Refinement

  /** A run of the core beside the sequential machine: inputs, core states, the squashed flag,
      and the sequential machine stepped in the cycles in which the core completes an instruction. */
  datatype Run = Run(ins: nat -> Input, s: nat -> State, sq: nat -> bool, gold: nat -> Arch)

  ghost predicate Clocks(u: Units, r: Run, n: nat) {
    && r.s(n + 1) == Clock(u, r.s(n), r.ins(n))
    && r.sq(n + 1) == NextSquashed(u, r.s(n), r.sq(n), r.ins(n))
    && r.gold(n + 1) == if r.s(n).exmem.valid then Step(u, r.gold(n), r.ins(n)) else Idle(r.gold(n), r.ins(n))
  }

  ghost predicate FromReset(u: Units, d: Dmem, r: Run) {
    && r.s(0) == Reset(d) && !r.sq(0)
    && r.gold(0) == Arch(0, seq(32, _ => 0), d, RESET_CSRS, PRIV_M)
    && forall n: nat :: Clocks(u, r, n)
  }

  ghost predicate Clean(u: Units, r: Run, k: nat) {
    !Sleeps(u, r.s(k), r.ins(k)) && !Collides(u, r.s(k), r.sq(k), r.ins(k))
  }

  ghost predicate InStep(u: Units, r: Run, k: nat) {
    Shows(u, r.s(k), r.ins(k))
  }

  lemma ResetInv(u: Units, d: Dmem)
    ensures Inv(u, Reset(d), false)
    ensures Abs(Reset(d)) == Arch(0, seq(32, _ => 0), d, RESET_CSRS, PRIV_M)
  {
  }

  /** The core is where the sequential machine is. */
  ghost predicate Together(u: Units, r: Run, n: nat) {
    Inv(u, r.s(n), r.sq(n)) && Abs(r.s(n)) == r.gold(n)
  }

  lemma OneMoreClock(u: Units, r: Run, n: nat)
    requires CuContract(u.cu) && Clocks(u, r, n) && Together(u, r, n)
    ensures Clean(u, r, n) ==> InStep(u, r, n) && Together(u, r, n + 1)
    ensures InStep(u, r, n) <==> !Lost(u, r.s(n), r.sq(n), r.ins(n))
  {
    ClockShowsExactly(u, r.s(n), r.sq(n), r.ins(n));
    if Clean(u, r, n) {
      InvStep(u, r.s(n), r.sq(n), r.ins(n));
    }
  }

  /** Induction over cycles, kept apart from what the predicates mean. */
  lemma {:induction false} UpTo(P: nat -> bool, from: nat, n: nat)
    requires from <= n && P(from) && forall k: nat :: from <= k < n && P(k) ==> P(k + 1)
    ensures P(n)
  {
    if from < n {
      UpTo(P, from, n - 1);
    }
  }

  /** Over every run from reset, with interrupts in any cycle and any device answers, n clean
      cycles leave the core together with the sequential machine. */
  lemma RunRefines(u: Units, d: Dmem, r: Run, n: nat)
    requires CuContract(u.cu) && FromReset(u, d, r) && forall k: nat :: k < n ==> Clean(u, r, k)
    ensures Together(u, r, n)
  {
    ResetInv(u, d);
    forall k: nat | k < n && Together(u, r, k)
      ensures Together(u, r, k + 1)
    {
      OneMoreClock(u, r, k);
    }
    UpTo((k: nat) => Together(u, r, k), 0, n);
  }

  lemma CleanCycleSteps(u: Units, d: Dmem, r: Run, n: nat)
    requires CuContract(u.cu) && FromReset(u, d, r) && forall k: nat :: k <= n ==> Clean(u, r, k)
    ensures Abs(r.s(n + 1)) == if r.s(n).exmem.valid then Step(u, Abs(r.s(n)), r.ins(n)) else Idle(Abs(r.s(n)), r.ins(n))
  {
    CleanIsGold(u, d, r, n);
    CleanIsGold(u, d, r, n + 1);
    GoldNext(u, d, r, n);
  }

  lemma CleanIsGold(u: Units, d: Dmem, r: Run, n: nat)
    requires CuContract(u.cu) && FromReset(u, d, r) && forall k: nat :: k < n ==> Clean(u, r, k)
    ensures Abs(r.s(n)) == r.gold(n)
  {
    RunRefines(u, d, r, n);
  }

  lemma GoldNext(u: Units, d: Dmem, r: Run, n: nat)
    requires FromReset(u, d, r)
    ensures r.gold(n + 1) == if r.s(n).exmem.valid then Step(u, r.gold(n), r.ins(n)) else Idle(r.gold(n), r.ins(n))
  {
    assert Clocks(u, r, n);
  }

  // ---------------------------------------------------------------- when no run collides

  /** A trap or return is taken in the cycle an M instruction first occupies EX. */
  predicate CutsMuStart(u: Units, s: State, i: Input) {
    MuStart(s.mu, s.idex.x.muOp) && Redirect(Comb(u, s, i))
  }

  ghost predicate Uncut(u: Units, r: Run, k: nat) {
    !Sleeps(u, r.s(k), r.ins(k)) && !CutsMuStart(u, r.s(k), r.ins(k))
  }

  lemma UncutStep(u: Units, r: Run, n: nat)
    requires CuContract(u.cu) && Clocks(u, r, n) && Together(u, r, n) && !r.sq(n) && Uncut(u, r, n)
    ensures InStep(u, r, n) && Together(u, r, n + 1) && !r.sq(n + 1)
  {
    OneMoreClock(u, r, n);
  }

  ghost predicate TogetherUncut(u: Units, r: Run, n: nat) {
    Together(u, r, n) && !r.sq(n)
  }

  /** If no trap or return ever cuts off a starting M instruction, only WFI can break the
      refinement: multi-cycle EX locks included. */
  lemma UncutRunRefines(u: Units, d: Dmem, r: Run, n: nat)
    requires CuContract(u.cu) && FromReset(u, d, r) && forall k: nat :: k < n ==> Uncut(u, r, k)
    ensures TogetherUncut(u, r, n) && (n > 0 ==> InStep(u, r, n - 1))
  {
    ResetInv(u, d);
    forall k: nat | k < n && TogetherUncut(u, r, k)
      ensures InStep(u, r, k) && TogetherUncut(u, r, k + 1)
    {
      UncutStep(u, r, k);
    }
    UpTo((k: nat) => TogetherUncut(u, r, k), 0, n);
    if n > 0 {
      UpTo((k: nat) => TogetherUncut(u, r, k), 0, n - 1);
    }
  }

  ghost predicate NoMulDiv(u: Units) {
    forall pc, p, j :: u.cu(u.rom(pc), p, j).x.muOp.MU_NOP?
  }

  lemma NoMulDivStep(u: Units, r: Run, n: nat)
    requires CuContract(u.cu) && Clocks(u, r, n) && TogetherUncut(u, r, n) && NoMulDiv(u)
    requires !Sleeps(u, r.s(n), r.ins(n))
    ensures Uncut(u, r, n) && TogetherUncut(u, r, n + 1)
  {
    UncutStep(u, r, n);
  }

  /** A program with no M instruction never starts the unit, so nothing can be cut off. */
  lemma NoMulDivRunRefines(u: Units, d: Dmem, r: Run, n: nat)
    requires CuContract(u.cu) && FromReset(u, d, r) && NoMulDiv(u)
    requires forall k: nat :: k < n ==> !Sleeps(u, r.s(k), r.ins(k))
    ensures TogetherUncut(u, r, n)
  {
    ResetInv(u, d);
    forall k: nat | k < n && TogetherUncut(u, r, k)
      ensures TogetherUncut(u, r, k + 1)
    {
      NoMulDivStep(u, r, k);
    }
    UpTo((k: nat) => TogetherUncut(u, r, k), 0, n);
  }

  // ---------------------------------------------------------------- operands

  /** In every reachable state the operands an EX instruction uses are the sequential
      machine's registers after everything older: forwarded in the cycle it leaves or
      starts the unit, latched in the unit while it waits. */
  lemma OperandsAreCurrent(u: Units, s: State, sq: bool, i: Input)
    requires CuContract(u.cu) && Inv(u, s, sq) && s.idex.valid && !Redirect(Comb(u, s, i))
    ensures var w := Comb(u, s, i);
            var r := if s.exmem.valid then Step(u, Abs(s), i).regs else Abs(s).regs;
            var c := Decoded(u, s.idex.pc, s.priv);
            var a := if s.mu.busy && !sq then s.mu.a else w.a;
            var b := if s.mu.busy && !sq then s.mu.b else w.b;
            && (UsesRs1(c) ==> a == ReadReg(r, c.x.rs1))
            && (UsesRs2(c) ==> b == ReadReg(r, c.x.rs2))
  {
    if !s.mu.busy || sq {
      ForwardedOperands(u, s, sq, i);
    }
    if s.exmem.valid {
      MemStageAgrees(u, Issued(u, Abs(s)).slot, s.exmem, s.csrs, s.priv, s.dmem, i);
    }
  }

  // ---------------------------------------------------------------- traps

  /** A trap at pc p leaves everything older done, and p and everything younger undone: even a
      branch taken in EX in that very cycle, and even the devices see no write. */
  lemma TrapsArePrecise(u: Units, d: Dmem, r: Run, n: nat)
    requires CuContract(u.cu) && FromReset(u, d, r) && forall k: nat :: k <= n ==> Clean(u, r, k)
    requires Comb(u, r.s(n), r.ins(n)).mem.trap.Trap?
    ensures var s, t, before := r.s(n), r.s(n + 1), r.gold(n);
            && s.exmem.valid && s.exmem.pc == before.pc && TookTrap(s, t, before, r.ins(n))
            && !t.ifid.valid && !t.idex.valid && !t.exmem.valid && !t.memwb.valid
            && !BusOut(u, s, r.ins(n)).clintWe && !BusOut(u, s, r.ins(n)).uartWe
  {
    RunRefines(u, d, r, n);
    assert Clocks(u, r, n);
    TrapStep(u, r.s(n), r.sq(n), r.ins(n));
  }

  /** Registers and memory are as before; mcause holds a cause the slot in MEM raises, mtval its value, and
      execution goes on at the base of mtvec. */
  predicate TookTrap(s: State, t: State, before: Arch, i: Input) {
    var cause := ReadCsr(t.csrs, CSR_MCAUSE);
    && Abs(t) == Arch(ReadCsr(before.csrs, CSR_MTVEC) / 4 * 4, before.regs, before.dmem, t.csrs, PRIV_M)
    && Raises(s.exmem, before.csrs, before.priv, cause)
    && Entered(before.csrs, t.csrs, before.pc, before.priv, cause, ValueFor(s.exmem, before.priv, cause), i)
  }

  lemma TrapStep(u: Units, s: State, sq: bool, i: Input)
    requires Inv(u, s, sq) && Comb(u, s, i).mem.trap.Trap?
    ensures var t := Clock(u, s, i);
            && s.exmem.valid && TookTrap(s, t, Abs(s), i)
            && !t.ifid.valid && !t.idex.valid && !t.exmem.valid && !t.memwb.valid
            && !BusOut(u, s, i).clintWe && !BusOut(u, s, i).uartWe
  {
    CauseTold(u, s.exmem, s.csrs, s.priv, s.dmem, i);
    TrapEmpties(u, s, i);
    TookFrom(u, s, Clock(u, s, i), i);
  }

  lemma TookFrom(u: Units, s: State, t: State, i: Input)
    requires s.exmem.valid
    requires Abs(t) == Arch(Vector(s.csrs.mtvec), WriteBack(s.regs, s.memwb), s.dmem, t.csrs, PRIV_M)
    requires var cause := ReadCsr(t.csrs, CSR_MCAUSE);
             && Raises(s.exmem, s.csrs, s.priv, cause)
             && Entered(s.csrs, t.csrs, s.exmem.pc, s.priv, cause, ValueFor(s.exmem, s.priv, cause), i)
    ensures TookTrap(s, t, Abs(s), i)
  {
  }

  lemma TrapEmpties(u: Units, s: State, i: Input)
    requires s.exmem.valid && Comb(u, s, i).mem.trap.Trap?
    ensures var t := Clock(u, s, i);
            && Abs(t) == Arch(Vector(s.csrs.mtvec), WriteBack(s.regs, s.memwb), s.dmem, t.csrs, PRIV_M)
            && t.csrs == MemStage(u, s.exmem, s.csrs, s.priv, s.dmem, i).csrs
            && !t.ifid.valid && !t.idex.valid && !t.exmem.valid && !t.memwb.valid
            && !BusOut(u, s, i).clintWe && !BusOut(u, s, i).uartWe
  {
  }

  /** The slot in MEM writes the CSRs a trap saves its state in. */
  predicate WritesTrapState(s: State) {
    s.exmem.valid && s.exmem.m.csrWe && (s.exmem.m.csrAddr == CSR_MSTATUS || s.exmem.m.csrAddr == CSR_MEPC)
  }

  /** In this cycle the handler takes no trap, does not return and leaves the saved state alone. */
  ghost predicate Handles(u: Units, r: Run, k: nat) {
    var w := Comb(u, r.s(k), r.ins(k));
    !Redirect(w) && !WritesTrapState(r.s(k))
  }

  /** The state saved by the trap of cycle n. */
  ghost predicate Saved(r: Run, n: nat, k: nat) {
    var c := r.s(n).csrs.mstatus;
    && r.s(k).csrs.mstatus == c.(mpie := c.mie, mie := false, mpp := r.s(n).priv)
    && r.s(k).csrs.mepc == r.s(n).exmem.pc && r.s(k).priv == PRIV_M
  }

  ghost predicate Traps(u: Units, r: Run, n: nat) {
    Comb(u, r.s(n), r.ins(n)).mem.trap.Trap?
  }

  ghost predicate Clocked(u: Units, r: Run) {
    forall k: nat :: Clocks(u, r, k)
  }

  lemma TrapSaves(u: Units, r: Run, n: nat)
    requires Clocked(u, r) && Traps(u, r, n)
    ensures Saved(r, n, n + 1)
  {
    assert Clocks(u, r, n);
  }

  lemma HandlingStep(u: Units, r: Run, n: nat, k: nat)
    requires Clocked(u, r) && Handles(u, r, k) && Saved(r, n, k)
    ensures Saved(r, n, k + 1)
  {
    assert Clocks(u, r, k);
  }

  lemma SavedMasks(r: Run, n: nat, k: nat)
    requires Saved(r, n, k)
    ensures SelectInterrupt(r.s(k).csrs).NoTrap?
  {
  }

  /** From a trap on, however many cycles its handler runs, no interrupt is taken and the saved state stays. */
  lemma HandlerKeepsState(u: Units, r: Run, n: nat, m: nat)
    requires Clocked(u, r) && n < m && Traps(u, r, n)
    requires forall k: nat :: n < k < m ==> Handles(u, r, k)
    ensures Saved(r, n, m) && SelectInterrupt(r.s(m).csrs).NoTrap?
  {
    TrapSaves(u, r, n);
    forall k: nat | n < k < m && Saved(r, n, k)
      ensures Saved(r, n, k + 1)
    {
      HandlingStep(u, r, n, k);
    }
    UpTo((k: nat) => Saved(r, n, k), n + 1, m);
    SavedMasks(r, n, m);
  }

  /** A return at the end of a handler that ran for any number of cycles undoes the trap: execution
      goes on at the instruction trapped, with its privilege and interrupt enable; until then no
      interrupt was taken. */
  lemma ReturnUndoesTrap(u: Units, r: Run, n: nat, m: nat)
    requires Clocked(u, r) && n < m && Traps(u, r, n)
    requires forall k: nat :: n < k < m ==> Handles(u, r, k)
    requires r.s(m).exmem.m.mret && !Comb(u, r.s(m), r.ins(m)).mem.trap.Trap?
    ensures var t := r.s(m + 1);
            && Abs(t).pc == r.s(n).exmem.pc && t.priv == r.s(n).priv
            && t.csrs.mstatus == r.s(n).csrs.mstatus.(mpie := true, mpp := PRIV_U)
    ensures forall k: nat :: n < k <= m ==> SelectInterrupt(r.s(k).csrs).NoTrap?
  {
    forall k: nat | n < k <= m
      ensures SelectInterrupt(r.s(k).csrs).NoTrap?
    {
      HandlerKeepsState(u, r, n, k);
    }
    HandlerKeepsState(u, r, n, m);
    assert Clocks(u, r, m);
  }

  // ---------------------------------------------------------------- squashing

  /** The valid slots and the fetch pc lie on one sequential path. */
  lemma SlotsFollowProgramOrder(u: Units, s: State, sq: bool, i: Input)
    requires CuContract(u.cu) && Inv(u, s, sq)
    ensures s.exmem.valid ==> s.exmem.pc == Abs(s).pc
    ensures s.exmem.valid && !Redirect(Comb(u, s, i)) ==> Step(u, Abs(s), i).pc == BehindMem(s)
    ensures s.idex.valid && (!s.mu.busy || sq) && !Redirect(Comb(u, s, i)) && !Comb(u, s, i).take ==>
              IssueAt(u, s.idex.pc, AfterMem(u, s, i), s.priv).next == BehindEx(s)
    ensures s.ifid.valid ==> s.ifid == Fetch(u, s.ifid.pc) && s.pc == Add32(s.ifid.pc, 4)
  {
    if s.exmem.valid {
      MemStageAgrees(u, Issued(u, Abs(s)).slot, s.exmem, s.csrs, s.priv, s.dmem, i);
    }
    if s.idex.valid && (!s.mu.busy || sq) {
      ForwardedOperands(u, s, sq, i);
      var w := Comb(u, s, i);
      var c := Decoded(u, s.idex.pc, s.priv);
      assert Compares(c.x) ==> UsesRs1(c) && UsesRs2(c);
    }
  }

  /** A bubble writes nothing, starts nothing, jumps nowhere and never traps. */
  lemma BubblesAreInert(u: Units, s: State, sq: bool, i: Input)
    requires CuContract(u.cu) && Inv(u, s, sq)
    ensures var w := Comb(u, s, i);
            && (!s.exmem.valid ==> w.mem.trap.NoTrap? && !w.mret && w.mem.dmem == s.dmem && w.mem.bus == QUIET_BUS
                                   && w.mem.priv == s.priv && w.mem.csrs == Sample(s.csrs, i.mtip, i.meip))
            && (!s.idex.valid ==> !w.take && !w.loadUse && !w.lock && !MuStart(s.mu, s.idex.x.muOp))
            && (!s.memwb.valid ==> Clock(u, s, i).regs == s.regs)
  {
  }

  // ---------------------------------------------------------------- progress

  /** Cycles until an instruction sits in EX/MEM, at most. */
  function Distance(s: State, sq: bool): int {
    if s.exmem.valid then 0
    else if sq then s.mu.timer + 15
    else if s.idex.valid then
      if s.mu.busy then s.mu.timer else if s.idex.x.muOp.MU_NOP? then 1 else MuLatency(s.idex.x.muOp) + 1
    else if s.ifid.valid then 14
    else 15
  }

  lemma DistanceDecreases(u: Units, s: State, sq: bool, i: Input)
    requires Ready(u, s, sq, i) && !s.exmem.valid
    ensures Distance(Clock(u, s, i), NextSquashed(u, s, sq, i)) < Distance(s, sq)
  {
    InvStep(u, s, sq, i);
  }

  lemma DistancePositive(u: Units, s: State, sq: bool)
    requires Inv(u, s, sq)
    ensures 0 <= Distance(s, sq) <= if sq then 27 else 15
    ensures !s.exmem.valid ==> 0 < Distance(s, sq)
  {
  }

  lemma CloserEachClock(u: Units, r: Run, n: nat)
    requires CuContract(u.cu) && Clocks(u, r, n) && Together(u, r, n) && Clean(u, r, n) && !r.s(n).exmem.valid
    ensures 0 < Distance(r.s(n), r.sq(n))
    ensures Distance(r.s(n + 1), r.sq(n + 1)) < Distance(r.s(n), r.sq(n))
  {
    DistancePositive(u, r.s(n), r.sq(n));
    DistanceDecreases(u, r.s(n), r.sq(n), r.ins(n));
  }

  /** The measure is a bound: an instruction sits in EX/MEM no later than that. */
  lemma {:induction false} CompletesWithin(u: Units, d: Dmem, r: Run, n: nat, bound: nat)
    requires CuContract(u.cu) && FromReset(u, d, r) && forall k: nat :: k < n + bound ==> Clean(u, r, k)
    requires Distance(r.s(n), r.sq(n)) <= bound
    ensures exists k: nat :: n <= k <= n + bound && r.s(k).exmem.valid
    decreases bound
  {
    RunRefines(u, d, r, n);
    if !r.s(n).exmem.valid {
      if bound > 0 {
        CloserEachClock(u, r, n);
        CompletesWithin(u, d, r, n + 1, bound - 1);
      } else {
        DistancePositive(u, r.s(n), r.sq(n));
      }
    }
  }

  /** From every reachable state an instruction completes within 15 cycles: three to fetch it
      into EX and 12 of divide latency; 12 more when a left-over run is still counting down. */
  lemma AlwaysProgresses(u: Units, d: Dmem, r: Run, n: nat)
    requires CuContract(u.cu) && FromReset(u, d, r) && forall k: nat :: k < n + 27 ==> Clean(u, r, k)
    ensures exists k: nat :: n <= k <= n + (if r.sq(n) then 27 else 15) && r.s(k).exmem.valid
  {
    RunRefines(u, d, r, n);
    DistancePositive(u, r.s(n), r.sq(n));
    CompletesWithin(u, d, r, n, if r.sq(n) then 27 else 15);
  }
}

/** What an observer sees over whole runs, WFI and left-over multiply/divide runs included:
    the exact condition for each cycle to be a step or a stutter of the sequential machine. */
module Observation {
  import opened Width
  import opened Isa
  import opened CsrUnit
  import opened Memory
  import opened Core
  import opened Sequential
  import opened Refinement
  import opened Runs

  // ---------------------------------------------------------------- invariant

  /** s with the result the M instruction in MEM ought to have, if it brings a wrong one. */
  function Mended(u: Units, s: State, bad: bool): State {
    if bad then s.(exmem := s.exmem.(muOut := Issued(u, Abs(s)).slot.muOut)) else s
  }

  /** A slot in MEM whose result is another operation's. */
  ghost predicate BringsWrong(u: Units, s: State) {
    s.exmem.valid && WritesMu(s.exmem.m) && s.exmem.muOut != Issued(u, Abs(s)).slot.muOut
  }

  /** The part of the pipeline invariant that survives sleep: the slots follow program order. */
  ghost predicate AsleepInv(u: Units, s: State) {
    && IfIdInv(u, s) && IdExInv(u, s) && ExMemInv(u, s)
    && (s.mu.busy ==> 1 <= s.mu.timer <= 12 && !s.exmem.valid)
    && (s.exmem.valid && s.idex.valid ==> s.idex.pc == Add32(s.exmem.pc, 4))
  }

  /** bad says that the M instruction in MEM left EX with a left-over run's result. */
  ghost predicate ObsInv(u: Units, s: State, sq: bool, bad: bool) {
    if s.sleep then !bad && AsleepInv(u, s)
    else Inv(u, Mended(u, s, bad), sq) && (bad ==> BringsWrong(u, s) && !s.mu.busy)
  }

  predicate NextBad(u: Units, s: State, sq: bool) {
    !s.sleep && LeavesWrong(u, s, sq)
  }

  // ---------------------------------------------------------------- the condition

  /** Asleep, EX is flushed although it cannot move on. */
  predicate Dropped(u: Units, s: State, i: Input) {
    var w := Comb(u, s, i);
    s.idex.valid && (w.loadUse || (w.take && w.target != s.idex.pc))
  }

  /** The slot in MEM would change a register. */
  predicate ChangesRegister(u: Units, s: State, i: Input) {
    var m := s.exmem.m;
    m.regWe && m.rd != 0 && Comb(u, s, i).mem.wb != WriteBack(s.regs, s.memwb)[m.rd]
  }

  /** The slot in MEM will be there again in the next cycle, though its successor is another. */
  predicate Repeats(u: Units, s: State, i: Input) {
    var w := Comb(u, s, i);
    !w.mret && !w.lock && s.exmem.pc != BehindMem(s)
  }

  /** The cycle differs from what the sequential machine does. Awake: an instruction is lost in EX, or
      a wrong result commits. Asleep over a bubble: EX is flushed. Asleep over a slot that takes no
      trap: its register write is lost, or it does not move on. */
  predicate Deviates(u: Units, s: State, sq: bool, bad: bool, i: Input) {
    var trap := Comb(u, s, i).mem.trap.Trap?;
    if !s.sleep then Lost(u, s, sq, i) || (bad && !trap)
    else if !s.exmem.valid then Dropped(u, s, i)
    else !trap && (ChangesRegister(u, s, i) || Repeats(u, s, i))
  }

  // ---------------------------------------------------------------- traps

  /** A trap is taken as the sequential machine takes it, whatever result the slot brings. */
  lemma TrapShows(u: Units, s: State, i: Input)
    requires s.exmem.valid && Comb(u, s, i).mem.trap.Trap?
    requires var y := Issued(u, Abs(s)).slot; AgreeSlot(y, s.exmem.(muOut := y.muOut))
    ensures Shows(u, s, i)
  {
    var y := Issued(u, Abs(s)).slot;
    MemStageAgrees(u, y, s.exmem.(muOut := y.muOut), s.csrs, s.priv, s.dmem, i);
  }

  /** After a trap nothing of a wrong result or a sleep is left but the sleep flag and a running unit. */
  lemma TrapRestores(u: Units, s: State, sq: bool, i: Input)
    requires Comb(u, s, i).mem.trap.Trap? && (s.mu.busy ==> 1 <= s.mu.timer <= 12)
    ensures ObsInv(u, Clock(u, s, i), NextSquashed(u, s, sq, i), false)
  {
  }

  // ---------------------------------------------------------------- a wrong result

  /** A wrong result leaving EX shows nothing yet. */
  lemma LeavingWrongStep(u: Units, s: State, sq: bool, i: Input)
    requires CuContract(u.cu) && Inv(u, s, sq) && LeavesWrong(u, s, sq)
    ensures var t := Clock(u, s, i);
            !t.sleep && !t.mu.busy && Inv(u, Mended(u, t, true), NextSquashed(u, s, sq, i)) && BringsWrong(u, t)
  {
    WrongLeft(u, s, sq, i);
    RestOrdered(u, s, sq, i);
  }

  /** But for its result the slot, and the two behind it, are in order. */
  lemma RestOrdered(u: Units, s: State, sq: bool, i: Input)
    requires CuContract(u.cu) && Inv(u, s, sq) && LeavesWrong(u, s, sq)
    ensures var t := Mended(u, Clock(u, s, i), true);
            IfIdInv(u, t) && IdExInv(u, t) && ExMemInv(u, t)
  {
  }

  lemma WrongLeft(u: Units, s: State, sq: bool, i: Input)
    requires CuContract(u.cu) && Inv(u, s, sq) && LeavesWrong(u, s, sq)
    ensures var t := Clock(u, s, i);
            !t.sleep && !t.mu.busy && BringsWrong(u, t)
  {
  }

  /** The core writes what the slot brings, the sequential machine what it ought to bring. */
  lemma WrongWritten(u: Units, s: State, sq: bool, i: Input)
    requires CuContract(u.cu) && ObsInv(u, s, sq, true) && !Comb(u, s, i).mem.trap.Trap?
    ensures Abs(Clock(u, s, i)).regs[s.exmem.m.rd] == s.exmem.muOut
  {
  }

  lemma RightWritten(u: Units, s: State, sq: bool, i: Input)
    requires CuContract(u.cu) && ObsInv(u, s, sq, true) && !Comb(u, s, i).mem.trap.Trap?
    ensures Step(u, Abs(s), i).regs[s.exmem.m.rd] == Issued(u, Abs(s)).slot.muOut
  {
    var y := Issued(u, Abs(s)).slot;
    MemStageAgrees(u, y, Mended(u, s, true).exmem, s.csrs, s.priv, s.dmem, i);
  }

  lemma WrongCommits(u: Units, s: State, sq: bool, i: Input)
    requires CuContract(u.cu) && ObsInv(u, s, sq, true) && !Comb(u, s, i).mem.trap.Trap?
    ensures !Shows(u, s, i)
  {
    WrongWritten(u, s, sq, i);
    RightWritten(u, s, sq, i);
  }

  /** With a wrong result in MEM no instruction is lost in EX: the unit is idle. */
  lemma OnlyWrong(u: Units, s: State, sq: bool, i: Input)
    requires ObsInv(u, s, sq, true)
    ensures Deviates(u, s, sq, true, i) <==> !Comb(u, s, i).mem.trap.Trap?
  {
  }

  /** It shows in the next cycle, unless that slot takes a trap; then it is gone without a trace. */
  lemma BringingWrongStep(u: Units, s: State, sq: bool, i: Input)
    requires CuContract(u.cu) && ObsInv(u, s, sq, true)
    ensures Shows(u, s, i) <==> Comb(u, s, i).mem.trap.Trap?
    ensures Shows(u, s, i) ==> ObsInv(u, Clock(u, s, i), NextSquashed(u, s, sq, i), false)
  {
    if Comb(u, s, i).mem.trap.Trap? {
      TrapShows(u, s, i);
      TrapRestores(u, s, sq, i);
    } else {
      WrongCommits(u, s, sq, i);
    }
  }

  // ---------------------------------------------------------------- asleep

  lemma FallsInOrder(u: Units, s: State, sq: bool, i: Input)
    requires CuContract(u.cu) && Inv(u, s, sq) && Sleeps(u, s, i)
    ensures var t := Clock(u, s, i);
            && t.sleep && (t.mu.busy ==> 1 <= t.mu.timer <= 12 && !t.exmem.valid)
            && (t.exmem.valid && t.idex.valid ==> t.idex.pc == Add32(t.exmem.pc, 4))
  {
  }

  /** Falling asleep shows nothing yet. */
  lemma FallingStep(u: Units, s: State, sq: bool, i: Input)
    requires CuContract(u.cu) && Inv(u, s, sq) && Sleeps(u, s, i)
    ensures Clock(u, s, i).sleep && AsleepInv(u, Clock(u, s, i))
  {
    assert Sound(u, s, sq, i);
    IfIdStep(u, s, sq, i);
    IdExStep(u, s, sq, i);
    ExMemStep(u, s, sq, i);
    FallsInOrder(u, s, sq, i);
  }

  lemma BubbleShows(u: Units, s: State, i: Input)
    requires CuContract(u.cu) && AsleepInv(u, s) && s.sleep && !s.exmem.valid
    ensures Shows(u, s, i) <==> !Dropped(u, s, i)
  {
  }

  lemma AsleepBubbleStep(u: Units, s: State, i: Input)
    requires CuContract(u.cu) && AsleepInv(u, s) && s.sleep && !s.exmem.valid && !Dropped(u, s, i)
    ensures Clock(u, s, i).sleep && AsleepInv(u, Clock(u, s, i))
  {
  }

  /** Registers, memory and CSRs of a cycle asleep over a slot that takes no trap. */
  lemma SlotCommitsBut(u: Units, s: State, i: Input)
    requires AsleepInv(u, s) && s.sleep && s.exmem.valid && !Comb(u, s, i).mem.trap.Trap?
    ensures var t, e := Abs(Clock(u, s, i)), Step(u, Abs(s), i);
            && t.(pc := 0, regs := e.regs) == e.(pc := 0)
            && (t.regs == e.regs <==> !ChangesRegister(u, s, i))
            && BusOut(u, s, i) == StepOut(u, Abs(s), i).bus
  {
    MemStageAgrees(u, Issued(u, Abs(s)).slot, s.exmem, s.csrs, s.priv, s.dmem, i);
  }

  lemma SlotMovesOn(u: Units, s: State, i: Input)
    requires CuContract(u.cu) && AsleepInv(u, s) && s.sleep && s.exmem.valid && !Comb(u, s, i).mem.trap.Trap?
    ensures Abs(Clock(u, s, i)).pc == Step(u, Abs(s), i).pc <==> !Repeats(u, s, i)
  {
    SuccessorAsleep(u, s, i);
    NextPcAsleep(u, s, i);
  }

  lemma SuccessorAsleep(u: Units, s: State, i: Input)
    requires AsleepInv(u, s) && s.exmem.valid && !Comb(u, s, i).mem.trap.Trap?
    ensures Step(u, Abs(s), i).pc == if Comb(u, s, i).mret then s.csrs.mepc else BehindMem(s)
  {
    MemStageAgrees(u, Issued(u, Abs(s)).slot, s.exmem, s.csrs, s.priv, s.dmem, i);
  }

  lemma NextPcAsleep(u: Units, s: State, i: Input)
    requires CuContract(u.cu) && AsleepInv(u, s) && s.sleep && s.exmem.valid && !Comb(u, s, i).mem.trap.Trap?
    ensures var w := Comb(u, s, i);
            Abs(Clock(u, s, i)).pc == if w.mret then s.csrs.mepc else if w.lock then BehindMem(s) else s.exmem.pc
  {
  }

  /** The slot leaves MEM for nowhere: a return empties the latches, a starting M instruction EX/MEM. */
  lemma SlotVanishes(u: Units, s: State, i: Input)
    requires CuContract(u.cu) && AsleepInv(u, s) && s.sleep && s.exmem.valid && !Comb(u, s, i).mem.trap.Trap?
    requires Comb(u, s, i).mret || Comb(u, s, i).lock
    ensures Clock(u, s, i).sleep && AsleepInv(u, Clock(u, s, i))
  {
  }

  /** A slot that jumps to itself and changes no register can stay: it is its own successor. */
  lemma SlotStays(u: Units, s: State, i: Input)
    requires CuContract(u.cu) && AsleepInv(u, s) && s.sleep && s.exmem.valid && !Comb(u, s, i).mem.trap.Trap?
    requires !Comb(u, s, i).mret && !Comb(u, s, i).lock && s.exmem.pc == BehindMem(s)
    requires Abs(Clock(u, s, i)).regs == Abs(s).regs
    ensures Clock(u, s, i).sleep && AsleepInv(u, Clock(u, s, i))
  {
    AllHeld(u, s, i);
    assert Issued(u, Abs(Clock(u, s, i))) == Issued(u, Abs(s));
  }

  lemma AllHeld(u: Units, s: State, i: Input)
    requires CuContract(u.cu) && AsleepInv(u, s) && s.sleep && s.exmem.valid && !Comb(u, s, i).mem.trap.Trap?
    requires !Comb(u, s, i).mret && s.exmem.pc == BehindMem(s)
    ensures var t := Clock(u, s, i);
            && !s.idex.valid && t.exmem == s.exmem && t.idex == s.idex && t.ifid == s.ifid && t.pc == s.pc
            && t.priv == s.priv && t.mu == s.mu && t.sleep
  {
    NobodyBehind(u, s);
  }

  /** A slot that is its own successor has none in EX. */
  lemma NobodyBehind(u: Units, s: State)
    requires AsleepInv(u, s) && s.exmem.valid && s.exmem.pc == BehindMem(s)
    ensures !s.idex.valid
  {
  }

  lemma AsleepSlotStep(u: Units, s: State, i: Input)
    requires CuContract(u.cu) && AsleepInv(u, s) && s.sleep && s.exmem.valid && !Comb(u, s, i).mem.trap.Trap?
    ensures Shows(u, s, i) <==> !ChangesRegister(u, s, i) && !Repeats(u, s, i)
    ensures Shows(u, s, i) ==> Clock(u, s, i).sleep && AsleepInv(u, Clock(u, s, i))
  {
    SlotCommitsBut(u, s, i);
    SlotMovesOn(u, s, i);
    if Comb(u, s, i).mret || Comb(u, s, i).lock {
      SlotVanishes(u, s, i);
    } else if !ChangesRegister(u, s, i) && !Repeats(u, s, i) {
      UnchangedRegisters(u, s, i);
      SlotStays(u, s, i);
    }
  }

  lemma UnchangedRegisters(u: Units, s: State, i: Input)
    requires AsleepInv(u, s) && s.sleep && s.exmem.valid && !Comb(u, s, i).mem.trap.Trap?
    ensures Abs(Clock(u, s, i)).regs == Abs(s).regs
  {
  }

  // ---------------------------------------------------------------- one clock

  lemma AwakeStep(u: Units, s: State, sq: bool, i: Input)
    requires CuContract(u.cu) && Inv(u, s, sq)
    ensures Shows(u, s, i) <==> !Lost(u, s, sq, i)
    ensures Shows(u, s, i) ==> ObsInv(u, Clock(u, s, i), NextSquashed(u, s, sq, i), NextBad(u, s, sq))
  {
    ClockShowsExactly(u, s, sq, i);
    if Sleeps(u, s, i) {
      FallingStep(u, s, sq, i);
    } else if LeavesWrong(u, s, sq) {
      LeavingWrongStep(u, s, sq, i);
    } else if !Lost(u, s, sq, i) {
      InvStep(u, s, sq, i);
    }
  }

  lemma AsleepStep(u: Units, s: State, sq: bool, i: Input)
    requires CuContract(u.cu) && AsleepInv(u, s) && s.sleep
    ensures Shows(u, s, i) <==> !Deviates(u, s, sq, false, i)
    ensures Shows(u, s, i) ==> ObsInv(u, Clock(u, s, i), NextSquashed(u, s, sq, i), false)
  {
    if !s.exmem.valid {
      BubbleShows(u, s, i);
      if !Dropped(u, s, i) {
        AsleepBubbleStep(u, s, i);
      }
    } else if Comb(u, s, i).mem.trap.Trap? {
      TrapShows(u, s, i);
      TrapRestores(u, s, sq, i);
    } else {
      AsleepSlotStep(u, s, i);
    }
  }

  /** The exact condition, awake or asleep; while it holds the invariant lasts. */
  lemma CycleShowsExactly(u: Units, s: State, sq: bool, bad: bool, i: Input)
    requires CuContract(u.cu) && ObsInv(u, s, sq, bad)
    ensures Shows(u, s, i) <==> !Deviates(u, s, sq, bad, i)
    ensures Shows(u, s, i) ==> ObsInv(u, Clock(u, s, i), NextSquashed(u, s, sq, i), NextBad(u, s, sq))
  {
    if s.sleep {
      AsleepStep(u, s, sq, i);
    } else if bad {
      BringingWrongStep(u, s, sq, i);
    } else {
      AwakeStep(u, s, sq, i);
    }
  }

  // ---------------------------------------------------------------- whole runs

  /** Whether the slot in MEM left EX in the cycle before with a wrong result. */
  predicate BadAt(u: Units, r: Run, n: nat) {
    n > 0 && NextBad(u, r.s(n - 1), r.sq(n - 1))
  }

  predicate DeviatesAt(u: Units, r: Run, n: nat) {
    Deviates(u, r.s(n), r.sq(n), BadAt(u, r, n), r.ins(n))
  }

  /** The sequential machine is where the core is, and the slots are in order. */
  ghost predicate Observed(u: Units, r: Run, n: nat) {
    ObsInv(u, r.s(n), r.sq(n), BadAt(u, r, n)) && Abs(r.s(n)) == r.gold(n)
  }

  lemma OneMoreCycle(u: Units, r: Run, n: nat)
    requires CuContract(u.cu) && Clocks(u, r, n) && Observed(u, r, n)
    ensures InStep(u, r, n) <==> !DeviatesAt(u, r, n)
    ensures InStep(u, r, n) ==> Observed(u, r, n + 1)
    ensures InStep(u, r, n) <==> Abs(r.s(n + 1)) == r.gold(n + 1) && InStepBus(u, r, n)
  {
    CycleShowsExactly(u, r.s(n), r.sq(n), BadAt(u, r, n), r.ins(n));
  }

  predicate InStepBus(u: Units, r: Run, n: nat) {
    BusOut(u, r.s(n), r.ins(n)) == if r.s(n).exmem.valid then StepOut(u, r.gold(n), r.ins(n)).bus else QUIET_BUS
  }

  lemma InStepObserved(u: Units, d: Dmem, r: Run, n: nat)
    requires CuContract(u.cu) && FromReset(u, d, r) && forall k: nat :: k < n ==> InStep(u, r, k)
    ensures Observed(u, r, n)
  {
    ResetInv(u, d);
    forall k: nat | k < n && Observed(u, r, k)
      ensures Observed(u, r, k + 1)
    {
      OneMoreCycle(u, r, k);
    }
    UpTo((k: nat) => Observed(u, r, k), 0, n);
  }

  ghost predicate InStepTo(u: Units, r: Run, n: nat) {
    Observed(u, r, n) && forall k: nat :: k < n ==> InStep(u, r, k)
  }

  /** Over every run from reset, any program, interrupts and device answers: each of the first n cycles
      is a step or a stutter of the sequential machine exactly when none of them deviates. */
  lemma RunShowsExactly(u: Units, d: Dmem, r: Run, n: nat)
    requires CuContract(u.cu) && FromReset(u, d, r)
    ensures (forall k: nat :: k < n ==> InStep(u, r, k)) <==> (forall k: nat :: k < n ==> !DeviatesAt(u, r, k))
    ensures (forall k: nat :: k < n ==> InStep(u, r, k)) ==> Abs(r.s(n)) == r.gold(n)
  {
    if forall k: nat :: k < n ==> InStep(u, r, k) {
      forall k: nat | k < n
        ensures !DeviatesAt(u, r, k)
      {
        InStepObserved(u, d, r, k);
        OneMoreCycle(u, r, k);
      }
      InStepObserved(u, d, r, n);
    }
    if forall k: nat :: k < n ==> !DeviatesAt(u, r, k) {
      ResetInv(u, d);
      forall k: nat | k < n && InStepTo(u, r, k)
        ensures InStepTo(u, r, k + 1)
      {
        OneMoreCycle(u, r, k);
      }
      UpTo((k: nat) => InStepTo(u, r, k), 0, n);
    }
  }

  lemma NextCycleShows(u: Units, d: Dmem, r: Run, n: nat)
    requires CuContract(u.cu) && FromReset(u, d, r) && (forall k: nat :: k <= n ==> InStep(u, r, k))
    ensures Observed(u, r, n + 1) && (InStep(u, r, n + 1) <==> !DeviatesAt(u, r, n + 1))
  {
    InStepObserved(u, d, r, n + 1);
    assert Clocks(u, r, n + 1);
    OneMoreCycle(u, r, n + 1);
  }

  lemma AwakeCycleShows(u: Units, d: Dmem, r: Run, n: nat)
    requires CuContract(u.cu) && FromReset(u, d, r) && (forall k: nat :: k < n ==> InStep(u, r, k))
    requires !r.s(n).sleep && !BadAt(u, r, n)
    ensures Inv(u, r.s(n), r.sq(n))
    ensures InStep(u, r, n) <==> !Lost(u, r.s(n), r.sq(n), r.ins(n))
  {
    InStepObserved(u, d, r, n);
    assert Clocks(u, r, n);
    OneMoreCycle(u, r, n);
  }

  /** A result wrong in EX never shows in the cycle it leaves, and in the next one exactly if that slot
      takes no trap. */
  lemma WrongResultFirstShows(u: Units, d: Dmem, r: Run, n: nat)
    requires CuContract(u.cu) && FromReset(u, d, r) && (forall k: nat :: k < n ==> InStep(u, r, k))
    requires !r.s(n).sleep && !BadAt(u, r, n) && LeavesWrong(u, r.s(n), r.sq(n))
    ensures InStep(u, r, n)
    ensures InStep(u, r, n + 1) <==> Comb(u, r.s(n + 1), r.ins(n + 1)).mem.trap.Trap?
  {
    AwakeCycleShows(u, d, r, n);
    NotLostWhenDone(u, r.s(n), r.sq(n), r.ins(n));
    NextCycleShows(u, d, r, n);
    WrongDeviates(u, r, n);
  }

  lemma WrongDeviates(u: Units, r: Run, n: nat)
    requires Observed(u, r, n + 1) && NextBad(u, r.s(n), r.sq(n))
    ensures DeviatesAt(u, r, n + 1) <==> !Comb(u, r.s(n + 1), r.ins(n + 1)).mem.trap.Trap?
  {
    OnlyWrong(u, r.s(n + 1), r.sq(n + 1), r.ins(n + 1));
  }

  lemma NotLostWhenDone(u: Units, s: State, sq: bool, i: Input)
    requires MuDone(s.mu)
    ensures !Lost(u, s, sq, i)
  {
  }

  /** A WFI never shows in the cycle it completes; in the next one it shows over a bubble if EX is
      flushed, and over a slot that takes no trap if that slot changes a register or its successor
      is another instruction. */
  lemma SleepFirstShows(u: Units, d: Dmem, r: Run, n: nat)
    requires CuContract(u.cu) && FromReset(u, d, r) && (forall k: nat :: k < n ==> InStep(u, r, k))
    requires !r.s(n).sleep && !BadAt(u, r, n) && Sleeps(u, r.s(n), r.ins(n))
    ensures InStep(u, r, n)
    ensures var t, i := r.s(n + 1), r.ins(n + 1);
            && t.sleep
            && (InStep(u, r, n + 1) <==>
                  if !t.exmem.valid then !Dropped(u, t, i)
                  else Comb(u, t, i).mem.trap.Trap? || (!ChangesRegister(u, t, i) && !Repeats(u, t, i)))
  {
    AwakeCycleShows(u, d, r, n);
    FallingStep(u, r.s(n), r.sq(n), r.ins(n));
    NextCycleShows(u, d, r, n);
    assert Clocks(u, r, n);
  }

  /** A core asleep over a bubble stutters as long as EX is not flushed: it is in step, and stuck. */
  lemma StuckButInStep(u: Units, d: Dmem, r: Run, n: nat, m: nat)
    requires CuContract(u.cu) && FromReset(u, d, r) && n <= m && (forall k: nat :: k < n ==> InStep(u, r, k))
    requires r.s(n).sleep && !r.s(n).exmem.valid
    requires forall k: nat :: n <= k < m ==> !Dropped(u, r.s(k), r.ins(k))
    ensures r.s(m).sleep && !r.s(m).exmem.valid && Abs(r.s(m)) == r.gold(m) && r.gold(m).pc == r.gold(n).pc
  {
    InStepObserved(u, d, r, n);
    forall k: nat | n <= k < m && StuckAt(u, r, n, k)
      ensures StuckAt(u, r, n, k + 1)
    {
      assert Clocks(u, r, k);
      OneMoreCycle(u, r, k);
      AsleepBubbleStep(u, r.s(k), r.ins(k));
      StaysEmpty(u, r.s(k), r.ins(k));
    }
    UpTo((k: nat) => StuckAt(u, r, n, k), n, m);
  }

  ghost predicate StuckAt(u: Units, r: Run, n: nat, k: nat) {
    Observed(u, r, k) && r.s(k).sleep && !r.s(k).exmem.valid && r.gold(k).pc == r.gold(n).pc
  }

  lemma StaysEmpty(u: Units, s: State, i: Input)
    requires s.sleep && !s.exmem.valid
    ensures Clock(u, s, i).sleep && !Clock(u, s, i).exmem.valid
  {
  }
}

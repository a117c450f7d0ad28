/** A run from reset in which a squashed multiplication makes the core lose a jump. */
module Collision {
  import opened Width
  import opened Isa
  import opened CsrUnit
  import opened Memory
  import opened Core
  import opened Sequential
  import opened Refinement
  import opened Runs
  import ControlUnit

  /** 0: jal x1, 8    8: ecall    12: mul x0, x0, x0    elsewhere: nop */
  const JAL: Word := 0x0080_00EF
  const ECALL: Word := 0x0000_0073
  const MULT: Word := 0x0200_0033

  function Program(pc: Word): Word {
    if pc == 0 then JAL else if pc == 8 then ECALL else if pc == 12 then MULT else INST_NOP
  }

  const DEMO := Units(Program, ControlUnit.Decode, (s: ImmSel, i: Word) => 8, (o: AluOp, a: Word, b: Word) => Add32(a, b),
                      (o: BuOp, a: Word, b: Word) => false, (o: MuOp, a: Word, b: Word) => 0)

  const QUIET := Input(0, 0, false, false, BUBBLE_CTL)

  const JAL_X := ExCtl(ADD, A_PC, B_IMM, true, ALWAYS, 0, 0, MU_NOP)
  const JAL_M := BUBBLE_MEM.(regWe := true, rd := 1, wbSel := WB_PC4, csrAddr := 8)
  const ECALL_M := BUBBLE_MEM.(ecall := true)
  const MUL_X := BUBBLE_EX.(muOp := MUL)
  const MUL_M := BUBBLE_MEM.(regWe := true, wbSel := WB_MU, csrAddr := 0x20)

  lemma Decodings()
    ensures ControlUnit.Decode(JAL, PRIV_M, BUBBLE_CTL) == Ctl(IMM_J, JAL_X, JAL_M)
    ensures ControlUnit.Decode(ECALL, PRIV_M, BUBBLE_CTL) == Ctl(IMM_I, BUBBLE_EX, ECALL_M)
    ensures ControlUnit.Decode(MULT, PRIV_M, BUBBLE_CTL) == Ctl(IMM_I, MUL_X, MUL_M)
  {
  }

  predicate Calm(s: State) {
    !s.csrs.mstatus.mie && s.csrs.mtvec.base == 0 && s.priv == PRIV_M && !s.sleep
  }

  predicate EmptyEx(s: State) {
    !s.idex.valid && Inert(Ctl(IMM_I, s.idex.x, s.idex.m))
  }

  predicate EmptyMem(s: State) {
    !s.exmem.valid && s.exmem.m.ls.LS_NONE? && !s.exmem.m.mret && !s.exmem.m.wfi
  }

  /** The slot e holds the program's instruction at pc. */
  predicate InEx(e: IdEx, pc: Word, x: ExCtl, m: MemCtl) {
    e == IdEx(true, x, m, e.v1, e.v2, 8, pc, Add32(pc, 4), Program(pc), false, false)
  }

  predicate Entry(s: State) {
    Calm(s) && s.pc == 0 && s.ifid == FLUSHED_IFID && EmptyEx(s) && EmptyMem(s)
  }

  predicate JalFetched(s: State) {
    Calm(s) && s.pc == 4 && s.ifid == Fetch(DEMO, 0) && EmptyEx(s) && EmptyMem(s)
  }

  predicate JalInEx(s: State) {
    Calm(s) && s.pc == 8 && s.ifid == Fetch(DEMO, 4) && InEx(s.idex, 0, JAL_X, JAL_M) && EmptyMem(s)
  }

  predicate JalInMem(s: State) {
    Calm(s) && s.pc == 8 && s.ifid == FLUSHED_IFID && EmptyEx(s)
    && s.exmem.valid && s.exmem.m == JAL_M && !s.exmem.misaligned && !s.exmem.access
  }

  predicate EcallFetched(s: State) {
    Calm(s) && s.pc == 12 && s.ifid == Fetch(DEMO, 8) && EmptyEx(s) && EmptyMem(s)
  }

  predicate EcallInEx(s: State) {
    Calm(s) && s.pc == 16 && s.ifid == Fetch(DEMO, 12) && InEx(s.idex, 8, BUBBLE_EX, ECALL_M) && EmptyMem(s)
  }

  predicate EcallInMem(s: State) {
    Calm(s) && InEx(s.idex, 12, MUL_X, MUL_M)
    && s.exmem.valid && s.exmem.m == ECALL_M && !s.exmem.misaligned && !s.exmem.access
  }

  lemma EntryStep(s: State)
    requires Entry(s)
    ensures JalFetched(Clock(DEMO, s, QUIET))
  {
    ControlUnit.NopIsInert(PRIV_M, BUBBLE_CTL);
  }

  lemma JalFetchedStep(s: State)
    requires JalFetched(s)
    ensures JalInEx(Clock(DEMO, s, QUIET))
  {
    Decodings();
  }

  /** Undisturbed, the jump moves on to MEM and fetching continues at its target. */
  lemma JalStep(s: State)
    requires JalInEx(s) && !s.mu.busy
    ensures JalInMem(Clock(DEMO, s, QUIET))
  {
  }

  lemma JalInMemStep(s: State)
    requires JalInMem(s)
    ensures EcallFetched(Clock(DEMO, s, QUIET))
  {
    ControlUnit.NopIsInert(PRIV_M, BUBBLE_CTL);
  }

  lemma EcallFetchedStep(s: State)
    requires EcallFetched(s)
    ensures EcallInEx(Clock(DEMO, s, QUIET))
  {
    Decodings();
  }

  lemma EcallStep(s: State)
    requires EcallInEx(s) && !s.mu.busy
    ensures EcallInMem(Clock(DEMO, s, QUIET)) && !Clock(DEMO, s, QUIET).mu.busy
  {
    Decodings();
  }

  /** The trap squashes the multiplication in the cycle it starts the unit. */
  lemma TrapCutsMul(s: State)
    requires EcallInMem(s) && !s.mu.busy
    ensures var t := Clock(DEMO, s, QUIET);
            Entry(t) && t.mu.busy && t.mu.timer == 4 && NextSquashed(DEMO, s, false, QUIET)
  {
  }

  /** Held in EX by the left-over run, the jump flushes itself away. */
  lemma JalIsLost(s: State)
    requires JalInEx(s) && s.mu.busy && s.mu.timer == 2
    ensures Collides(DEMO, s, true, QUIET) && !s.exmem.valid
    ensures Abs(s).pc == 0 && Abs(Clock(DEMO, s, QUIET)).pc == 8
  {
  }

  /** Where the run is k clocks after reset. */
  predicate Phase(k: nat, s: State, sq: bool) {
    match k
    case 0 => Entry(s) && !s.mu.busy && !sq
    case 1 => JalFetched(s) && !s.mu.busy && !sq
    case 2 => JalInEx(s) && !s.mu.busy && !sq
    case 3 => JalInMem(s) && !s.mu.busy && !sq
    case 4 => EcallFetched(s) && !s.mu.busy && !sq
    case 5 => EcallInEx(s) && !s.mu.busy && !sq
    case 6 => EcallInMem(s) && !s.mu.busy && !sq
    case 7 => Entry(s) && s.mu.busy && s.mu.timer == 4 && sq
    case 8 => JalFetched(s) && s.mu.busy && s.mu.timer == 3 && sq
    case 9 => JalInEx(s) && s.mu.busy && s.mu.timer == 2 && sq
    case _ => false
  }

  lemma PhaseStep(k: nat, s: State, sq: bool)
    requires k < 9 && Phase(k, s, sq)
    ensures Phase(k + 1, Clock(DEMO, s, QUIET), NextSquashed(DEMO, s, sq, QUIET))
    ensures !Sleeps(DEMO, s, QUIET) && !Collides(DEMO, s, sq, QUIET)
  {
    match k
    case 0 => EntryStep(s);
    case 1 => JalFetchedStep(s);
    case 2 => JalStep(s);
    case 3 => JalInMemStep(s);
    case 4 => EcallFetchedStep(s);
    case 5 => EcallStep(s);
    case 6 => TrapCutsMul(s);
    case 7 => EntryStep(s);
    case 8 => JalFetchedStep(s);
  }

  ghost predicate OnCourse(r: Run, k: nat) {
    Phase(k, r.s(k), r.sq(k))
  }

  lemma OnCourseStep(r: Run, k: nat)
    requires k < 9 && Clocks(DEMO, r, k) && r.ins(k) == QUIET && OnCourse(r, k)
    ensures OnCourse(r, k + 1) && Clean(DEMO, r, k)
  {
    PhaseStep(k, r.s(k), r.sq(k));
  }

  lemma Course(d: Dmem, r: Run, n: nat)
    requires FromReset(DEMO, d, r) && n <= 9 && forall k: nat :: r.ins(k) == QUIET
    ensures OnCourse(r, n)
  {
    forall k: nat | k < n && OnCourse(r, k)
      ensures OnCourse(r, k + 1)
    {
      assert Clocks(DEMO, r, k);
      OnCourseStep(r, k);
    }
    UpTo((k: nat) => OnCourse(r, k), 0, n);
  }

  lemma NineCleanCycles(d: Dmem, r: Run)
    requires FromReset(DEMO, d, r) && forall k: nat :: r.ins(k) == QUIET
    ensures forall k: nat :: k < 9 ==> Clean(DEMO, r, k)
  {
    forall k: nat | k < 9
      ensures Clean(DEMO, r, k)
    {
      Course(d, r, k);
      assert Clocks(DEMO, r, k);
      OnCourseStep(r, k);
    }
  }

  lemma TenthCycleUnclean(r: Run)
    requires OnCourse(r, 9) && r.ins(9) == QUIET
    ensures !Clean(DEMO, r, 9)
  {
    JalIsLost(r.s(9));
  }

  lemma GoldWaits(u: Units, r: Run, n: nat)
    requires Clocks(u, r, n) && !r.s(n).exmem.valid
    ensures r.gold(n + 1).pc == r.gold(n).pc
  {
  }

  lemma TenthCycleParts(r: Run)
    requires Clocks(DEMO, r, 9) && OnCourse(r, 9) && r.ins(9) == QUIET && Abs(r.s(9)) == r.gold(9)
    ensures r.gold(10).pc == 0 && Abs(r.s(10)).pc == 8
  {
    JalReached(r);
    JalIsLost(r.s(9));
    GoldWaits(DEMO, r, 9);
  }

  lemma JalReached(r: Run)
    requires OnCourse(r, 9)
    ensures JalInEx(r.s(9)) && r.s(9).mu.busy && r.s(9).mu.timer == 2
  {
  }

  /** Without the collision hypothesis the refinement fails: after nine clean cycles this program's
      trap handler starts with a jump the core performs but never completes. The sequential machine
      still has the jump, with its link register write, before it. */
  lemma LostJump(d: Dmem, r: Run)
    requires FromReset(DEMO, d, r) && forall k: nat :: r.ins(k) == QUIET
    ensures Together(DEMO, r, 9) && !Clean(DEMO, r, 9) && !InStep(DEMO, r, 9)
    ensures r.gold(10).pc == 0 && Abs(r.s(10)).pc == 8
  {
    ControlUnit.DecodeMeetsContract();
    NineCleanCycles(d, r);
    RunRefines(DEMO, d, r, 9);
    Course(d, r, 9);
    assert Clocks(DEMO, r, 9);
    TenthCycleUnclean(r);
    TenthCycleParts(r);
    OneMoreClock(DEMO, r, 9);
  }
}

/** What WFI does to the core (wfi.sv, processor_core.sv stall wiring): the cycles the
    refinement theorem leaves out. */
module Sleep {
  import opened Width
  import opened Isa
  import opened CsrUnit
  import opened Memory
  import opened Core
  import opened Sequential
  import opened Refinement
  import opened Runs

  predicate Pending(s: State) {
    SelectInterrupt(s.csrs).Trap?
  }

  /** The slot in MEM faults or returns, or is about to be overwritten: an M instruction in EX
      starts its multi-cycle lock even while the core sleeps, and the lock empties EX/MEM. */
  predicate Doomed(s: State) {
    s.exmem.m.mret || (s.idex.valid && !s.idex.x.muOp.MU_NOP?)
    || SelectException(MemFaults(s.exmem, s.priv), s.exmem.pc, s.exmem.inst, s.exmem.aluOut, s.priv).Trap?
  }

  /** Asleep over a bubble: nothing is left that could take the waking interrupt. */
  predicate Comatose(s: State) {
    s.sleep && !s.exmem.valid && !s.exmem.m.mret
  }

  /** Asleep over a valid slot that will stay. */
  predicate Dozing(s: State) {
    s.sleep && s.exmem.valid && !Doomed(s) && !s.mu.busy && (!s.idex.valid ==> s.idex.x.muOp.MU_NOP?)
  }

  /** Falling asleep: what the core then holds in MEM is what EX hands over in that cycle. */
  lemma FallsAsleep(u: Units, s: State, sq: bool, i: Input)
    requires CuContract(u.cu) && Inv(u, s, sq) && Sleeps(u, s, i) && !s.exmem.m.mret
    ensures var t := Clock(u, s, i);
            && t.sleep
            && (t.exmem.valid <==> s.idex.valid && !Comb(u, s, i).lock)
            && (!t.exmem.valid ==> Comatose(t))
            && (t.exmem.valid && !Doomed(t) && !t.mu.busy ==> Dozing(t))
  {
  }

  lemma ComatoseStep(u: Units, s: State, i: Input)
    requires Comatose(s)
    ensures Comatose(Clock(u, s, i))
  {
  }

  lemma DoomedStep(u: Units, s: State, i: Input)
    requires s.sleep && s.exmem.valid && Doomed(s) && !s.mu.busy && !Pending(s)
    ensures Comatose(Clock(u, s, i))
  {
  }

  lemma DozingStep(u: Units, s: State, i: Input)
    requires Dozing(s)
    ensures var t := Clock(u, s, i);
            && Abs(t).regs == Abs(s).regs
            && (t.sleep <==> !Pending(s))
            && (!Pending(s) ==> Dozing(t) && t.exmem == s.exmem && BusOut(u, s, i) == BusRequest(s.exmem, NoTrap))
            && (Pending(s) ==> t.csrs.mepc == s.exmem.pc && Abs(t).pc == Vector(s.csrs.mtvec))
  {
  }

  lemma StaysComatose(u: Units, r: Run, n: nat, k: nat)
    requires (forall m: nat :: Clocks(u, r, m)) && n <= k && Comatose(r.s(n))
    ensures Comatose(r.s(k))
  {
    forall m: nat | n <= m < k && Comatose(r.s(m))
      ensures Comatose(r.s(m + 1))
    {
      assert Clocks(u, r, m);
      ComatoseStep(u, r.s(m), r.ins(m));
    }
    UpTo((m: nat) => Comatose(r.s(m)), n, k);
  }

  /** A core asleep over a bubble never wakes, whatever interrupts arrive; nor does one asleep over
      a doomed slot, unless the interrupt is pending at once. */
  lemma NeverWakes(u: Units, r: Run, n: nat, k: nat)
    requires (forall m: nat :: Clocks(u, r, m)) && n <= k
    requires r.s(n).sleep && !r.s(n).mu.busy
    requires if r.s(n).exmem.valid then Doomed(r.s(n)) && !Pending(r.s(n)) else !r.s(n).exmem.m.mret
    ensures r.s(k).sleep
  {
    if r.s(n).exmem.valid && n < k {
      assert Clocks(u, r, n);
      DoomedStep(u, r.s(n), r.ins(n));
      StaysComatose(u, r, n + 1, k);
    } else if n < k {
      StaysComatose(u, r, n, k);
    }
  }

  ghost predicate DozingOver(s: State, x: ExMem, g: Regs) {
    Dozing(s) && s.exmem == x && Abs(s).regs == g
  }

  /** Over any other slot the core sleeps exactly until an enabled interrupt is pending. In each
      sleeping cycle that instruction repeats its device request; it writes no register and is the
      one the interrupt handler returns to. */
  lemma SleepsUntilPending(u: Units, r: Run, n: nat, k: nat)
    requires (forall m: nat :: Clocks(u, r, m)) && n <= k
    requires Dozing(r.s(n)) && forall m: nat :: n <= m < k ==> !Pending(r.s(m))
    ensures DozingOver(r.s(k), r.s(n).exmem, Abs(r.s(n)).regs)
    ensures r.s(k + 1).sleep <==> !Pending(r.s(k))
    ensures Pending(r.s(k)) ==> r.s(k + 1).csrs.mepc == r.s(n).exmem.pc
    ensures !Pending(r.s(k)) ==> BusOut(u, r.s(k), r.ins(k)) == BusRequest(r.s(n).exmem, NoTrap)
  {
    var x, g := r.s(n).exmem, Abs(r.s(n)).regs;
    forall m: nat | n <= m < k && DozingOver(r.s(m), x, g)
      ensures DozingOver(r.s(m + 1), x, g)
    {
      assert Clocks(u, r, m);
      DozingStep(u, r.s(m), r.ins(m));
    }
    UpTo((m: nat) => DozingOver(r.s(m), x, g), n, k);
    assert Clocks(u, r, k);
    DozingStep(u, r.s(k), r.ins(k));
  }
}

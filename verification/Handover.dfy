/** From the core to the kernel: which traps of the core reach which arm of the trap handler. */
module Handover {
  import opened Width
  import opened Bits
  import opened Isa
  import opened CsrUnit
  import opened Memory
  import opened Core
  import opened Causes
  import opened Sequential
  import opened Instructions
  import opened Datapath
  import opened Conformance
  import Clint
  import Traps

  /** The frame the handler gets after a trap that leaves these CSRs; trap_entry copies mcause into it. */
  function Frame(n: Csrs, d: Traps.Device): Traps.Raised { Traps.Raised(ReadCsr(n, CSR_MCAUSE), d) }

  /** A slot in MEM that traps is handled as a system call exactly if it is an ecall, well fetched, in one of
      the two privileges; as the interrupt that is due exactly if it has no fault; and as a fault, which
      panics, in every other case. */
  lemma SlotReachesHandler(u: Units, x: ExMem, c: Csrs, priv: Priv, d: Dmem, i: Input, dev: Traps.Device)
    requires MemStage(u, x, c, priv, d, i).trap.Trap?
    ensures var f, e := MemFaults(x, priv), Traps.EventOf(Frame(MemStage(u, x, c, priv, d, i).csrs, dev));
            && (e == Traps.Ecall(dev) <==> f.ecall && !NoInstruction(f) && (priv == PRIV_U || priv == PRIV_M))
            && (e == Traps.Interrupt(11) <==> NoFault(f) && External(c))
            && (e == Traps.Interrupt(3) <==> NoFault(f) && Software(c) && !External(c))
            && (e == Traps.Interrupt(7) <==> NoFault(f) && Timer(c) && !Software(c) && !External(c))
            && (e.Interrupt? <==> NoFault(f)) && (e.Ecall? ==> e.d == dev)
  {
    var w := TrapRequest(x, c, priv).cause;
    SelectedIsRaised(x, c, priv);
    CauseExactly(u, x, c, priv, d, i, w);
  }

  /** A system call from user mode reaches the dispatcher, with its own pc in mepc. */
  lemma EcallReachesDispatch(rom: Word -> Word, a: Arch, n: Input, dev: Traps.Device)
    requires Fetched(rom, a, OpEcall) && a.pc % 4 == 0 && (a.priv == PRIV_U || a.priv == PRIV_M)
    ensures var b := Step(Machine(rom), a, n);
            Traps.EventOf(Frame(b.csrs, dev)) == Traps.Ecall(dev) && ReadCsr(b.csrs, CSR_MEPC) == a.pc
  {
    FaultSteps(rom, a, n, OpEcall);
    EcallCode(a);
  }

  lemma EcallCode(a: Arch)
    requires a.pc % 4 == 0 && (a.priv == PRIV_U || a.priv == PRIV_M)
    ensures FaultOf(OpEcall, a) == if a.priv == PRIV_U then 8 else 11
  {
  }

  /** A timer interrupt that is due, with no other before it, reaches the timer arm, at any instruction that
      raises no exception; the instruction is not done. */
  lemma TimerReachesHandler(rom: Word -> Word, a: Arch, n: Input, i: Instr, dev: Traps.Device)
    requires Fetched(rom, a, i) && FaultOf(i, a) == NO_FAULT
    requires a.csrs.mstatus.mie && Timer(a.csrs) && !Software(a.csrs) && !External(a.csrs)
    ensures var b := Step(Machine(rom), a, n);
            && Traps.EventOf(Frame(b.csrs, dev)) == Traps.Interrupt(7) && ReadCsr(b.csrs, CSR_MEPC) == a.pc
            && b.regs == a.regs && b.dmem == a.dmem
  {
    InterruptSteps(rom, a, n, i);
  }

  /** Every other exception panics the kernel. */
  lemma OthersPanic(rom: Word -> Word, a: Arch, n: Input, i: Instr, dev: Traps.Device)
    requires Fetched(rom, a, i) && FaultOf(i, a) != NO_FAULT && (!i.OpEcall? || a.pc % 4 != 0)
    ensures Traps.EventOf(Frame(Step(Machine(rom), a, n).csrs, dev)) == Traps.Fault
  {
    FaultSteps(rom, a, n, i);
    OtherCodes(i, a);
    FramePanics(a, n, Step(Machine(rom), a, n), FaultOf(i, a), FaultValue(i, a), dev);
  }

  lemma FramePanics(a: Arch, n: Input, b: Arch, cause: Word, tval: Word, dev: Traps.Device)
    requires TrapsTo(a, n, b, cause, tval) && cause < 8
    ensures Traps.EventOf(Frame(b.csrs, dev)) == Traps.Fault
  {
  }

  lemma OtherCodes(i: Instr, a: Arch)
    requires Encodable(i) && FaultOf(i, a) != NO_FAULT && (!i.OpEcall? || a.pc % 4 != 0)
    ensures 0 <= FaultOf(i, a) < 8
  {
  }

  // ---------------------------------------------------------------- the timer, as the core sees it

  /** The timer after the cycle in which the core puts this request on the bus. */
  function TimerAfter(t: Clint.Timer, b: Bus): Clint.Timer { Clint.Clock(t, b.clintWe, b.addr, b.data) }

  /** A word stored to 0x0200_4000 or 0x0200_4004 in machine mode replaces that half of the comparator, and no
      other store does. */
  lemma StoresReachTimer(rom: Word -> Word, a: Arch, n: Input, i: Instr, t: Clint.Timer)
    requires At(rom, a, i) && i.OpStore? && Writable(a.priv, Address(a, i)) && Address(a, i) % Bytes(i.ls) == 0
    requires i.ls.STORE_W? || !InClint(Address(a, i))
    ensures var u, p, w := TimerAfter(t, StepOut(Machine(rom), a, n).bus), Address(a, i), X(a, i.rs2);
            u.cmp == if p == 0x0200_4000 then t.cmp / TWO_32 * TWO_32 + w
                     else if p == 0x0200_4004 then w * TWO_32 + t.cmp % TWO_32 else t.cmp
  {
    DeviceRequests(rom, a, n, i);
    ComparatorAfter(t, StepOut(Machine(rom), a, n).bus);
  }

  lemma ComparatorAfter(t: Clint.Timer, b: Bus)
    ensures TimerAfter(t, b).cmp ==
            if b.clintWe && b.addr == 0x4000 then t.cmp / TWO_32 * TWO_32 + b.data
            else if b.clintWe && b.addr == 0x4004 then b.data * TWO_32 + t.cmp % TWO_32 else t.cmp
  {
  }

  /** A word loaded from the timer's registers, which the device answers in the same cycle. */
  lemma LoadsSeeTimer(rom: Word -> Word, a: Arch, n: Input, i: Instr, t: Clint.Timer)
    requires At(rom, a, i) && i.OpLoad? && i.ls.LOAD_W? && i.rd != 0 && a.priv == PRIV_M
    requires InClint(Address(a, i)) && Address(a, i) % 4 == 0 && n.clint == Clint.Read(t, Address(a, i) - 0x0200_0000)
    ensures var v, p := Step(Machine(rom), a, n).regs[i.rd], Address(a, i);
            && (p == 0x0200_BFF8 ==> v == t.mtime % TWO_32) && (p == 0x0200_BFFC ==> v == t.mtime / TWO_32)
            && (p == 0x0200_4000 ==> v == t.cmp % TWO_32) && (p == 0x0200_4004 ==> v == t.cmp / TWO_32)
  {
    LoadSteps(rom, a, n, i);
    WordLoaded(rom, a, n, i, t, Step(Machine(rom), a, n));
  }

  lemma WordLoaded(rom: Word -> Word, a: Arch, n: Input, i: Instr, t: Clint.Timer, b: Arch)
    requires i.OpLoad? && i.ls.LOAD_W? && i.rd != 0 && a.priv == PRIV_M
    requires InClint(Address(a, i)) && Address(a, i) % 4 == 0 && n.clint == Clint.Read(t, Address(a, i) - 0x0200_0000)
    requires Goes(a, n, b, ToWord(a.pc + 4), Written(a, i.rd, Loaded(i.ls, Found(rom, a, n, i.ls, Address(a, i)))))
    ensures var v, p := b.regs[i.rd], Address(a, i);
            && (p == 0x0200_BFF8 ==> v == t.mtime % TWO_32) && (p == 0x0200_BFFC ==> v == t.mtime / TWO_32)
            && (p == 0x0200_4000 ==> v == t.cmp % TWO_32) && (p == 0x0200_4004 ==> v == t.cmp / TWO_32)
  {
    assert b.regs[i.rd] == n.clint;
  }
}

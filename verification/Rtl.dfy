/** The clocked units as objects: each Clock call is one rising edge, and a whole core tick is
    the clock-step function of module Core. */
module Rtl {
  import opened Width
  import opened Isa
  import opened CsrUnit
  import opened Memory
  import opened Core

  /** A pipeline latch (ifid_reg.sv, idex_reg.sv, exmem_reg.sv, memwb_reg.sv). */
  class PipeReg<T> {
    const zero: T
    var q: T

    constructor (zero: T)
      ensures this.zero == zero && q == zero
    {
      this.zero := zero;
      q := zero;
    }

    method Clock(rst: bool, stall: bool, flush: bool, data: T)
      modifies this
      ensures q == Latch(rst || flush, stall, zero, old(q), data)
    {
      if rst || flush {
        q := zero;
      } else if !stall {
        q := data;
      }
    }
  }

  class RegisterFile {
    var mem: array<Word>

    ghost predicate Valid()
      reads this
    {
      mem.Length == 32
    }

    function Contents(): (r: Regs)
      reads this, mem
      requires Valid()
    {
      mem[..]
    }

    constructor ()
      ensures Valid() && fresh(mem) && Contents() == seq(32, _ => 0)
    {
      mem := new Word[32](_ => 0);
      new;
      assert mem[..] == seq(32, _ => 0);
    }

    method Read(we: bool, wdata: Word, waddr: RegIdx, rs: RegIdx) returns (v: Word)
      requires Valid()
      ensures v == ReadPort(Contents(), we, waddr, wdata, rs)
      ensures v == ReadReg(WriteReg(Contents(), we, waddr, wdata), rs)
    {
      if rs == 0 {
        v := 0;
      } else if we && waddr != 0 && waddr == rs {
        v := wdata;
      } else {
        v := mem[rs];
      }
    }

    method Clock(rst: bool, we: bool, wdata: Word, waddr: RegIdx)
      requires Valid()
      modifies mem
      ensures Valid() && Contents() == if rst then seq(32, _ => 0) else WriteReg(old(Contents()), we, waddr, wdata)
    {
      if rst {
        for i := 0 to 32
          invariant forall k :: 0 <= k < i ==> mem[k] == 0
        {
          mem[i] := 0;
        }
        assert mem[..] == seq(32, _ => 0);
      } else if we && waddr != 0 {
        mem[waddr] := wdata;
      }
    }
  }

  class DataMem {
    var bytes: array<Byte>

    ghost predicate Valid()
      reads this
    {
      bytes.Length == DMEM_SIZE
    }

    function Contents(): (d: Dmem)
      reads this, bytes
      requires Valid()
    {
      bytes[..]
    }

    constructor ()
      ensures Valid() && fresh(bytes) && Contents() == seq(DMEM_SIZE, _ => 0)
    {
      bytes := new Byte[DMEM_SIZE](_ => 0);
      new;
      assert bytes[..] == seq(DMEM_SIZE, _ => 0);
    }

    /** Byte-strobed write; the strobes the load-store unit raises are always the low n. */
    method Clock(we: bool, addr: Word, wdata: Word, n: nat)
      requires Valid() && n <= 4
      modifies bytes
      ensures Valid() && Contents() == if we then StoreBytes(old(Contents()), addr, wdata, n) else old(Contents())
    {
      if we {
        for i := 0 to 4
          invariant Contents() == StoreBytes(old(Contents()), addr, wdata, if i < n then i else n)
        {
          if i < n && addr + i < DMEM_SIZE {
            bytes[addr + i] := ByteOf(wdata, i);
          }
        }
      }
    }
  }

  class CsrFile {
    var c: Csrs

    constructor ()
      ensures c == RESET_CSRS
    {
      c := RESET_CSRS;
    }

    method Clock(rst: bool, x: ExMem, priv: Priv, t: Trap, i: Input)
      modifies this
      ensures c == if rst then RESET_CSRS else NextCsrs(x, old(c), priv, t, i)
    {
      if rst {
        c := RESET_CSRS;
      } else {
        var we := x.m.csrWe && x.valid;
        if t.Trap? {
          c := c.(mepc := x.pc, mcause := t.cause, mtval := t.tval,
                  mstatus := c.mstatus.(mpie := c.mstatus.mie, mie := false, mpp := priv));
        } else if x.m.mret {
          c := c.(mstatus := c.mstatus.(mie := c.mstatus.mpie, mpie := true, mpp := PRIV_U));
        } else if we && Accessible(x.m.csrAddr, priv, we) {
          var w := if x.m.csrSel.FROM_RS1? then x.v1 else x.m.zimm;
          c := WriteCsr(c, x.m.csrAddr, WriteValue(c, x.m.csrOp, x.m.csrAddr, w));
        }
        c := c.(mip := c.mip.(tim := i.mtip, ext := i.meip));
      }
    }
  }

  class PrivControl {
    var mode: Priv

    constructor ()
      ensures mode == PRIV_M
    {
      mode := PRIV_M;
    }

    method Clock(rst: bool, trap: bool, mret: bool, mpp: Priv)
      modifies this
      ensures mode == if rst || trap then PRIV_M else if mret then mpp else old(mode)
    {
      if rst || trap {
        mode := PRIV_M;
      } else if mret {
        mode := mpp;
      }
    }
  }

  class InstFetch {
    var pc: Word

    constructor ()
      ensures pc == 0
    {
      pc := 0;
    }

    /** A stall holds the pc only while it would otherwise advance to pc + 4. */
    method Clock(rst: bool, stall: bool, trap: bool, mret: bool, take: bool, vector: Word, mepc: Word, target: Word)
      modifies this
      ensures pc == if rst then 0 else if trap then vector else if mret then mepc else if take then target
                    else if stall then old(pc) else Add32(old(pc), 4)
    {
      if rst {
        pc := 0;
      } else if trap {
        pc := vector;
      } else if mret {
        pc := mepc;
      } else if take {
        pc := target;
      } else if !stall {
        pc := Add32(pc, 4);
      }
    }
  }

  class MulDivUnit {
    var st: Mu

    constructor ()
      ensures st == IDLE_MU
    {
      st := IDLE_MU;
    }

    method Clock(rst: bool, op: MuOp, a: Word, b: Word)
      modifies this
      ensures st == if rst then IDLE_MU else MuClock(old(st), op, a, b)
    {
      if rst {
        st := IDLE_MU;
      } else if !st.busy && !op.MU_NOP? {
        st := Mu(true, MuLatency(op), a, b);
      } else if st.busy {
        var last := st.timer == 1;
        st := st.(timer := st.timer - 1);
        if last {
          st := st.(busy := false);
        }
      }
    }
  }

  class SleepControl {
    var asleep: bool

    constructor ()
      ensures !asleep
    {
      asleep := false;
    }

    method Clock(rst: bool, wfi: bool, trap: bool, interrupt: bool)
      modifies this
      ensures asleep == if rst then false else if !old(asleep) && wfi && !trap then true
                        else if old(asleep) && interrupt then false else old(asleep)
    {
      if rst {
        asleep := false;
      } else if !asleep && wfi && !trap {
        asleep := true;
      } else if asleep && interrupt {
        asleep := false;
      }
    }
  }

  class ProcessorCore {
    const fetch: InstFetch
    const ifid: PipeReg<IfId>
    const idex: PipeReg<IdEx>
    const exmem: PipeReg<ExMem>
    const memwb: PipeReg<MemWb>
    const rf: RegisterFile
    const dmem: DataMem
    const csr: CsrFile
    const priv: PrivControl
    const mu: MulDivUnit
    const wfi: SleepControl

    ghost predicate Valid()
      reads this, rf, dmem
    {
      && rf.Valid() && dmem.Valid() && rf.mem as object != dmem.bytes as object
      && ifid.zero == FLUSHED_IFID && idex.zero == FLUSHED_IDEX && exmem.zero == FLUSHED_EXMEM && memwb.zero == FLUSHED_MEMWB
      && (ifid as object != idex as object) && (ifid as object != exmem as object) && (ifid as object != memwb as object)
      && (idex as object != exmem as object) && (idex as object != memwb as object) && (exmem as object != memwb as object)
    }

    function Value(): State
      reads this, fetch, ifid, idex, exmem, memwb, rf, rf.mem, dmem, dmem.bytes, csr, priv, mu, wfi
      requires Valid()
    {
      State(fetch.pc, ifid.q, idex.q, exmem.q, memwb.q, rf.Contents(), dmem.Contents(), csr.c, priv.mode, mu.st, wfi.asleep)
    }

    constructor ()
      ensures Valid() && Value() == Reset(seq(DMEM_SIZE, _ => 0))
    {
      fetch := new InstFetch();
      ifid := new PipeReg(FLUSHED_IFID);
      idex := new PipeReg(FLUSHED_IDEX);
      exmem := new PipeReg(FLUSHED_EXMEM);
      memwb := new PipeReg(FLUSHED_MEMWB);
      rf := new RegisterFile();
      dmem := new DataMem();
      csr := new CsrFile();
      priv := new PrivControl();
      mu := new MulDivUnit();
      wfi := new SleepControl();
    }

    /** IF and ID: fetch, the IF/ID latch and the ID/EX latch behind the register read ports. */
    method ClockFront(u: Units, rst: bool, s: State, w: Wires)
      requires Valid() && s == Value()
      modifies fetch, ifid, idex
      ensures fetch.pc == if rst then 0 else NextPc(s, w)
      ensures ifid.q == if rst then FLUSHED_IFID else NextIfId(u, s, w)
      ensures idex.q == if rst then FLUSHED_IDEX else NextIdEx(u, s, w)
    {
      var stall := w.loadUse || w.lock || s.sleep;
      fetch.Clock(rst, stall, w.mem.trap.Trap?, w.mret, w.take, Vector(s.csrs.mtvec), s.csrs.mepc, w.target);
      ifid.Clock(rst, stall, w.take || Redirect(w), Fetch(u, s.pc));
      var we := s.memwb.regWe && s.memwb.valid;
      var v1 := rf.Read(we, WbValue(s.memwb), s.memwb.rd, w.id.x.rs1);
      var v2 := rf.Read(we, WbValue(s.memwb), s.memwb.rd, w.id.x.rs2);
      idex.Clock(rst, w.lock || s.sleep, w.loadUse || w.take || Redirect(w),
                 IdEx(s.ifid.valid, w.id.x, w.id.m, v1, v2, u.imm(w.id.immSel, s.ifid.inst),
                      s.ifid.pc, s.ifid.pc4, s.ifid.inst, s.ifid.misaligned, s.ifid.access));
    }

    /** EX, MEM and WB: the last two latches, the register file and data memory. */
    method ClockBack(u: Units, rst: bool, s: State, w: Wires, i: Input)
      requires w.mem == MemStage(u, s.exmem, s.csrs, s.priv, s.dmem, i)
      requires Valid() && s.exmem == exmem.q && s.memwb == memwb.q && s.regs == rf.Contents() && s.dmem == dmem.Contents()
      modifies exmem, memwb, rf.mem, dmem.bytes
      ensures exmem.q == if rst then FLUSHED_EXMEM else NextExMem(u, s, w)
      ensures memwb.q == if rst then FLUSHED_MEMWB else NextMemWb(s, w)
      ensures rf.Contents() == if rst then seq(32, _ => 0) else WriteBack(s.regs, s.memwb)
      ensures dmem.Contents() == w.mem.dmem
    {
      var x, t := s.exmem, w.mem.trap;
      exmem.Clock(rst, s.sleep, w.lock || Redirect(w), Execute(u, s.idex, w.a, w.b, MuOut(u, s.mu, s.idex.x.muOp)));
      memwb.Clock(rst, false, s.sleep,
                  MemWb(x.valid && !t.Trap?, x.m.regWe, x.m.rd, x.m.wbSel, w.mem.lsuData, x.aluOut,
                        w.mem.csrData, x.muOut, x.pc4));
      rf.Clock(rst, s.memwb.regWe && s.memwb.valid, WbValue(s.memwb), s.memwb.rd);
      dmem.Clock(x.m.ls.IsStore() && Source(x.aluOut).DMEM? && x.valid && !t.Trap?,
                 LocalAddr(x.aluOut), StoreData(x.m.ls, x.v2), StoreWidth(x.m.ls));
    }

    /** CSRs, privilege, the multiply/divide unit and sleep. */
    method ClockControl(u: Units, rst: bool, s: State, w: Wires, i: Input)
      requires w.mem == MemStage(u, s.exmem, s.csrs, s.priv, s.dmem, i) && w.mret == s.exmem.m.mret
      requires s.csrs == csr.c && s.priv == priv.mode && s.mu == mu.st && s.sleep == wfi.asleep
      modifies csr, priv, mu, wfi
      ensures csr.c == if rst then RESET_CSRS else w.mem.csrs
      ensures priv.mode == if rst then PRIV_M else w.mem.priv
      ensures mu.st == if rst then IDLE_MU else MuClock(s.mu, s.idex.x.muOp, w.a, w.b)
      ensures wfi.asleep == (!rst && NextSleep(s, w))
    {
      var x, t := s.exmem, w.mem.trap;
      csr.Clock(rst, x, s.priv, t, i);
      priv.Clock(rst, t.Trap?, w.mret, s.csrs.mstatus.mpp);
      mu.Clock(rst, s.idex.x.muOp, w.a, w.b);
      wfi.Clock(rst, x.m.wfi, t.Trap?, x.valid && SelectInterrupt(s.csrs).Trap?);
    }

    /** The whole datapath, sampling the wires of the old state. */
    method ClockDatapath(u: Units, rst: bool, s: State, w: Wires, i: Input)
      requires Valid() && s == Value() && w.mem == MemStage(u, s.exmem, s.csrs, s.priv, s.dmem, i)
      modifies fetch, ifid, idex, exmem, memwb, rf.mem, dmem.bytes
      ensures Valid()
      ensures fetch.pc == if rst then 0 else NextPc(s, w)
      ensures ifid.q == if rst then FLUSHED_IFID else NextIfId(u, s, w)
      ensures idex.q == if rst then FLUSHED_IDEX else NextIdEx(u, s, w)
      ensures exmem.q == if rst then FLUSHED_EXMEM else NextExMem(u, s, w)
      ensures memwb.q == if rst then FLUSHED_MEMWB else NextMemWb(s, w)
      ensures rf.Contents() == if rst then seq(32, _ => 0) else WriteBack(s.regs, s.memwb)
      ensures dmem.Contents() == w.mem.dmem
    {
      ClockFront(u, rst, s, w);
      ClockBack(u, rst, s, w, i);
    }

    /** One rising edge. A reset edge brings everything but data memory to its start value. */
    method Tick(u: Units, rst: bool, i: Input) returns (bus: Bus)
      requires Valid()
      modifies fetch, ifid, idex, exmem, memwb, rf.mem, dmem.bytes, csr, priv, mu, wfi
      ensures Valid()
      ensures bus == BusOut(u, old(Value()), i)
      ensures Value() == if rst then Reset(Comb(u, old(Value()), i).mem.dmem) else Core.Clock(u, old(Value()), i)
    {
      var s := Value();
      var w := Comb(u, s, i);
      bus := w.mem.bus;
      ClockDatapath(u, rst, s, w, i);
      ClockControl(u, rst, s, w, i);
    }
  }
}

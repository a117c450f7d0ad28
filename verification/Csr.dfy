/** Machine-mode CSRs, trap entry and return, and trap selection
    (csr_file.sv, priv_control.sv, exception_dispatch.sv, interrupt_dispatch.sv). */
module CsrUnit {
  import opened Width
  import opened Bits
  import opened Isa

  type Bits3 = x: int | 0 <= x < 8
  type Bits20 = x: int | 0 <= x < 0x10_0000
  type Bits19 = x: int | 0 <= x < 0x8_0000
  type Bits30 = x: int | 0 <= x < 0x4000_0000
  type Bits2 = x: int | 0 <= x < 4

  /** Packed mstatus: reserved[31:13], mpp, reserved[10:8], mpie, reserved[6:4], mie, reserved[2:0]. */
  datatype MStatus = MStatus(r13: Bits19, mpp: Priv, r8: Bits3, mpie: bool, r4: Bits3, mie: bool, r0: Bits3)

  /** Packed mie or mip: reserved[31:12], external, reserved, timer, reserved, software, reserved. */
  datatype Irqs = Irqs(r12: Bits20, ext: bool, r8: Bits3, tim: bool, r4: Bits3, soft: bool, r0: Bits3)

  datatype MTvec = MTvec(base: Bits30, mode: Bits2)

  datatype Csrs = Csrs(mstatus: MStatus, mie: Irqs, mtvec: MTvec, mscratch: Word,
                       mepc: Word, mcause: Word, mtval: Word, mip: Irqs)

  const RESET_STATUS := MStatus(0, 0, 0, false, 0, false, 0)
  const RESET_IRQS := Irqs(0, false, 0, false, 0, false, 0)
  const RESET_CSRS := Csrs(RESET_STATUS, RESET_IRQS, MTvec(0, 0), 0, 0, 0, 0, RESET_IRQS)

  const CSR_MSTATUS := 0x300
  const CSR_MIE := 0x304
  const CSR_MTVEC := 0x305
  const CSR_MSCRATCH := 0x340
  const CSR_MEPC := 0x341
  const CSR_MCAUSE := 0x342
  const CSR_MTVAL := 0x343
  const CSR_MIP := 0x344

  function Bit(b: bool): int { if b then 1 else 0 }

  function PackStatus(s: MStatus): Word {
    s.r13 * 0x2000 + s.mpp * 0x800 + s.r8 * 0x100 + Bit(s.mpie) * 0x80 + s.r4 * 0x10 + Bit(s.mie) * 8 + s.r0
  }

  function UnpackStatus(w: Word): MStatus {
    MStatus(w / 0x2000, (w / 0x800) % 4, (w / 0x100) % 8, (w / 0x80) % 2 == 1,
            (w / 0x10) % 8, (w / 8) % 2 == 1, w % 8)
  }

  function PackIrqs(s: Irqs): Word {
    s.r12 * 0x1000 + Bit(s.ext) * 0x800 + s.r8 * 0x100 + Bit(s.tim) * 0x80 + s.r4 * 0x10 + Bit(s.soft) * 8 + s.r0
  }

  function UnpackIrqs(w: Word): Irqs {
    Irqs(w / 0x1000, (w / 0x800) % 2 == 1, (w / 0x100) % 8, (w / 0x80) % 2 == 1,
         (w / 0x10) % 8, (w / 8) % 2 == 1, w % 8)
  }

  function Vector(t: MTvec): Word { t.base * 4 }

  predicate Exists(addr: int) {
    addr == CSR_MSTATUS || addr == CSR_MIE || addr == CSR_MTVEC || addr == CSR_MSCRATCH
    || addr == CSR_MEPC || addr == CSR_MCAUSE || addr == CSR_MTVAL || addr == CSR_MIP
  }

  /** Address bits 9:8 name the lowest privilege, bits 11:10 equal to 3 a read-only register. */
  predicate Accessible(addr: int, priv: Priv, write: bool) {
    Exists(addr) && (addr / 256) % 4 <= priv && !(write && (addr / 1024) % 4 == 3)
  }

  function ReadCsr(c: Csrs, addr: int): Word {
    if addr == CSR_MSTATUS then PackStatus(c.mstatus)
    else if addr == CSR_MIE then PackIrqs(c.mie)
    else if addr == CSR_MTVEC then c.mtvec.base * 4 + c.mtvec.mode
    else if addr == CSR_MSCRATCH then c.mscratch
    else if addr == CSR_MEPC then c.mepc
    else if addr == CSR_MCAUSE then c.mcause
    else if addr == CSR_MTVAL then c.mtval
    else if addr == CSR_MIP then PackIrqs(c.mip)
    else 0
  }

  function WriteCsr(c: Csrs, addr: int, w: Word): Csrs {
    if addr == CSR_MSTATUS then c.(mstatus := UnpackStatus(w))
    else if addr == CSR_MIE then c.(mie := UnpackIrqs(w))
    else if addr == CSR_MTVEC then c.(mtvec := MTvec(w / 4, w % 4))
    else if addr == CSR_MSCRATCH then c.(mscratch := w)
    else if addr == CSR_MEPC then c.(mepc := w)
    else if addr == CSR_MCAUSE then c.(mcause := w)
    else if addr == CSR_MTVAL then c.(mtval := w)
    else if addr == CSR_MIP then c.(mip := UnpackIrqs(w))
    else c
  }

  lemma PackUnpack(w: Word)
    ensures PackStatus(UnpackStatus(w)) == w && PackIrqs(UnpackIrqs(w)) == w
  {
    var a := w / 8;
    var b := a / 2;
    var c := b / 8;
    var d := c / 2;
    var e := d / 8;
    var f := e / 2;
    assert w / 0x10 == b && w / 0x80 == c && w / 0x100 == d && w / 0x800 == e && w / 0x1000 == f;
    assert w / 0x2000 == f / 2 && e % 4 == e % 2 + 2 * (f % 2);
  }

  /** Where the kernel finds and puts the bits: MIE is bit 3, MPIE bit 7, MPP bits 12 and 11; software, timer
      and external interrupts are bits 3, 7 and 11. */
  lemma BitPositions(s: MStatus, q: Irqs)
    ensures PackStatus(s) / 8 % 2 == Bit(s.mie) && PackStatus(s) / 0x80 % 2 == Bit(s.mpie) && PackStatus(s) / 0x800 % 4 == s.mpp
    ensures PackIrqs(q) / 8 % 2 == Bit(q.soft) && PackIrqs(q) / 0x80 % 2 == Bit(q.tim) && PackIrqs(q) / 0x800 % 2 == Bit(q.ext)
  {
    StatusPositions(s);
    IrqPositions(q);
  }

  lemma StatusPositions(s: MStatus)
    ensures PackStatus(s) / 8 % 2 == Bit(s.mie) && PackStatus(s) / 0x80 % 2 == Bit(s.mpie) && PackStatus(s) / 0x800 % 4 == s.mpp
  {
    var d := s.r13 * 4 + s.mpp;
    var c := d * 0x10 + s.r8 * 2 + Bit(s.mpie);
    var a := c * 0x10 + s.r4 * 2 + Bit(s.mie);
    QuotientIs(PackStatus(s), 8, a, s.r0);
    QuotientIs(a, 2, c * 8 + s.r4, Bit(s.mie));
    QuotientIs(PackStatus(s), 0x80, c, s.r4 * 0x10 + Bit(s.mie) * 8 + s.r0);
    QuotientIs(c, 2, d * 8 + s.r8, Bit(s.mpie));
    QuotientIs(PackStatus(s), 0x800, d, s.r8 * 0x100 + Bit(s.mpie) * 0x80 + s.r4 * 0x10 + Bit(s.mie) * 8 + s.r0);
    QuotientIs(d, 4, s.r13, s.mpp);
  }

  lemma IrqPositions(q: Irqs)
    ensures PackIrqs(q) / 8 % 2 == Bit(q.soft) && PackIrqs(q) / 0x80 % 2 == Bit(q.tim) && PackIrqs(q) / 0x800 % 2 == Bit(q.ext)
  {
    var d := q.r12 * 2 + Bit(q.ext);
    var c := d * 0x10 + q.r8 * 2 + Bit(q.tim);
    var a := c * 0x10 + q.r4 * 2 + Bit(q.soft);
    QuotientIs(PackIrqs(q), 8, a, q.r0);
    QuotientIs(a, 2, c * 8 + q.r4, Bit(q.soft));
    QuotientIs(PackIrqs(q), 0x80, c, q.r4 * 0x10 + Bit(q.soft) * 8 + q.r0);
    QuotientIs(c, 2, d * 8 + q.r8, Bit(q.tim));
    QuotientIs(PackIrqs(q), 0x800, d, q.r8 * 0x100 + Bit(q.tim) * 0x80 + q.r4 * 0x10 + Bit(q.soft) * 8 + q.r0);
    QuotientIs(d, 2, q.r12, Bit(q.ext));
  }

  /** The write itself: no bit is lost or moved, and no other register changes. */
  lemma WriteThenRead(c: Csrs, addr: int, other: int, w: Word)
    requires Exists(addr) && other != addr
    ensures ReadCsr(WriteCsr(c, addr, w), addr) == w
    ensures ReadCsr(WriteCsr(c, addr, w), other) == ReadCsr(c, other)
  {
    PackUnpack(w);
  }

  function WriteValue(c: Csrs, op: CsrOp, addr: int, w: Word): Word {
    match op
    case CSR_RW => w
    case CSR_RS => Or(ReadCsr(c, addr), w)
    case CSR_RC => AndNot(ReadCsr(c, addr), w)
    case CSR_NONE => 0
  }

  function TrapEntry(c: Csrs, pc: Word, priv: Priv, cause: Word, tval: Word): Csrs {
    c.(mepc := pc, mcause := cause, mtval := tval,
       mstatus := c.mstatus.(mpie := c.mstatus.mie, mie := false, mpp := priv))
  }

  function TrapReturn(c: Csrs): Csrs {
    c.(mstatus := c.mstatus.(mie := c.mstatus.mpie, mpie := true, mpp := PRIV_U))
  }

  /** The interrupt-pending bits follow the external lines every cycle, whatever was written. */
  function Sample(c: Csrs, mtip: bool, meip: bool): Csrs {
    c.(mip := c.mip.(tim := mtip, ext := meip))
  }

  /** The word after the lines have been sampled into it. */
  predicate SampledBits(w: Word, mtip: bool, meip: bool) {
    ((w / 0x80) % 2 == 1 <==> mtip) && ((w / 0x800) % 2 == 1 <==> meip)
  }

  lemma SampledMip(w: Word, mtip: bool, meip: bool)
    ensures PackIrqs(UnpackIrqs(w).(tim := mtip, ext := meip)) == w <==> SampledBits(w, mtip, meip)
  {
    PackUnpack(w);
  }

  /** Writing in a cycle that also samples the lines: the word reads back exactly if it is not mip, or
      agrees with the lines in their two bits. */
  lemma SampledWriteReadsBack(c: Csrs, addr: int, other: int, w: Word, mtip: bool, meip: bool)
    requires Exists(addr) && other != addr
    ensures var n := Sample(WriteCsr(c, addr, w), mtip, meip);
            && (ReadCsr(n, addr) == w <==> addr != CSR_MIP || SampledBits(w, mtip, meip))
            && (other != CSR_MIP ==> ReadCsr(n, other) == ReadCsr(c, other))
  {
    WriteThenRead(c, addr, other, w);
    SampledMip(w, mtip, meip);
  }

  // ---------------------------------------------------------------- trap selection

  datatype Trap = NoTrap | Trap(cause: Word, tval: Word)

  /** The faults an instruction brings to MEM or finds there. */
  datatype Faults = Faults(instMisaligned: bool, instAccess: bool, illegal: bool, ebreak: bool, ecall: bool,
                           loadMisaligned: bool, loadAccess: bool, storeMisaligned: bool, storeAccess: bool)

  function SelectException(f: Faults, pc: Word, inst: Word, addr: Word, priv: Priv): Trap {
    if f.instAccess then Trap(1, pc)
    else if f.illegal then Trap(2, inst)
    else if f.instMisaligned then Trap(0, pc)
    else if f.ecall then Trap(if priv == PRIV_U then 8 else if priv == PRIV_M then 11 else 2, 0)
    else if f.ebreak then Trap(3, 0)
    else if f.loadAccess then Trap(5, addr)
    else if f.storeAccess then Trap(7, addr)
    else if f.loadMisaligned then Trap(4, addr)
    else if f.storeMisaligned then Trap(6, addr)
    else NoTrap
  }

  function SelectInterrupt(c: Csrs): Trap {
    if !c.mstatus.mie then NoTrap
    else if c.mie.ext && c.mip.ext then Trap(0x8000_000B, 0)
    else if c.mie.soft && c.mip.soft then Trap(0x8000_0003, 0)
    else if c.mie.tim && c.mip.tim then Trap(0x8000_0007, 0)
    else NoTrap
  }
}

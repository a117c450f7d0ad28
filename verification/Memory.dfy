/** Load-store unit and data memory (lsu.sv, data_mem.sv). */
module Memory {
  import opened Width
  import opened Isa

  const DMEM_SIZE: int := 65536
  type Dmem = s: seq<Byte> | |s| == 65536 witness seq(65536, _ => 0)

  datatype Src = UNKNOWN | IMEM | CLINT | UART | DMEM

  const IMEM_END: int := 0x1FFF
  const CLINT_START: int := 0x0200_0000
  const CLINT_END: int := 0x0200_FFFF
  const UART_START: int := 0x1000_0000
  const UART_END: int := 0x1000_00FF
  const DMEM_START: int := 0x8000_0000
  const DMEM_END: int := 0x8000_FFFF

  function Source(addr: Word): Src {
    if addr <= IMEM_END then IMEM
    else if CLINT_START <= addr <= CLINT_END then CLINT
    else if UART_START <= addr <= UART_END then UART
    else if DMEM_START <= addr <= DMEM_END then DMEM
    else UNKNOWN
  }

  function LocalAddr(addr: Word): Word {
    match Source(addr)
    case IMEM => addr
    case CLINT => addr - CLINT_START
    case UART => addr - UART_START
    case DMEM => addr - DMEM_START
    case UNKNOWN => 0
  }

  function ByteAt(d: Dmem, a: int): Byte {
    if 0 <= a < DMEM_SIZE then d[a] else 0
  }

  function LoadWord(d: Dmem, a: int): Word {
    ByteAt(d, a) + ByteAt(d, a + 1) * 0x100 + ByteAt(d, a + 2) * 0x1_0000 + ByteAt(d, a + 3) * 0x100_0000
  }

  function ByteOf(w: Word, i: nat): Byte
    requires i < 4
  {
    if i == 0 then w % 256 else if i == 1 then (w / 0x100) % 256
    else if i == 2 then (w / 0x1_0000) % 256 else w / 0x100_0000
  }

  /** The first n bytes of w stored from a upward. */
  function StoreBytes(d: Dmem, a: int, w: Word, n: nat): Dmem
    requires n <= 4
  {
    if n == 0 then d
    else
      var e := StoreBytes(d, a, w, n - 1);
      if 0 <= a + n - 1 < DMEM_SIZE then e[a + n - 1 := ByteOf(w, n - 1)] else e
  }

  function StoreWidth(op: LsOp): nat
  {
    match op
    case STORE_B => 1
    case STORE_H => 2
    case STORE_W => 4
    case _ => 0
  }

  function StoreData(op: LsOp, w: Word): Word {
    match op
    case STORE_B => w % 0x100
    case STORE_H => w % 0x1_0000
    case _ => w
  }

  function SignExtend(w: Word, half: Word, full: Word): Word
    requires 0 < half && full == 2 * half
  {
    var low := w % full;
    if low >= half then low + (TWO_32 - full) else low
  }

  function LoadResult(op: LsOp, raw: Word): Word {
    match op
    case LOAD_B => SignExtend(raw, 0x80, 0x100)
    case LOAD_H => SignExtend(raw, 0x8000, 0x1_0000)
    case LOAD_BU => raw % 0x100
    case LOAD_HU => raw % 0x1_0000
    case _ => raw
  }

  predicate LoadMisaligned(op: LsOp, addr: Word) {
    match op
    case LOAD_H | LOAD_HU => addr % 2 != 0
    case LOAD_W => addr % 4 != 0
    case _ => false
  }

  predicate StoreMisaligned(op: LsOp, addr: Word) {
    match op
    case STORE_H => addr % 2 != 0
    case STORE_W => addr % 4 != 0
    case _ => false
  }

  predicate LoadFault(op: LsOp, addr: Word, priv: Priv) {
    op.IsLoad() &&
    if priv == PRIV_M then Source(addr).UNKNOWN?
    else if priv == PRIV_U then !(Source(addr).IMEM? || Source(addr).DMEM?)
    else true
  }

  predicate StoreFault(op: LsOp, addr: Word, priv: Priv) {
    op.IsStore() &&
    if priv == PRIV_M then Source(addr).UNKNOWN? || Source(addr).IMEM?
    else if priv == PRIV_U then !Source(addr).DMEM?
    else true
  }

  /** Strobes write the named bytes and no other. */
  lemma {:induction false} StoreBytesAt(d: Dmem, a: int, w: Word, n: nat, k: int)
    requires n <= 4
    ensures ByteAt(StoreBytes(d, a, w, n), k) ==
            if a <= k < a + n && 0 <= k < DMEM_SIZE then ByteOf(w, k - a) else ByteAt(d, k)
  {
    if n > 0 {
      StoreBytesAt(d, a, w, n - 1, k);
    }
  }

  lemma BytesRecombine(w: Word)
    ensures ByteOf(w, 0) + ByteOf(w, 1) * 0x100 == w % 0x1_0000
    ensures ByteOf(w, 0) + ByteOf(w, 1) * 0x100 + ByteOf(w, 2) * 0x1_0000 + ByteOf(w, 3) * 0x100_0000 == w
  {
  }

  lemma SignExtendKeepsLow(w: Word, half: Word, full: Word)
    requires (half == 0x80 && full == 0x100) || (half == 0x8000 && full == 0x1_0000)
    ensures var r := SignExtend(w, half, full);
            r % full == w % full && (r < half || r >= TWO_32 - half)
  {
  }

  predicate SameWidth(st: LsOp, ld: LsOp) {
    match st
    case STORE_B => ld.LOAD_B? || ld.LOAD_BU?
    case STORE_H => ld.LOAD_H? || ld.LOAD_HU?
    case STORE_W => ld.LOAD_W?
    case _ => false
  }

  /** 2 to the number of bits an access moves. */
  function Span(st: LsOp): int {
    match st
    case STORE_B => 0x100
    case STORE_H => 0x1_0000
    case _ => TWO_32
  }

  lemma LowBytes(b0: Byte, b1: Byte, b2: Byte, b3: Byte)
    ensures var w := b0 + b1 * 0x100 + b2 * 0x1_0000 + b3 * 0x100_0000;
            w % 0x100 == b0 && w % 0x1_0000 == b0 + b1 * 0x100
  {
  }

  lemma StoredLow(d: Dmem, a: int, st: LsOp, w: Word)
    requires st.IsStore() && 0 <= a <= DMEM_SIZE - StoreWidth(st)
    ensures LoadWord(StoreBytes(d, a, StoreData(st, w), StoreWidth(st)), a) % Span(st) == w % Span(st)
  {
    var v, n := StoreData(st, w), StoreWidth(st);
    var e := StoreBytes(d, a, v, n);
    BytesRecombine(v);
    LowBytes(ByteAt(e, a), ByteAt(e, a + 1), ByteAt(e, a + 2), ByteAt(e, a + 3));
    StoreBytesAt(d, a, v, n, a);
    if n > 1 {
      StoreBytesAt(d, a, v, n, a + 1);
    }
    if n > 2 {
      StoreBytesAt(d, a, v, n, a + 2);
      StoreBytesAt(d, a, v, n, a + 3);
    }
  }

  lemma LoadResultOf(st: LsOp, ld: LsOp, raw: Word, w: Word)
    requires SameWidth(st, ld) && raw % Span(st) == w % Span(st)
    ensures var r := LoadResult(ld, raw);
            && r % Span(st) == w % Span(st)
            && (ld.LOAD_BU? || ld.LOAD_HU? ==> r < Span(st))
            && (ld.LOAD_B? || ld.LOAD_H? ==> r < Span(st) / 2 || r >= TWO_32 - Span(st) / 2)
  {
    if ld.LOAD_B? {
      SignExtendKeepsLow(raw, 0x80, 0x100);
    } else if ld.LOAD_H? {
      SignExtendKeepsLow(raw, 0x8000, 0x1_0000);
    }
  }

  /** A load undoes a store of its width: the value comes back up to its extension, which an
      unsigned load fills with zeros and a signed one with the sign. */
  lemma LoadUndoesStore(d: Dmem, a: int, st: LsOp, ld: LsOp, w: Word)
    requires SameWidth(st, ld) && 0 <= a <= DMEM_SIZE - StoreWidth(st)
    ensures var r := LoadResult(ld, LoadWord(StoreBytes(d, a, StoreData(st, w), StoreWidth(st)), a));
            && r % Span(st) == w % Span(st)
            && (ld.LOAD_BU? || ld.LOAD_HU? ==> r < Span(st))
            && (ld.LOAD_B? || ld.LOAD_H? ==> r < Span(st) / 2 || r >= TWO_32 - Span(st) / 2)
  {
    StoredLow(d, a, st, w);
    LoadResultOf(st, ld, LoadWord(StoreBytes(d, a, StoreData(st, w), StoreWidth(st)), a), w);
  }

  /** Requests the core puts on the device buses in one cycle. */
  datatype Bus = Bus(clintWe: bool, uartWe: bool, uartRe: bool, addr: Word, data: Word)

  const QUIET_BUS := Bus(false, false, false, 0, 0)
}

/** The multiply/divide unit's arithmetic and its timed run (mu.sv). */
module MulDiv {
  import opened Width
  import opened Bits
  import opened Isa
  import opened Core

  const MIN_SIGNED: Word := 0x8000_0000
  const ALL_ONES: Word := 0xFFFF_FFFF

  function Abs(x: int): nat { if x < 0 then -x else x }

  /** Signed division truncates toward zero. */
  function TruncDiv(x: int, y: int): int
    requires y != 0
  {
    var q := Abs(x) / Abs(y);
    if (x < 0) == (y < 0) then q else -q
  }

  function TruncRem(x: int, y: int): int
    requires y != 0
  {
    var r := Abs(x) % Abs(y);
    if x < 0 then -r else r
  }

  function Low(p: int): Word { p % TWO_32 }
  function High(p: int): Word { (p % TWO_64) / TWO_32 }

  /** The unit's output for latched operands. The mixed-sign product is written with one signed
      and one unsigned operand, which SystemVerilog evaluates as unsigned. */
  function Result(op: MuOp, a: Word, b: Word): Word {
    match op
    case MU_NOP => 0
    case MUL => Low(Signed(a) * Signed(b))
    case MULH => High(Signed(a) * Signed(b))
    case MULHU => High(a * b)
    case MULHSU => High(a * b)
    case DIV =>
      if b == 0 then ALL_ONES else if a == MIN_SIGNED && b == ALL_ONES then a
      else ToWord(TruncDiv(Signed(a), Signed(b)))
    case REM =>
      if b == 0 then a else if a == MIN_SIGNED && b == ALL_ONES then 0
      else ToWord(TruncRem(Signed(a), Signed(b)))
    case DIVU => if b == 0 then ALL_ONES else a / b
    case REMU => if b == 0 then a else a % b
  }

  // ---------------------------------------------------------------- congruences

  lemma WordOfSigned(x: int)
    requires -0x8000_0000 <= x < 0x8000_0000
    ensures Signed(ToWord(x)) == x
  {
  }

  /** Adding a multiple of 2^32 to a factor changes the product by a multiple of 2^32. */
  lemma CongruentProduct(x: int, y: int, i: int, j: int)
    ensures ((x + TWO_32 * i) * (y + TWO_32 * j)) % TWO_32 == (x * y) % TWO_32
  {
    var k := x * j + i * y + TWO_32 * (i * j);
    assert (x + TWO_32 * i) * (y + TWO_32 * j) == x * y + TWO_32 * k by {
      assert (x + TWO_32 * i) * (y + TWO_32 * j) == x * (y + TWO_32 * j) + (TWO_32 * i) * (y + TWO_32 * j);
      assert x * (y + TWO_32 * j) == x * y + TWO_32 * (x * j);
      assert (TWO_32 * i) * (y + TWO_32 * j) == TWO_32 * (i * y) + TWO_32 * (TWO_32 * (i * j));
    }
  }

  lemma DivFacts(n: nat, d: nat)
    requires d > 0
    ensures d * (n / d) + n % d == n && 0 <= n % d < d && 0 <= n / d
  {
  }

  lemma GrowingProduct(d: int, k: int, q: nat)
    requires d >= k
    ensures d * q >= k * q
  {
  }

  lemma TruncIdentity(x: int, y: int)
    requires y != 0
    ensures y * TruncDiv(x, y) + TruncRem(x, y) == x
    ensures Abs(TruncRem(x, y)) < Abs(y)
  {
  }

  lemma TruncBound(x: int, y: int)
    requires y != 0
    ensures Abs(TruncDiv(x, y)) <= Abs(x)
    ensures Abs(y) >= 2 ==> 2 * Abs(TruncDiv(x, y)) <= Abs(x)
  {
    var q := Abs(x) / Abs(y);
    DivFacts(Abs(x), Abs(y));
    GrowingProduct(Abs(y), 1, q);
    if Abs(y) >= 2 {
      GrowingProduct(Abs(y), 2, q);
    }
  }

  // ---------------------------------------------------------------- division

  /** Unsigned: quotient and remainder are the exact ones; by zero, all ones and the dividend. */
  lemma UnsignedDivision(a: Word, b: Word)
    ensures var q, r := Result(DIVU, a, b), Result(REMU, a, b);
            && (b * q + r) % TWO_32 == a
            && (b != 0 ==> b * q + r == a && r < b)
            && (b == 0 ==> q == ALL_ONES && r == a)
  {
  }

  /** Signed: divisor times quotient plus remainder is the dividend modulo 2^32 for every pair, the
      remainder is smaller than the divisor in magnitude and has the dividend's sign; the one
      overflowing pair is the only nonzero divisor for which the identity needs the modulus. */
  lemma SignedDivision(a: Word, b: Word)
    ensures var q, r := Result(DIV, a, b), Result(REM, a, b);
            && (b * q + r) % TWO_32 == a
            && (b != 0 ==> Abs(Signed(r)) < Abs(Signed(b)))
            && (b != 0 && r != 0 ==> (Signed(r) < 0 <==> Signed(a) < 0))
            && (b != 0 ==> (Signed(b) * Signed(q) + Signed(r) == Signed(a) <==> !(a == MIN_SIGNED && b == ALL_ONES)))
            && (b == 0 ==> q == ALL_ONES && r == a)
  {
    if b != 0 && !(a == MIN_SIGNED && b == ALL_ONES) {
      RegularDivision(a, b);
    }
  }

  lemma RegularDivision(a: Word, b: Word)
    requires b != 0 && !(a == MIN_SIGNED && b == ALL_ONES)
    ensures var q, r := Result(DIV, a, b), Result(REM, a, b);
            && (b * q + r) % TWO_32 == a
            && Signed(q) == TruncDiv(Signed(a), Signed(b)) && Signed(r) == TruncRem(Signed(a), Signed(b))
            && Signed(b) * Signed(q) + Signed(r) == Signed(a)
            && Abs(Signed(r)) < Abs(Signed(b))
  {
    TruncIdentity(Signed(a), Signed(b));
    QuotientFits(Signed(a), Signed(b));
    SignedToWords(a, b, TruncDiv(Signed(a), Signed(b)), TruncRem(Signed(a), Signed(b)));
  }

  /** A signed division that fits, carried over to words. */
  lemma SignedToWords(a: Word, b: Word, tq: int, tr: int)
    requires Signed(b) * tq + tr == Signed(a) && Abs(tr) < Abs(Signed(b)) && -0x8000_0000 <= tq < 0x8000_0000
    ensures (b * ToWord(tq) + ToWord(tr)) % TWO_32 == a
    ensures Signed(ToWord(tq)) == tq && Signed(ToWord(tr)) == tr
  {
    WordOfSigned(tq);
    WordOfSigned(tr);
    IdentityOnWords(Signed(a), Signed(b), tq, tr);
  }

  lemma IdentityOnWords(x: int, y: int, q: int, r: int)
    requires y * q + r == x
    ensures (ToWord(y) * ToWord(q) + ToWord(r)) % TWO_32 == ToWord(x)
  {
    WordsCongruent(ToWord(y), ToWord(q), y, q);
    SumCongruent(ToWord(y) * ToWord(q), y * q, ToWord(r), r);
  }

  lemma WordsCongruent(v: Word, w: Word, x: int, y: int)
    requires v == ToWord(x) && w == ToWord(y)
    ensures (v * w) % TWO_32 == (x * y) % TWO_32
  {
    CongruentProduct(x, y, -(x / TWO_32), -(y / TWO_32));
  }

  lemma QuotientFits(x: int, y: int)
    requires -0x8000_0000 <= x < 0x8000_0000 && y != 0
    requires !(x == -0x8000_0000 && y == -1)
    ensures -0x8000_0000 <= TruncDiv(x, y) < 0x8000_0000
  {
    TruncBound(x, y);
    DivFacts(Abs(x), Abs(y));
  }

  lemma SumCongruent(p: int, p': int, r: Word, r': int)
    requires p % TWO_32 == p' % TWO_32 && r == r' % TWO_32
    ensures (p + r) % TWO_32 == (p' + r') % TWO_32
  {
  }

  // ---------------------------------------------------------------- multiplication

  lemma LowIgnoresSigns(a: Word, b: Word)
    ensures Low(Signed(a) * Signed(b)) == Low(a * b)
  {
    var i := if a >= 0x8000_0000 then -1 else 0;
    var j := if b >= 0x8000_0000 then -1 else 0;
    CongruentProduct(a, b, i, j);
  }

  /** The two halves of a signed product recombine; the low half does not depend on signs. */
  lemma MultiplyHalves(a: Word, b: Word)
    ensures Result(MULH, a, b) * TWO_32 + Result(MUL, a, b) == (Signed(a) * Signed(b)) % TWO_64
    ensures Result(MULHU, a, b) * TWO_32 + Result(MUL, a, b) == a * b
  {
    LowIgnoresSigns(a, b);
    ProductRange(a, b);
    Halves(Signed(a) * Signed(b), a * b);
  }

  lemma Halves(p: int, q: int)
    requires Low(p) == Low(q) && 0 <= q < TWO_64
    ensures High(p) * TWO_32 + Low(p) == p % TWO_64
    ensures High(q) * TWO_32 + Low(p) == q
  {
  }

  lemma ProductRange(a: Word, b: Word)
    ensures 0 <= a * b < TWO_64
  {
    GrowingProduct(ALL_ONES, a, b);
  }

  /** MULHSU as section 7.1 of the RISC-V Unprivileged ISA 20191213 defines it. */
  function MulhsuIsa(a: Word, b: Word): Word { High(Signed(a) * b) }

  /** The unit's MULHSU is its MULHU, and meets the ISA exactly when the signed operand is not
      negative or the other is zero. */
  lemma MulhsuExact(a: Word, b: Word)
    ensures Result(MULHSU, a, b) == Result(MULHU, a, b)
    ensures Result(MULHSU, a, b) == MulhsuIsa(a, b) <==> a < 0x8000_0000 || b == 0
  {
    ProductRange(a, b);
    if a >= 0x8000_0000 {
      assert (a - TWO_32) * b == a * b - TWO_32 * b;
      BorrowFromHigh(a * b, b);
    }
  }

  lemma BorrowFromHigh(p: int, b: Word)
    requires 0 <= p < TWO_64
    ensures High(p - TWO_32 * b) == (High(p) - b) % TWO_32
    ensures High(p - TWO_32 * b) == High(p) <==> b == 0
  {
    var h := p / TWO_32;
    assert p % TWO_64 == p && High(p) == h;
    if h >= b {
      assert (p - TWO_32 * b) % TWO_64 == p - TWO_32 * b;
      QuotientIs(p - TWO_32 * b, TWO_32, h - b, p % TWO_32);
    } else {
      assert (p - TWO_32 * b) % TWO_64 == p - TWO_32 * b + TWO_64;
      QuotientIs(p - TWO_32 * b + TWO_64, TWO_32, h - b + TWO_32, p % TWO_32);
    }
  }

  // ---------------------------------------------------------------- the run

  /** The unit's state n clocks after idle, with op held and any operands on its inputs. */
  function RunFor(op: MuOp, a: nat -> Word, b: nat -> Word, n: nat): Mu {
    if n == 0 then IDLE_MU else MuClock(RunFor(op, a, b, n - 1), op, a(n - 1), b(n - 1))
  }

  /** Operands are sampled when the run starts; it is done in exactly one cycle, 4 or 12 later,
      and is idle again in the next. */
  lemma {:induction false} LatchedRun(op: MuOp, a: nat -> Word, b: nat -> Word, n: nat)
    requires !op.MU_NOP? && n <= MuLatency(op) + 1
    ensures var m := RunFor(op, a, b, n);
            && (MuDone(m) <==> n == MuLatency(op))
            && (m.busy <==> 1 <= n <= MuLatency(op))
            && (m.busy ==> m.timer == MuLatency(op) + 1 - n && m.a == a(0) && m.b == b(0))
  {
    if n > 0 {
      LatchedRun(op, a, b, n - 1);
    }
  }

  /** What the unit delivers when done. */
  lemma DeliversSampled(u: Units, op: MuOp, a: nat -> Word, b: nat -> Word)
    requires !op.MU_NOP? && u.mul == Result
    ensures MuOut(u, RunFor(op, a, b, MuLatency(op)), op) == Result(op, a(0), b(0))
    ensures MuLatency(op) == if op.DIV? || op.DIVU? || op.REM? || op.REMU? then 12 else 4
  {
    LatchedRun(op, a, b, MuLatency(op));
  }
}

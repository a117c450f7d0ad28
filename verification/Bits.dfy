/** Binary digits, bitwise operations and two's complement on 32-bit words. */
module Bits {
  import opened Width

  function Pow2(n: nat): (p: nat)
    ensures p > 0
  {
    if n == 0 then 1 else 2 * Pow2(n - 1)
  }

  lemma Pow2Word()
    ensures Pow2(31) == 0x8000_0000 && Pow2(32) == TWO_32
  {
    assert Pow2(8) == 0x100 && Pow2(16) == 0x1_0000 && Pow2(24) == 0x100_0000;
  }

  /** Digit k of the two's complement of x. */
  predicate BitAt(x: int, k: nat)
    decreases k
  {
    if k == 0 then x % 2 == 1 else BitAt(x / 2, k - 1)
  }

  /** The two's complement reading of a word. */
  function Signed(w: Word): int {
    if w >= 0x8000_0000 then w - TWO_32 else w
  }

  function ToWord(x: int): Word { x % TWO_32 }

  /** f on each of the low n digits. */
  function Bitwise(f: (bool, bool) -> bool, a: nat, b: nat, n: nat): (r: nat)
    ensures r < Pow2(n)
  {
    if n == 0 then 0
    else (if f(a % 2 == 1, b % 2 == 1) then 1 else 0) + 2 * Bitwise(f, a / 2, b / 2, n - 1)
  }

  lemma {:induction false} BitwiseBit(f: (bool, bool) -> bool, a: nat, b: nat, n: nat, k: nat)
    requires k < n
    ensures BitAt(Bitwise(f, a, b, n), k) == f(BitAt(a, k), BitAt(b, k))
    decreases k
  {
    if k > 0 {
      BitwiseBit(f, a / 2, b / 2, n - 1, k - 1);
      assert Bitwise(f, a, b, n) / 2 == Bitwise(f, a / 2, b / 2, n - 1);
    }
  }

  function OnWords(f: (bool, bool) -> bool, a: Word, b: Word): Word {
    Pow2Word();
    Bitwise(f, a, b, 32)
  }

  function Or(a: Word, b: Word): Word { OnWords((x, y) => x || y, a, b) }
  function And(a: Word, b: Word): Word { OnWords((x, y) => x && y, a, b) }
  function Xor(a: Word, b: Word): Word { OnWords((x, y) => x != y, a, b) }
  function AndNot(a: Word, b: Word): Word { OnWords((x, y) => x && !y, a, b) }

  /** What the four do to each digit. */
  lemma LogicBits(a: Word, b: Word, k: nat)
    requires k < 32
    ensures BitAt(Or(a, b), k) <==> BitAt(a, k) || BitAt(b, k)
    ensures BitAt(And(a, b), k) <==> BitAt(a, k) && BitAt(b, k)
    ensures BitAt(Xor(a, b), k) <==> BitAt(a, k) != BitAt(b, k)
    ensures BitAt(AndNot(a, b), k) <==> BitAt(a, k) && !BitAt(b, k)
  {
    BitwiseBit((x, y) => x || y, a, b, 32, k);
    BitwiseBit((x, y) => x && y, a, b, 32, k);
    BitwiseBit((x, y) => x != y, a, b, 32, k);
    BitwiseBit((x, y) => x && !y, a, b, 32, k);
  }

  // ---------------------------------------------------------------- shifts

  /** Dividing by a power of two moves the digits down. */
  lemma {:induction false} DownBit(x: int, s: nat, k: nat)
    ensures BitAt(x / Pow2(s), k) == BitAt(x, k + s)
    decreases s
  {
    if s > 0 {
      DivTwice(x, Pow2(s - 1));
      DownBit(x / 2, s - 1, k);
    }
  }

  lemma DivTwice(x: int, m: int)
    requires m > 0
    ensures x / (2 * m) == x / 2 / m
  {
    var q := x / 2 / m;
    var r := x / 2 % m;
    assert x == 2 * (m * q + r) + x % 2;
    assert x == (2 * m) * q + (2 * r + x % 2) by {
      assert 2 * (m * q) == (2 * m) * q;
    }
    QuotientIs(x, 2 * m, q, 2 * r + x % 2);
  }

  lemma QuotientIs(x: int, d: int, q: int, r: int)
    requires d > 0 && x == d * q + r && 0 <= r < d
    ensures x / d == q && x % d == r
  {
    var q', r' := x / d, x % d;
    assert d * (q - q') == r' - r;
    if q > q' {
      Scale(d, q - q');
    } else if q < q' {
      Scale(d, q' - q);
    }
  }

  lemma Nested(x: int, a: int, b: int, c: int)
    requires a > 0 && b > 0 && c == a * b
    ensures x / c == x / a / b
  {
    var q, r := x / a / b, x / a % b;
    Distribute(a, b, q, r);
    ScaleUp(a, r, b - 1);
    QuotientIs(x, c, q, a * r + x % a);
  }

  lemma Distribute(a: int, b: int, q: int, r: int)
    ensures a * (b * q + r) == (a * b) * q + a * r
  {
    assert a * (b * q) == (a * b) * q;
  }

  lemma ScaleUp(a: int, r: int, m: int)
    requires a > 0 && 0 <= r <= m
    ensures 0 <= a * r <= a * m == a * (m + 1) - a
  {
  }

  lemma Scale(d: int, k: int)
    requires d > 0 && k >= 1
    ensures d * k >= d
  {
  }

  /** Multiplying by a power of two moves them up, and fills with zeros. */
  lemma {:induction false} UpBit(x: int, s: nat, k: nat)
    ensures BitAt(x * Pow2(s), k) <==> k >= s && BitAt(x, k - s)
    decreases s
  {
    if s > 0 {
      var m := Pow2(s - 1);
      assert x * Pow2(s) == 2 * (x * m) by {
        assert Pow2(s) == 2 * m;
      }
      if k > 0 {
        UpBit(x, s - 1, k - 1);
      }
    }
  }

  /** Only the low n digits are looked at below n. */
  lemma {:induction false} LowBit(x: int, n: nat, k: nat)
    requires k < n
    ensures BitAt(x % Pow2(n), k) == BitAt(x, k)
    decreases k
  {
    var m := Pow2(n - 1);
    HalfOfRest(x, m);
    if k > 0 {
      LowBit(x / 2, n - 1, k - 1);
    }
  }

  lemma HalfOfRest(x: int, m: int)
    requires m > 0
    ensures x % (2 * m) % 2 == x % 2 && x % (2 * m) / 2 == x / 2 % m
  {
    var q := x / 2 / m;
    var r := x / 2 % m;
    assert x == (2 * m) * q + (2 * r + x % 2) by {
      assert x / 2 == m * q + r;
      assert 2 * (m * q) == (2 * m) * q;
    }
    QuotientIs(x, 2 * m, q, 2 * r + x % 2);
  }

  lemma {:induction false} BelowHasNoBit(x: int, n: nat, k: nat)
    requires 0 <= x < Pow2(n) && k >= n
    ensures !BitAt(x, k)
    decreases n
  {
    if n > 0 {
      BelowHasNoBit(x / 2, n - 1, k - 1);
    } else {
      ZeroHasNoBit(k);
    }
  }

  lemma {:induction false} ZeroHasNoBit(k: nat)
    ensures !BitAt(0, k)
  {
    if k > 0 {
      ZeroHasNoBit(k - 1);
    }
  }

  /** The sign repeats above. */
  lemma {:induction false} SignBits(w: Word, k: nat)
    ensures BitAt(Signed(w), k) == BitAt(w, if k < 32 then k else 31)
  {
    Pow2Word();
    if k < 32 {
      LowBit(Signed(w), 32, k);
      assert Signed(w) % TWO_32 == w;
    } else {
      DownBit(Signed(w), 31, k - 31);
      DownBit(w, 31, 0);
      AllSame(k - 31);
    }
  }

  lemma {:induction false} AllSame(k: nat)
    ensures BitAt(-1, k) && !BitAt(0, k)
  {
    if k > 0 {
      AllSame(k - 1);
    }
  }
}

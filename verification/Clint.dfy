/** The core-local timer (clint.sv) and the kernel's 64-bit accesses to it over a 32-bit bus (clint.h). */
module Clint {
  import opened Width

  const PRESCALER: int := 100

  const MSIP := 0x0000
  const MTIMECMP := 0x4000
  const MTIMECMPH := 0x4004
  const MTIME := 0xBFF8
  const MTIMEH := 0xBFFC

  datatype Timer = Timer(mtime: Dword, cmp: Dword, pre: nat, msip: bool)

  const RESET_TIMER := Timer(0, TWO_64 - 1, PRESCALER, false)

  function Hi(d: Dword): Word { d / TWO_32 }
  function Lo(d: Dword): Word { d % TWO_32 }
  function Join(hi: Word, lo: Word): Dword { hi * TWO_32 + lo }

  lemma Halves(d: Dword, hi: Word, lo: Word)
    ensures Join(Hi(d), Lo(d)) == d
    ensures Hi(Join(hi, lo)) == hi && Lo(Join(hi, lo)) == lo
  {
  }

  predicate Pending(t: Timer) { t.mtime >= t.cmp }

  function Read(t: Timer, addr: int): Word {
    if addr == MSIP then (if t.msip then 1 else 0)
    else if addr == MTIME then Lo(t.mtime)
    else if addr == MTIMEH then Hi(t.mtime)
    else if addr == MTIMECMP then Lo(t.cmp)
    else if addr == MTIMECMPH then Hi(t.cmp)
    else 0
  }

  function Write(t: Timer, addr: int, w: Word): Timer {
    if addr == MSIP then t.(msip := w % 2 == 1)
    else if addr == MTIME then t.(mtime := Join(Hi(t.mtime), w))
    else if addr == MTIMEH then t.(mtime := Join(w, Lo(t.mtime)))
    else if addr == MTIMECMP then t.(cmp := Join(Hi(t.cmp), w))
    else if addr == MTIMECMPH then t.(cmp := Join(w, Lo(t.cmp)))
    else t
  }

  /** One clock. When the counter advances, the advance overrides a write to mtime. */
  function Clock(t: Timer, we: bool, addr: int, w: Word): Timer {
    var n := if we then Write(t, addr, w) else t;
    if 0 < t.pre then n.(pre := t.pre - 1) else n.(mtime := (t.mtime + 1) % TWO_64, pre := PRESCALER)
  }

  predicate IsRegister(addr: int) { addr in {MSIP, MTIME, MTIMEH, MTIMECMP, MTIMECMPH} }

  /** A word written reads back, of msip one bit, and no other register changes; but a write to mtime in the
      clock of an advance is lost. */
  lemma WrittenReadsBack(t: Timer, addr: int, other: int, w: Word)
    requires IsRegister(addr) && IsRegister(other) && other != addr
    ensures var n := Clock(t, true, addr, w);
            && (t.pre > 0 ==>
                  && Read(n, addr) == (if addr == MSIP then w % 2 else w) && Read(n, other) == Read(t, other))
            && (t.pre == 0 ==>
                  && n.mtime == (t.mtime + 1) % TWO_64
                  && (addr != MTIME && addr != MTIMEH ==> Read(n, addr) == if addr == MSIP then w % 2 else w))
  {
  }

  /** n clocks without a write. */
  function After(t: Timer, n: nat): Timer {
    if n == 0 then t else Clock(After(t, n - 1), false, 0, 0)
  }

  /** Advances of the counter in n clocks: one each PRESCALER + 1. */
  function Advances(pre: nat, n: nat): nat {
    if n <= pre then 0 else 1 + (n - pre - 1) / 101
  }

  lemma {:induction false} AdvancesStep(pre: nat, n: nat)
    requires pre <= PRESCALER
    ensures Advances(pre, n + 1) == Advances(pre, n) + if n >= pre && (n - pre) % 101 == 0 then 1 else 0
  {
  }

  function Countdown(pre: nat, n: nat): int {
    if n <= pre then pre - n else PRESCALER - (n - pre - 1) % 101
  }

  lemma CountdownStep(pre: nat, n: nat)
    requires pre <= PRESCALER
    ensures Countdown(pre, n) == 0 <==> n >= pre && (n - pre) % 101 == 0
    ensures Countdown(pre, n + 1) == if Countdown(pre, n) == 0 then PRESCALER else Countdown(pre, n) - 1
  {
  }

  lemma {:induction false} PrescalerPhase(t: Timer, n: nat)
    requires t.pre <= PRESCALER
    ensures After(t, n).pre == Countdown(t.pre, n) && After(t, n).cmp == t.cmp
  {
    if n > 0 {
      PrescalerPhase(t, n - 1);
      CountdownStep(t.pre, n - 1);
    }
  }

  lemma NextModulo(x: nat)
    ensures (x % TWO_64 + 1) % TWO_64 == (x + 1) % TWO_64
  {
  }

  /** The counter in closed form: its period is 101 clocks, one more than the prescaler constant. */
  lemma {:induction false} CounterPeriod(t: Timer, n: nat)
    requires t.pre <= PRESCALER
    ensures After(t, n).mtime == (t.mtime + Advances(t.pre, n)) % TWO_64
  {
    if n > 0 {
      CounterPeriod(t, n - 1);
      PrescalerPhase(t, n - 1);
      AdvancesStep(t.pre, n - 1);
      CountdownStep(t.pre, n - 1);
      NextModulo(t.mtime + Advances(t.pre, n - 1));
    }
  }

  lemma {:induction false} AfterAdds(t: Timer, m: nat, n: nat)
    ensures After(After(t, m), n) == After(t, m + n)
  {
    if n > 0 {
      AfterAdds(t, m, n - 1);
    }
  }

  lemma AdvancesMonotone(pre: nat, m: nat, n: nat)
    requires m <= n
    ensures Advances(pre, m) <= Advances(pre, n)
  {
  }

  // ---------------------------------------------------------------- torn reads

  /** A 64-bit counter after d advances. */
  function Plus(x: nat, d: nat): Dword { (x + d) % TWO_64 }

  lemma PlusPlus(x: nat, d: nat, e: nat)
    ensures Plus(Plus(x, d), e) == Plus(x, d + e)
  {
  }

  /** Within 2^32 advances the high word moves on at most once, and only by a carry: equal high words
      before and after mean that there was none, even across a wrap of all 64 bits. */
  lemma NoCarryBetween(y: Dword, d: nat, e: nat)
    requires d <= e < TWO_32 && Hi(y) == Hi(Plus(y, e))
    ensures y + e < TWO_64 && Plus(y, d) == y + d && Hi(y) == Hi(y + d)
  {
  }

  lemma CarriesOnce(y: Dword, d: nat, e: nat, f: nat)
    requires d <= e <= f < TWO_32 && Hi(y) != Hi(Plus(y, d))
    ensures Hi(Plus(y, e)) == Hi(Plus(y, f))
  {
    if y + f < TWO_64 {
      assert Hi(y + d) == Hi(y) + 1 && Hi(y + e) == Hi(y) + 1 && Hi(y + f) == Hi(y) + 1;
    } else {
      assert Hi(y) == TWO_32 - 1;
    }
  }

  /** Advances from clock m to clock n. */
  function Span(t: Timer, m: nat, n: nat): int {
    Advances(t.pre, n) - Advances(t.pre, m)
  }

  lemma MtimeAfter(t: Timer, m: nat, n: nat)
    requires t.pre <= PRESCALER && m <= n
    ensures 0 <= Span(t, m, n) && After(t, n).mtime == Plus(After(t, m).mtime, Span(t, m, n))
  {
    CounterPeriod(t, m);
    CounterPeriod(t, n);
    AdvancesMonotone(t.pre, m, n);
    PlusPlus(t.mtime, Advances(t.pre, m), Span(t, m, n));
  }

  /** Equal high words around a low-word read pin down the whole counter at that read, if fewer than
      2^32 advances lie between. */
  lemma ReadsAgree(t: Timer, first: nat, at: nat, last: nat)
    requires t.pre <= PRESCALER && first <= at <= last && Span(t, first, last) < TWO_32
    requires Hi(After(t, first).mtime) == Hi(After(t, last).mtime)
    ensures Join(Hi(After(t, first).mtime), Lo(After(t, at).mtime)) == After(t, at).mtime
  {
    MtimeAfter(t, first, at);
    MtimeAfter(t, first, last);
    AdvancesMonotone(t.pre, at, last);
    NoCarryBetween(After(t, first).mtime, Span(t, first, at), Span(t, first, last));
  }

  /** If an attempt saw the high word move, the next one does not. */
  lemma RetryAgrees(t: Timer, first: nat, last: nat, first': nat, last': nat)
    requires t.pre <= PRESCALER && first <= last <= first' <= last' && Span(t, first, last') < TWO_32
    requires Hi(After(t, first).mtime) != Hi(After(t, last).mtime)
    ensures Hi(After(t, first').mtime) == Hi(After(t, last').mtime)
  {
    MtimeAfter(t, first, last);
    MtimeAfter(t, first, first');
    MtimeAfter(t, first, last');
    AdvancesMonotone(t.pre, last, first');
    AdvancesMonotone(t.pre, first', last');
    CarriesOnce(After(t, first).mtime, Span(t, first, last), Span(t, first, first'), Span(t, first, last'));
  }

  /** Read i is no later than read j. */
  ghost predicate Before(at: nat -> nat, i: nat, j: nat) {
    at(i) <= at(j)
  }

  /** Read j happens at clock at(j). */
  ghost predicate InOrder(at: nat -> nat) {
    forall i: nat, j: nat :: i <= j ==> Before(at, i, j)
  }

  /** Two attempts, three reads each, from read n on take fewer than 2^32 advances. */
  ghost predicate TwoAttemptsInTime(t: Timer, at: nat -> nat, n: nat) {
    Span(t, at(n), at(n + 5)) < TWO_32
  }

  /** The attempt that starts with read n read these three words. */
  ghost predicate Tried(t: Timer, at: nat -> nat, n: nat, hi: Word, lo: Word, again: Word) {
    && hi == Hi(After(t, at(n)).mtime)
    && lo == Lo(After(t, at(n + 1)).mtime)
    && again == Hi(After(t, at(n + 2)).mtime)
  }

  lemma AttemptsInOrder(t: Timer, at: nat -> nat, n: nat)
    requires InOrder(at) && TwoAttemptsInTime(t, at, n)
    ensures Span(t, at(n), at(n + 2)) < TWO_32 && Span(t, at(n + 3), at(n + 5)) < TWO_32
  {
    assert Before(at, n, n + 3) && Before(at, n + 2, n + 5);
    AdvancesMonotone(t.pre, at(n), at(n + 3));
    AdvancesMonotone(t.pre, at(n + 2), at(n + 5));
  }

  /** An attempt that sees the high word stand still gives the counter. */
  lemma AttemptExact(t: Timer, at: nat -> nat, n: nat, hi: Word, lo: Word, again: Word)
    requires t.pre <= PRESCALER && InOrder(at) && Tried(t, at, n, hi, lo, again) && hi == again
    requires Span(t, at(n), at(n + 2)) < TWO_32
    ensures Join(hi, lo) == After(t, at(n + 1)).mtime
  {
    assert Before(at, n, n + 1) && Before(at, n + 1, n + 2);
    ReadsAgree(t, at(n), at(n + 1), at(n + 2));
  }

  /** If one attempt does not, the next does. */
  lemma NextAttemptStands(t: Timer, at: nat -> nat, n: nat, hi: Word, lo: Word, again: Word, hi': Word, lo': Word, again': Word)
    requires t.pre <= PRESCALER && InOrder(at) && TwoAttemptsInTime(t, at, n)
    requires Tried(t, at, n, hi, lo, again) && hi != again && Tried(t, at, n + 3, hi', lo', again')
    ensures hi' == again'
  {
    assert Before(at, n, n + 2) && Before(at, n + 2, n + 3) && Before(at, n + 3, n + 5);
    RetryAgrees(t, at(n), at(n + 2), at(n + 3), at(n + 5));
  }

  // ---------------------------------------------------------------- the comparator

  predicate Fires(now: Dword, deadline: Dword) { now >= deadline }

  /** What the comparator holds between the two writes of set_timecmp. */
  function HalfWritten(last: Dword, next: Dword): Dword {
    Join(Hi(next), Lo(last))
  }

  /** Writing high before low raises no interrupt that neither the old nor the new deadline raises,
      at any time, exactly when the half-written value is not below both. */
  lemma NoSpuriousTick(last: Dword, next: Dword)
    ensures (forall now: Dword :: Fires(now, HalfWritten(last, next)) ==> Fires(now, last) || Fires(now, next))
            <==> Hi(last) <= Hi(next) || Lo(next) <= Lo(last)
  {
    var h := HalfWritten(last, next);
    assert Fires(h, h);
    assert h >= last <==> Hi(last) <= Hi(next);
    assert h >= next <==> Lo(next) <= Lo(last);
  }

  /** The handler's next deadline is never earlier than the last one, so it never hits that case. */
  lemma AdvancingDeadlineIsSafe(deadline: Dword, step: nat, now: Dword)
    requires deadline + step < TWO_64 && Fires(now, HalfWritten(deadline, deadline + step))
    ensures Fires(now, deadline)
  {
  }

  /** u is t some clocks later. */
  ghost predicate Passed(t: Timer, u: Timer) {
    exists n: nat :: u == After(t, n)
  }

  lemma PassedAfter(t: Timer, n: nat)
    ensures Passed(t, After(t, n))
  {
  }

  lemma PassedThen(t: Timer, u: Timer, v: Timer)
    requires Passed(t, u) && Passed(u, v)
    ensures Passed(t, v)
  {
    var m: nat :| u == After(t, m);
    var n: nat :| v == After(u, n);
    AfterAdds(t, m, n);
  }

  /** The comparator goes with the clocks unchanged, and the clocks do not look at it. */
  lemma {:induction false} ComparatorStays(t: Timer, n: nat, d: Dword)
    ensures After(t, n).cmp == t.cmp && After(t.(cmp := d), n) == After(t, n).(cmp := d)
  {
    if n > 0 {
      ComparatorStays(t, n - 1, d);
    }
  }

  lemma PassedWith(t: Timer, u: Timer, d: Dword)
    requires Passed(t, u)
    ensures u.cmp == t.cmp && Passed(t.(cmp := d), u.(cmp := d))
  {
    var n: nat :| u == After(t, n);
    ComparatorStays(t, n, d);
  }

  /** A comparator write takes one clock, in which the counter goes on as ever. */
  lemma ComparatorWritten(t: Timer, w: Word)
    ensures Passed(t.(cmp := Join(w, Lo(t.cmp))), Clock(t, true, MTIMECMPH, w))
    ensures Passed(t.(cmp := Join(Hi(t.cmp), w)), Clock(t, true, MTIMECMP, w))
  {
    assert Clock(t, true, MTIMECMPH, w) == After(t.(cmp := Join(w, Lo(t.cmp))), 1);
    assert Clock(t, true, MTIMECMP, w) == After(t.(cmp := Join(Hi(t.cmp), w)), 1);
  }

  /** The interrupt line n clocks from now, as long as mtime does not wrap: up exactly if the deadline is
      reached. */
  lemma LineRises(t: Timer, n: nat)
    requires t.pre <= PRESCALER && t.mtime + Advances(t.pre, n) < TWO_64
    ensures Pending(After(t, n)) <==> t.mtime + Advances(t.pre, n) >= t.cmp
  {
    CounterPeriod(t, n);
    PrescalerPhase(t, n);
  }

  class Bus {
    var t: Timer

    constructor ()
      ensures t == RESET_TIMER
    {
      t := RESET_TIMER;
    }

    method Tick(we: bool, addr: int, w: Word)
      modifies this
      ensures t == Clock(old(t), we, addr, w)
    {
      var count := t.pre;
      var now := t.mtime;
      if we {
        t := Write(t, addr, w);
      }
      if 0 < count {
        t := t.(pre := count - 1);
      } else {
        t := t.(mtime := (now + 1) % TWO_64, pre := PRESCALER);
      }
    }

    /** Lets n clocks pass without a write. */
    method Wait(n: nat)
      modifies this
      ensures t == After(old(t), n)
    {
      for i := 0 to n
        invariant t == After(old(t), i)
      {
        Tick(false, 0, 0);
      }
    }

    /** Lets any number of clocks pass. */
    method Pause()
      modifies this
      ensures Passed(old(t), t)
    {
      var n: nat := *;
      PassedAfter(t, n);
      Wait(n);
    }

    /** A store to the timer, some time later. */
    method Store(addr: int, w: Word)
      requires addr == MTIMECMP || addr == MTIMECMPH
      modifies this
      ensures Passed(old(t).(cmp := if addr == MTIMECMP then Join(Hi(old(t.cmp)), w) else Join(w, Lo(old(t.cmp)))), t)
    {
      ghost var t0 := t;
      Pause();
      ghost var d := if addr == MTIMECMP then Join(Hi(t.cmp), w) else Join(w, Lo(t.cmp));
      PassedWith(t0, t, d);
      ComparatorWritten(t, w);
      ghost var t1 := t.(cmp := d);
      Tick(true, addr, w);
      PassedThen(t0.(cmp := d), t1, t);
    }

    /** A load from the timer, some time later. */
    method Load(addr: int) returns (w: Word)
      modifies this
      ensures Passed(old(t), t) && w == Read(t, addr)
    {
      Pause();
      w := Read(t, addr);
    }

    /** get_timecmp: the deadline, whatever clocks lie between the two loads. */
    method GetTimecmp() returns (d: Dword)
      modifies this
      ensures d == old(t.cmp) && Passed(old(t), t)
    {
      ghost var t0 := t;
      var hi := Load(MTIMECMPH);
      ghost var t1 := t;
      var lo := Load(MTIMECMP);
      PassedWith(t0, t1, 0);
      PassedWith(t1, t, 0);
      PassedThen(t0, t1, t);
      Halves(t.cmp, hi, lo);
      d := Join(hi, lo);
    }

    /** set_timecmp: high word, then low word. Afterwards the timer is the one before with this deadline,
        some clocks later; half is what it was just before the low word, half-written ever since the high. */
    method SetTimecmp(d: Dword) returns (ghost half: Timer)
      modifies this
      ensures Passed(old(t).(cmp := d), t) && t.cmp == d
      ensures half.cmp == HalfWritten(old(t.cmp), d)
      ensures Passed(old(t).(cmp := HalfWritten(old(t.cmp), d)), half) && Passed(half.(cmp := d), t)
    {
      ghost var t0 := t;
      Halves(d, Hi(d), Lo(t.cmp));
      Store(MTIMECMPH, Hi(d));
      half := t;
      PassedWith(t0.(cmp := HalfWritten(t0.cmp, d)), half, d);
      Store(MTIMECMP, Lo(d));
      PassedWith(half.(cmp := d), t, d);
      PassedThen(t0.(cmp := d), half.(cmp := d), t);
    }

    /** A bus read at a later clock. */
    method ReadAt(addr: int, ghost start: Timer, now: nat, later: nat) returns (w: Word)
      requires t == After(start, now) && now <= later
      modifies this
      ensures t == After(start, later) && w == Read(t, addr)
    {
      Wait(later - now);
      AfterAdds(start, now, later - now);
      w := Read(t, addr);
    }

    /** High word, low word, high word again. */
    method ReadThree(at: nat -> nat, n: nat, ghost start: Timer, now: nat) returns (hi: Word, lo: Word, again: Word)
      requires InOrder(at) && t == After(start, now) && now <= at(n)
      modifies this
      ensures t == After(start, at(n + 2)) && Tried(start, at, n, hi, lo, again)
    {
      assert Before(at, n, n + 1) && Before(at, n + 1, n + 2);
      hi := ReadAt(MTIMEH, start, now, at(n));
      lo := ReadAt(MTIME, start, at(n), at(n + 1));
      again := ReadAt(MTIMEH, start, at(n + 1), at(n + 2));
    }

    /** get_time, from read n of a schedule of reads on, whatever lies between them. If two attempts take
        fewer than 2^32 advances it makes no third one, and the result is the exact 64-bit value mtime had
        at its last low-word read, though mtime may wrap meanwhile. */
    method GetTime(at: nat -> nat, n: nat, ghost start: Timer, now: nat) returns (time: Dword, ghost last: nat)
      requires InOrder(at) && t == After(start, now) && now <= at(n)
      requires start.pre <= PRESCALER && TwoAttemptsInTime(start, at, n)
      modifies this
      ensures last == n || last == n + 3
      ensures time == After(start, at(last + 1)).mtime && t == After(start, at(last + 2))
    {
      var hi, lo, again;
      hi, lo, again := ReadThree(at, n, start, now);
      last := n;
      while hi != again
        invariant hi == again || last == n
        invariant last == n || last == n + 3
        invariant t == After(start, at(last + 2)) && Tried(start, at, last, hi, lo, again)
        decreases hi != again
      {
        hi, lo, again := ReadAgain(at, n, start, hi, lo, again);
        last := n + 3;
      }
      time := Finished(start, at, n, last, hi, lo, again);
    }

    /** The words of the last attempt, joined. */
    method Finished(ghost start: Timer, ghost at: nat -> nat, ghost n: nat, ghost last: nat, hi: Word, lo: Word, ghost again: Word)
      returns (time: Dword)
      requires InOrder(at) && start.pre <= PRESCALER && TwoAttemptsInTime(start, at, n) && (last == n || last == n + 3)
      requires Tried(start, at, last, hi, lo, again) && hi == again
      ensures time == After(start, at(last + 1)).mtime
    {
      AttemptsInOrder(start, at, n);
      AttemptExact(start, at, last, hi, lo, again);
      time := Join(hi, lo);
    }

    /** The attempt after one that saw the high word move. */
    method ReadAgain(at: nat -> nat, n: nat, ghost start: Timer, ghost hi0: Word, ghost lo0: Word, ghost again0: Word)
      returns (hi: Word, lo: Word, again: Word)
      requires InOrder(at) && t == After(start, at(n + 2)) && start.pre <= PRESCALER && TwoAttemptsInTime(start, at, n)
      requires Tried(start, at, n, hi0, lo0, again0) && hi0 != again0
      modifies this
      ensures t == After(start, at(n + 5)) && Tried(start, at, n + 3, hi, lo, again) && hi == again
    {
      assert Before(at, n + 2, n + 3);
      hi, lo, again := ReadThree(at, n + 3, start, at(n + 2));
      NextAttemptStands(start, at, n, hi0, lo0, again0, hi, lo, again);
    }
  }
}

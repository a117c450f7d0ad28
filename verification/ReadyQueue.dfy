/** The linked ready queue (scheduler.c: push_ready_task, remove_ready_task). Entries are the
    slots of one array; links are slot numbers. */
module ReadyQueue {

  import opened TaskTable

  const NIL := -1

  datatype Entry = Entry(tid: int, prev: int, next: int)

  type Entries = e: seq<Entry> | |e| == 8 witness seq(8, _ => Entry(0, -1, -1))

  /** What get_task_priority answers for each slot. */
  type Prios = p: seq<nat> | |p| == 8 witness seq(8, _ => 0)

  function Prio(p: Prios, x: int): nat { if 0 <= x < 8 then p[x] else 0 }

  predicate Slots(s: seq<int>) {
    (forall i :: 0 <= i < |s| ==> 0 <= s[i] < MAX_TASKS)
    && (forall i, j :: 0 <= i < j < |s| ==> s[i] != s[j])
  }

  function NextIn(s: seq<int>, i: nat): int
    requires i < |s|
  {
    if i + 1 < |s| then s[i + 1] else NIL
  }

  function PrevIn(s: seq<int>, i: nat): int
    requires i < |s|
  {
    if i > 0 then s[i - 1] else NIL
  }

  /** The forward chain from head is exactly s. */
  ghost predicate Forward(e: Entries, head: int, s: seq<int>) {
    Slots(s) && head == (if s == [] then NIL else s[0])
    && forall i {:trigger e[s[i]]} :: 0 <= i < |s| ==> e[s[i]].next == NextIn(s, i)
  }

  /** prev links invert next links. */
  ghost predicate Backward(e: Entries, s: seq<int>)
    requires Slots(s)
  {
    forall i {:trigger e[s[i]]} :: 0 <= i < |s| ==> e[s[i]].prev == PrevIn(s, i)
  }

  /** Every prev link is right or NIL: what pushes in front leave of the backward chain. */
  ghost predicate Sound(e: Entries, s: seq<int>)
    requires Slots(s)
  {
    forall i {:trigger e[s[i]]} :: 0 <= i < |s| ==> e[s[i]].prev == PrevIn(s, i) || e[s[i]].prev == NIL
  }

  // ---------------------------------------------------------------- insertion

  /** First position from i on whose task has lower priority than x. */
  function Scan(s: seq<int>, prio: Prios, x: int, i: nat): (p: nat)
    requires i <= |s|
    ensures i <= p <= |s|
    decreases |s| - i
  {
    if i < |s| && Prio(prio, s[i]) >= Prio(prio, x) then Scan(s, prio, x, i + 1) else i
  }

  lemma {:induction false} ScanStops(s: seq<int>, prio: Prios, x: int, i: nat)
    ensures i <= |s| ==>
              var p := Scan(s, prio, x, i);
              && (forall j :: i <= j < p ==> Prio(prio, s[j]) >= Prio(prio, x))
              && (p < |s| ==> Prio(prio, s[p]) < Prio(prio, x))
    decreases |s| - i
  {
    if i < |s| && Prio(prio, s[i]) >= Prio(prio, x) {
      ScanStops(s, prio, x, i + 1);
    }
  }

  function Position(s: seq<int>, prio: Prios, x: int): (p: nat)
    ensures p <= |s|
  {
    if s == [] || Prio(prio, x) > Prio(prio, s[0]) then 0 else Scan(s, prio, x, 1)
  }

  function Insert(s: seq<int>, p: nat, x: int): (t: seq<int>)
    requires p <= |s|
    ensures |t| == |s| + 1
  {
    s[..p] + [x] + s[p..]
  }

  function Without(s: seq<int>, i: nat): seq<int>
    requires i < |s|
  {
    s[..i] + s[i + 1..]
  }

  ghost predicate Sorted(s: seq<int>, prio: Prios)
  {
    forall i, j :: 0 <= i < j < |s| ==> Prio(prio, s[i]) >= Prio(prio, s[j])
  }

  lemma InsertSlots(s: seq<int>, p: nat, x: int)
    requires Slots(s) && p <= |s| && 0 <= x < MAX_TASKS && x !in s
    ensures Slots(Insert(s, p, x))
  {
  }

  /** The newcomer's place: behind every task of its own or higher priority, before every lower. */
  lemma PositionIsStable(s: seq<int>, prio: Prios, x: int, i: nat)
    requires Sorted(s, prio) && i < |s|
    ensures i < Position(s, prio, x) <==> Prio(prio, s[i]) >= Prio(prio, x)
  {
    ScanStops(s, prio, x, 1);
    var p := Position(s, prio, x);
    if p < i {
      assert Prio(prio, s[p]) >= Prio(prio, s[i]);
    }
    if p == 0 && i > 0 {
      assert Prio(prio, s[0]) >= Prio(prio, s[i]);
    }
  }

  /** Stable insertion by non-increasing priority keeps a sorted queue sorted. */
  lemma InsertKeepsSorted(s: seq<int>, prio: Prios, x: int)
    requires Sorted(s, prio)
    ensures Sorted(Insert(s, Position(s, prio, x), x), prio)
  {
    var p := Position(s, prio, x);
    var t := Insert(s, p, x);
    forall i, j | 0 <= i < j < |t|
      ensures Prio(prio, t[i]) >= Prio(prio, t[j])
    {
      InsertAt(s, p, x, i);
      InsertAt(s, p, x, j);
      if i == p {
        PositionIsStable(s, prio, x, j - 1);
      } else if j == p {
        PositionIsStable(s, prio, x, i);
      }
    }
  }

  lemma InsertMembers(s: seq<int>, p: nat, x: int)
    requires p <= |s|
    ensures forall y :: y in Insert(s, p, x) <==> y == x || y in s
  {
    assert s == s[..p] + s[p..];
  }

  /** xs pushed one after the other. */
  function InsertAll(s: seq<int>, prio: Prios, xs: seq<int>): seq<int> {
    if xs == [] then s
    else
      var t := InsertAll(s, prio, xs[..|xs| - 1]);
      Insert(t, Position(t, prio, xs[|xs| - 1]), xs[|xs| - 1])
  }

  lemma InsertAllThen(s: seq<int>, prio: Prios, xs: seq<int>, x: int)
    ensures var t := InsertAll(s, prio, xs);
            InsertAll(s, prio, xs + [x]) == Insert(t, Position(t, prio, x), x)
  {
    assert (xs + [x])[..|xs|] == xs;
  }

  lemma {:induction false} InsertAllKeeps(s: seq<int>, prio: Prios, xs: seq<int>)
    ensures forall y :: y in InsertAll(s, prio, xs) <==> y in s || y in xs
    ensures Sorted(s, prio) ==> Sorted(InsertAll(s, prio, xs), prio)
  {
    if xs != [] {
      var last := xs[|xs| - 1];
      var t := InsertAll(s, prio, xs[..|xs| - 1]);
      InsertAllKeeps(s, prio, xs[..|xs| - 1]);
      InsertMembers(t, Position(t, prio, last), last);
      if Sorted(s, prio) {
        InsertKeepsSorted(t, prio, last);
      }
      assert xs == xs[..|xs| - 1] + [last];
    }
  }

  /** With one common priority the queue is first in, first out. */
  lemma EqualPrioritiesAreFifo(s: seq<int>, prio: Prios, x: int, q: nat)
    requires Prio(prio, x) == q
    requires forall y :: y in s ==> Prio(prio, y) == q
    ensures Position(s, prio, x) == |s| && Insert(s, Position(s, prio, x), x) == s + [x]
  {
    ScanStops(s, prio, x, 1);
  }

  lemma {:induction false} EqualArrivalsAppend(s: seq<int>, prio: Prios, xs: seq<int>, q: nat)
    requires forall y :: y in s || y in xs ==> Prio(prio, y) == q
    ensures InsertAll(s, prio, xs) == s + xs
  {
    if xs != [] {
      var last := xs[|xs| - 1];
      EqualArrivalsAppend(s, prio, xs[..|xs| - 1], q);
      EqualPrioritiesAreFifo(s + xs[..|xs| - 1], prio, last, q);
      assert xs == xs[..|xs| - 1] + [last];
    }
  }

  function LinkFront(e: Entries, head: int, x: int): Entries
    requires 0 <= x < MAX_TASKS
  {
    e[x := e[x].(prev := NIL, next := head)]
  }

  /** A front link on a correct chain: forward holds, backward only if the queue was empty. */
  lemma FrontLinks(e: Entries, head: int, s: seq<int>, x: int)
    requires Forward(e, head, s) && 0 <= x < MAX_TASKS && x !in s
    ensures Forward(LinkFront(e, head, x), x, Insert(s, 0, x))
    ensures Backward(e, s) ==> (Backward(LinkFront(e, head, x), Insert(s, 0, x)) <==> s == [])
    ensures Sound(e, s) ==> Sound(LinkFront(e, head, x), Insert(s, 0, x))
  {
    var f, t := LinkFront(e, head, x), Insert(s, 0, x);
    InsertSlots(s, 0, x);
    assert forall i :: 0 < i < |t| ==> t[i] == s[i - 1];
    if s != [] && Backward(e, s) {
      assert t[1] == s[0] && e[s[0]].prev == PrevIn(s, 0) && f[t[1]].prev != PrevIn(t, 1);
    }
  }

  ghost predicate SameTids(e: Entries, f: Entries) {
    forall i :: 0 <= i < MAX_TASKS ==> e[i].tid == f[i].tid
  }

  /** x linked behind entry p. */
  function LinkBehind(e: Entries, p: int, x: int): Entries
    requires 0 <= x < MAX_TASKS && 0 <= p < MAX_TASKS && p != x
  {
    var next := e[p].next;
    var e1: Entries := e[x := e[x].(prev := p, next := next)];
    var e2: Entries := e1[p := e1[p].(next := x)];
    if 0 <= next < MAX_TASKS then e2[next := e2[next].(prev := x)] else e2
  }

  /** What LinkBehind does to each entry. */
  lemma LinkBehindEntries(e: Entries, p: int, x: int, y: int)
    requires 0 <= x < MAX_TASKS && 0 <= p < MAX_TASKS && p != x && 0 <= y < MAX_TASKS
    requires e[p].next != x && e[p].next != p
    ensures var f := LinkBehind(e, p, x);
            && f[y].next == (if y == x then e[p].next else if y == p then x else e[y].next)
            && f[y].prev == (if y == x then p else if y == e[p].next then x else e[y].prev)
  {
  }

  lemma InsertAt(s: seq<int>, p: nat, x: int, i: nat)
    requires p <= |s| && i <= |s|
    ensures Insert(s, p, x)[i] == if i == p then x else s[if i < p then i else i - 1]
  {
  }

  /** f is e with x linked between s[p - 1] and s[p]. */
  ghost predicate Spliced(e: Entries, f: Entries, s: seq<int>, x: int, p: nat)
    requires 0 < p <= |s|
  {
    forall y :: 0 <= y < MAX_TASKS ==>
      && f[y].next == (if y == x then NextIn(s, p - 1) else if y == s[p - 1] then x else e[y].next)
      && f[y].prev == (if y == x then s[p - 1] else if y == NextIn(s, p - 1) then x else e[y].prev)
  }

  lemma SplicedChains(e: Entries, f: Entries, head: int, s: seq<int>, x: int, p: nat)
    requires Forward(e, head, s) && 0 <= x < MAX_TASKS && x !in s && 0 < p <= |s| && Spliced(e, f, s, x, p)
    ensures Forward(f, head, Insert(s, p, x))
    ensures Backward(e, s) ==> Backward(f, Insert(s, p, x))
    ensures Sound(e, s) ==> Sound(f, Insert(s, p, x))
  {
    var t := Insert(s, p, x);
    InsertSlots(s, p, x);
    forall i | 0 <= i < |t|
      ensures f[t[i]].next == NextIn(t, i)
      ensures Backward(e, s) ==> f[t[i]].prev == PrevIn(t, i)
      ensures Sound(e, s) ==> f[t[i]].prev == PrevIn(t, i) || f[t[i]].prev == NIL
    {
      InsertAt(s, p, x, i);
      if i + 1 < |t| {
        InsertAt(s, p, x, i + 1);
      }
      if i > 0 {
        InsertAt(s, p, x, i - 1);
      }
    }
  }

  lemma BehindKeepsChains(e: Entries, head: int, s: seq<int>, x: int, p: nat)
    requires Forward(e, head, s) && 0 <= x < MAX_TASKS && x !in s && 0 < p <= |s|
    ensures Forward(LinkBehind(e, s[p - 1], x), head, Insert(s, p, x))
    ensures Backward(e, s) ==> Backward(LinkBehind(e, s[p - 1], x), Insert(s, p, x))
    ensures Sound(e, s) ==> Sound(LinkBehind(e, s[p - 1], x), Insert(s, p, x))
  {
    assert e[s[p - 1]].next == NextIn(s, p - 1);
    forall y | 0 <= y < MAX_TASKS
      ensures var f := LinkBehind(e, s[p - 1], x);
              && f[y].next == (if y == x then NextIn(s, p - 1) else if y == s[p - 1] then x else e[y].next)
              && f[y].prev == (if y == x then s[p - 1] else if y == NextIn(s, p - 1) then x else e[y].prev)
    {
      LinkBehindEntries(e, s[p - 1], x, y);
    }
    SplicedChains(e, LinkBehind(e, s[p - 1], x), head, s, x, p);
  }

  // ---------------------------------------------------------------- removal

  /** remove_ready_task on the links alone. */
  function Unlink(e: Entries, head: int, x: int): (Entries, int)
    requires 0 <= x < MAX_TASKS
  {
    var prev, next := e[x].prev, e[x].next;
    var e1: Entries := if 0 <= prev < MAX_TASKS then e[prev := e[prev].(next := next)] else e;
    var head1 := if !(0 <= prev < MAX_TASKS) && x == head then e1[head].next else head;
    var next1 := e1[x].next;
    var e2: Entries := if 0 <= next1 < MAX_TASKS then e1[next1 := e1[next1].(prev := e1[x].prev)] else e1;
    (e2[x := e2[x].(prev := NIL, next := NIL)], head1)
  }

  lemma WithoutSlots(s: seq<int>, i: nat)
    requires Slots(s) && i < |s|
    ensures Slots(Without(s, i)) && s[i] !in Without(s, i)
  {
  }

  lemma WithoutAt(s: seq<int>, i: nat, j: nat)
    requires i < |s| && j < |s| - 1
    ensures Without(s, i)[j] == s[if j < i then j else j + 1]
  {
  }

  /** What Unlink does to each entry when both of x's links are right. */
  lemma UnlinkEntries(e: Entries, head: int, s: seq<int>, i: nat, y: int)
    requires Forward(e, head, s) && i < |s| && e[s[i]].prev == PrevIn(s, i) && 0 <= y < MAX_TASKS && y != s[i]
    ensures var (f, h) := Unlink(e, head, s[i]);
            && h == (if i == 0 then NextIn(s, 0) else head)
            && f[y].next == (if y == PrevIn(s, i) then NextIn(s, i) else e[y].next)
            && f[y].prev == (if y == NextIn(s, i) then PrevIn(s, i) else e[y].prev)
  {
  }

  /** f is e with s[i] bypassed. */
  ghost predicate Bypassed(e: Entries, f: Entries, s: seq<int>, i: nat)
    requires i < |s|
  {
    forall y :: 0 <= y < MAX_TASKS && y != s[i] ==>
      && f[y].next == (if y == PrevIn(s, i) then NextIn(s, i) else e[y].next)
      && f[y].prev == (if y == NextIn(s, i) then PrevIn(s, i) else e[y].prev)
  }

  lemma BypassedChains(e: Entries, f: Entries, head: int, h: int, s: seq<int>, i: nat)
    requires Forward(e, head, s) && i < |s| && Bypassed(e, f, s, i) && h == (if i == 0 then NextIn(s, 0) else head)
    ensures Forward(f, h, Without(s, i))
    ensures Backward(e, s) ==> Backward(f, Without(s, i))
    ensures Sound(e, s) ==> Sound(f, Without(s, i))
  {
    var t := Without(s, i);
    WithoutSlots(s, i);
    if t != [] {
      WithoutAt(s, i, 0);
    }
    forall j | 0 <= j < |t|
      ensures f[t[j]].next == NextIn(t, j)
      ensures Backward(e, s) ==> f[t[j]].prev == PrevIn(t, j)
      ensures Sound(e, s) ==> f[t[j]].prev == PrevIn(t, j) || f[t[j]].prev == NIL
    {
      WithoutAt(s, i, j);
      if j + 1 < |t| {
        WithoutAt(s, i, j + 1);
      }
      if j > 0 {
        WithoutAt(s, i, j - 1);
      }
    }
  }

  lemma UnlinkKeepsForward(e: Entries, head: int, s: seq<int>, i: nat)
    requires Forward(e, head, s) && i < |s| && e[s[i]].prev == PrevIn(s, i)
    ensures var (f, h) := Unlink(e, head, s[i]);
            && Forward(f, h, Without(s, i)) && (Backward(e, s) ==> Backward(f, Without(s, i)))
            && (Sound(e, s) ==> Sound(f, Without(s, i)))
  {
    UnlinkEntries(e, head, s, i, (s[i] + 1) % MAX_TASKS);
    forall y | 0 <= y < MAX_TASKS && y != s[i]
      ensures var (f, h) := Unlink(e, head, s[i]);
              && f[y].next == (if y == PrevIn(s, i) then NextIn(s, i) else e[y].next)
              && f[y].prev == (if y == NextIn(s, i) then PrevIn(s, i) else e[y].prev)
    {
      UnlinkEntries(e, head, s, i, y);
    }
    var (f, h) := Unlink(e, head, s[i]);
    BypassedChains(e, f, head, h, s, i);
  }

  /** On a correct forward chain, removal takes the task out of the queue exactly when its prev link
      is right. */
  lemma RemovalIsExact(e: Entries, head: int, s: seq<int>, i: nat)
    requires Forward(e, head, s) && i < |s| && NIL <= e[s[i]].prev < MAX_TASKS && e[s[i]].prev != s[i]
    ensures var (f, h) := Unlink(e, head, s[i]);
            Forward(f, h, Without(s, i)) <==> e[s[i]].prev == PrevIn(s, i)
  {
    if e[s[i]].prev == PrevIn(s, i) {
      UnlinkKeepsForward(e, head, s, i);
    } else {
      WrongPrevStays(e, head, s, i);
    }
  }

  lemma WrongPrevStays(e: Entries, head: int, s: seq<int>, i: nat)
    requires Forward(e, head, s) && i < |s| && NIL <= e[s[i]].prev < MAX_TASKS && e[s[i]].prev != s[i]
    requires e[s[i]].prev != PrevIn(s, i)
    ensures var (f, h) := Unlink(e, head, s[i]);
            !Forward(f, h, Without(s, i))
  {
    var (f, h) := Unlink(e, head, s[i]);
    WithoutSlots(s, i);
    if i > 0 {
      WithoutAt(s, i, i - 1);
      assert f[s[i - 1]].next == s[i];
      if i < |s| - 1 {
        WithoutAt(s, i, i);
      }
    } else {
      assert h == s[0];
    }
  }

  /** Removed with no prev link from anywhere but the front, a task stays linked, and everything behind it
      is lost. */
  lemma RemovalTruncates(e: Entries, head: int, s: seq<int>, i: nat)
    requires Forward(e, head, s) && 0 < i < |s| && e[s[i]].prev == NIL
    ensures var (f, h) := Unlink(e, head, s[i]);
            Forward(f, h, s[..i + 1])
  {
    var (f, h) := Unlink(e, head, s[i]);
    var t := s[..i + 1];
    forall j | 0 <= j < |t|
      ensures f[t[j]].next == NextIn(t, j)
    {
      assert e[s[j]].next == NextIn(s, j);
    }
  }

  // ---------------------------------------------------------------- the queue object

  class Queue {
    var e: Entries
    var head: int
    var n: nat
    ghost var s: seq<int>

    ghost predicate Chained()
      reads this
    {
      Forward(e, head, s) && n == |s|
    }

    /** The forward chain and the count are right, and no prev link is wrong. */
    ghost predicate Valid()
      reads this
    {
      Chained() && Sound(e, s)
    }

    /** The prev links invert the next links. */
    ghost predicate Linked()
      reads this
      requires Chained()
    {
      Backward(e, s)
    }

    constructor ()
      ensures Valid() && Linked() && s == []
    {
      e := seq(8, _ => Entry(0, NIL, NIL));
      head := NIL;
      n := 0;
      s := [];
    }

    /** Links x at the head. */
    method PushFront(x: int)
      requires Chained() && 0 <= x < MAX_TASKS && x !in s
      modifies this`e, this`head, this`s
      ensures Forward(e, head, s) && s == Insert(old(s), 0, x)
      ensures old(Backward(e, s)) ==> (Backward(e, s) <==> old(s) == [])
      ensures old(Sound(e, s)) ==> Sound(e, s) && (old(s) != [] ==> e[old(s)[0]].prev == NIL)
      ensures SameTids(old(e), e)
    {
      FrontLinks(e, head, s, x);
      e := e[x := e[x].(prev := NIL, next := head)];
      head := x;
      s := Insert(s, 0, x);
    }

    /** The search loop: the last entry whose priority is not below x's, and what follows it. */
    method FindPlace(x: int, prio: Prios) returns (p: int, next: int, ghost i: nat)
      requires Chained() && 0 <= x < MAX_TASKS && s != []
      ensures 0 < i <= |s| && i == Scan(s, prio, x, 1) && p == s[i - 1] && next == NextIn(s, i - 1)
    {
      p := head;
      next := e[p].next;
      i := 1;
      while next != NIL && Prio(prio, next) >= Prio(prio, x)
        invariant 1 <= i <= |s| && p == s[i - 1] && next == NextIn(s, i - 1)
        invariant Scan(s, prio, x, 1) == Scan(s, prio, x, i)
        decreases |s| - i
      {
        p := next;
        next := e[p].next;
        i := i + 1;
      }
    }

    method WriteBehind(p: int, next: int, x: int)
      requires 0 <= x < MAX_TASKS && 0 <= p < MAX_TASKS && p != x && next == e[p].next && NIL <= next < MAX_TASKS
      modifies this`e
      ensures e == LinkBehind(old(e), p, x) && SameTids(old(e), e)
    {
      e := e[x := e[x].(prev := p, next := next)];
      e := e[p := e[p].(next := x)];
      if next != NIL {
        e := e[next := e[next].(prev := x)];
      }
    }

    method PushBehind(x: int, prio: Prios)
      requires Chained() && 0 <= x < MAX_TASKS && x !in s && s != []
      modifies this`e, this`s
      ensures Forward(e, head, s) && s == Insert(old(s), Scan(old(s), prio, x, 1), x)
      ensures old(Backward(e, s)) ==> Backward(e, s)
      ensures old(Sound(e, s)) ==> Sound(e, s)
      ensures SameTids(old(e), e)
    {
      ghost var i;
      var p, next;
      p, next, i := FindPlace(x, prio);
      BehindKeepsChains(e, head, s, x, i);
      WriteBehind(p, next, x);
      s := Insert(s, i, x);
    }

    /** push_ready_task. prio is what get_task_priority answers for each slot. The backward chain
        survives exactly when the push is not in front of a nonempty queue. */
    method Push(x: int, prio: Prios) returns (ok: bool)
      requires Chained() && 0 <= x < MAX_TASKS && x !in s
      modifies this
      ensures Chained() && ok == (old(n) != MAX_TASKS)
      ensures if ok then s == Insert(old(s), Position(old(s), prio, x), x) else s == old(s) && e == old(e)
      ensures ok && old(Backward(e, s)) ==>
                (Backward(e, s) <==> old(s) == [] || Prio(prio, x) <= Prio(prio, old(s)[0]))
      ensures old(Sound(e, s)) ==>
                && Valid()
                && (ok && old(s) != [] && Prio(prio, x) > Prio(prio, old(s)[0]) ==> e[old(s)[0]].prev == NIL)
      ensures SameTids(old(e), e)
    {
      if n == MAX_TASKS {
        return false;
      }
      if n == 0 || Prio(prio, x) > Prio(prio, head) {
        PushFront(x);
      } else {
        PushBehind(x, prio);
      }
      n := n + 1;
      return true;
    }

    method WriteUnlink(x: int)
      requires 0 <= x < MAX_TASKS && NIL <= e[x].prev < MAX_TASKS && NIL <= e[x].next < MAX_TASKS
      requires e[x].prev != x && e[x].next != x
      modifies this`e, this`head
      ensures (e, head) == Unlink(old(e), old(head), x) && SameTids(old(e), e)
    {
      var prev := e[x].prev;
      if prev != NIL {
        e := e[prev := e[prev].(next := e[x].next)];
      } else if x == head {
        head := e[head].next;
      }
      var next := e[x].next;
      if next != NIL {
        e := e[next := e[next].(prev := e[x].prev)];
      }
      e := e[x := e[x].(prev := NIL, next := NIL)];
    }

    /** remove_ready_task of the task at position i: right if its prev link is; otherwise the task stays,
        and what was behind it is lost. */
    method Remove(x: int, ghost i: nat)
      requires Valid() && i < |s| && s[i] == x
      modifies this
      ensures SameTids(old(e), e) && n == old(n) - 1
      ensures if old(e)[x].prev == PrevIn(old(s), i) then
                Valid() && s == Without(old(s), i) && (old(Linked()) ==> Linked())
              else i > 0 && s == old(s)[..i + 1] && Forward(e, head, s)
    {
      if e[x].prev == PrevIn(s, i) {
        UnlinkKeepsForward(e, head, s, i);
      } else {
        RemovalTruncates(e, head, s, i);
      }
      ghost var right := e[x].prev == PrevIn(s, i);
      assert e[s[i]].next == NextIn(s, i);
      WriteUnlink(x);
      n := n - 1;
      s := if right then Without(s, i) else s[..i + 1];
    }

    /** add_task_to_schedule's stamp. */
    method SetTid(x: int, tid: int)
      requires 0 <= x < MAX_TASKS
      modifies this`e
      ensures e == old(e)[x := old(e)[x].(tid := tid)]
      ensures old(Valid()) ==> Valid()
      ensures old(Valid() && Linked()) ==> Linked()
    {
      e := e[x := e[x].(tid := tid)];
    }
  }
}

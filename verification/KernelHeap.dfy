/** heap.c over word-addressed memory: block headers are four words, linked through memory. */
module KernelHeap {
  import opened Width
  import opened HeapList

  const NULL: int := 0

  type Words = map<int, int>

  function At(m: Words, a: int): int { if a in m then m[a] else 0 }

  /** Fields of the HeapBlock at a. */
  function SizeAt(m: Words, a: int): int { At(m, a) }
  function UsedAt(m: Words, a: int): int { At(m, a + 4) }
  function PrevAt(m: Words, a: int): int { At(m, a + 8) }
  function NextAt(m: Words, a: int): int { At(m, a + 12) }

  function PrevOf(bl: seq<Blk>, i: nat): int
    requires i < |bl|
  {
    if i == 0 then NULL else bl[i - 1].addr
  }

  function NextOf(bl: seq<Blk>, i: nat): int
    requires i < |bl|
  {
    if i == |bl| - 1 then NULL else bl[i + 1].addr
  }

  ghost predicate HeaderIs(m: Words, bl: seq<Blk>, i: nat)
    requires i < |bl|
  {
    var b := bl[i];
    && SizeAt(m, b.addr) == b.size
    && UsedAt(m, b.addr) == (if b.used then 1 else 0)
    && PrevAt(m, b.addr) == PrevOf(bl, i)
    && NextAt(m, b.addr) == NextOf(bl, i)
  }

  /** Memory holds the list: every header in place, prev and next mutually inverse. */
  ghost predicate Rep(m: Words, bl: seq<Blk>) {
    forall i :: 0 <= i < |bl| ==> HeaderIs(m, bl, i)
  }

  /** Address a lies in no header of the list. */
  ghost predicate OutsideHeaders(bl: seq<Blk>, a: int) {
    forall i :: 0 <= i < |bl| ==> !(bl[i].addr <= a < bl[i].addr + HEADER)
  }

  /** Only header words of the two lists may differ. */
  ghost predicate OnlyHeaders(m: Words, n: Words, bl: seq<Blk>, cl: seq<Blk>) {
    forall a :: OutsideHeaders(bl, a) && OutsideHeaders(cl, a) ==> At(m, a) == At(n, a)
  }

  // ---------------------------------------------------------------- word-level updates

  /** The stores of a split: ins becomes the header of the remainder, rest its size. */
  function SplitStores(m: Words, a: int, ins: int, rest: int, next: int, need: int): Words {
    var m1 := m[ins := rest][ins + 4 := 0][ins + 8 := a][ins + 12 := next];
    var m2 := if next != NULL then m1[next + 8 := ins] else m1;
    m2[a := need][a + 12 := ins]
  }

  function SplitWords(m: Words, a: int, size: int, next: int, need: nat): Words {
    SplitStores(m, a, a + HEADER + need, size - need - HEADER, next, need)
  }

  /** Block at a absorbs its successor at b, whose own successor is next. */
  function AbsorbWords(m: Words, a: int, b: int): Words {
    var next := NextAt(m, b);
    var m1 := m[a := SizeAt(m, a) + HEADER + SizeAt(m, b)][a + 12 := next];
    if next != NULL then m1[next + 8 := a] else m1
  }

  ghost predicate SameHeader(m: Words, n: Words, a: int) {
    SizeAt(m, a) == SizeAt(n, a) && UsedAt(m, a) == UsedAt(n, a)
    && PrevAt(m, a) == PrevAt(n, a) && NextAt(m, a) == NextAt(n, a)
  }

  predicate Apart(a: int, b: int) { a + HEADER <= b || b + HEADER <= a }

  lemma SplitFrame(m: Words, a: int, size: int, next: int, need: nat, b: int)
    requires Apart(a, b) && Apart(a + HEADER + need, b) && (next != NULL ==> Apart(next, b))
    ensures SameHeader(m, SplitWords(m, a, size, next, need), b)
  {
  }

  /** The three headers a split writes. */
  lemma SplitHeaders(m: Words, a: int, size: int, next: int, need: nat)
    requires next != NULL ==> Apart(next, a) && Apart(next, a + HEADER + need)
    ensures var n, ins := SplitWords(m, a, size, next, need), a + HEADER + need;
            && SizeAt(n, a) == need && UsedAt(n, a) == UsedAt(m, a) && PrevAt(n, a) == PrevAt(m, a) && NextAt(n, a) == ins
            && SizeAt(n, ins) == size - need - HEADER && UsedAt(n, ins) == 0 && PrevAt(n, ins) == a && NextAt(n, ins) == next
            && (next != NULL ==> SizeAt(n, next) == SizeAt(m, next) && UsedAt(n, next) == UsedAt(m, next)
                                 && PrevAt(n, next) == ins && NextAt(n, next) == NextAt(m, next))
  {
  }

  lemma SplitElsewhere(m: Words, a: int, size: int, next: int, need: nat, x: int)
    requires !(a <= x < a + HEADER) && !(a + HEADER + need <= x < a + HEADER + need + HEADER)
    requires next != NULL ==> !(next <= x < next + HEADER)
    ensures At(SplitWords(m, a, size, next, need), x) == At(m, x)
  {
  }

  lemma BlocksApart(bl: seq<Blk>, head: int, max: int, i: nat, j: nat)
    requires Tiles(bl, head, max) && i < |bl| && j < |bl| && i != j
    ensures Apart(bl[i].addr, bl[j].addr)
  {
    if i < j {
      Ordered(bl, head, max, i, j);
    } else {
      Ordered(bl, head, max, j, i);
    }
  }

  lemma AddrsPositive(bl: seq<Blk>, head: int, max: int, i: nat)
    requires Tiles(bl, head, max) && 0 < head && i < |bl|
    ensures head <= bl[i].addr && bl[i].End() <= max
  {
    if i > 0 {
      Ordered(bl, head, max, 0, i);
    }
    if i < |bl| - 1 {
      Ordered(bl, head, max, i, |bl| - 1);
    }
  }

  /** Headers away from the split keep their place and contents. */
  lemma SplitFar(m: Words, bl: seq<Blk>, k: nat, need: nat, head: int, max: int, j: nat)
    requires Tiles(bl, head, max) && k < |bl| && Fits(bl[k], need) && j < |bl| && j != k && j != k + 1
    ensures SameHeader(m, SplitWords(m, bl[k].addr, bl[k].size, NextOf(bl, k), need), bl[j].addr)
  {
    BlocksApart(bl, head, max, j, k);
    if k + 1 < |bl| {
      BlocksApart(bl, head, max, j, k + 1);
    }
    if j < k {
      Ordered(bl, head, max, j, k);
    } else {
      Ordered(bl, head, max, k, j);
    }
    SplitFrame(m, bl[k].addr, bl[k].size, NextOf(bl, k), need, bl[j].addr);
  }

  /** The split block, its remainder and the block after it. */
  lemma SplitNear(m: Words, bl: seq<Blk>, k: nat, need: nat, head: int, max: int, i: nat)
    requires Tiles(bl, head, max) && 0 < head && Rep(m, bl) && k < |bl| && Fits(bl[k], need) && need % 16 == 0
    requires k <= i <= k + 2 && i < |Split(bl, k, need)|
    ensures HeaderIs(SplitWords(m, bl[k].addr, bl[k].size, NextOf(bl, k), need), Split(bl, k, need), i)
  {
    var c := Split(bl, k, need);
    assert HeaderIs(m, bl, k);
    if k + 1 < |bl| {
      AddrsPositive(bl, head, max, k + 1);
      assert bl[k].End() == bl[k + 1].addr && HeaderIs(m, bl, k + 1);
      assert c[k + 2] == bl[k + 1];
    }
    SplitHeaders(m, bl[k].addr, bl[k].size, NextOf(bl, k), need);
    if i == k {
      assert c[k + 1].addr == bl[k].addr + HEADER + need;
    } else if i == k + 1 {
      assert c[k].addr == bl[k].addr;
    } else {
      assert NextOf(c, i) == NextOf(bl, k + 1);
    }
  }

  lemma SplitHeaderIs(m: Words, bl: seq<Blk>, k: nat, need: nat, head: int, max: int, i: nat)
    requires Tiles(bl, head, max) && 0 < head && Rep(m, bl) && k < |bl| && Fits(bl[k], need) && need % 16 == 0
    requires i < |Split(bl, k, need)|
    ensures HeaderIs(SplitWords(m, bl[k].addr, bl[k].size, NextOf(bl, k), need), Split(bl, k, need), i)
  {
    if k <= i <= k + 2 {
      SplitNear(m, bl, k, need, head, max, i);
    } else {
      var c, j := Split(bl, k, need), if i < k then i else i - 1;
      assert HeaderIs(m, bl, j);
      SplitFar(m, bl, k, need, head, max, j);
      assert c[i] == bl[j] && PrevOf(c, i) == PrevOf(bl, j) && NextOf(c, i) == NextOf(bl, j);
    }
  }

  lemma SplitRep(m: Words, bl: seq<Blk>, k: nat, need: nat, head: int, max: int)
    requires Tiles(bl, head, max) && 0 < head && Rep(m, bl) && k < |bl| && Fits(bl[k], need) && need % 16 == 0
    ensures var n := SplitWords(m, bl[k].addr, bl[k].size, NextOf(bl, k), need);
            Rep(n, Split(bl, k, need)) && OnlyHeaders(m, n, bl, Split(bl, k, need))
  {
    var c := Split(bl, k, need);
    var n := SplitWords(m, bl[k].addr, bl[k].size, NextOf(bl, k), need);
    forall i | 0 <= i < |c|
      ensures HeaderIs(n, c, i)
    {
      SplitHeaderIs(m, bl, k, need, head, max, i);
    }
    assert c[k + 1].addr == bl[k].addr + HEADER + need;
    forall a | OutsideHeaders(bl, a) && OutsideHeaders(c, a)
      ensures At(m, a) == At(n, a)
    {
      SplitElsewhere(m, bl[k].addr, bl[k].size, NextOf(bl, k), need, a);
    }
  }

  lemma AbsorbFrame(m: Words, a: int, b: int, c: int)
    requires Apart(a, c) && (NextAt(m, b) != NULL ==> Apart(NextAt(m, b), c))
    ensures SameHeader(m, AbsorbWords(m, a, b), c)
  {
  }

  lemma AbsorbHeaders(m: Words, a: int, b: int)
    requires NextAt(m, b) != NULL ==> Apart(NextAt(m, b), a)
    ensures var n, next := AbsorbWords(m, a, b), NextAt(m, b);
            && SizeAt(n, a) == SizeAt(m, a) + HEADER + SizeAt(m, b) && UsedAt(n, a) == UsedAt(m, a)
            && PrevAt(n, a) == PrevAt(m, a) && NextAt(n, a) == next
            && (next != NULL ==> SizeAt(n, next) == SizeAt(m, next) && UsedAt(n, next) == UsedAt(m, next)
                                 && PrevAt(n, next) == a && NextAt(n, next) == NextAt(m, next))
  {
  }

  lemma AbsorbHeaderIs(m: Words, bl: seq<Blk>, k: nat, head: int, max: int, i: nat)
    requires Tiles(bl, head, max) && 0 < head && Rep(m, bl) && k + 1 < |bl| && i < |Absorb(bl, k)|
    ensures HeaderIs(AbsorbWords(m, bl[k].addr, bl[k + 1].addr), Absorb(bl, k), i)
  {
    var c := Absorb(bl, k);
    var j := if i <= k then i else i + 1;
    assert HeaderIs(m, bl, j) && HeaderIs(m, bl, k) && HeaderIs(m, bl, k + 1);
    if k + 2 < |bl| {
      AddrsPositive(bl, head, max, k + 2);
      BlocksApart(bl, head, max, k, k + 2);
    }
    if i == k || i == k + 1 {
      AbsorbHeaders(m, bl[k].addr, bl[k + 1].addr);
    } else {
      BlocksApart(bl, head, max, j, k);
      if k + 2 < |bl| {
        BlocksApart(bl, head, max, j, k + 2);
      }
      AbsorbFrame(m, bl[k].addr, bl[k + 1].addr, bl[j].addr);
      assert c[i] == bl[j];
    }
  }

  lemma AbsorbRep(m: Words, bl: seq<Blk>, k: nat, head: int, max: int)
    requires Tiles(bl, head, max) && 0 < head && Rep(m, bl) && k + 1 < |bl|
    ensures var n := AbsorbWords(m, bl[k].addr, bl[k + 1].addr);
            Rep(n, Absorb(bl, k)) && OnlyHeaders(m, n, bl, Absorb(bl, k))
  {
    var c := Absorb(bl, k);
    var n := AbsorbWords(m, bl[k].addr, bl[k + 1].addr);
    forall i | 0 <= i < |c|
      ensures HeaderIs(n, c, i)
    {
      AbsorbHeaderIs(m, bl, k, head, max, i);
    }
    assert HeaderIs(m, bl, k + 1);
    forall a | OutsideHeaders(bl, a) && OutsideHeaders(c, a)
      ensures At(m, a) == At(n, a)
    {
      assert k + 2 < |bl| ==> bl[k + 2].addr == NextAt(m, bl[k + 1].addr);
    }
  }

  lemma SetUsedRep(m: Words, bl: seq<Blk>, k: nat, used: bool, head: int, max: int)
    requires Tiles(bl, head, max) && Rep(m, bl) && k < |bl|
    ensures var n := m[bl[k].addr + 4 := if used then 1 else 0];
            Rep(n, SetUsed(bl, k, used)) && OnlyHeaders(m, n, bl, SetUsed(bl, k, used))
  {
    var c := SetUsed(bl, k, used);
    var n := m[bl[k].addr + 4 := if used then 1 else 0];
    forall j | 0 <= j < |c|
      ensures HeaderIs(n, c, j)
    {
      assert HeaderIs(m, bl, j);
      if j != k {
        BlocksApart(bl, head, max, j, k);
      }
    }
  }

  lemma NextLink(m: Words, bl: seq<Blk>, i: nat, head: int, max: int)
    requires Tiles(bl, head, max) && 0 < head && Rep(m, bl) && i < |bl|
    ensures NextAt(m, bl[i].addr) == if i + 1 < |bl| then bl[i + 1].addr else NULL
  {
    assert HeaderIs(m, bl, i);
  }

  lemma NotNull(bl: seq<Blk>, head: int, max: int, i: nat)
    requires Tiles(bl, head, max) && 0 < head
    ensures i < |bl| ==> bl[i].addr != NULL
  {
    if i < |bl| {
      AddrsPositive(bl, head, max, i);
    }
  }

  /** x is a header the links lead to from a on. */
  predicate Reaches(m: Words, a: int, x: int)
    decreases if a < TWO_32 then TWO_32 - a else 0
  {
    a == x || (var n := NextAt(m, a); a < n < TWO_32 && Reaches(m, n, x))
  }

  lemma {:induction false} ReachesBlocks(m: Words, bl: seq<Blk>, head: int, max: int, i: nat, x: int)
    requires Tiles(bl, head, max) && 0 < head && max < TWO_32 && Rep(m, bl) && i < |bl|
    ensures Reaches(m, bl[i].addr, x) <==> exists j :: i <= j < |bl| && bl[j].addr == x
    decreases |bl| - i
  {
    NextLink(m, bl, i, head, max);
    AddrsPositive(bl, head, max, i);
    if i + 1 < |bl| {
      AddrsPositive(bl, head, max, i + 1);
      assert bl[i].End() == bl[i + 1].addr;
      ReachesBlocks(m, bl, head, max, i + 1, x);
    }
  }

  // ---------------------------------------------------------------- what stays unchanged

  lemma OutsideHeap(bl: seq<Blk>, head: int, max: int, a: int)
    requires Tiles(bl, head, max) && 0 < head && !(head <= a < max)
    ensures OutsideHeaders(bl, a)
  {
    forall i | 0 <= i < |bl|
      ensures !(bl[i].addr <= a < bl[i].addr + HEADER)
    {
      AddrsPositive(bl, head, max, i);
    }
  }

  lemma InsidePayload(bl: seq<Blk>, head: int, max: int, i: nat, a: int)
    requires Tiles(bl, head, max) && i < |bl| && bl[i].Payload() <= a < bl[i].End()
    ensures OutsideHeaders(bl, a)
  {
    forall j | 0 <= j < |bl|
      ensures !(bl[j].addr <= a < bl[j].addr + HEADER)
    {
      if j < i {
        Ordered(bl, head, max, j, i);
      } else if i < j {
        Ordered(bl, head, max, i, j);
      }
    }
  }

  /** Changing only headers changes no address outside the heap and no payload of a block that
      both lists hold. */
  ghost predicate KeepsPayloads(m: Words, n: Words, bl: seq<Blk>, cl: seq<Blk>, head: int, max: int) {
    && (forall a :: !(head <= a < max) ==> At(n, a) == At(m, a))
    && (forall b, a :: b in bl && b in cl && b.Payload() <= a < b.End() ==> At(n, a) == At(m, a))
  }

  /** Writes inside one payload leave the whole list in place: a heap nested in a block, or a stack
      in one, can do what it likes. */
  lemma PayloadWritesKeepRep(m: Words, n: Words, bl: seq<Blk>, k: nat, head: int, max: int)
    requires Tiles(bl, head, max) && k < |bl| && Rep(m, bl)
    requires forall a :: !(bl[k].Payload() <= a < bl[k].End()) ==> At(n, a) == At(m, a)
    ensures Rep(n, bl)
  {
    forall i | 0 <= i < |bl|
      ensures HeaderIs(n, bl, i)
    {
      assert HeaderIs(m, bl, i);
      if i < k {
        Ordered(bl, head, max, i, k);
      } else if k < i {
        Ordered(bl, head, max, k, i);
      }
    }
  }

  lemma HeadersKeepPayloads(m: Words, n: Words, bl: seq<Blk>, cl: seq<Blk>, head: int, max: int)
    requires Tiles(bl, head, max) && Tiles(cl, head, max) && 0 < head && OnlyHeaders(m, n, bl, cl)
    ensures KeepsPayloads(m, n, bl, cl, head, max)
  {
    forall a | !(head <= a < max)
      ensures At(n, a) == At(m, a)
    {
      OutsideHeap(bl, head, max, a);
      OutsideHeap(cl, head, max, a);
    }
    forall b, a | b in bl && b in cl && b.Payload() <= a < b.End()
      ensures At(n, a) == At(m, a)
    {
      var i :| 0 <= i < |bl| && bl[i] == b;
      var j :| 0 <= j < |cl| && cl[j] == b;
      InsidePayload(bl, head, max, i, a);
      InsidePayload(cl, head, max, j, a);
    }
  }

  /** Used blocks whose payload is not in except are still there, every byte of theirs unchanged. */
  ghost predicate KeepsUsed(m: Words, n: Words, bl: seq<Blk>, cl: seq<Blk>, except: set<int>) {
    forall b :: b in bl && b.used && b.Payload() !in except ==> b in cl && SameBytes(m, n, b)
  }

  ghost predicate SameBytes(m: Words, n: Words, b: Blk) {
    forall a :: b.Payload() <= a < b.End() ==> At(n, a) == At(m, a)
  }

  lemma KeepsUsedThen(m: Words, n: Words, o: Words, bl: seq<Blk>, cl: seq<Blk>, dl: seq<Blk>, e: set<int>, f: set<int>)
    requires KeepsUsed(m, n, bl, cl, e) && KeepsUsed(n, o, cl, dl, f)
    ensures KeepsUsed(m, o, bl, dl, e + f)
  {
    forall b | b in bl && b.used && b.Payload() !in e + f
      ensures b in dl && SameBytes(m, o, b)
    {
      assert SameBytes(m, n, b) && SameBytes(n, o, b);
    }
  }

  /** An operation on the heap keeps what it does not name. */
  lemma OperationKeepsUsed(m: Words, n: Words, bl: seq<Blk>, cl: seq<Blk>, head: int, max: int, except: set<int>)
    requires KeepsPayloads(m, n, bl, cl, head, max)
    requires forall b :: b in bl && b.used && b.Payload() !in except ==> b in cl
    ensures KeepsUsed(m, n, bl, cl, except)
  {
  }

  /** Every header start of the new list was one of the old list, so only old headers changed. */
  ghost predicate HeadersOnlyVia(m: Words, n: Words, bl: seq<Blk>, cl: seq<Blk>) {
    forall a :: OutsideHeaders(bl, a) ==> OutsideHeaders(cl, a) && At(m, a) == At(n, a)
  }

  lemma AbsorbOnlyVia(m: Words, n: Words, bl: seq<Blk>, i: nat)
    requires i + 1 < |bl| && OnlyHeaders(m, n, bl, Absorb(bl, i))
    ensures HeadersOnlyVia(m, n, bl, Absorb(bl, i))
  {
  }

  lemma ViaThen(m: Words, m1: Words, n: Words, bl: seq<Blk>, b1: seq<Blk>, cl: seq<Blk>)
    requires HeadersOnlyVia(m, m1, bl, b1) && HeadersOnlyVia(m1, n, b1, cl)
    ensures HeadersOnlyVia(m, n, bl, cl)
  {
  }

  lemma SetUsedOutside(bl: seq<Blk>, k: nat, used: bool, a: int)
    requires k < |bl|
    ensures OutsideHeaders(SetUsed(bl, k, used), a) <==> OutsideHeaders(bl, a)
  {
    var c := SetUsed(bl, k, used);
    assert forall i :: 0 <= i < |bl| ==> c[i].addr == bl[i].addr;
    if OutsideHeaders(c, a) {
      forall i | 0 <= i < |bl|
        ensures !(bl[i].addr <= a < bl[i].addr + HEADER)
      {
        assert c[i].addr == bl[i].addr;
      }
    }
  }

  /** Marking a block after other header writes. */
  lemma ThenSetUsed(m: Words, m1: Words, n: Words, bl: seq<Blk>, b1: seq<Blk>, k: nat, used: bool)
    requires k < |b1| && OnlyHeaders(m, m1, bl, b1) && OnlyHeaders(m1, n, b1, SetUsed(b1, k, used))
    ensures OnlyHeaders(m, n, bl, SetUsed(b1, k, used))
  {
    forall a | OutsideHeaders(bl, a) && OutsideHeaders(SetUsed(b1, k, used), a)
      ensures At(m, a) == At(n, a)
    {
      SetUsedOutside(b1, k, used, a);
    }
  }

  /** Marking a block before merging. */
  lemma SetUsedThen(m: Words, m1: Words, n: Words, bl: seq<Blk>, cl: seq<Blk>, k: nat, used: bool)
    requires k < |bl| && OnlyHeaders(m, m1, bl, SetUsed(bl, k, used)) && HeadersOnlyVia(m1, n, SetUsed(bl, k, used), cl)
    ensures OnlyHeaders(m, n, bl, cl)
  {
  }

  // ---------------------------------------------------------------- 32-bit requests

  function Wrap(x: int): Word { x % TWO_32 }

  /** ALIGN_UP of a request, in 32 bits. */
  function Need(n: Word): Word { Wrap(n + 15) / 16 * 16 }

  /** The test of alloc_heap's first line, in 32 bits. */
  predicate Passes(total: int, size: int, n: Word) { Wrap(total + HEADER + n) <= size }

  /** The test of split_block's first line, in 32 bits. */
  predicate Fits32(b: Blk, need: Word) {
    !b.used && b.size >= Wrap(HEADER + need + MIN_ALLOC)
  }

  /** The one rounded request for which header and request together wrap. */
  const SELF_LINK: Word := 0xFFFF_FFF0

  /** Index of the block the search takes, or the length. */
  function FirstTaken(bl: seq<Blk>, need: Word): (k: nat)
    ensures k <= |bl|
    ensures k < |bl| ==> Fits32(bl[k], need)
    ensures forall i :: 0 <= i < k ==> !Fits32(bl[i], need)
  {
    if bl == [] then 0 else if Fits32(bl[0], need) then 0 else FirstTaken(bl[1..], need) + 1
  }

  /** Where alloc_heap ends up. */
  function Taken(bl: seq<Blk>, total: int, size: int, n: Word): (k: nat)
    ensures k <= |bl|
  {
    if Passes(total, size, n) then FirstTaken(bl, Need(n)) else |bl|
  }

  lemma NeedFacts(n: Word)
    ensures Need(n) % 16 == 0
    ensures Need(n) == if n <= TWO_32 - 16 then AlignUp(n) else 0
    ensures Need(n) == SELF_LINK <==> TWO_32 - 31 <= n <= TWO_32 - 16
  {
  }

  lemma FitsAlike(b: Blk, need: Word)
    requires need % 16 == 0 && need != SELF_LINK
    ensures Fits32(b, need) <==> Fits(b, need)
  {
  }

  lemma {:induction false} TakesFirstFit(bl: seq<Blk>, need: Word)
    requires need % 16 == 0 && need != SELF_LINK
    ensures FirstTaken(bl, need) == FirstFit(bl, need)
  {
    if bl != [] {
      FitsAlike(bl[0], need);
      TakesFirstFit(bl[1..], need);
    }
  }

  lemma NothingThatLarge(bl: seq<Blk>, head: int, max: int, need: nat)
    requires Tiles(bl, head, max) && 0 < head && max < TWO_32 && need >= TWO_32 - 16
    ensures FirstFit(bl, need) == |bl|
  {
    if FirstFit(bl, need) < |bl| {
      AddrsPositive(bl, head, max, FirstFit(bl, need));
    }
  }

  /** Some free block has at least this size. */
  ghost predicate HasRoom(bl: seq<Blk>, size: int) {
    exists i :: 0 <= i < |bl| && !bl[i].used && bl[i].size >= size
  }

  /** alloc_heap is exact first fit for every 32-bit request, except in one case: the request is within
      31 bytes of 2^32, its sum with header and total_allocated wraps, and some free block has 16 bytes (32
      for the last 15 requests). */
  lemma FirstFitExactly(bl: seq<Blk>, head: int, max: int, n: Word)
    requires Wf(bl, head, max) && 0 < head && max < TWO_32
    ensures Taken(bl, UsedBytes(bl), max - head, n) == FirstFit(bl, AlignUp(n)) <==>
              !(n >= TWO_32 - 31 && UsedBytes(bl) + HEADER + n >= TWO_32
                && HasRoom(bl, if n <= TWO_32 - 16 then 16 else 32))
  {
    if n < TWO_32 - 31 {
      SmallRequests(bl, head, max, n);
    } else {
      LargeRequests(bl, head, max, n);
      LargeTaken(bl, head, max, n);
      if UsedBytes(bl) + HEADER + n >= TWO_32 {
        WrappingPasses(bl, head, max, n);
      }
    }
  }

  /** A sum that wraps passes the test: the last block is free, so the total is short of the size. */
  lemma WrappingPasses(bl: seq<Blk>, head: int, max: int, n: Word)
    requires Wf(bl, head, max) && 0 < head && max < TWO_32 && UsedBytes(bl) + HEADER + n >= TWO_32
    ensures Passes(UsedBytes(bl), max - head, n)
  {
    Conservation(bl, head, max);
    FreeAtLeast(bl, |bl| - 1);
    BytesNonNegative(bl);
    WrapsOnce(UsedBytes(bl) + HEADER + n);
  }

  lemma WrapsOnce(x: int)
    requires TWO_32 <= x < 2 * TWO_32
    ensures Wrap(x) == x - TWO_32
  {
  }

  /** What the search takes for such a request. */
  lemma LargeTaken(bl: seq<Blk>, head: int, max: int, n: Word)
    requires Wf(bl, head, max) && n >= TWO_32 - 31
    ensures FirstTaken(bl, Need(n)) < |bl| <==> HasRoom(bl, if n <= TWO_32 - 16 then 16 else 32)
  {
    NeedFacts(n);
    forall i | 0 <= i < |bl|
      ensures Fits32(bl[i], Need(n)) <==> !bl[i].used && bl[i].size >= if n <= TWO_32 - 16 then 16 else 32
    {
      LargeFits(bl[i], n);
    }
  }

  lemma LargeFits(b: Blk, n: Word)
    requires n >= TWO_32 - 31 && 0 <= b.size && b.size % 16 == 0
    ensures Fits32(b, Need(n)) <==> !b.used && b.size >= if n <= TWO_32 - 16 then 16 else 32
  {
    NeedFacts(n);
  }

  lemma LargeRequests(bl: seq<Blk>, head: int, max: int, n: Word)
    requires Wf(bl, head, max) && 0 < head && max < TWO_32 && n >= TWO_32 - 31
    ensures FirstFit(bl, AlignUp(n)) == |bl|
    ensures Passes(UsedBytes(bl), max - head, n) ==> UsedBytes(bl) + HEADER + n >= TWO_32
  {
    AlignUpFacts(n);
    NothingThatLarge(bl, head, max, AlignUp(n));
    BytesNonNegative(bl);
    MaxAligned(bl, head, max);
    if Passes(UsedBytes(bl), max - head, n) {
      PassesByWrapping(UsedBytes(bl), head, max, n);
    }
  }

  lemma PassesByWrapping(total: int, head: int, max: int, n: Word)
    requires 0 <= total && 0 < head && max < TWO_32 && head % 16 == 0 && max % 16 == 0
    requires n >= TWO_32 - 31 && Passes(total, max - head, n)
    ensures total + HEADER + n >= TWO_32
  {
  }

  lemma SmallRequests(bl: seq<Blk>, head: int, max: int, n: Word)
    requires Wf(bl, head, max) && 0 < head && max < TWO_32 && n < TWO_32 - 31
    ensures Taken(bl, UsedBytes(bl), max - head, n) == FirstFit(bl, AlignUp(n))
  {
    NeedFacts(n);
    BytesNonNegative(bl);
    TakesFirstFit(bl, Need(n));
    var k := FirstFit(bl, AlignUp(n));
    if k < |bl| {
      EarlyRejectIsSafe(bl, head, max, n, k);
    }
  }

  /** The 32-bit arithmetic of a split on a block of size sz at b. */
  lemma SplitArithmetic(b: int, sz: int, need: Word)
    requires 0 < b && 0 <= sz && b + HEADER + sz < TWO_32 && sz % 16 == 0 && need % 16 == 0
    requires sz >= Wrap(HEADER + need + MIN_ALLOC)
    ensures HEADER + MIN_ALLOC < Wrap(sz - need)
    ensures need != SELF_LINK ==> Wrap(sz - need) == sz - need && Wrap(b + HEADER + need) == b + HEADER + need
    ensures need == SELF_LINK ==> Wrap(b + HEADER + need) == b
  {
  }

  /** With one byte allocated and free memory left, such a request is served: malloc(2^32 - 15) answers a
      block of no bytes. */
  lemma HugeRequestServed(bl: seq<Blk>, head: int, max: int, k: nat)
    requires Wf(bl, head, max) && 0 < head && max < TWO_32 && 0 < UsedBytes(bl) && k < |bl| && Fits(bl[k], 0)
    ensures var n := TWO_32 - 15;
            Need(n) == 0 && Taken(bl, UsedBytes(bl), max - head, n) < |bl| && FirstFit(bl, AlignUp(n)) == |bl|
  {
    NothingThatLarge(bl, head, max, AlignUp(TWO_32 - 15));
    TakesFirstFit(bl, 0);
    EarlyRejectIsSafe(bl, head, max, 0, k);
  }

  /** A block whose next link names itself is in no list. */
  lemma SelfLinkEndsHeap(m: Words, bl: seq<Blk>, head: int, max: int, k: nat)
    requires Tiles(bl, head, max) && 0 < head && k < |bl| && NextAt(m, bl[k].addr) == bl[k].addr
    ensures !Rep(m, bl)
  {
    AddrsPositive(bl, head, max, k);
    if Rep(m, bl) {
      NextLink(m, bl, k, head, max);
    }
  }

  lemma MaxAligned(bl: seq<Blk>, head: int, max: int)
    requires Tiles(bl, head, max)
    ensures max % 16 == 0
  {
    Aligned(bl, head, max, |bl| - 1);
  }

  /** What the links and flags in memory say about a block's neighbours. */
  lemma Neighbours(m: Words, bl: seq<Blk>, k: nat, head: int, max: int)
    requires Tiles(bl, head, max) && 0 < head && Rep(m, bl) && k < |bl|
    ensures var p, n := PrevAt(m, bl[k].addr), NextAt(m, bl[k].addr);
            && (p != NULL <==> k > 0) && (k > 0 ==> p == bl[k - 1].addr && (UsedAt(m, p) == 0 <==> !bl[k - 1].used))
            && (n != NULL <==> k + 1 < |bl|)
            && (k + 1 < |bl| ==> n == bl[k + 1].addr && (UsedAt(m, n) == 0 <==> !bl[k + 1].used))
  {
    assert HeaderIs(m, bl, k);
    if k > 0 {
      AddrsPositive(bl, head, max, k - 1);
      assert HeaderIs(m, bl, k - 1);
    }
    if k + 1 < |bl| {
      AddrsPositive(bl, head, max, k + 1);
      assert HeaderIs(m, bl, k + 1);
    }
  }

  // ---------------------------------------------------------------- the heap object

  class Ram {
    var w: Words

    constructor (w: Words)
      ensures this.w == w
    {
      this.w := w;
    }

    method Put(a: int, v: int)
      modifies this
      ensures w == old(w)[a := v]
    {
      w := w[a := v];
    }
  }

  /** Memory holds the heap with this descriptor: list, links, size and total. */
  ghost predicate HeapAt(m: Words, head: int, max: int, size: int, total: int, bl: seq<Blk>) {
    && Wf(bl, head, max) && Rep(m, bl) && 0 < head && max < TWO_32
    && size == max - head && total == UsedBytes(bl)
  }

  datatype FreeOutcome = FREED | PANIC_INVALID_POINTER | PANIC_DOUBLE_FREE

  class Heap {
    const ram: Ram
    const head: int
    const max: int
    const size: int
    var total: int
    ghost var bl: seq<Blk>

    /** Memory holds the tiling list; neighbouring free blocks may await merging. */
    ghost predicate Basic()
      reads this, ram
    {
      Tiles(bl, head, max) && Rep(ram.w, bl) && 0 < head && max < TWO_32
    }

    ghost predicate Valid()
      reads this, ram
    {
      HeapAt(ram.w, head, max, size, total, bl)
    }

    /** init_heap: both ends are rounded up to the alignment. */
    constructor (ram: Ram, base: nat, bytes: nat)
      requires 0 < base && AlignUp(base) + HEADER <= AlignUp(base + bytes) && base + bytes + 15 < TWO_32
      modifies ram
      ensures this.ram == ram && Valid()
      ensures head == AlignUp(base) && max == AlignUp(base + bytes) && total == 0
      ensures bl == Initial(head, max)
      ensures forall a :: !(head <= a < head + HEADER) ==> At(ram.w, a) == At(old(ram.w), a)
    {
      AlignUpFacts(base);
      AlignUpFacts(base + bytes);
      this.ram := ram;
      head := AlignUp(base);
      max := AlignUp(base + bytes);
      size := AlignUp(base + bytes) - AlignUp(base);
      total := 0;
      bl := Initial(AlignUp(base), AlignUp(base + bytes));
      new;
      ram.Put(head, size - HEADER);
      ram.Put(head + 4, 0);
      ram.Put(head + 8, NULL);
      ram.Put(head + 12, NULL);
      InitialWf(head, max);
      assert HeaderIs(ram.w, bl, 0);
      assert bl[1..] == [];
    }

    /** A heap whose descriptor is kept elsewhere, as in a task. */
    constructor Attach(ram: Ram, head: int, max: int, size: int, total: int, ghost bl: seq<Blk>)
      requires HeapAt(ram.w, head, max, size, total, bl)
      ensures this.ram == ram && this.head == head && this.max == max && this.size == size && this.total == total
      ensures this.bl == bl && Valid()
    {
      this.ram := ram;
      this.head := head;
      this.max := max;
      this.size := size;
      this.total := total;
      this.bl := bl;
    }

    /** The stores of a split, in their order. */
    method WriteSplit(b: int, ins: int, rest: int, next: int, need: int)
      modifies ram
      ensures ram.w == SplitStores(old(ram.w), b, ins, rest, next, need)
    {
      ram.Put(ins, rest);
      ram.Put(ins + 4, 0);
      ram.Put(ins + 8, b);
      ram.Put(ins + 12, next);
      ghost var m1 := ram.w;
      if next != NULL {
        ram.Put(next + 8, ins);
      }
      assert ram.w == if next != NULL then m1[next + 8 := ins] else m1;
      ram.Put(b, need);
      ram.Put(b + 12, ins);
    }

    /** split_block on free block k at address b, in 32 bits. Under the alignment invariant a block
        large enough is always really split: the path that succeeds without splitting is dead. For
        the one request that makes header and request wrap, the block becomes its own successor. */
    method SplitBlock(b: int, need: Word, ghost k: nat) returns (ok: bool)
      requires Basic() && k < |bl| && bl[k].addr == b && !bl[k].used && need % 16 == 0
      modifies ram, this`bl
      ensures ok <==> Fits32(old(bl)[k], need)
      ensures need != SELF_LINK || !ok ==> Basic()
      ensures !ok ==> bl == old(bl) && ram.w == old(ram.w)
      ensures ok && need != SELF_LINK ==> bl == Split(old(bl), k, need) && OnlyHeaders(old(ram.w), ram.w, old(bl), bl)
      ensures ok && need == SELF_LINK ==> bl == old(bl) && NextAt(ram.w, b) == b
    {
      assert HeaderIs(ram.w, bl, k);
      AddrsPositive(bl, head, max, k);
      var sz := SizeAt(ram.w, b);
      if sz < Wrap(HEADER + need + MIN_ALLOC) {
        return false;
      }
      SplitArithmetic(b, sz, need);
      var remaining := Wrap(sz - need);
      if remaining > HEADER + MIN_ALLOC {
        InsertHeader(b, remaining, need, k);
      } else {
        assert false;
      }
      return true;
    }

    /** Puts the header of the block split off behind the need bytes, and links it. */
    method InsertHeader(b: int, remaining: int, need: Word, ghost k: nat)
      requires Basic() && k < |bl| && bl[k].addr == b && need % 16 == 0 && Fits32(bl[k], need)
      requires 0 < b && b + HEADER + bl[k].size <= max
      requires remaining == Wrap(bl[k].size - need) && remaining > HEADER + MIN_ALLOC
      modifies ram, this`bl
      ensures if need == SELF_LINK then bl == old(bl) && NextAt(ram.w, b) == b
              else Basic() && bl == Split(old(bl), k, need) && OnlyHeaders(old(ram.w), ram.w, old(bl), bl)
    {
      assert HeaderIs(ram.w, bl, k);
      SplitArithmetic(b, bl[k].size, need);
      ghost var m := ram.w;
      var next := NextAt(ram.w, b);
      var ins := Wrap(b + HEADER + need);
      WriteSplit(b, ins, remaining - HEADER, next, need);
      if need != SELF_LINK {
        FitsAlike(bl[k], need);
        SplitRep(m, bl, k, need, head, max);
        SplitTiles(bl, k, need, head, max);
        bl := Split(bl, k, need);
      }
    }

    /** The block at a takes in its successor at b. */
    method AbsorbNext(a: int, b: int, ghost k: nat)
      requires Basic() && k + 1 < |bl| && bl[k].addr == a && bl[k + 1].addr == b
      modifies ram, this`bl
      ensures Basic() && bl == Absorb(old(bl), k) && HeadersOnlyVia(old(ram.w), ram.w, old(bl), bl)
    {
      ghost var m := ram.w;
      assert HeaderIs(m, bl, k) && HeaderIs(m, bl, k + 1);
      var next := NextAt(ram.w, b);
      ram.Put(a, SizeAt(ram.w, a) + HEADER + SizeAt(ram.w, b));
      ram.Put(a + 12, next);
      if next != NULL {
        ram.Put(next + 8, a);
      }
      BlocksApart(bl, head, max, k, k + 1);
      assert ram.w == AbsorbWords(m, a, b);
      AbsorbRep(m, bl, k, head, max);
      AbsorbTiles(bl, k, head, max);
      AbsorbOnlyVia(m, ram.w, bl, k);
      bl := Absorb(bl, k);
    }

    /** The backward half of merge_empty_blocks_adjacent. */
    method MergeBack(block: int, ghost k: nat) returns (curr: int, ghost j: nat)
      requires Basic() && k < |bl| && bl[k].addr == block
      modifies ram, this`bl
      ensures Basic() && HeadersOnlyVia(old(ram.w), ram.w, old(bl), bl)
      ensures var back := k > 0 && !old(bl)[k - 1].used;
              && j == (if back then k - 1 else k)
              && bl == (if back then Absorb(old(bl), k - 1) else old(bl))
      ensures j < |bl| && bl[j].addr == curr
    {
      Neighbours(ram.w, bl, k, head, max);
      var prev := PrevAt(ram.w, block);
      curr, j := block, k;
      if prev != NULL && UsedAt(ram.w, prev) == 0 {
        AbsorbNext(prev, block, k - 1);
        curr, j := prev, k - 1;
      }
    }

    /** The forward half. */
    method MergeForward(curr: int, ghost j: nat)
      requires Basic() && j < |bl| && bl[j].addr == curr
      modifies ram, this`bl
      ensures Basic() && HeadersOnlyVia(old(ram.w), ram.w, old(bl), bl)
      ensures bl == if j + 1 < |old(bl)| && !old(bl)[j + 1].used then Absorb(old(bl), j) else old(bl)
    {
      Neighbours(ram.w, bl, j, head, max);
      var next := NextAt(ram.w, curr);
      if next != NULL && UsedAt(ram.w, next) == 0 {
        AbsorbNext(curr, next, j);
      }
    }

    /** merge_empty_blocks_adjacent on block k at address block; nothing for an allocated one. */
    method MergeAdjacent(block: int, ghost k: nat)
      requires Basic() && k < |bl| && bl[k].addr == block
      modifies ram, this`bl
      ensures Basic() && bl == if old(bl)[k].used then old(bl) else Coalesce(old(bl), k)
      ensures HeadersOnlyVia(old(ram.w), ram.w, old(bl), bl)
    {
      assert HeaderIs(ram.w, bl, k);
      if UsedAt(ram.w, block) != 0 {
        return;
      }
      MergeBothWays(block, k);
    }

    method MergeBothWays(block: int, ghost k: nat)
      requires Basic() && k < |bl| && bl[k].addr == block
      modifies ram, this`bl
      ensures Basic() && bl == Coalesce(old(bl), k) && HeadersOnlyVia(old(ram.w), ram.w, old(bl), bl)
    {
      ghost var m, bl0 := ram.w, bl;
      ghost var j;
      var curr;
      curr, j := MergeBack(block, k);
      ghost var m1, bl1 := ram.w, bl;
      MergeForward(curr, j);
      ViaThen(m, m1, ram.w, bl0, bl1, bl);
    }

    lemma TotalInRange(k: nat, need: nat)
      requires Valid() && k < |bl| && Fits(bl[k], need) && need % 16 == 0
      ensures 0 <= total && total + HEADER + need <= size
    {
      BytesNonNegative(bl);
      AlignUpFacts(need);
      EarlyRejectIsSafe(bl, head, max, need, k);
    }

    /** The success arm of alloc_heap: mark the split block and account for it. */
    method TakeBlock(curr: int, need: Word, ghost k: nat, ghost bl0: seq<Blk>, ghost m0: Words)
      requires Basic() && Wf(bl0, head, max) && size == max - head && total == UsedBytes(bl0)
      requires k < |bl0| && bl0[k].addr == curr && Fits(bl0[k], need) && need % 16 == 0
      requires 0 <= total && total + HEADER + need <= size
      requires bl == Split(bl0, k, need) && OnlyHeaders(m0, ram.w, bl0, bl)
      modifies ram, this`bl, this`total
      ensures Valid() && bl == Carve(bl0, k, need) && total == old(total) + HEADER + need
      ensures KeepsPayloads(m0, ram.w, bl0, bl, head, max)
    {
      ghost var m1, b1 := ram.w, bl;
      ram.Put(curr + 4, 1);
      total := Wrap(total + HEADER + need);
      SetUsedRep(m1, b1, k, true, head, max);
      CarveWf(bl0, k, need, head, max);
      CarveBytes(bl0, k, need);
      bl := SetUsed(b1, k, true);
      ThenSetUsed(m0, m1, ram.w, bl0, b1, k, true);
      HeadersKeepPayloads(m0, ram.w, bl0, bl, head, max);
    }

    /** One iteration of alloc_heap's search: try block k at address curr. */
    method TryBlock(curr: int, need: Word, ghost k: nat) returns (ok: bool)
      requires Valid() && k < |bl| && bl[k].addr == curr && need % 16 == 0
      modifies ram, this`bl, this`total
      ensures ok <==> Fits32(old(bl)[k], need)
      ensures need != SELF_LINK || !ok ==> Valid() && KeepsPayloads(old(ram.w), ram.w, old(bl), bl, head, max)
      ensures !ok ==> bl == old(bl) && total == old(total) && ram.w == old(ram.w)
      ensures ok && need != SELF_LINK ==> bl == Carve(old(bl), k, need) && total == old(total) + HEADER + need
      ensures ok && need == SELF_LINK ==> bl == old(bl) && NextAt(ram.w, curr) == curr
    {
      ghost var m0, bl0 := ram.w, bl;
      assert HeaderIs(ram.w, bl, k);
      ok := false;
      if UsedAt(ram.w, curr) == 0 {
        if need != SELF_LINK && Fits32(bl[k], need) {
          FitsAlike(bl[k], need);
          TotalInRange(k, need);
        }
        ok := SplitBlock(curr, need, k);
        if ok {
          if need != SELF_LINK {
            TakeBlock(curr, need, k, bl0, m0);
          } else {
            ram.Put(curr + 4, 1);
            total := Wrap(total + HEADER + need);
          }
        }
      }
    }

    ghost predicate AsBefore(bl0: seq<Blk>, m0: Words, total0: int)
      reads this, ram
    {
      Valid() && bl == bl0 && ram.w == m0 && total == total0
    }

    /** alloc_heap's loop. */
    method Search(need: Word) returns (p: int)
      requires Valid() && need % 16 == 0
      modifies ram, this`bl, this`total
      ensures var k := FirstTaken(old(bl), need);
              if k == |old(bl)| then p == NULL && Valid() && bl == old(bl) && total == old(total) && ram.w == old(ram.w)
              else
                && p == old(bl)[k].Payload()
                && if need == SELF_LINK then bl == old(bl) && NextAt(ram.w, p - HEADER) == p - HEADER
                   else Valid() && bl == Carve(old(bl), k, need) && total == old(total) + HEADER + need
      ensures need != SELF_LINK ==> KeepsPayloads(old(ram.w), ram.w, old(bl), bl, head, max)
    {
      ghost var k, bl0, m0, total0 := FirstTaken(bl, need), bl, ram.w, total;
      var curr := head;
      ghost var i: nat := 0;
      while curr != NULL
        invariant AsBefore(bl0, m0, total0) && i <= k && curr == if i < |bl0| then bl0[i].addr else NULL
        decreases |bl| - i
      {
        NextLink(ram.w, bl, i, head, max);
        var next := NextAt(ram.w, curr);
        var ok := TryBlock(curr, need, i);
        if ok {
          return curr + HEADER;
        }
        curr := next;
        i := i + 1;
      }
      NotNull(bl, head, max, i);
      return NULL;
    }

    /** alloc_heap for every 32-bit request: the search takes the first block that passes its test.
        Unless the rounded request is SELF_LINK, that leaves a heap with the block carved out, and no
        other payload touched; with it, the block taken becomes its own successor. */
    method Alloc(n: Word) returns (p: int)
      requires Valid()
      modifies ram, this`bl, this`total
      ensures var k := Taken(old(bl), old(total), size, n);
              if k == |old(bl)| then p == NULL && Valid() && bl == old(bl) && total == old(total) && ram.w == old(ram.w)
              else
                && p == old(bl)[k].Payload()
                && if Need(n) == SELF_LINK then NextAt(ram.w, p - HEADER) == p - HEADER
                   else Valid() && bl == Carve(old(bl), k, Need(n)) && total == old(total) + HEADER + Need(n)
      ensures Need(n) != SELF_LINK || Taken(old(bl), old(total), size, n) == |old(bl)| ==>
                && KeepsPayloads(old(ram.w), ram.w, old(bl), bl, head, max)
                && (forall b :: b in old(bl) && b.used ==> b in bl)
    {
      ghost var k := FirstTaken(bl, Need(n));
      NeedFacts(n);
      if k < |bl| {
        CarveKeepsUsed(bl, k, Need(n));
      }
      if Wrap(total + HEADER + n) > size {
        return NULL;
      }
      p := Search(Need(n));
    }

    /** Clears the allocated flag. */
    method Unmark(block: int, ghost k: nat)
      requires Basic() && k < |bl| && bl[k].addr == block
      modifies ram, this`bl
      ensures Basic() && bl == SetUsed(old(bl), k, false) && OnlyHeaders(old(ram.w), ram.w, old(bl), bl)
    {
      ghost var m := ram.w;
      ram.Put(block + 4, 0);
      SetUsedRep(m, bl, k, false, head, max);
      bl := SetUsed(bl, k, false);
    }

    /** free_heap, with both of its panics. A pointer the check accepts must be the payload of
        some block, allocated or not. */
    method Free(p: int, ghost k: nat) returns (r: FreeOutcome)
      requires Valid()
      requires ValidPtr(head, max, p) ==> k < |bl| && bl[k].Payload() == p
      modifies ram, this`bl, this`total
      ensures Valid()
      ensures r == if !ValidPtr(head, max, p) then PANIC_INVALID_POINTER
                   else if !old(bl)[k].used then PANIC_DOUBLE_FREE else FREED
      ensures r.PANIC_INVALID_POINTER? <==> !(head + HEADER <= p <= max - HEADER && p % 16 == 0)
      ensures if r.FREED? then bl == Release(old(bl), k) && total == old(total) - HEADER - old(bl)[k].size
              else bl == old(bl) && total == old(total) && ram.w == old(ram.w)
      ensures KeepsPayloads(old(ram.w), ram.w, old(bl), bl, head, max)
      ensures forall b :: b in old(bl) && b.used && b.Payload() != p ==> b in bl
    {
      AcceptedExactly(bl, head, max, p);
      if !ValidPtr(head, max, p) {
        return PANIC_INVALID_POINTER;
      }
      var block := p - HEADER;
      assert HeaderIs(ram.w, bl, k);
      if UsedAt(ram.w, block) == 0 {
        return PANIC_DOUBLE_FREE;
      }
      var sz := SizeAt(ram.w, block);
      ReleaseKeepsUsed(bl, k, head, max);
      FreeBlock(block, sz, k);
      return FREED;
    }

    /** The part of free_heap past its checks; sz is the block's size field. */
    method FreeBlock(block: int, sz: int, ghost k: nat)
      requires Valid() && k < |bl| && bl[k].addr == block && bl[k].used && sz == bl[k].size
      modifies ram, this`bl, this`total
      ensures Valid() && bl == Release(old(bl), k) && total == old(total) - HEADER - sz
      ensures KeepsPayloads(old(ram.w), ram.w, old(bl), bl, head, max)
    {
      ghost var m0, bl0 := ram.w, bl;
      ReleaseWf(bl0, k, head, max);
      ReleaseBytes(bl0, k, head, max);
      Unmark(block, k);
      ghost var m1 := ram.w;
      AlignUpFacts(sz);
      total := total - (HEADER + AlignUp(sz));
      MergeAdjacent(block, k);
      SetUsedThen(m0, m1, ram.w, bl0, bl, k, false);
      HeadersKeepPayloads(m0, ram.w, bl0, bl, head, max);
    }
  }
}

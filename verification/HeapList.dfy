/** The kernel heap as a list of address-contiguous blocks (heap.c): what allocation and
    release do to the list, and the laws that hold of any sequence of them. */
module HeapList {

  const HEADER: int := 16      // sizeof(HeapBlock)
  const MIN_ALLOC: int := 4    // HEAP_MIN_ALLOC

  datatype Blk = Blk(addr: int, size: int, used: bool) {
    function Payload(): int { addr + HEADER }
    function End(): int { addr + HEADER + size }
  }

  function AlignUp(n: nat): nat { ((n + 15) / 16) * 16 }

  lemma AlignUpFacts(n: nat)
    ensures AlignUp(n) % 16 == 0 && n <= AlignUp(n) < n + 16
    ensures n % 16 == 0 ==> AlignUp(n) == n
  {
  }

  // ---------------------------------------------------------------- well-formedness

  /** Blocks cover head to max without gap or overlap, in whole alignment units. */
  ghost predicate Tiles(bl: seq<Blk>, head: int, max: int) {
    && |bl| > 0 && bl[0].addr == head && bl[|bl| - 1].End() == max && head % 16 == 0
    && (forall i :: 0 <= i < |bl| ==> 0 <= bl[i].size && bl[i].size % 16 == 0)
    && (forall i, j :: 0 <= i && j == i + 1 < |bl| ==> bl[i].End() == bl[j].addr)
  }

  ghost predicate Merged(bl: seq<Blk>) {
    forall i, j :: 0 <= i && j == i + 1 < |bl| ==> bl[i].used || bl[j].used
  }

  ghost predicate Wf(bl: seq<Blk>, head: int, max: int) {
    Tiles(bl, head, max) && Merged(bl) && !bl[|bl| - 1].used
  }

  lemma MergedAt(bl: seq<Blk>, i: nat)
    requires Merged(bl) && i + 1 < |bl|
    ensures bl[i].used || bl[i + 1].used
  {
  }

  lemma {:induction false} Ordered(bl: seq<Blk>, head: int, max: int, i: nat, j: nat)
    requires Tiles(bl, head, max) && i < j < |bl|
    ensures bl[i].End() <= bl[j].addr
  {
    if i + 1 < j {
      Ordered(bl, head, max, i, j - 1);
    }
  }

  lemma AllOrdered(bl: seq<Blk>, head: int, max: int)
    requires Tiles(bl, head, max)
    ensures forall i, j :: 0 <= i < j < |bl| ==> bl[i].End() <= bl[j].addr
    ensures forall i :: 0 <= i < |bl| ==> head <= bl[i].addr && bl[i].End() <= max
  {
    forall i, j | 0 <= i < j < |bl|
      ensures bl[i].End() <= bl[j].addr
    {
      Ordered(bl, head, max, i, j);
    }
  }

  lemma {:induction false} Aligned(bl: seq<Blk>, head: int, max: int, i: nat)
    requires Tiles(bl, head, max) && i < |bl|
    ensures bl[i].addr % 16 == 0
  {
    if i > 0 {
      Aligned(bl, head, max, i - 1);
    }
  }

  // ---------------------------------------------------------------- operations

  /** The whole heap as one free block (init_heap). */
  function Initial(head: int, max: int): seq<Blk> {
    [Blk(head, max - head - HEADER, false)]
  }

  predicate Fits(b: Blk, need: nat) {
    !b.used && b.size >= need + HEADER + MIN_ALLOC
  }

  /** Index of the lowest-address block that fits, or the length. */
  function FirstFit(bl: seq<Blk>, need: nat): (k: nat)
    ensures k <= |bl|
    ensures k < |bl| ==> Fits(bl[k], need)
    ensures forall i :: 0 <= i < k ==> !Fits(bl[i], need)
  {
    if bl == [] then 0 else if Fits(bl[0], need) then 0 else FirstFit(bl[1..], need) + 1
  }

  /** Block k becomes a free block of the given size and a free remainder (split_block). */
  function Split(bl: seq<Blk>, k: nat, need: nat): seq<Blk>
    requires k < |bl|
  {
    var b := bl[k];
    bl[..k] + [Blk(b.addr, need, false), Blk(b.addr + HEADER + need, b.size - need - HEADER, false)] + bl[k + 1..]
  }

  function SetUsed(bl: seq<Blk>, k: nat, used: bool): seq<Blk>
    requires k < |bl|
  {
    bl[k := bl[k].(used := used)]
  }

  function Carve(bl: seq<Blk>, k: nat, need: nat): seq<Blk>
    requires k < |bl|
  {
    SetUsed(Split(bl, k, need), k, true)
  }

  /** Block i absorbs block i + 1. */
  function Absorb(bl: seq<Blk>, i: nat): seq<Blk>
    requires i + 1 < |bl|
  {
    bl[..i] + [bl[i].(size := bl[i].size + HEADER + bl[i + 1].size)] + bl[i + 2..]
  }

  /** Free block k takes in its free neighbours (merge_empty_blocks_adjacent). */
  function Coalesce(bl: seq<Blk>, k: nat): seq<Blk>
    requires k < |bl|
  {
    var back := k > 0 && !bl[k - 1].used;
    var g := if back then Absorb(bl, k - 1) else bl;
    var j := if back then k - 1 else k;
    if j + 1 < |g| && !g[j + 1].used then Absorb(g, j) else g
  }

  function Release(bl: seq<Blk>, k: nat): seq<Blk>
    requires k < |bl|
  {
    Coalesce(SetUsed(bl, k, false), k)
  }

  // ---------------------------------------------------------------- invariants

  lemma InitialWf(head: int, max: int)
    requires head % 16 == 0 && max % 16 == 0 && head + HEADER <= max
    ensures Wf(Initial(head, max), head, max)
  {
  }

  lemma SplitAt(bl: seq<Blk>, k: nat, need: nat, i: nat)
    requires k < |bl| && i <= |bl|
    ensures Split(bl, k, need)[i] ==
            if i < k then bl[i] else if i == k then Blk(bl[k].addr, need, false)
            else if i == k + 1 then Blk(bl[k].addr + HEADER + need, bl[k].size - need - HEADER, false) else bl[i - 1]
  {
  }

  lemma SplitTiles(bl: seq<Blk>, k: nat, need: nat, head: int, max: int)
    requires Tiles(bl, head, max) && k < |bl| && Fits(bl[k], need) && need % 16 == 0
    ensures Tiles(Split(bl, k, need), head, max)
    ensures bl[k].size - need >= 2 * HEADER
  {
    var c := Split(bl, k, need);
    SplitAt(bl, k, need, 0);
    SplitAt(bl, k, need, |c| - 1);
    forall i | 0 <= i < |c|
      ensures 0 <= c[i].size && c[i].size % 16 == 0
    {
      SplitAt(bl, k, need, i);
    }
    forall i, j | 0 <= i && j == i + 1 < |c|
      ensures c[i].End() == c[j].addr
    {
      SplitAt(bl, k, need, i);
      SplitAt(bl, k, need, j);
    }
  }

  lemma AbsorbAt(bl: seq<Blk>, k: nat, i: nat)
    requires k + 1 < |bl| && i < |bl| - 1
    ensures Absorb(bl, k)[i] ==
            if i < k then bl[i] else if i == k then bl[k].(size := bl[k].size + HEADER + bl[k + 1].size) else bl[i + 1]
  {
  }

  lemma AbsorbTiles(bl: seq<Blk>, k: nat, head: int, max: int)
    requires Tiles(bl, head, max) && k + 1 < |bl|
    ensures Tiles(Absorb(bl, k), head, max)
  {
    var c := Absorb(bl, k);
    assert bl[k].End() == bl[k + 1].addr;
    AbsorbAt(bl, k, 0);
    AbsorbAt(bl, k, |c| - 1);
    forall i | 0 <= i < |c|
      ensures 0 <= c[i].size && c[i].size % 16 == 0
    {
      AbsorbAt(bl, k, i);
    }
    forall i, j | 0 <= i && j == i + 1 < |c|
      ensures c[i].End() == c[j].addr
    {
      AbsorbAt(bl, k, i);
      AbsorbAt(bl, k, j);
    }
  }

  lemma CarveWf(bl: seq<Blk>, k: nat, need: nat, head: int, max: int)
    requires Wf(bl, head, max) && k < |bl| && Fits(bl[k], need) && need % 16 == 0
    ensures Wf(Carve(bl, k, need), head, max)
  {
    SplitTiles(bl, k, need, head, max);
    var s, c := Split(bl, k, need), Carve(bl, k, need);
    assert Tiles(c, head, max);
    forall i | 0 <= i < |c| - 1
      ensures c[i].used || c[i + 1].used
    {
      if i < k - 1 {
        assert c[i] == bl[i] && c[i + 1] == bl[i + 1];
      } else if i > k {
        assert c[i + 1] == bl[i] && (i > k + 1 ==> c[i] == bl[i - 1]);
        assert bl[i - 1].used || bl[i].used;
      }
    }
  }

  /** Blocks lo..hi replaced by one free block over the same bytes. */
  function Fuse(bl: seq<Blk>, lo: nat, hi: nat): seq<Blk>
    requires lo <= hi < |bl|
  {
    bl[..lo] + [Blk(bl[lo].addr, bl[hi].End() - bl[lo].addr - HEADER, false)] + bl[hi + 1..]
  }

  function Lo(bl: seq<Blk>, k: nat): nat
    requires k < |bl|
  {
    if k > 0 && !bl[k - 1].used then k - 1 else k
  }

  function Hi(bl: seq<Blk>, k: nat): nat
    requires k < |bl|
  {
    if k + 1 < |bl| && !bl[k + 1].used then k + 1 else k
  }

  /** Release in one piece: the freed block and its free neighbours become one free block. */
  lemma ReleaseFuses(bl: seq<Blk>, k: nat, head: int, max: int)
    requires Tiles(bl, head, max) && k < |bl|
    ensures Release(bl, k) == Fuse(bl, Lo(bl, k), Hi(bl, k))
  {
    if Lo(bl, k) < k {
      FusesBack(bl, k, head, max);
    } else {
      FusesAhead(bl, k, head, max);
    }
  }

  lemma FusesBack(bl: seq<Blk>, k: nat, head: int, max: int)
    requires Tiles(bl, head, max) && 0 < k < |bl| && !bl[k - 1].used
    ensures Release(bl, k) == Fuse(bl, k - 1, Hi(bl, k))
  {
    var f := SetUsed(bl, k, false);
    var g := Absorb(f, k - 1);
    assert bl[k - 1].End() == bl[k].addr;
    assert g == bl[..k - 1] + [Blk(bl[k - 1].addr, bl[k].End() - bl[k - 1].addr - HEADER, false)] + bl[k + 1..];
    if Hi(bl, k) > k {
      assert bl[k].End() == bl[k + 1].addr && g[k] == bl[k + 1];
      assert Absorb(g, k - 1) == Fuse(bl, k - 1, k + 1);
    }
  }

  lemma FusesAhead(bl: seq<Blk>, k: nat, head: int, max: int)
    requires Tiles(bl, head, max) && k < |bl| && (k > 0 ==> bl[k - 1].used)
    ensures Release(bl, k) == Fuse(bl, k, Hi(bl, k))
  {
    var f := SetUsed(bl, k, false);
    if Hi(bl, k) > k {
      assert bl[k].End() == bl[k + 1].addr;
      assert Absorb(f, k) == Fuse(bl, k, k + 1);
    } else {
      assert f == Fuse(bl, k, k);
    }
  }

  lemma FuseTiles(bl: seq<Blk>, lo: nat, hi: nat, head: int, max: int)
    requires Tiles(bl, head, max) && lo <= hi < |bl| && hi <= lo + 2
    ensures Tiles(Fuse(bl, lo, hi), head, max)
  {
    var f := Fuse(bl, lo, hi);
    assert hi > lo ==> bl[lo].End() == bl[lo + 1].addr;
    assert hi > lo + 1 ==> bl[lo + 1].End() == bl[hi].addr;
    forall i | 0 <= i < |f| - 1
      ensures f[i].End() == f[i + 1].addr
    {
      if i > lo {
        assert f[i] == bl[i + hi - lo] && f[i + 1] == bl[i + 1 + hi - lo];
      }
    }
  }

  lemma FuseMerged(bl: seq<Blk>, k: nat)
    requires Merged(bl) && k < |bl| && bl[k].used
    ensures Merged(Fuse(bl, Lo(bl, k), Hi(bl, k)))
  {
  }

  lemma ReleaseWf(bl: seq<Blk>, k: nat, head: int, max: int)
    requires Wf(bl, head, max) && k < |bl| && bl[k].used
    ensures Wf(Release(bl, k), head, max)
  {
    ReleaseFuses(bl, k, head, max);
    FuseTiles(bl, Lo(bl, k), Hi(bl, k), head, max);
    FuseMerged(bl, k);
  }

  // ---------------------------------------------------------------- accounting

  /** Bytes of allocated blocks, headers included. */
  function UsedBytes(bl: seq<Blk>): int {
    if bl == [] then 0 else (if bl[0].used then HEADER + bl[0].size else 0) + UsedBytes(bl[1..])
  }

  function FreeBytes(bl: seq<Blk>): int {
    if bl == [] then 0 else (if bl[0].used then 0 else HEADER + bl[0].size) + FreeBytes(bl[1..])
  }

  lemma {:induction false} UsedConcat(a: seq<Blk>, b: seq<Blk>)
    ensures UsedBytes(a + b) == UsedBytes(a) + UsedBytes(b)
  {
    if a == [] {
      assert a + b == b;
    } else {
      UsedConcat(a[1..], b);
      assert (a + b)[1..] == a[1..] + b;
    }
  }

  /** Conservation: allocated and free bytes together are the whole heap. */
  lemma {:induction false} Conservation(bl: seq<Blk>, head: int, max: int)
    requires Tiles(bl, head, max)
    ensures UsedBytes(bl) + FreeBytes(bl) == max - head
  {
    if |bl| > 1 {
      Aligned(bl, head, max, 1);
      Conservation(bl[1..], bl[1].addr, max);
    } else {
      assert bl[1..] == [];
    }
  }

  lemma {:induction false} BytesNonNegative(bl: seq<Blk>)
    requires forall i :: 0 <= i < |bl| ==> 0 <= bl[i].size
    ensures 0 <= UsedBytes(bl) && 0 <= FreeBytes(bl)
  {
    if bl != [] {
      BytesNonNegative(bl[1..]);
    }
  }

  lemma {:induction false} FreeAtLeast(bl: seq<Blk>, k: nat)
    requires k < |bl| && !bl[k].used && forall i :: 0 <= i < |bl| ==> 0 <= bl[i].size
    ensures FreeBytes(bl) >= HEADER + bl[k].size
  {
    BytesNonNegative(bl[1..]);
    if k > 0 {
      FreeAtLeast(bl[1..], k - 1);
    }
  }

  lemma UsedConcat3(a: seq<Blk>, b: seq<Blk>, c: seq<Blk>)
    ensures UsedBytes(a + b + c) == UsedBytes(a) + UsedBytes(b) + UsedBytes(c)
  {
    UsedConcat(a + b, c);
    UsedConcat(a, b);
  }

  function BlkBytes(b: Blk): int { if b.used then HEADER + b.size else 0 }

  lemma UsedOfTwo(b: Blk, c: Blk)
    ensures UsedBytes([b, c]) == BlkBytes(b) + BlkBytes(c)
  {
    UsedOfOne(b);
    UsedOfOne(c);
    UsedConcat([b], [c]);
    assert [b] + [c] == [b, c];
  }

  lemma UsedOfOne(b: Blk)
    ensures UsedBytes([b]) == BlkBytes(b)
  {
  }

  /** Replacing a middle part changes the sum by the difference of the parts. */
  lemma SpliceBytes(a: seq<Blk>, m: seq<Blk>, n: seq<Blk>, c: seq<Blk>)
    ensures UsedBytes(a + n + c) == UsedBytes(a + m + c) + UsedBytes(n) - UsedBytes(m)
  {
    UsedConcat3(a, m, c);
    UsedConcat3(a, n, c);
  }

  lemma AroundRange(bl: seq<Blk>, lo: nat, hi: nat)
    requires lo <= hi <= |bl|
    ensures bl == bl[..lo] + bl[lo..hi] + bl[hi..]
  {
  }

  /** Replacing bl[lo..hi] by n. */
  lemma ReplaceBytes(bl: seq<Blk>, lo: nat, hi: nat, n: seq<Blk>)
    requires lo <= hi <= |bl|
    ensures UsedBytes(bl[..lo] + n + bl[hi..]) == UsedBytes(bl) + UsedBytes(n) - UsedBytes(bl[lo..hi])
  {
    AroundRange(bl, lo, hi);
    SpliceBytes(bl[..lo], bl[lo..hi], n, bl[hi..]);
  }

  lemma CarveReplaces(bl: seq<Blk>, k: nat, need: nat)
    requires k < |bl|
    ensures Carve(bl, k, need) ==
            bl[..k] + [Blk(bl[k].addr, need, true), Blk(bl[k].addr + HEADER + need, bl[k].size - need - HEADER, false)] + bl[k + 1..]
  {
  }

  lemma CarveBytes(bl: seq<Blk>, k: nat, need: nat)
    requires k < |bl| && !bl[k].used
    ensures UsedBytes(Carve(bl, k, need)) == UsedBytes(bl) + HEADER + need
  {
    var m, n := Blk(bl[k].addr, need, true), Blk(bl[k].addr + HEADER + need, bl[k].size - need - HEADER, false);
    CarveReplaces(bl, k, need);
    ReplaceBytes(bl, k, k + 1, [m, n]);
    UsedOfTwo(m, n);
    UsedOfOne(bl[k]);
    assert bl[k..k + 1] == [bl[k]];
  }

  lemma ReleaseBytes(bl: seq<Blk>, k: nat, head: int, max: int)
    requires Tiles(bl, head, max) && k < |bl| && bl[k].used
    ensures UsedBytes(Release(bl, k)) == UsedBytes(bl) - HEADER - bl[k].size
  {
    ReleaseFuses(bl, k, head, max);
    FuseBytes(bl, Lo(bl, k), Hi(bl, k));
    RunBytes(bl, k);
  }

  lemma FuseBytes(bl: seq<Blk>, lo: nat, hi: nat)
    requires lo <= hi < |bl|
    ensures UsedBytes(Fuse(bl, lo, hi)) == UsedBytes(bl) - UsedBytes(bl[lo..hi + 1])
  {
    var m := Blk(bl[lo].addr, bl[hi].End() - bl[lo].addr - HEADER, false);
    ReplaceBytes(bl, lo, hi + 1, [m]);
    UsedOfOne(m);
  }

  lemma RunBytes(bl: seq<Blk>, k: nat)
    requires k < |bl| && bl[k].used
    ensures UsedBytes(bl[Lo(bl, k)..Hi(bl, k) + 1]) == HEADER + bl[k].size
  {
    var lo, hi := Lo(bl, k), Hi(bl, k);
    var before := if lo < k then [bl[k - 1]] else [];
    var after := if hi > k then [bl[k + 1]] else [];
    assert bl[lo..hi + 1] == before + [bl[k]] + after;
    UsedConcat3(before, [bl[k]], after);
  }

  /** The early rejection by the running total refuses nothing the list could serve. */
  lemma EarlyRejectIsSafe(bl: seq<Blk>, head: int, max: int, size: nat, k: nat)
    requires Tiles(bl, head, max) && k < |bl| && Fits(bl[k], AlignUp(size))
    ensures UsedBytes(bl) + HEADER + size <= max - head
  {
    Conservation(bl, head, max);
    FreeAtLeast(bl, k);
    AlignUpFacts(size);
  }

  // ---------------------------------------------------------------- undoing

  /** Freeing what was just allocated restores the exact list. */
  lemma ReleaseUndoesCarve(bl: seq<Blk>, k: nat, need: nat, head: int, max: int)
    requires Wf(bl, head, max) && k < |bl| && Fits(bl[k], need) && need % 16 == 0
    ensures Release(Carve(bl, k, need), k) == bl
  {
  }

  /** With nothing allocated the list is the initial one. */
  lemma NothingUsedIsInitial(bl: seq<Blk>, head: int, max: int)
    requires Wf(bl, head, max) && forall i :: 0 <= i < |bl| ==> !bl[i].used
    ensures bl == Initial(head, max)
  {
    if |bl| > 1 {
      MergedAt(bl, 0);
    }
  }

  // ---------------------------------------------------------------- live payloads

  /** Addresses handed out and not yet freed. */
  ghost function Live(bl: seq<Blk>): set<int> {
    set b | b in bl && b.used :: b.Payload()
  }

  /** Index of the block whose payload starts at p. */
  ghost function IndexOf(bl: seq<Blk>, p: int): (k: nat)
    requires p in Live(bl)
    ensures k < |bl| && bl[k].used && bl[k].Payload() == p
  {
    var k :| 0 <= k < |bl| && bl[k].used && bl[k].Payload() == p;
    k
  }

  lemma PayloadsDistinct(bl: seq<Blk>, head: int, max: int, i: nat, j: nat)
    requires Tiles(bl, head, max) && i < |bl| && j < |bl| && bl[i].Payload() == bl[j].Payload()
    ensures i == j
  {
    if i < j {
      Ordered(bl, head, max, i, j);
    } else if j < i {
      Ordered(bl, head, max, j, i);
    }
  }

  lemma LiveAt(bl: seq<Blk>, p: int)
    ensures p in Live(bl) <==> exists k :: 0 <= k < |bl| && bl[k].used && bl[k].Payload() == p
  {
  }

  lemma CarveLive(bl: seq<Blk>, k: nat, need: nat)
    requires k < |bl| && !bl[k].used
    ensures Live(Carve(bl, k, need)) == Live(bl) + {bl[k].Payload()}
  {
    var c := Carve(bl, k, need);
    forall p
      ensures p in Live(c) <==> p in Live(bl) || p == bl[k].Payload()
    {
      LiveAt(c, p);
      LiveAt(bl, p);
      if p in Live(bl) {
        var i := IndexOf(bl, p);
        assert c[if i < k then i else i + 1] == bl[i];
      }
      if p in Live(c) {
        var i := IndexOf(c, p);
        assert i != k ==> c[i] == bl[if i < k then i else i - 1];
      }
      assert c[k].used && c[k].Payload() == bl[k].Payload();
    }
  }

  lemma FuseKeeps(bl: seq<Blk>, k: nat, i: nat)
    requires k < |bl| && i < |bl| && bl[i].used && i != k
    ensures var lo, hi := Lo(bl, k), Hi(bl, k);
            var c, j := Fuse(bl, lo, hi), if i < lo then i else i + lo - hi;
            j < |c| && c[j] == bl[i]
  {
  }

  lemma FuseOnlyKeeps(bl: seq<Blk>, k: nat, j: nat)
    requires k < |bl| && j < |Fuse(bl, Lo(bl, k), Hi(bl, k))| && Fuse(bl, Lo(bl, k), Hi(bl, k))[j].used
    ensures var lo, hi := Lo(bl, k), Hi(bl, k);
            var i := if j < lo then j else j + hi - lo;
            i < |bl| && i != k && Fuse(bl, lo, hi)[j] == bl[i]
  {
  }

  lemma FuseKeepsLive(bl: seq<Blk>, k: nat)
    requires k < |bl| && bl[k].used
    ensures forall p :: p in Live(bl) && p != bl[k].Payload() ==> p in Live(Fuse(bl, Lo(bl, k), Hi(bl, k)))
  {
    forall p | p in Live(bl) && p != bl[k].Payload()
      ensures p in Live(Fuse(bl, Lo(bl, k), Hi(bl, k)))
    {
      FuseKeeps(bl, k, IndexOf(bl, p));
    }
  }

  lemma FuseAddsNoLive(bl: seq<Blk>, k: nat, head: int, max: int)
    requires Tiles(bl, head, max) && k < |bl| && bl[k].used
    ensures forall p :: p in Live(Fuse(bl, Lo(bl, k), Hi(bl, k))) ==> p in Live(bl) && p != bl[k].Payload()
  {
    var lo, hi := Lo(bl, k), Hi(bl, k);
    forall p | p in Live(Fuse(bl, lo, hi))
      ensures p in Live(bl) && p != bl[k].Payload()
    {
      var j := IndexOf(Fuse(bl, lo, hi), p);
      FuseOnlyKeeps(bl, k, j);
      var i := if j < lo then j else j + hi - lo;
      if p == bl[k].Payload() {
        PayloadsDistinct(bl, head, max, i, k);
      }
    }
  }

  lemma ReleaseLive(bl: seq<Blk>, k: nat, head: int, max: int)
    requires Wf(bl, head, max) && k < |bl| && bl[k].used
    ensures Live(Release(bl, k)) == Live(bl) - {bl[k].Payload()}
  {
    ReleaseFuses(bl, k, head, max);
    FuseKeepsLive(bl, k);
    FuseAddsNoLive(bl, k, head, max);
  }

  lemma CarveKeepsUsed(bl: seq<Blk>, k: nat, need: nat)
    requires k < |bl| && !bl[k].used
    ensures forall b :: b in bl && b.used ==> b in Carve(bl, k, need)
  {
    var c := Carve(bl, k, need);
    forall b | b in bl && b.used
      ensures b in c
    {
      var i :| 0 <= i < |bl| && bl[i] == b;
      assert c[if i < k then i else i + 1] == b;
    }
  }

  lemma ReleaseKeepsUsed(bl: seq<Blk>, k: nat, head: int, max: int)
    requires Tiles(bl, head, max) && k < |bl|
    ensures forall b :: b in bl && b.used && b != bl[k] ==> b in Release(bl, k)
  {
    ReleaseFuses(bl, k, head, max);
    forall b | b in bl && b.used && b != bl[k]
      ensures b in Release(bl, k)
    {
      var i :| 0 <= i < |bl| && bl[i] == b;
      FuseKeeps(bl, k, i);
    }
  }

  // ---------------------------------------------------------------- blocks of one size

  function UsedCount(bl: seq<Blk>): nat {
    if bl == [] then 0 else (if bl[0].used then 1 else 0) + UsedCount(bl[1..])
  }

  function FreeCount(bl: seq<Blk>): nat {
    if bl == [] then 0 else (if bl[0].used then 0 else 1) + FreeCount(bl[1..])
  }

  lemma {:induction false} FreeCountBound(bl: seq<Blk>)
    requires Merged(bl)
    ensures FreeCount(bl) <= UsedCount(bl) + if bl != [] && !bl[0].used then 1 else 0
  {
    if |bl| > 1 {
      MergedAt(bl, 0);
      assert Merged(bl[1..]) by {
        forall i | 0 <= i < |bl[1..]| - 1
          ensures bl[1..][i].used || bl[1..][i + 1].used
        {
          MergedAt(bl, i + 1);
        }
      }
      FreeCountBound(bl[1..]);
    } else if |bl| == 1 {
      assert bl[1..] == [];
    }
  }

  ghost predicate UsedSize(bl: seq<Blk>, n: nat) {
    forall i :: 0 <= i < |bl| && bl[i].used ==> bl[i].size == n
  }

  ghost predicate FreeAtMost(bl: seq<Blk>, n: nat) {
    forall i :: 0 <= i < |bl| && !bl[i].used ==> bl[i].size <= n
  }

  lemma {:induction false} CountedBytes(bl: seq<Blk>, n: nat, f: nat)
    requires UsedSize(bl, n) && FreeAtMost(bl, f)
    ensures UsedBytes(bl) == (HEADER + n) * UsedCount(bl)
    ensures FreeBytes(bl) <= (HEADER + f) * FreeCount(bl)
  {
    if bl != [] {
      CountedBytes(bl[1..], n, f);
    }
  }

  /** In bytes: used blocks of 1040 and holes of at most 1056 between them do not fill the heap. */
  lemma HolesAreBounded(bl: seq<Blk>)
    requires Merged(bl) && UsedSize(bl, 1024) && FreeAtMost(bl, 1040) && UsedBytes(bl) <= 15 * 1040
    ensures UsedBytes(bl) + FreeBytes(bl) < 32768
  {
    CountedBytes(bl, 1024, 1040);
    FreeCountBound(bl);
    var used, free := UsedCount(bl), FreeCount(bl);
    assert used <= 15 && free <= 16;
  }

  /** Fragmentation bound: if only 1024-byte blocks are handed out and at most 15 are out, a heap of
      32 KiB always has room for one more, however the holes lie. */
  lemma RoomForOneMore(bl: seq<Blk>, head: int, max: int)
    requires Wf(bl, head, max) && UsedSize(bl, 1024) && max - head >= 32768 && UsedBytes(bl) <= 15 * 1040
    ensures FirstFit(bl, 1024) < |bl|
  {
    if FirstFit(bl, 1024) == |bl| {
      assert FreeAtMost(bl, 1040) by {
        forall i | 0 <= i < |bl| && !bl[i].used
          ensures bl[i].size <= 1040
        {
          assert !Fits(bl[i], 1024);
        }
      }
      HolesAreBounded(bl);
      Conservation(bl, head, max);
    }
  }

  lemma SplitKeepsUsedSize(bl: seq<Blk>, k: nat, n: nat)
    requires UsedSize(bl, n) && k < |bl| && !bl[k].used
    ensures UsedSize(Carve(bl, k, n), n)
  {
  }

  lemma ReleaseKeepsUsedSize(bl: seq<Blk>, k: nat, n: nat, head: int, max: int)
    requires Tiles(bl, head, max) && UsedSize(bl, n) && k < |bl|
    ensures UsedSize(Release(bl, k), n)
  {
  }

  /** Live payloads are aligned, accepted by the pointer check, inside the heap and disjoint. */
  predicate ValidPtr(head: int, max: int, p: int) {
    p != 0 && p % 16 == 0 && head + 1 <= p <= max - HEADER
  }

  /** What the pointer check accepts: aligned, from the first payload on, up to 16 bytes before the end. */
  lemma AcceptedExactly(bl: seq<Blk>, head: int, max: int, p: int)
    requires Tiles(bl, head, max) && 0 < head
    ensures ValidPtr(head, max, p) <==> head + HEADER <= p <= max - HEADER && p % 16 == 0
  {
  }

  lemma PayloadsSeparate(bl: seq<Blk>, head: int, max: int, i: nat, j: nat)
    requires Wf(bl, head, max) && 0 < head && i < |bl| && j < |bl| && bl[i].used && bl[j].used && i != j
    ensures bl[i].End() <= bl[j].Payload() || bl[j].End() <= bl[i].Payload()
  {
    if i < j {
      Ordered(bl, head, max, i, j);
    } else {
      Ordered(bl, head, max, j, i);
    }
  }

  lemma PayloadsValid(bl: seq<Blk>, head: int, max: int, i: nat)
    requires Wf(bl, head, max) && 0 < head && i < |bl| && bl[i].used
    ensures ValidPtr(head, max, bl[i].Payload()) && bl[i].End() <= max
  {
    Aligned(bl, head, max, i);
    AllOrdered(bl, head, max);
    assert bl[i].End() <= bl[|bl| - 1].addr;
  }

  // ---------------------------------------------------------------- whole runs

  datatype Call = Alloc(size: nat) | Free(p: int)

  ghost predicate Legal(bl: seq<Blk>, c: Call) {
    c.Free? ==> c.p in Live(bl)
  }

  /** First fit, or the release of a live block. */
  ghost function Apply(bl: seq<Blk>, c: Call): seq<Blk>
    requires Legal(bl, c)
  {
    match c
    case Alloc(size) =>
      var k := FirstFit(bl, AlignUp(size));
      if k < |bl| then Carve(bl, k, AlignUp(size)) else bl
    case Free(p) => Release(bl, IndexOf(bl, p))
  }

  ghost predicate LegalRun(bl: seq<Blk>, calls: seq<Call>)
    decreases |calls|
  {
    calls == [] || (Legal(bl, calls[0]) && LegalRun(Apply(bl, calls[0]), calls[1..]))
  }

  ghost function RunCalls(bl: seq<Blk>, calls: seq<Call>): seq<Blk>
    requires LegalRun(bl, calls)
    decreases |calls|
  {
    if calls == [] then bl else RunCalls(Apply(bl, calls[0]), calls[1..])
  }

  lemma ApplyWf(bl: seq<Blk>, c: Call, head: int, max: int)
    requires Wf(bl, head, max) && Legal(bl, c)
    ensures Wf(Apply(bl, c), head, max)
  {
    match c
    case Alloc(size) =>
      AlignUpFacts(size);
      var k := FirstFit(bl, AlignUp(size));
      if k < |bl| {
        CarveWf(bl, k, AlignUp(size), head, max);
      }
    case Free(p) => ReleaseWf(bl, IndexOf(bl, p), head, max);
  }

  /** Over every sequence of legal calls: exact tiling, aligned sizes, no two free neighbours, a
      free last block, and bytes conserved. */
  lemma {:induction false} RunWf(bl: seq<Blk>, calls: seq<Call>, head: int, max: int)
    requires Wf(bl, head, max) && LegalRun(bl, calls)
    ensures Wf(RunCalls(bl, calls), head, max)
    ensures UsedBytes(RunCalls(bl, calls)) + FreeBytes(RunCalls(bl, calls)) == max - head
    decreases |calls|
  {
    if calls == [] {
      Conservation(bl, head, max);
    } else {
      ApplyWf(bl, calls[0], head, max);
      RunWf(Apply(bl, calls[0]), calls[1..], head, max);
    }
  }

  function Frees(ps: seq<int>): seq<Call> {
    seq(|ps|, i requires 0 <= i < |ps| => Free(ps[i]))
  }

  lemma OneFreed(bl: seq<Blk>, ps: seq<int>, k: nat, head: int, max: int)
    requires Wf(bl, head, max) && ps != [] && k < |bl| && bl[k].used && bl[k].Payload() == ps[0]
    requires forall i, j :: 0 <= i < j < |ps| ==> ps[i] != ps[j]
    requires forall p :: p in ps <==> p in Live(bl)
    ensures forall p :: p in ps[1..] <==> p in Live(Release(bl, k))
  {
    ReleaseLive(bl, k, head, max);
    assert forall p :: p in ps <==> p == ps[0] || p in ps[1..];
  }

  /** From any state reached, freeing the live payloads in any order is legal and leaves the heap as
      init_heap made it. */
  lemma {:induction false} FreeingAllRestores(bl: seq<Blk>, ps: seq<int>, head: int, max: int)
    requires Wf(bl, head, max)
    requires forall i, j :: 0 <= i < j < |ps| ==> ps[i] != ps[j]
    requires forall p :: p in ps <==> p in Live(bl)
    ensures LegalRun(bl, Frees(ps)) && RunCalls(bl, Frees(ps)) == Initial(head, max)
    decreases |ps|
  {
    if ps == [] {
      forall i | 0 <= i < |bl|
        ensures !bl[i].used
      {
        if bl[i].used {
          LiveAt(bl, bl[i].Payload());
        }
      }
      NothingUsedIsInitial(bl, head, max);
    } else {
      assert ps[0] in ps;
      var k := IndexOf(bl, ps[0]);
      var rest := Release(bl, k);
      ReleaseWf(bl, k, head, max);
      OneFreed(bl, ps, k, head, max);
      FreeingAllRestores(rest, ps[1..], head, max);
      assert Frees(ps)[1..] == Frees(ps[1..]);
    }
  }
}

/** The task table and the memory each task owns (task.c, context.c). */
module TaskTable {
  import opened Width
  import opened HeapList
  import opened KernelHeap

  const MAX_TASKS := 8
  const STACK_INIT_SIZE := 1024
  const HEAP_INIT_SIZE := 1024
  const SCHED_QUANTUM_TICKS := 10
  const SCHED_PRIORITY_BONUS_TICKS := 1

  type RegFile = s: seq<Word> | |s| == 32 witness seq(32, _ => 0)

  datatype Context = Context(regs: RegFile, mstatus: Word, pc: Word)

  datatype TaskState = NOT_CREATED | READY | RUNNING | BLOCKED_IRQ | TERMINATED

  datatype HeapDesc = HeapDesc(head: int, max: int, size: int, total: int)

  datatype Task = Task(ctx: Context, id: int, stackBase: int, heap: HeapDesc, priority: nat, slice: nat, state: TaskState) {
    predicate Created() { !state.NOT_CREATED? }

    /** The two global blocks a created task owns. */
    function Owned(): set<int> { {stackBase, heap.head} }
  }

  const EMPTY_CONTEXT := Context(seq(32, _ => 0), 0, 0)
  const EMPTY_TASK := Task(EMPTY_CONTEXT, 0, 0, HeapDesc(0, 0, 0, 0), 0, 0, NOT_CREATED)

  /** t_gen counts in 16 bits. */
  const GENERATIONS := 65536

  function TaskId(slot: nat, gen: nat): int { gen * 256 + slot }
  function TaskSlot(id: int): int { id % 256 }

  /** Two creations give the same id exactly if they fill the same slot a multiple of 65536 apart. */
  lemma SameIdExactly(i: nat, k: nat, j: nat, l: nat)
    requires i < MAX_TASKS && j < MAX_TASKS
    ensures TaskId(i, k % GENERATIONS) == TaskId(j, l % GENERATIONS) <==> i == j && (k - l) % GENERATIONS == 0
  {
    if k % GENERATIONS == l % GENERATIONS {
      assert k - l == GENERATIONS * (k / GENERATIONS - l / GENERATIONS);
    }
  }

  function CreatedCount(ts: seq<Task>): nat {
    if ts == [] then 0 else (if ts[0].Created() then 1 else 0) + CreatedCount(ts[1..])
  }

  lemma {:induction false} CountUpdate(ts: seq<Task>, i: nat, t: Task)
    requires i < |ts|
    ensures CreatedCount(ts[i := t]) ==
            CreatedCount(ts) + (if t.Created() then 1 else 0) - (if ts[i].Created() then 1 else 0)
  {
    if i > 0 {
      CountUpdate(ts[1..], i - 1, t);
      assert ts[i := t][1..] == ts[1..][i - 1 := t];
    }
  }

  lemma {:induction false} CountAll(ts: seq<Task>)
    requires forall i :: 0 <= i < |ts| ==> ts[i].Created()
    ensures CreatedCount(ts) == |ts|
  {
    if ts != [] {
      CountAll(ts[1..]);
    }
  }

  lemma {:induction false} CountNone(ts: seq<Task>)
    requires forall i :: 0 <= i < |ts| ==> !ts[i].Created()
    ensures CreatedCount(ts) == 0
  {
    if ts != [] {
      CountNone(ts[1..]);
    }
  }

  lemma {:induction false} CountAtMost(ts: seq<Task>)
    ensures CreatedCount(ts) <= |ts|
  {
    if ts != [] {
      CountAtMost(ts[1..]);
    }
  }

  // ---------------------------------------------------------------- ownership

  /** owner names, for every live global block, the slot of the one task that owns it; each created
      task owns its stack and its heap block, two different ones, and its heap spans its block. */
  ghost predicate Owns(ts: seq<Task>, owner: map<int, int>) {
    && (forall p {:trigger OwnedBy(ts, owner, p)} :: p in owner ==> OwnedBy(ts, owner, p))
    && (forall i {:trigger OwnsAt(ts, owner, i)} :: 0 <= i < |ts| && ts[i].Created() ==> OwnsAt(ts, owner, i))
  }

  ghost predicate OwnedBy(ts: seq<Task>, owner: map<int, int>, p: int)
    requires p in owner
  {
    0 <= owner[p] < |ts| && ts[owner[p]].Created() && p in ts[owner[p]].Owned()
  }

  ghost predicate OwnsAt(ts: seq<Task>, owner: map<int, int>, i: int)
    requires 0 <= i < |ts|
  {
    var t := ts[i];
    && t.stackBase in owner && owner[t.stackBase] == i
    && t.heap.head in owner && owner[t.heap.head] == i && t.stackBase != t.heap.head
    && t.heap.max == t.heap.head + HEAP_INIT_SIZE && t.heap.size == HEAP_INIT_SIZE
  }

  ghost predicate MemInv(ts: seq<Task>, owner: map<int, int>, n: nat, bl: seq<Blk>, total: int) {
    && |ts| == MAX_TASKS && n == CreatedCount(ts)
    && Owns(ts, owner) && owner.Keys == Live(bl) && UsedSize(bl, 1024) && total == 2080 * n
  }

  lemma CreateOwns(ts: seq<Task>, owner: map<int, int>, i: nat, t: Task)
    requires Owns(ts, owner) && i < |ts| && !ts[i].Created() && t.Created()
    requires t.stackBase !in owner && t.heap.head !in owner && t.stackBase != t.heap.head
    requires t.heap.max == t.heap.head + HEAP_INIT_SIZE && t.heap.size == HEAP_INIT_SIZE
    ensures Owns(ts[i := t], owner[t.stackBase := i][t.heap.head := i])
  {
    var us, o := ts[i := t], owner[t.stackBase := i][t.heap.head := i];
    forall p | p in o
      ensures OwnedBy(us, o, p)
    {
      assert p in owner ==> OwnedBy(ts, owner, p);
    }
    forall j | 0 <= j < |us| && us[j].Created()
      ensures OwnsAt(us, o, j)
    {
      assert j != i ==> OwnsAt(ts, owner, j);
    }
  }

  lemma DestroyOwns(ts: seq<Task>, owner: map<int, int>, i: nat)
    requires Owns(ts, owner) && i < |ts| && ts[i].Created()
    ensures Owns(ts[i := ts[i].(state := NOT_CREATED)], owner - ts[i].Owned())
    ensures ts[i].Owned() <= owner.Keys
  {
    var us, o := ts[i := ts[i].(state := NOT_CREATED)], owner - ts[i].Owned();
    assert OwnsAt(ts, owner, i);
    forall p | p in o
      ensures OwnedBy(us, o, p)
    {
      assert OwnedBy(ts, owner, p);
    }
    forall j | 0 <= j < |us| && us[j].Created()
      ensures OwnsAt(us, o, j)
    {
      assert OwnsAt(ts, owner, j);
    }
  }

  /** Changing only scheduling fields leaves ownership alone. */
  lemma SchedulingKeepsMemInv(ts: seq<Task>, owner: map<int, int>, n: nat, bl: seq<Blk>, total: int, i: nat, t: Task)
    requires MemInv(ts, owner, n, bl, total) && i < |ts|
    requires t.Created() == ts[i].Created() && t.stackBase == ts[i].stackBase && t.heap.(total := 0) == ts[i].heap.(total := 0)
    ensures MemInv(ts[i := t], owner, n, bl, total)
  {
    var us := ts[i := t];
    CountUpdate(ts, i, t);
    forall p | p in owner
      ensures OwnedBy(us, owner, p)
    {
      assert OwnedBy(ts, owner, p);
    }
    forall j | 0 <= j < |us| && us[j].Created()
      ensures OwnsAt(us, owner, j)
    {
      assert OwnsAt(ts, owner, j);
    }
  }

  /** A created task owns exactly two live blocks of 1024 bytes, and its own heap is one of them. */
  lemma OwnsTwoBlocks(ts: seq<Task>, owner: map<int, int>, n: nat, bl: seq<Blk>, total: int, i: nat)
    requires MemInv(ts, owner, n, bl, total) && i < |ts| && ts[i].Created()
    ensures ts[i].Owned() <= Live(bl) && |ts[i].Owned()| == 2
    ensures forall p :: p in ts[i].Owned() ==> p in Live(bl) && bl[IndexOf(bl, p)].size == 1024
    ensures ts[i].heap.head in Live(bl) && ts[i].heap.max == bl[IndexOf(bl, ts[i].heap.head)].End()
  {
    var t := ts[i];
    assert t.Owned() == {t.stackBase} + {t.heap.head};
    assert OwnsAt(ts, owner, i);
  }

  /** No two tasks share a block. */
  lemma OwnersDisjoint(ts: seq<Task>, owner: map<int, int>, i: nat, j: nat)
    requires Owns(ts, owner) && i < |ts| && j < |ts| && i != j && ts[i].Created() && ts[j].Created()
    ensures ts[i].Owned() !! ts[j].Owned()
  {
    assert OwnsAt(ts, owner, i) && OwnsAt(ts, owner, j);
  }

  /** Nothing is allocated but what tasks own, and the running total is 2080 bytes per task. */
  lemma NothingElseAllocated(ts: seq<Task>, owner: map<int, int>, n: nat, bl: seq<Blk>, total: int)
    requires MemInv(ts, owner, n, bl, total)
    ensures forall p :: p in Live(bl) ==> exists k :: 0 <= k < |ts| && ts[k].Created() && p in ts[k].Owned()
    ensures total == 2080 * CreatedCount(ts)
  {
    forall p | p in Live(bl)
      ensures exists k :: 0 <= k < |ts| && ts[k].Created() && p in ts[k].Owned()
    {
      assert OwnedBy(ts, owner, p);
    }
  }

  // ---------------------------------------------------------------- the tasks' own heaps

  /** Memory holds the heap the descriptor names. */
  ghost predicate NestedAt(m: Words, d: HeapDesc, bl: seq<Blk>) {
    HeapAt(m, d.head, d.max, d.size, d.total, bl)
  }

  /** Every created task's own heap is in place, nested[i] being its list. */
  ghost predicate NestedOk(m: Words, ts: seq<Task>, nested: seq<seq<Blk>>) {
    |nested| == |ts| && forall i {:trigger nested[i]} :: 0 <= i < |ts| && ts[i].Created() ==> NestedAt(m, ts[i].heap, nested[i])
  }

  lemma NestedSameBytes(m: Words, n: Words, d: HeapDesc, bl: seq<Blk>)
    requires NestedAt(m, d, bl) && forall a :: d.head <= a < d.max ==> At(n, a) == At(m, a)
    ensures NestedAt(n, d, bl)
  {
    forall i | 0 <= i < |bl|
      ensures HeaderIs(n, bl, i)
    {
      assert HeaderIs(m, bl, i);
      AddrsPositive(bl, d.head, d.max, i);
    }
  }

  /** A task's heap spans the payload of one used global block. */
  lemma HeapBlock(ts: seq<Task>, owner: map<int, int>, bl: seq<Blk>, i: nat) returns (b: Blk)
    requires Owns(ts, owner) && owner.Keys <= Live(bl) && UsedSize(bl, 1024) && i < |ts| && ts[i].Created()
    ensures b in bl && b.used && b.Payload() == ts[i].heap.head && b.End() == ts[i].heap.max
  {
    assert OwnsAt(ts, owner, i);
    b := bl[IndexOf(bl, ts[i].heap.head)];
  }

  /** What an operation on the global heap does not name keeps the nested heaps in place. */
  lemma NestedKept(m: Words, n: Words, ts: seq<Task>, owner: map<int, int>, nested: seq<seq<Blk>>,
                   bl: seq<Blk>, cl: seq<Blk>, except: set<int>)
    requires Owns(ts, owner) && owner.Keys <= Live(bl) && UsedSize(bl, 1024) && NestedOk(m, ts, nested)
    requires KeepsUsed(m, n, bl, cl, except)
    requires forall i :: 0 <= i < |ts| && ts[i].Created() ==> ts[i].heap.head !in except
    ensures NestedOk(n, ts, nested)
  {
    forall i {:trigger nested[i]} | 0 <= i < |ts| && ts[i].Created()
      ensures NestedAt(n, ts[i].heap, nested[i])
    {
      var b := HeapBlock(ts, owner, bl, i);
      assert SameBytes(m, n, b);
      NestedSameBytes(m, n, ts[i].heap, nested[i]);
    }
  }

  lemma HeadsElsewhere(ts: seq<Task>, owner: map<int, int>, h: int)
    requires Owns(ts, owner) && h !in owner
    ensures forall i :: 0 <= i < |ts| && ts[i].Created() ==> ts[i].heap.head != h
  {
    forall i | 0 <= i < |ts| && ts[i].Created()
      ensures ts[i].heap.head != h
    {
      assert OwnsAt(ts, owner, i);
    }
  }

  /** Giving back task i's two blocks keeps every other task's heap. */
  lemma NestedWithout(m: Words, n: Words, ts: seq<Task>, owner: map<int, int>, nested: seq<seq<Blk>>,
                      bl: seq<Blk>, cl: seq<Blk>, i: nat)
    requires Owns(ts, owner) && owner.Keys <= Live(bl) && UsedSize(bl, 1024) && NestedOk(m, ts, nested)
    requires i < |ts| && ts[i].Created() && KeepsUsed(m, n, bl, cl, {ts[i].stackBase} + {ts[i].heap.head})
    ensures NestedOk(n, ts[i := ts[i].(state := NOT_CREATED)], nested)
  {
    forall j {:trigger nested[j]} | 0 <= j < |ts| && j != i && ts[j].Created()
      ensures NestedAt(n, ts[j].heap, nested[j])
    {
      OwnersDisjoint(ts, owner, i, j);
      var b := HeapBlock(ts, owner, bl, j);
      assert ts[j].heap.head in ts[j].Owned();
      assert SameBytes(m, n, b);
      NestedSameBytes(m, n, ts[j].heap, nested[j]);
    }
  }

  /** Writes inside task i's own heap reach no other task's heap, and not the global one's headers. */
  lemma OwnHeapWrites(m: Words, n: Words, ts: seq<Task>, owner: map<int, int>, nested: seq<seq<Blk>>,
                      bl: seq<Blk>, head: int, max: int, i: nat)
    requires Owns(ts, owner) && owner.Keys == Live(bl) && UsedSize(bl, 1024) && NestedOk(m, ts, nested)
    requires Wf(bl, head, max) && 0 < head && Rep(m, bl) && i < |ts| && ts[i].Created()
    requires forall a :: !(ts[i].heap.head <= a < ts[i].heap.max) ==> At(n, a) == At(m, a)
    ensures Rep(n, bl)
    ensures forall j :: 0 <= j < |ts| && j != i && ts[j].Created() ==> NestedAt(n, ts[j].heap, nested[j])
  {
    var b := HeapBlock(ts, owner, bl, i);
    var k :| 0 <= k < |bl| && bl[k] == b;
    PayloadWritesKeepRep(m, n, bl, k, head, max);
    forall j | 0 <= j < |ts| && j != i && ts[j].Created()
      ensures NestedAt(n, ts[j].heap, nested[j])
    {
      var c := HeapBlock(ts, owner, bl, j);
      var l :| 0 <= l < |bl| && bl[l] == c;
      OwnersDisjoint(ts, owner, i, j);
      PayloadsSeparate(bl, head, max, k, l);
      NestedSameBytes(m, n, ts[j].heap, nested[j]);
    }
  }

  /** Both blocks of task t hold what they held. */
  ghost predicate SameBlocks(m: Words, n: Words, t: Task) {
    && (forall a :: t.stackBase <= a < t.stackBase + STACK_INIT_SIZE ==> At(n, a) == At(m, a))
    && (forall a :: t.heap.head <= a < t.heap.max ==> At(n, a) == At(m, a))
  }

  /** So do those of every created task but the excepted ones. */
  ghost predicate TasksKeep(m: Words, n: Words, ts: seq<Task>, except: set<int>) {
    forall j {:trigger SameBlocks(m, n, ts[j])} :: 0 <= j < |ts| && ts[j].Created() && j !in except ==> SameBlocks(m, n, ts[j])
  }

  lemma TasksKeepThen(m: Words, n: Words, o: Words, ts: seq<Task>, except: set<int>)
    requires TasksKeep(m, n, ts, except) && TasksKeep(n, o, ts, except)
    ensures TasksKeep(m, o, ts, except)
  {
    forall j | 0 <= j < |ts| && ts[j].Created() && j !in except
      ensures SameBlocks(m, o, ts[j])
    {
      assert SameBlocks(m, n, ts[j]) && SameBlocks(n, o, ts[j]);
    }
  }

  /** What an operation on the global heap does not name keeps the blocks of the tasks that own none of it. */
  lemma TaskKept(m: Words, n: Words, ts: seq<Task>, owner: map<int, int>, bl: seq<Blk>, cl: seq<Blk>, except: set<int>, i: nat)
    requires Owns(ts, owner) && owner.Keys <= Live(bl) && UsedSize(bl, 1024) && KeepsUsed(m, n, bl, cl, except)
    requires i < |ts| && ts[i].Created() && ts[i].Owned() !! except
    ensures SameBlocks(m, n, ts[i])
  {
    var s := StackBlock(ts, owner, bl, i);
    var h := HeapBlock(ts, owner, bl, i);
    assert ts[i].stackBase in ts[i].Owned() && ts[i].heap.head in ts[i].Owned();
    assert SameBytes(m, n, s) && SameBytes(m, n, h);
  }

  lemma TasksKept(m: Words, n: Words, ts: seq<Task>, owner: map<int, int>, bl: seq<Blk>, cl: seq<Blk>, except: set<int>)
    requires Owns(ts, owner) && owner.Keys <= Live(bl) && UsedSize(bl, 1024) && KeepsUsed(m, n, bl, cl, except)
    requires except !! owner.Keys
    ensures TasksKeep(m, n, ts, {})
  {
    forall i | 0 <= i < |ts| && ts[i].Created()
      ensures SameBlocks(m, n, ts[i])
    {
      assert OwnsAt(ts, owner, i);
      TaskKept(m, n, ts, owner, bl, cl, except, i);
    }
  }

  /** Giving back task i's blocks. */
  lemma OtherTasksKept(m: Words, n: Words, ts: seq<Task>, owner: map<int, int>, bl: seq<Blk>, cl: seq<Blk>, i: nat)
    requires Owns(ts, owner) && owner.Keys <= Live(bl) && UsedSize(bl, 1024)
    requires i < |ts| && ts[i].Created() && KeepsUsed(m, n, bl, cl, ts[i].Owned())
    ensures TasksKeep(m, n, ts, {i})
  {
    forall j | 0 <= j < |ts| && ts[j].Created() && j != i
      ensures SameBlocks(m, n, ts[j])
    {
      OwnersDisjoint(ts, owner, i, j);
      TaskKept(m, n, ts, owner, bl, cl, ts[i].Owned(), j);
    }
  }

  /** Writes inside task i's own heap change no other task's blocks, and not its stack. */
  lemma OwnHeapBytes(m: Words, n: Words, ts: seq<Task>, owner: map<int, int>, bl: seq<Blk>, head: int, max: int, i: nat)
    requires Owns(ts, owner) && owner.Keys <= Live(bl) && UsedSize(bl, 1024) && Wf(bl, head, max) && 0 < head
    requires i < |ts| && ts[i].Created()
    requires forall a :: !(ts[i].heap.head <= a < ts[i].heap.max) ==> At(n, a) == At(m, a)
    ensures TasksKeep(m, n, ts, {i})
    ensures forall a :: ts[i].stackBase <= a < ts[i].stackBase + STACK_INIT_SIZE ==> At(n, a) == At(m, a)
  {
    var h := HeapBlock(ts, owner, bl, i);
    var s := StackBlock(ts, owner, bl, i);
    var k :| 0 <= k < |bl| && bl[k] == h;
    OthersKeepBytes(m, n, bl, head, max, k);
    assert OwnsAt(ts, owner, i);
    assert SameBytes(m, n, s);
    forall j | 0 <= j < |ts| && ts[j].Created() && j != i
      ensures SameBlocks(m, n, ts[j])
    {
      OwnersDisjoint(ts, owner, i, j);
      assert ts[i].heap.head in ts[i].Owned();
      TaskKept(m, n, ts, owner, bl, bl, {ts[i].heap.head}, j);
    }
  }

  /** Addresses task t may write: its stack, and the payloads it holds in its heap. */
  ghost predicate OwnMemory(t: Task, list: seq<Blk>, a: int) {
    t.stackBase <= a < t.stackBase + STACK_INIT_SIZE
    || exists k :: 0 <= k < |list| && list[k].used && list[k].Payload() <= a < list[k].End()
  }

  lemma StackBlock(ts: seq<Task>, owner: map<int, int>, bl: seq<Blk>, i: nat) returns (b: Blk)
    requires Owns(ts, owner) && owner.Keys <= Live(bl) && UsedSize(bl, 1024) && i < |ts| && ts[i].Created()
    ensures b in bl && b.used && b.Payload() == ts[i].stackBase && b.End() == ts[i].stackBase + STACK_INIT_SIZE
  {
    assert OwnsAt(ts, owner, i);
    b := bl[IndexOf(bl, ts[i].stackBase)];
  }

  /** A task's memory lies in its two blocks, away from the headers of its own heap. */
  lemma OwnMemoryIsOwn(ts: seq<Task>, owner: map<int, int>, bl: seq<Blk>, head: int, max: int, list: seq<Blk>, i: nat, a: int)
    requires Wf(bl, head, max) && 0 < head && Owns(ts, owner) && owner.Keys <= Live(bl) && UsedSize(bl, 1024)
    requires i < |ts| && ts[i].Created() && Wf(list, ts[i].heap.head, ts[i].heap.max) && 0 < ts[i].heap.head
    requires OwnMemory(ts[i], list, a)
    ensures ts[i].stackBase <= a < ts[i].stackBase + STACK_INIT_SIZE || ts[i].heap.head <= a < ts[i].heap.max
    ensures OutsideHeaders(bl, a) && OutsideHeaders(list, a)
  {
    var s := StackBlock(ts, owner, bl, i);
    var h := HeapBlock(ts, owner, bl, i);
    var j :| 0 <= j < |bl| && bl[j] == s;
    var k :| 0 <= k < |bl| && bl[k] == h;
    assert OwnsAt(ts, owner, i);
    PayloadsSeparate(bl, head, max, j, k);
    if s.Payload() <= a < s.End() {
      InsidePayload(bl, head, max, j, a);
      OutsideHeap(list, h.Payload(), h.End(), a);
    } else {
      var l :| 0 <= l < |list| && list[l].used && list[l].Payload() <= a < list[l].End();
      AddrsPositive(list, h.Payload(), h.End(), l);
      InsidePayload(bl, head, max, k, a);
      InsidePayload(list, h.Payload(), h.End(), l, a);
    }
  }

  /** Whether x lies in a payload held in a block from a on, by the headers. */
  predicate Holds(m: Words, a: int, x: int)
    decreases if a < TWO_32 then TWO_32 - a else 0
  {
    (UsedAt(m, a) != 0 && a + HEADER <= x < a + HEADER + SizeAt(m, a))
    || (var n := NextAt(m, a); a < n < TWO_32 && Holds(m, n, x))
  }

  lemma {:induction false} HoldsPayload(m: Words, bl: seq<Blk>, head: int, max: int, i: nat, x: int)
    requires Tiles(bl, head, max) && 0 < head && max < TWO_32 && Rep(m, bl) && i < |bl|
    ensures Holds(m, bl[i].addr, x) <==> exists k :: i <= k < |bl| && bl[k].used && bl[k].Payload() <= x < bl[k].End()
    decreases |bl| - i
  {
    NextLink(m, bl, i, head, max);
    AddrsPositive(bl, head, max, i);
    assert HeaderIs(m, bl, i);
    if i + 1 < |bl| {
      AddrsPositive(bl, head, max, i + 1);
      assert bl[i].End() == bl[i + 1].addr;
      HoldsPayload(m, bl, head, max, i + 1, x);
    }
  }

  /** A store into task i's memory reaches no other task's blocks. */
  lemma OwnStoreElsewhere(m: Words, v: int, ts: seq<Task>, owner: map<int, int>, bl: seq<Blk>, head: int, max: int,
                          list: seq<Blk>, i: nat, a: int)
    requires Wf(bl, head, max) && 0 < head && Owns(ts, owner) && owner.Keys <= Live(bl) && UsedSize(bl, 1024)
    requires i < |ts| && ts[i].Created() && Wf(list, ts[i].heap.head, ts[i].heap.max) && 0 < ts[i].heap.head
    requires OwnMemory(ts[i], list, a)
    ensures TasksKeep(m, m[a := v], ts, {i})
  {
    OwnMemoryIsOwn(ts, owner, bl, head, max, list, i, a);
    forall j | 0 <= j < |ts| && ts[j].Created() && j != i
      ensures SameBlocks(m, m[a := v], ts[j])
    {
      TasksApart(ts, owner, bl, head, max, i, j);
      assert InBlocks(ts[i], a) && !InBlocks(ts[j], a);
    }
  }

  /** Two tasks' blocks do not overlap. */
  lemma TasksApart(ts: seq<Task>, owner: map<int, int>, bl: seq<Blk>, head: int, max: int, i: nat, j: nat)
    requires Wf(bl, head, max) && 0 < head && Owns(ts, owner) && owner.Keys <= Live(bl) && UsedSize(bl, 1024)
    requires i < |ts| && j < |ts| && i != j && ts[i].Created() && ts[j].Created()
    ensures forall a :: InBlocks(ts[i], a) ==> !InBlocks(ts[j], a)
  {
    var s := StackBlock(ts, owner, bl, i);
    var h := HeapBlock(ts, owner, bl, i);
    var s' := StackBlock(ts, owner, bl, j);
    var h' := HeapBlock(ts, owner, bl, j);
    OwnersDisjoint(ts, owner, i, j);
    assert {s.Payload(), h.Payload()} == ts[i].Owned() && {s'.Payload(), h'.Payload()} == ts[j].Owned();
    UsedApart(bl, head, max, s, s');
    UsedApart(bl, head, max, s, h');
    UsedApart(bl, head, max, h, s');
    UsedApart(bl, head, max, h, h');
  }

  lemma UsedApart(bl: seq<Blk>, head: int, max: int, b: Blk, c: Blk)
    requires Wf(bl, head, max) && 0 < head && b in bl && c in bl && b.used && c.used && b.Payload() != c.Payload()
    ensures b.End() <= c.Payload() || c.End() <= b.Payload()
  {
    var p :| 0 <= p < |bl| && bl[p] == b;
    var q :| 0 <= q < |bl| && bl[q] == c;
    PayloadsSeparate(bl, head, max, p, q);
  }

  /** a lies in one of task t's two blocks. */
  predicate InBlocks(t: Task, a: int) {
    t.stackBase <= a < t.stackBase + STACK_INIT_SIZE || t.heap.head <= a < t.heap.max
  }

  lemma HeadersStay(m: Words, n: Words, bl: seq<Blk>)
    requires Rep(m, bl) && forall a :: At(n, a) != At(m, a) ==> OutsideHeaders(bl, a)
    ensures Rep(n, bl)
  {
    forall i | 0 <= i < |bl|
      ensures HeaderIs(n, bl, i)
    {
      assert HeaderIs(m, bl, i);
    }
  }

  /** A task that writes its own stack and the payloads it holds, and nothing else, leaves every heap in
      place: the global one, its own and every other task's. */
  lemma OwnWritesKeepAll(m: Words, n: Words, ts: seq<Task>, owner: map<int, int>, nested: seq<seq<Blk>>,
                         bl: seq<Blk>, head: int, max: int, i: nat)
    requires Wf(bl, head, max) && 0 < head && Rep(m, bl) && Owns(ts, owner) && owner.Keys <= Live(bl) && UsedSize(bl, 1024)
    requires NestedOk(m, ts, nested) && i < |ts| && ts[i].Created()
    requires forall a :: At(n, a) != At(m, a) ==> OwnMemory(ts[i], nested[i], a)
    ensures Rep(n, bl) && NestedOk(n, ts, nested)
  {
    forall a | At(n, a) != At(m, a)
      ensures OutsideHeaders(bl, a) && OutsideHeaders(nested[i], a)
    {
      OwnMemoryIsOwn(ts, owner, bl, head, max, nested[i], i, a);
    }
    HeadersStay(m, n, bl);
    HeadersStay(m, n, nested[i]);
    forall j {:trigger nested[j]} | 0 <= j < |ts| && j != i && ts[j].Created()
      ensures NestedAt(n, ts[j].heap, nested[j])
    {
      OtherHeapUnwritten(m, n, ts, owner, nested, bl, head, max, i, j);
      NestedSameBytes(m, n, ts[j].heap, nested[j]);
    }
  }

  lemma OtherHeapUnwritten(m: Words, n: Words, ts: seq<Task>, owner: map<int, int>, nested: seq<seq<Blk>>,
                           bl: seq<Blk>, head: int, max: int, i: nat, j: nat)
    requires Wf(bl, head, max) && 0 < head && Owns(ts, owner) && owner.Keys <= Live(bl) && UsedSize(bl, 1024)
    requires NestedOk(m, ts, nested) && i < |ts| && ts[i].Created() && j < |ts| && j != i && ts[j].Created()
    requires forall a :: At(n, a) != At(m, a) ==> OwnMemory(ts[i], nested[i], a)
    ensures forall a :: ts[j].heap.head <= a < ts[j].heap.max ==> At(n, a) == At(m, a)
  {
    var s := StackBlock(ts, owner, bl, i);
    var h := HeapBlock(ts, owner, bl, i);
    var b := HeapBlock(ts, owner, bl, j);
    var p :| 0 <= p < |bl| && bl[p] == s;
    var q :| 0 <= q < |bl| && bl[q] == h;
    var r :| 0 <= r < |bl| && bl[r] == b;
    OwnersDisjoint(ts, owner, i, j);
    PayloadsSeparate(bl, head, max, p, r);
    PayloadsSeparate(bl, head, max, q, r);
    forall a | ts[j].heap.head <= a < ts[j].heap.max
      ensures At(n, a) == At(m, a)
    {
      if At(n, a) != At(m, a) {
        OwnMemoryIsOwn(ts, owner, bl, head, max, nested[i], i, a);
      }
    }
  }

  /** The table after an operation on task i's own heap. */
  lemma OwnHeapChanged(m: Words, n: Words, ts: seq<Task>, owner: map<int, int>, count: nat, nested: seq<seq<Blk>>,
                       bl: seq<Blk>, head: int, max: int, total: int, i: nat, d: HeapDesc, list: seq<Blk>)
    requires MemInv(ts, owner, count, bl, total) && NestedOk(m, ts, nested)
    requires Wf(bl, head, max) && 0 < head && Rep(m, bl) && i < |ts| && ts[i].Created()
    requires d.(total := 0) == ts[i].heap.(total := 0) && NestedAt(n, d, list)
    requires forall a :: !(d.head <= a < d.max) ==> At(n, a) == At(m, a)
    ensures MemInv(ts[i := ts[i].(heap := d)], owner, count, bl, total) && Rep(n, bl)
    ensures NestedOk(n, ts[i := ts[i].(heap := d)], nested[i := list])
  {
    SchedulingKeepsMemInv(ts, owner, count, bl, total, i, ts[i].(heap := d));
    OwnHeapWrites(m, n, ts, owner, nested, bl, head, max, i);
  }

  /** After an operation on task i's own heap: other tasks' blocks, its stack and the payloads it holds,
      but for the excepted ones, have kept their bytes. */
  ghost predicate OwnStep(m: Words, n: Words, ts: seq<Task>, list: seq<Blk>, list': seq<Blk>, i: nat, except: set<int>)
    requires i < |ts|
  {
    && TasksKeep(m, n, ts, {i})
    && (forall a :: ts[i].stackBase <= a < ts[i].stackBase + STACK_INIT_SIZE ==> At(n, a) == At(m, a))
    && KeepsUsed(m, n, list, list', except)
  }

  /** alloc_heap's answer for a heap with this descriptor and list. */
  function HeapAnswer(d: HeapDesc, bl: seq<Blk>, n: Word): int {
    var k := Taken(bl, d.total, d.size, n);
    if k == |bl| then NULL else bl[k].Payload()
  }

  /** The list it leaves. */
  function AllocList(d: HeapDesc, bl: seq<Blk>, n: Word): seq<Blk> {
    var k := Taken(bl, d.total, d.size, n);
    if k == |bl| then bl else Carve(bl, k, Need(n))
  }

  /** The request makes a block its own successor. */
  predicate Corrupts(d: HeapDesc, bl: seq<Blk>, n: Word) {
    Need(n) == SELF_LINK && Taken(bl, d.total, d.size, n) < |bl|
  }

  /** The register file and pc a new task is entered with. */
  ghost predicate StartsAt(c: Context, stack: int, mstatus: Word, entry: Word) {
    c.mstatus == mstatus && c.pc == entry
    && forall i :: 0 <= i < 32 ==> c.regs[i] == if i == 2 then stack + STACK_INIT_SIZE else 0
  }

  ghost predicate NewTask(t: Task, id: int, priority: nat, mstatus: Word, entry: Word) {
    t.id == id && t.priority == priority && t.state == READY
    && t.slice == SCHED_QUANTUM_TICKS + priority * SCHED_PRIORITY_BONUS_TICKS
    && StartsAt(t.ctx, t.stackBase, mstatus, entry)
  }

  /** A failed creation may leave a new id and priority in one empty slot, nothing else. */
  ghost predicate SameButStamp(ts: seq<Task>, us: seq<Task>) {
    |ts| == |us| && forall i :: 0 <= i < |ts| ==> StampOnly(ts[i], us[i])
  }

  ghost predicate StampOnly(t: Task, u: Task) {
    t == u || (!t.Created() && u == t.(id := u.id, priority := u.priority))
  }

  lemma StampKeeps(m: Words, n: Words, ts: seq<Task>, us: seq<Task>)
    requires SameButStamp(ts, us) && TasksKeep(m, n, us, {})
    ensures TasksKeep(m, n, ts, {})
  {
    forall j | 0 <= j < |ts| && ts[j].Created()
      ensures SameBlocks(m, n, ts[j])
    {
      assert StampOnly(ts[j], us[j]) && SameBlocks(m, n, us[j]);
    }
  }

  lemma StampedIsSame(ts: seq<Task>, i: nat, id: int, priority: nat)
    requires i < |ts| && !ts[i].Created()
    ensures SameButStamp(ts, ts[i := ts[i].(id := id, priority := priority)])
  {
  }

  // ---------------------------------------------------------------- the table

  // ---------------------------------------------------------------- ids over runs

  datatype TableOp = Create(entry: Word, mstatus: Word, priority: nat) | Destroy(tid: int)

  const NO_ID := -1

  function Creations(ops: seq<TableOp>): nat {
    if ops == [] then 0 else Creations(ops[..|ops| - 1]) + if ops[|ops| - 1].Create? then 1 else 0
  }

  lemma {:induction false} CreationsSplit(ops: seq<TableOp>, n: nat)
    requires n <= |ops|
    ensures Creations(ops[..n]) <= Creations(ops)
    decreases |ops|
  {
    if n < |ops| {
      CreationsSplit(ops[..|ops| - 1], n);
      assert ops[..|ops| - 1][..n] == ops[..n];
    } else {
      assert ops[..n] == ops;
    }
  }

  lemma CreationsNext(ops: seq<TableOp>, n: nat)
    requires n < |ops|
    ensures Creations(ops[..n + 1]) == Creations(ops[..n]) + Creations([ops[n]]) <= Creations(ops)
  {
    assert ops[..n + 1][..n] == ops[..n] && [ops[n]][..0] == [];
    CreationsSplit(ops, n + 1);
  }

  /** Ids of created tasks name their slots and come from the first g stamps. */
  ghost predicate Aged(ts: seq<Task>, g: nat) {
    forall i :: 0 <= i < |ts| && ts[i].Created() ==> 0 <= ts[i].id < 256 * g && TaskSlot(ts[i].id) == i
  }

  /** The id names a created task. */
  ghost predicate Current(ts: seq<Task>, id: int) {
    exists i :: 0 <= i < |ts| && ts[i].Created() && ts[i].id == id
  }

  lemma StampAges(ts: seq<Task>, us: seq<Task>, g: nat, h: nat)
    requires Aged(ts, g) && g <= h && (us == ts || SameButStamp(ts, us))
    ensures Aged(us, h) && forall t :: Current(us, t) ==> Current(ts, t)
  {
    if us != ts {
      forall i | 0 <= i < |us| && us[i].Created()
        ensures us[i] == ts[i]
      {
        assert StampOnly(ts[i], us[i]);
      }
    }
  }

  lemma CreationAges(ts: seq<Task>, us: seq<Task>, slot: nat, g: nat)
    requires Aged(ts, g) && slot < |ts| == |us| <= MAX_TASKS && us == ts[slot := us[slot]] && us[slot].Created()
    requires us[slot].id == TaskId(slot, g)
    ensures Aged(us, g + 1) && 256 * g <= us[slot].id < 256 * (g + 1) && Current(us, us[slot].id)
    ensures forall t :: Current(us, t) ==> t == us[slot].id || Current(ts, t)
  {
  }

  lemma DestructionAges(ts: seq<Task>, us: seq<Task>, tid: int, x: int, g: nat)
    requires Aged(ts, g) && |ts| == MAX_TASKS
    requires x == var i := TaskSlot(tid); if i < MAX_TASKS && ts[i].id == tid then i else -1
    requires us == if x != -1 && ts[x].Created() then ts[x := ts[x].(state := NOT_CREATED)] else ts
    ensures Aged(us, g) && !Current(us, tid) && forall t :: Current(us, t) ==> Current(ts, t)
  {
    forall t | Current(us, t)
      ensures Current(ts, t)
    {
      var i :| 0 <= i < |us| && us[i].Created() && us[i].id == t;
      assert ts[i] == us[i];
    }
  }

  /** Ids given out rise, and come from stamps g up to h. */
  ghost predicate Rising(ids: seq<int>, g: nat, h: nat) {
    && (forall i :: 0 <= i < |ids| ==> ids[i] == NO_ID || 256 * g <= ids[i] < 256 * h)
    && forall i, j :: 0 <= i < j < |ids| && ids[i] != NO_ID && ids[j] != NO_ID ==> ids[i] < ids[j]
  }

  /** What has been destroyed, having been given out by these operations or before them, is gone. */
  ghost predicate Gone(us: seq<Task>, ts: seq<Task>, ops: seq<TableOp>, ids: seq<int>)
    requires |ids| <= |ops|
  {
    && (forall i, j :: 0 <= i < j < |ids| && ids[i] != NO_ID && ops[j] == Destroy(ids[i]) ==> !Current(us, ids[i]))
    && forall t, j :: 0 <= j < |ids| && Current(ts, t) && ops[j] == Destroy(t) ==> !Current(us, t)
  }

  lemma CurrentIsOld(ts: seq<Task>, g: nat)
    requires Aged(ts, g)
    ensures forall t :: Current(ts, t) ==> 0 <= t < 256 * g
  {
  }

  lemma GoneNext(us: seq<Task>, vs: seq<Task>, ts: seq<Task>, ops: seq<TableOp>, ids: seq<int>, id: int, g: nat, b: nat)
    requires |ids| < |ops| && Rising(ids, g, b) && Gone(us, ts, ops, ids) && Aged(ts, g) && g <= b
    requires id == NO_ID || 256 * b <= id
    requires forall t :: Current(vs, t) ==> t == id || Current(us, t)
    requires ops[|ids|].Destroy? ==> !Current(vs, ops[|ids|].tid)
    ensures Gone(vs, ts, ops, ids + [id])
  {
    CurrentIsOld(ts, g);
    var all := ids + [id];
    forall i, j | 0 <= i < j < |all| && all[i] != NO_ID && ops[j] == Destroy(all[i])
      ensures !Current(vs, all[i])
    {
      assert all[i] == ids[i];
    }
  }

  class Table {
    const ram: Ram
    const global: Heap
    var tasks: seq<Task>
    var current: nat
    var nTask: nat
    var gen: nat
    ghost var owner: map<int, int>
    ghost var nested: seq<seq<Blk>>

    ghost predicate Valid()
      reads this, ram, global
    {
      && global.ram == ram && global.Valid() && gen < GENERATIONS && current < MAX_TASKS
      && MemInv(tasks, owner, nTask, global.bl, global.total) && NestedOk(ram.w, tasks, nested)
    }

    constructor (ram: Ram, global: Heap)
      requires global.ram == ram && global.Valid() && global.total == 0 && global.bl == Initial(global.head, global.max)
      ensures Valid() && this.ram == ram && this.global == global
      ensures tasks == seq(MAX_TASKS, _ => EMPTY_TASK) && current == 0 && nTask == 0 && gen == 0
    {
      this.ram := ram;
      this.global := global;
      tasks := seq(MAX_TASKS, _ => EMPTY_TASK);
      current := 0;
      nTask := 0;
      gen := 0;
      owner := map[];
      nested := seq(MAX_TASKS, _ => []);
      new;
      CountNone(tasks);
      assert Live(global.bl) == {};
    }

    /** The slot a task id names, if the id is current there. */
    function Find(tid: int): (i: int)
      reads this
      requires |tasks| == MAX_TASKS
      ensures i == -1 || (0 <= i < MAX_TASKS && tasks[i].id == tid && TaskSlot(tid) == i)
    {
      var i := TaskSlot(tid);
      if i < MAX_TASKS && tasks[i].id == tid then i else -1
    }

    /** alloc_heap of one task block from the global heap. */
    method AllocBlock() returns (p: int, ghost k: nat)
      requires global.ram == ram && global.Valid() && UsedSize(global.bl, 1024) && global.total <= 15 * 1040
      modifies ram, global`bl, global`total
      ensures global.Valid() && UsedSize(global.bl, 1024)
      ensures if p == NULL then global.bl == old(global.bl) && global.total == old(global.total)
              else && k < |old(global.bl)| && Fits(old(global.bl)[k], 1024) && p == old(global.bl)[k].Payload()
                   && global.bl == Carve(old(global.bl), k, 1024) && global.total == old(global.total) + 1040
                   && p !in Live(old(global.bl)) && Live(global.bl) == Live(old(global.bl)) + {p}
      ensures KeepsUsed(old(ram.w), ram.w, old(global.bl), global.bl, {})
      ensures global.max - global.head >= 32768 ==> p != NULL
    {
      ghost var bl0 := global.bl;
      k := FirstFit(bl0, 1024);
      TaskBlockFacts(bl0, global.head, global.max);
      ghost var m := ram.w;
      p := global.Alloc(1024);
      OperationKeepsUsed(m, ram.w, bl0, global.bl, global.head, global.max, {});
    }

    /** alloc_heap for the stack, then for the heap; if the second fails the first is undone. */
    method AllocPair() returns (s: int, h: int)
      requires global.ram == ram && global.Valid() && UsedSize(global.bl, 1024) && global.total <= 14 * 1040
      modifies ram, global`bl, global`total
      ensures global.Valid() && UsedSize(global.bl, 1024)
      ensures (s == NULL) == (h == NULL)
      ensures s == NULL ==> global.bl == old(global.bl) && global.total == old(global.total)
      ensures s != NULL ==>
                && s !in Live(old(global.bl)) && h !in Live(old(global.bl)) && s != h
                && Live(global.bl) == Live(old(global.bl)) + {s, h} && global.total == old(global.total) + 2080
      ensures KeepsUsed(old(ram.w), ram.w, old(global.bl), global.bl, {})
      ensures global.max - global.head >= 32768 ==> s != NULL
    {
      ghost var bl0, m0 := global.bl, ram.w;
      ghost var k, k1;
      s, k := AllocBlock();
      h := NULL;
      if s != NULL {
        ghost var bl1, m1 := global.bl, ram.w;
        h, k1 := AllocBlock();
        KeepsUsedThen(m0, m1, ram.w, bl0, bl1, global.bl, {}, {});
        if h == NULL {
          UndoFirst(s, k, bl0, m0);
          s := NULL;
        }
      }
    }

    /** free_heap of a block just allocated. */
    method UndoFirst(s: int, ghost k: nat, ghost bl0: seq<Blk>, ghost m0: Words)
      requires global.ram == ram && global.Valid() && Wf(bl0, global.head, global.max) && UsedSize(bl0, 1024)
      requires k < |bl0| && Fits(bl0[k], 1024) && s == bl0[k].Payload() && s !in Live(bl0)
      requires global.bl == Carve(bl0, k, 1024) && KeepsUsed(m0, ram.w, bl0, global.bl, {})
      modifies ram, global`bl, global`total
      ensures global.Valid() && global.bl == bl0 && global.total == old(global.total) - 1040
      ensures KeepsUsed(m0, ram.w, bl0, bl0, {})
    {
      ghost var bl1, m1 := global.bl, ram.w;
      CarvePayloadValid(bl0, k, 1024, global.head, global.max);
      ReleaseUndoesCarve(bl0, k, 1024, global.head, global.max);
      var r := global.Free(s, k);
      OperationKeepsUsed(m1, ram.w, bl1, global.bl, global.head, global.max, {s});
      KeepsUsedThen(m0, m1, ram.w, bl0, bl1, bl0, {}, {s});
      assert forall b :: b in bl0 && b.used ==> b.Payload() in Live(bl0);
    }

    /** init_heap inside a block just allocated: exactly the block, and the global heap is untouched. */
    method InitNested(h: int) returns (d: HeapDesc)
      requires global.ram == ram && global.Valid() && h in Live(global.bl) && UsedSize(global.bl, 1024)
      modifies ram
      ensures global.Valid()
      ensures d == HeapDesc(h, h + HEAP_INIT_SIZE, HEAP_INIT_SIZE, 0)
      ensures forall a :: !(h <= a < h + HEADER) ==> At(ram.w, a) == At(old(ram.w), a)
      ensures NestedAt(ram.w, d, Initial(h, h + HEAP_INIT_SIZE))
      ensures KeepsUsed(old(ram.w), ram.w, global.bl, global.bl, {h})
    {
      ghost var k := IndexOf(global.bl, h);
      PayloadsValid(global.bl, global.head, global.max, k);
      AddrsPositive(global.bl, global.head, global.max, k);
      ghost var m := ram.w;
      AlignUpFacts(h);
      AlignUpFacts(h + HEAP_INIT_SIZE);
      var nested := new Heap(ram, h, HEAP_INIT_SIZE);
      d := HeapDesc(nested.head, nested.max, nested.size, nested.total);
      PayloadWritesKeepRep(m, ram.w, global.bl, k, global.head, global.max);
      OthersKeepBytes(m, ram.w, global.bl, global.head, global.max, k);
    }

    /** First slot with no task, or MAX_TASKS. */
    method FreeSlot() returns (slot: nat)
      requires |tasks| == MAX_TASKS && nTask == CreatedCount(tasks)
      ensures slot <= MAX_TASKS && (slot < MAX_TASKS ==> !tasks[slot].Created())
      ensures forall i :: 0 <= i < slot ==> tasks[i].Created()
      ensures nTask < MAX_TASKS ==> slot < MAX_TASKS
    {
      slot := 0;
      while slot < MAX_TASKS
        invariant slot <= MAX_TASKS && forall i :: 0 <= i < slot ==> tasks[i].Created()
      {
        if tasks[slot].state.NOT_CREATED? {
          return;
        }
        slot := slot + 1;
      }
      CountAll(tasks);
    }

    /** The context a task starts from: all registers zero but the stack pointer. */
    method InitialContext(s: int, mstatus: Word, entry: Word) returns (c: Context)
      requires 0 <= s + STACK_INIT_SIZE < 0x1_0000_0000
      ensures StartsAt(c, s, mstatus, entry)
    {
      var regs: RegFile := seq(32, _ => 0);
      for i := 0 to 32
        invariant forall j :: 0 <= j < i ==> regs[j] == 0
      {
        regs := regs[i := 0];
      }
      c := Context(regs[2 := s + STACK_INIT_SIZE], mstatus, entry);
    }

    /** Gives an empty slot its next id, before any memory is asked for. */
    method StampSlot(i: nat, priority: nat)
      requires Valid() && i < MAX_TASKS && !tasks[i].Created()
      modifies this`tasks, this`gen
      ensures Valid() && gen == (old(gen) + 1) % GENERATIONS
      ensures tasks == old(tasks)[i := old(tasks)[i].(id := TaskId(i, old(gen)), priority := priority)]
    {
      ghost var t1 := tasks[i].(id := TaskId(i, gen), priority := priority);
      SchedulingKeepsMemInv(tasks, owner, nTask, global.bl, global.total, i, t1);
      tasks := tasks[i := tasks[i].(id := TaskId(i, gen), priority := priority)];
      gen := (gen + 1) % GENERATIONS;
    }

    /** Fills a stamped slot once both blocks are in hand. */
    method InstallTask(i: nat, s: int, h: int, entry: Word, mstatus: Word)
      requires global.ram == ram && global.Valid() && gen < GENERATIONS && current < MAX_TASKS
      requires |tasks| == MAX_TASKS && nTask == CreatedCount(tasks) && Owns(tasks, owner) && UsedSize(global.bl, 1024)
      requires i < MAX_TASKS && !tasks[i].Created()
      requires s != h && s !in owner && h !in owner && owner.Keys + {s, h} == Live(global.bl)
      requires global.total == 2080 * (nTask + 1) && NestedOk(ram.w, tasks, nested)
      modifies this`tasks, this`nTask, this`owner, this`nested, ram
      ensures Valid() && nested == old(nested)[i := Initial(h, h + HEAP_INIT_SIZE)]
      ensures tasks[i].heap == HeapDesc(h, h + HEAP_INIT_SIZE, HEAP_INIT_SIZE, 0)
      ensures nTask == old(nTask) + 1
      ensures var t := tasks[i];
              && tasks == old(tasks)[i := t]
              && NewTask(t, old(tasks)[i].id, old(tasks)[i].priority, mstatus, entry) && t.Owned() == {s, h}
      ensures TasksKeep(old(ram.w), ram.w, old(tasks), {})
    {
      StackFits(global.bl, s, global.head, global.max);
      ghost var m := ram.w;
      var d := InitNested(h);
      HeadsElsewhere(tasks, owner, h);
      NestedKept(m, ram.w, tasks, owner, nested, global.bl, global.bl, {h});
      TasksKept(m, ram.w, tasks, owner, global.bl, global.bl, {h});
      var c := InitialContext(s, mstatus, entry);
      var priority := tasks[i].priority;
      var t := Task(c, tasks[i].id, s, d, priority, SCHED_QUANTUM_TICKS + priority * SCHED_PRIORITY_BONUS_TICKS, READY);
      CreateOwns(tasks, owner, i, t);
      CountUpdate(tasks, i, t);
      tasks := tasks[i := t];
      owner := owner[s := i][h := i];
      nested := nested[i := Initial(h, h + HEAP_INIT_SIZE)];
      nTask := nTask + 1;
    }

    /** Finds an empty slot and stamps it. */
    method PickSlot(priority: nat) returns (i: nat)
      requires Valid() && nTask != MAX_TASKS
      modifies this`tasks, this`gen
      ensures Valid() && nTask < MAX_TASKS && i < MAX_TASKS && !old(tasks)[i].Created()
      ensures forall j :: 0 <= j < i ==> old(tasks)[j].Created()
      ensures SameButStamp(old(tasks), tasks) && gen == (old(gen) + 1) % GENERATIONS
      ensures tasks == old(tasks)[i := old(tasks)[i].(id := TaskId(i, old(gen)), priority := priority)]
    {
      CountAtMost(tasks);
      i := FreeSlot();
      StampedIsSame(tasks, i, TaskId(i, gen), priority);
      StampSlot(i, priority);
    }

    /** Memory and start state for a stamped slot. */
    method FurnishTask(i: nat, entry: Word, mstatus: Word) returns (ok: bool)
      requires Valid() && i < MAX_TASKS && !tasks[i].Created() && nTask < MAX_TASKS
      modifies this`tasks, this`nTask, this`owner, this`nested, ram, global`bl, global`total
      ensures Valid()
      ensures !ok ==> nTask == old(nTask) && global.bl == old(global.bl) && tasks == old(tasks)
      ensures ok ==>
                && nTask == old(nTask) + 1
                && var t := tasks[i];
                && tasks == old(tasks)[i := t]
                && NewTask(t, old(tasks)[i].id, old(tasks)[i].priority, mstatus, entry)
                && Live(global.bl) == Live(old(global.bl)) + t.Owned()
      ensures TasksKeep(old(ram.w), ram.w, old(tasks), {})
      ensures global.max - global.head >= 32768 ==> ok
    {
      ghost var bl0, m0, ts := global.bl, ram.w, tasks;
      var s, h := AllocPair();
      NestedKept(m0, ram.w, tasks, owner, nested, bl0, global.bl, {});
      TasksKept(m0, ram.w, tasks, owner, bl0, global.bl, {});
      ok := s != NULL;
      if ok {
        ghost var m1 := ram.w;
        InstallTask(i, s, h, entry, mstatus);
        TasksKeepThen(m0, m1, ram.w, ts, {});
      }
    }

    /** create_task. A failure leaves the list of the global heap as it was; no created task's stack or
        heap changes in any case; with a 32 KiB heap it only fails when every slot is taken. */
    method CreateTask(entry: Word, mstatus: Word, priority: nat) returns (slot: int)
      requires Valid()
      modifies this`tasks, this`nTask, this`gen, this`owner, this`nested, ram, global`bl, global`total
      ensures Valid()
      ensures -1 <= slot < MAX_TASKS
      ensures slot == -1 ==>
                && nTask == old(nTask) && global.bl == old(global.bl)
                && (tasks == old(tasks) || SameButStamp(old(tasks), tasks))
      ensures slot >= 0 ==>
                && !old(tasks)[slot].Created() && (forall j :: 0 <= j < slot ==> old(tasks)[j].Created())
                && nTask == old(nTask) + 1 <= MAX_TASKS
                && var t := tasks[slot];
                && tasks == old(tasks)[slot := t]
                && NewTask(t, TaskId(slot, old(gen)), priority, mstatus, entry)
                && Live(global.bl) == Live(old(global.bl)) + t.Owned()
      ensures gen == if old(nTask) == MAX_TASKS then old(gen) else (old(gen) + 1) % GENERATIONS
      ensures TasksKeep(old(ram.w), ram.w, old(tasks), {})
      ensures global.max - global.head >= 32768 ==> (slot == -1 <==> old(nTask) == MAX_TASKS)
    {
      slot := -1;
      if nTask == MAX_TASKS {
        return;
      }
      ghost var ts0 := tasks;
      var i := PickSlot(priority);
      ghost var m, ts1 := ram.w, tasks;
      var ok := FurnishTask(i, entry, mstatus);
      StampKeeps(m, ram.w, ts0, ts1);
      if ok {
        assert tasks == ts0[i := tasks[i]];
        slot := i;
      }
    }

    /** destroy_task: frees the stack by its base and the heap by its head. */
    method DestroyTask(tid: int)
      requires Valid()
      modifies this`tasks, this`nTask, this`owner, ram, global`bl, global`total
      ensures Valid()
      ensures var i := old(Find(tid));
              if i != -1 && old(tasks)[i].Created() then
                && tasks == old(tasks)[i := old(tasks)[i].(state := NOT_CREATED)] && nTask == old(nTask) - 1
                && Live(global.bl) == Live(old(global.bl)) - old(tasks)[i].Owned()
                && TasksKeep(old(ram.w), ram.w, old(tasks), {i})
              else tasks == old(tasks) && nTask == old(nTask) && global.bl == old(global.bl) && ram.w == old(ram.w)
    {
      var i := Find(tid);
      if i != -1 && !tasks[i].state.NOT_CREATED? {
        var t := tasks[i];
        CountUpdate(tasks, i, t.(state := NOT_CREATED));
        DestroyOwns(tasks, owner, i);
        FreePair(t.stackBase, t.heap.head, i);
        tasks := tasks[i := t.(state := NOT_CREATED)];
        nTask := nTask - 1;
        owner := owner - t.Owned();
      }
    }

    /** Both blocks of task i. */
    method FreePair(s: int, h: int, ghost i: nat)
      requires Valid() && i < MAX_TASKS && tasks[i].Created() && s == tasks[i].stackBase && h == tasks[i].heap.head
      modifies ram, global`bl, global`total
      ensures global.Valid() && UsedSize(global.bl, 1024) && global.total == old(global.total) - 2080
      ensures Live(global.bl) == Live(old(global.bl)) - {s} - {h}
      ensures NestedOk(ram.w, tasks[i := tasks[i].(state := NOT_CREATED)], nested)
      ensures TasksKeep(old(ram.w), ram.w, tasks, {i})
    {
      assert OwnsAt(tasks, owner, i);
      ghost var bl0, m0 := global.bl, ram.w;
      FreeOwned(s);
      ghost var bl1, m1 := global.bl, ram.w;
      FreeOwned(h);
      KeepsUsedThen(m0, m1, ram.w, bl0, bl1, global.bl, {s}, {h});
      NestedWithout(m0, ram.w, tasks, owner, nested, bl0, global.bl, i);
      assert {s} + {h} == tasks[i].Owned();
      OtherTasksKept(m0, ram.w, tasks, owner, bl0, global.bl, i);
    }

    /** free_heap of a live task block. */
    method FreeOwned(p: int)
      requires global.ram == ram && global.Valid() && UsedSize(global.bl, 1024) && p in Live(global.bl)
      modifies ram, global`bl, global`total
      ensures global.Valid() && UsedSize(global.bl, 1024)
      ensures Live(global.bl) == Live(old(global.bl)) - {p} && global.total == old(global.total) - 1040
      ensures KeepsUsed(old(ram.w), ram.w, old(global.bl), global.bl, {p})
    {
      ghost var k := IndexOf(global.bl, p);
      PayloadsValid(global.bl, global.head, global.max, k);
      ReleaseKeepsUsedSize(global.bl, k, 1024, global.head, global.max);
      ReleaseLive(global.bl, k, global.head, global.max);
      ghost var bl0, m := global.bl, ram.w;
      var r := global.Free(p, k);
      OperationKeepsUsed(m, ram.w, bl0, global.bl, global.head, global.max, {p});
    }

    // -------------------------------------------------------------- creations and destructions

    /** One operation, and the id it gives out. g counts the stamps before it, h those after. */
    method Perform(op: TableOp, ghost g: nat) returns (id: int, ghost h: nat)
      requires Valid() && gen == g % GENERATIONS && Aged(tasks, g) && g + Creations([op]) <= GENERATIONS
      modifies this`tasks, this`nTask, this`gen, this`owner, this`nested, ram, global`bl, global`total
      ensures Valid() && gen == h % GENERATIONS && Aged(tasks, h) && g <= h <= g + Creations([op])
      ensures id == NO_ID || 256 * g <= id < 256 * h
      ensures forall t :: Current(tasks, t) ==> t == id || Current(old(tasks), t)
      ensures id != NO_ID ==> Current(tasks, id)
      ensures op.Destroy? ==> !Current(tasks, op.tid)
    {
      ghost var ts := tasks;
      id := NO_ID;
      assert [op][..0] == [];
      match op
      case Create(entry, mstatus, priority) =>
        h := if nTask == MAX_TASKS then g else g + 1;
        var slot := CreateTask(entry, mstatus, priority);
        if slot == -1 {
          StampAges(ts, tasks, g, h);
        } else {
          id := tasks[slot].id;
          CreationAges(ts, tasks, slot, g);
        }
      case Destroy(tid) =>
        h := g;
        ghost var i := Find(tid);
        DestroyTask(tid);
        DestructionAges(ts, tasks, tid, i, g);
    }

    /** Any number of creations, failed ones included, and destructions. As long as no more than 65536 slots
        are stamped in all, every id given out is greater than all before it, and an id that has been
        destroyed once never names a created task again. */
    method PerformAll(ops: seq<TableOp>, ghost g: nat) returns (ids: seq<int>)
      requires Valid() && gen == g % GENERATIONS && Aged(tasks, g) && g + Creations(ops) <= GENERATIONS
      modifies this`tasks, this`nTask, this`gen, this`owner, this`nested, ram, global`bl, global`total
      ensures Valid() && |ids| == |ops|
      ensures forall i, j :: 0 <= i < j < |ops| && ids[i] != NO_ID && ids[j] != NO_ID ==> ids[i] < ids[j]
      ensures forall t, i :: 0 <= i < |ops| && ids[i] != NO_ID && Current(old(tasks), t) ==> t < ids[i]
      ensures forall i, j :: 0 <= i < j < |ops| && ids[i] != NO_ID && ops[j] == Destroy(ids[i]) ==> !Current(tasks, ids[i])
      ensures forall t, j :: 0 <= j < |ops| && Current(old(tasks), t) && ops[j] == Destroy(t) ==> !Current(tasks, t)
    {
      ghost var h: nat := g;
      ghost var ts := tasks;
      ids := [];
      assert ops[..0] == [];
      for n := 0 to |ops|
        invariant Valid() && gen == h % GENERATIONS && Aged(tasks, h) && g <= h <= g + Creations(ops[..n])
        invariant |ids| == n && Rising(ids, g, h) && Gone(tasks, ts, ops, ids)
      {
        CreationsNext(ops, n);
        ghost var before, b := tasks, h;
        var id;
        id, h := Perform(ops[n], h);
        GoneNext(before, tasks, ts, ops, ids, id, g, b);
        ids := ids + [id];
      }
      assert ops[..|ops|] == ops;
      CurrentIsOld(ts, g);
    }

    // -------------------------------------------------------------- a task's own heap

    /** alloc_heap on the heap of task i. Unless it makes a block its own successor, the whole table stays
        in place: a task's allocations reach no other task, and not the global heap. */
    method TaskAlloc(i: nat, n: Word) returns (p: int)
      requires Valid() && i < MAX_TASKS && tasks[i].Created()
      modifies this`tasks, this`nested, ram
      ensures p == HeapAnswer(old(tasks)[i].heap, old(nested)[i], n)
      ensures !Corrupts(old(tasks)[i].heap, old(nested)[i], n) ==>
                && Valid() && global.bl == old(global.bl)
                && nested == old(nested)[i := AllocList(old(tasks)[i].heap, old(nested)[i], n)]
                && tasks == old(tasks)[i := old(tasks)[i].(heap := old(tasks)[i].heap.(total := tasks[i].heap.total))]
                && OwnStep(old(ram.w), ram.w, old(tasks), old(nested)[i], nested[i], i, {})
    {
      ghost var ts, m, l0 := tasks, ram.w, nested[i];
      var t := tasks[i];
      var heap := new Heap.Attach(ram, t.heap.head, t.heap.max, t.heap.size, t.heap.total, l0);
      p := heap.Alloc(n);
      tasks := tasks[i := t.(heap := t.heap.(total := heap.total))];
      nested := nested[i := heap.bl];
      if !Corrupts(t.heap, l0, n) {
        OwnHeapChanged(m, ram.w, ts, owner, nTask, old(nested), global.bl, global.head, global.max, global.total, i, tasks[i].heap, heap.bl);
        OwnHeapBytes(m, ram.w, ts, owner, global.bl, global.head, global.max, i);
        OperationKeepsUsed(m, ram.w, l0, heap.bl, t.heap.head, t.heap.max, {});
      }
    }

    /** free_heap on the heap of task i. */
    method TaskFree(i: nat, p: int, ghost k: nat) returns (r: FreeOutcome)
      requires Valid() && i < MAX_TASKS && tasks[i].Created()
      requires ValidPtr(tasks[i].heap.head, tasks[i].heap.max, p) ==> k < |nested[i]| && nested[i][k].Payload() == p
      modifies this`tasks, this`nested, ram
      ensures r == if !ValidPtr(old(tasks)[i].heap.head, old(tasks)[i].heap.max, p) then PANIC_INVALID_POINTER
                   else if !old(nested)[i][k].used then PANIC_DOUBLE_FREE else FREED
      ensures Valid() && global.bl == old(global.bl)
      ensures nested == if r.FREED? then old(nested)[i := Release(old(nested)[i], k)] else old(nested)
      ensures tasks == old(tasks)[i := old(tasks)[i].(heap := old(tasks)[i].heap.(total := tasks[i].heap.total))]
      ensures OwnStep(old(ram.w), ram.w, old(tasks), old(nested)[i], nested[i], i, {p})
    {
      ghost var ts, m, l0 := tasks, ram.w, nested[i];
      var t := tasks[i];
      var heap := new Heap.Attach(ram, t.heap.head, t.heap.max, t.heap.size, t.heap.total, l0);
      r := heap.Free(p, k);
      tasks := tasks[i := t.(heap := t.heap.(total := heap.total))];
      nested := nested[i := heap.bl];
      OwnHeapChanged(m, ram.w, ts, owner, nTask, old(nested), global.bl, global.head, global.max, global.total, i, tasks[i].heap, heap.bl);
      OwnHeapBytes(m, ram.w, ts, owner, global.bl, global.head, global.max, i);
      OperationKeepsUsed(m, ram.w, l0, heap.bl, t.heap.head, t.heap.max, {p});
    }

    /** A pointer into another task's stack or heap never passes the check of task i's heap. */
    lemma ForeignPointer(i: nat, j: nat, p: int)
      requires Valid() && i < MAX_TASKS && j < MAX_TASKS && i != j && tasks[i].Created() && tasks[j].Created()
      requires InBlocks(tasks[j], p)
      ensures !ValidPtr(tasks[i].heap.head, tasks[i].heap.max, p)
    {
      TasksApart(tasks, owner, global.bl, global.head, global.max, i, j);
      assert !InBlocks(tasks[i], p);
    }

    /** A store by task i. It succeeds exactly in the task's own memory; nothing else is touched. */
    method TaskStore(i: nat, a: int, v: int) returns (ok: bool)
      requires Valid() && i < MAX_TASKS && tasks[i].Created()
      modifies ram
      ensures Valid()
      ensures ok <==> OwnMemory(tasks[i], nested[i], a)
      ensures ram.w == if ok then old(ram.w)[a := v] else old(ram.w)
      ensures TasksKeep(old(ram.w), ram.w, tasks, {i})
    {
      var t := tasks[i];
      HoldsPayload(ram.w, nested[i], t.heap.head, t.heap.max, 0, a);
      ok := t.stackBase <= a < t.stackBase + STACK_INIT_SIZE || Holds(ram.w, t.heap.head, a);
      if ok {
        OwnStoreElsewhere(ram.w, v, tasks, owner, global.bl, global.head, global.max, nested[i], i, a);
        OwnWritesKeepAll(ram.w, ram.w[a := v], tasks, owner, nested, global.bl, global.head, global.max, i);
        ram.Put(a, v);
      }
    }

    // -------------------------------------------------------------- scheduling fields

    /** set_current_task, past its panic. */
    method SetCurrent(i: nat)
      requires Valid() && i < MAX_TASKS && tasks[i].state == READY
      modifies this`current
      ensures Valid() && current == i
    {
      current := i;
    }

    /** Every set_task_... function: rewrites one task's scheduling fields. */
    method Update(i: nat, t: Task)
      requires Valid() && i < MAX_TASKS
      requires t.Created() == tasks[i].Created() && t.stackBase == tasks[i].stackBase && t.heap == tasks[i].heap
      modifies this`tasks
      ensures Valid() && tasks == old(tasks)[i := t]
    {
      SchedulingKeepsMemInv(tasks, owner, nTask, global.bl, global.total, i, t);
      tasks := tasks[i := t];
    }
  }

  /** Writes inside one payload change no other. */
  lemma OthersKeepBytes(m: Words, n: Words, bl: seq<Blk>, head: int, max: int, k: nat)
    requires Wf(bl, head, max) && 0 < head && k < |bl| && bl[k].used
    requires forall a :: !(bl[k].Payload() <= a < bl[k].End()) ==> At(n, a) == At(m, a)
    ensures KeepsUsed(m, n, bl, bl, {bl[k].Payload()})
  {
    forall b | b in bl && b.used && b.Payload() != bl[k].Payload()
      ensures SameBytes(m, n, b)
    {
      var i :| 0 <= i < |bl| && bl[i] == b;
      PayloadsSeparate(bl, head, max, i, k);
    }
  }

  /** What alloc_heap does with a request for one task block. */
  lemma TaskBlockFacts(bl: seq<Blk>, head: int, max: int)
    requires Wf(bl, head, max) && 0 < head && max < TWO_32 && UsedSize(bl, 1024) && UsedBytes(bl) <= 15 * 1040
    ensures var k := FirstFit(bl, 1024);
            && Need(1024) == 1024 && Taken(bl, UsedBytes(bl), max - head, 1024) == k
            && (max - head >= 32768 ==> k < |bl|)
            && (k < |bl| ==> UsedSize(Carve(bl, k, 1024), 1024)
                             && Live(Carve(bl, k, 1024)) == Live(bl) + {bl[k].Payload()}
                             && bl[k].Payload() !in Live(bl) && bl[k].Payload() != NULL)
  {
    TaskBlockTaken(bl, head, max);
    if FirstFit(bl, 1024) < |bl| {
      TaskBlockCarved(bl, FirstFit(bl, 1024), head, max);
    }
  }

  lemma TaskBlockTaken(bl: seq<Blk>, head: int, max: int)
    requires Wf(bl, head, max) && 0 < head && max < TWO_32 && UsedSize(bl, 1024) && UsedBytes(bl) <= 15 * 1040
    ensures Need(1024) == 1024 && Taken(bl, UsedBytes(bl), max - head, 1024) == FirstFit(bl, 1024)
    ensures max - head >= 32768 ==> FirstFit(bl, 1024) < |bl|
  {
    assert AlignUp(1024) == 1024;
    SmallRequests(bl, head, max, 1024);
    if max - head >= 32768 {
      RoomForOneMore(bl, head, max);
    }
  }

  lemma TaskBlockCarved(bl: seq<Blk>, k: nat, head: int, max: int)
    requires Wf(bl, head, max) && 0 < head && UsedSize(bl, 1024) && k < |bl| && Fits(bl[k], 1024)
    ensures UsedSize(Carve(bl, k, 1024), 1024) && Live(Carve(bl, k, 1024)) == Live(bl) + {bl[k].Payload()}
    ensures bl[k].Payload() !in Live(bl) && bl[k].Payload() != NULL
  {
    SplitKeepsUsedSize(bl, k, 1024);
    CarveLive(bl, k, 1024);
    FreshPayload(bl, k, head, max);
  }

  /** The payload of a free block is not live. */
  lemma FreshPayload(bl: seq<Blk>, k: nat, head: int, max: int)
    requires Tiles(bl, head, max) && 0 < head && k < |bl| && !bl[k].used
    ensures bl[k].Payload() !in Live(bl) && bl[k].Payload() != NULL
  {
    AddrsPositive(bl, head, max, k);
    if bl[k].Payload() in Live(bl) {
      PayloadsDistinct(bl, head, max, IndexOf(bl, bl[k].Payload()), k);
    }
  }

  lemma CarvePayloadValid(bl: seq<Blk>, k: nat, need: nat, head: int, max: int)
    requires Wf(bl, head, max) && 0 < head && k < |bl| && Fits(bl[k], need) && need % 16 == 0
    ensures ValidPtr(head, max, bl[k].Payload()) && Carve(bl, k, need)[k].used
    ensures Carve(bl, k, need)[k].Payload() == bl[k].Payload()
  {
    CarveWf(bl, k, need, head, max);
    PayloadsValid(Carve(bl, k, need), head, max, k);
  }

  lemma StackFits(bl: seq<Blk>, s: int, head: int, max: int)
    requires Wf(bl, head, max) && 0 < head && max < 0x1_0000_0000 && s in Live(bl) && UsedSize(bl, 1024)
    ensures 0 <= s && s + 1024 < 0x1_0000_0000
  {
    PayloadsValid(bl, head, max, IndexOf(bl, s));
    AddrsPositive(bl, head, max, IndexOf(bl, s));
  }
}

/** kernel_main: the two tasks the kernel boots with, and what their priorities lead to (kernel.c). */
module Boot {
  import opened Width
  import opened HeapList
  import opened KernelHeap
  import opened TaskTable
  import opened ReadyQueue
  import opened Rotas
  import opened Scheduler
  import opened Traps
  import Clint

  const GLOBAL_HEAP_SIZE := 32768
  const IDLE_PRIORITY := 0
  const USER_PRIORITY := 50

  /** The idle task waits in slot 0, the user task runs in slot 1, and no interrupt is enabled. */
  ghost predicate Booted(s: Snap) {
    && s.c == 1 && s.ready == [0] && s.mie == {} && s.linked && (forall i: Slot :: !s.b[i].blocked)
    && s.ts[0].priority == IDLE_PRIORITY && s.ts[1].priority == USER_PRIORITY
    && s.ts[0].id == 0 && s.ts[1].id == 257
    && s.ts[1].slice == SCHED_QUANTUM_TICKS + USER_PRIORITY && s.live == s.ts[1].ctx
  }

  lemma GlobalHeapFits(base: nat)
    ensures AlignUp(base + GLOBAL_HEAP_SIZE) == AlignUp(base) + GLOBAL_HEAP_SIZE
  {
  }

  /** A queue of one is always linked. */
  lemma AloneIsLinked(e: Entries, s: seq<int>)
    requires Slots(s) && Sound(e, s) && |s| == 1
    ensures Backward(e, s)
  {
  }

  /** A task as create_task leaves it. */
  ghost predicate Spawned(t: Task, id: int, priority: nat, entry: Word) {
    t.state == READY && t.id == id && t.priority == priority && t.ctx.pc == entry
    && t.slice == SCHED_QUANTUM_TICKS + priority
  }

  /** Both tasks are ready, the user task first; idle's prev link is missing. */
  ghost predicate BothSpawned(ts: Tasks, s: seq<int>, idle: Word, user: Word) {
    && Spawned(ts[0], 0, IDLE_PRIORITY, idle) && Spawned(ts[1], 257, USER_PRIORITY, user)
    && (forall i :: 2 <= i < MAX_TASKS ==> !ts[i].Created()) && s == [1, 0]
  }

  /** The first spawn takes slot 0 and starts the queue. */
  method SpawnIdle(k: Kernel, entry: Word, mstatus: Word)
    requires k.Valid() && k.queue.s == [] && k.table.nTask == 0 && k.table.gen == 0
    requires k.table.global.max - k.table.global.head >= 32768 && forall i :: 0 <= i < MAX_TASKS ==> !k.table.tasks[i].Created()
    modifies k.table, k.table.ram, k.table.global, k.queue
    ensures k.Valid() && k.queue.s == [0] && k.table.nTask == 1 && k.table.gen == 1
    ensures Spawned(k.table.tasks[0], 0, IDLE_PRIORITY, entry)
    ensures forall i :: 1 <= i < MAX_TASKS ==> !k.table.tasks[i].Created()
  {
    ghost var ts := k.table.tasks;
    var t := k.Spawn(entry, mstatus, IDLE_PRIORITY);
    FirstFree(ts, 0, t);
  }

  /** The second takes slot 1 and is pushed in front. */
  method SpawnUser(k: Kernel, idle: Word, entry: Word, mstatus: Word) returns (t: int)
    requires k.Valid() && k.queue.s == [0] && k.table.nTask == 1 && k.table.gen == 1
    requires Spawned(k.table.tasks[0], 0, IDLE_PRIORITY, idle)
    requires k.table.global.max - k.table.global.head >= 32768 && forall i :: 1 <= i < MAX_TASKS ==> !k.table.tasks[i].Created()
    modifies k.table, k.table.ram, k.table.global, k.queue
    ensures k.Valid() && t == 1 && BothSpawned(k.table.tasks, k.queue.s, idle, entry)
  {
    ghost var ts := k.table.tasks;
    t := k.Spawn(entry, mstatus, USER_PRIORITY);
    FirstFree(ts, 1, t);
    PushedInFront(Priorities(k.table.tasks));
  }

  /** The first slot with no task is taken. */
  lemma FirstFree(ts: seq<Task>, n: nat, slot: nat)
    requires n < |ts| && slot < |ts| && !ts[n].Created() && !ts[slot].Created()
    requires (forall j :: 0 <= j < n ==> ts[j].Created()) && forall j :: 0 <= j < slot ==> ts[j].Created()
    ensures slot == n
  {
  }

  lemma PushedInFront(p: Prios)
    requires Prio(p, 0) == IDLE_PRIORITY && Prio(p, 1) == USER_PRIORITY
    ensures Insert([0], Position([0], p, 1), 1) == [1, 0]
  {
  }

  /** start_schedule of the user task. */
  method StartUser(k: Kernel, ghost idle: Word, ghost user: Word)
    requires k.Valid() && BothSpawned(k.table.tasks, k.queue.s, idle, user)
    modifies k`live, k.table`tasks, k.table`current, k.queue
    ensures k.Valid() && OneRuns(k.table.tasks, k.table.current) && k.table.current == 1 && k.queue.s == [0]
    ensures k.queue.Linked() && k.live == k.table.tasks[1].ctx
    ensures k.table.tasks == old(k.table.tasks)[1 := old(k.table.tasks)[1].(state := RUNNING)]
  {
    ghost var at;
    var ok;
    assert Without([1, 0], 0) == [0];
    assert k.queue.e[k.queue.s[0]].prev == PrevIn(k.queue.s, 0);
    ok, at := k.Start(k.table.tasks[1].id);
    AloneIsLinked(k.queue.e, k.queue.s);
  }

  /** From init_heap on fresh memory, through both spawns, the first deadline and the start of the user
      task, to the first instruction of user code: the kernel's state is sound, priorities 0 and 50
      included, and the deadline is one tick after the time read. */
  method KernelMain(ram: Ram, base: nat, idle: Word, user: Word, idleStatus: Word, userStatus: Word,
                    bus: Clint.Bus, at: nat -> nat) returns (h: Handler, ghost last: nat)
    requires 0 < base && base + GLOBAL_HEAP_SIZE + 15 < TWO_32
    requires Clint.InOrder(at) && bus.t.pre <= Clint.PRESCALER && Clint.TwoAttemptsInTime(bus.t, at, 0)
    modifies ram, bus
    ensures h.Valid() && Booted(h.Now()) && InOrder(h.Now().Sched()) && Top(h.Now().Sched())
    ensures h.bus == bus && bus.t.cmp == (Clint.After(old(bus.t), at(last + 1)).mtime + TICK_LENGTH) % TWO_64
    ensures h.Now().live.pc == user && h.Now().ts[0].ctx.pc == idle
  {
    var k := SpawnBoth(ram, base, idle, user, idleStatus, userStatus);
    last := FirstDeadline(bus, at);
    StartUser(k, idle, user);
    h := new Handler(k, bus);
    BootedNow(h, idle, user);
  }

  /** The deadline one tick from now. */
  method FirstDeadline(bus: Clint.Bus, at: nat -> nat) returns (ghost last: nat)
    requires Clint.InOrder(at) && bus.t.pre <= Clint.PRESCALER && Clint.TwoAttemptsInTime(bus.t, at, 0)
    modifies bus
    ensures bus.t.cmp == (Clint.After(old(bus.t), at(last + 1)).mtime + TICK_LENGTH) % TWO_64
  {
    var now;
    now, last := bus.GetTime(at, 0, bus.t, 0);
    ghost var half := bus.SetTimecmp((now + TICK_LENGTH) % TWO_64);
  }

  /** init_heap and both spawns. */
  method SpawnBoth(ram: Ram, base: nat, idle: Word, user: Word, idleStatus: Word, userStatus: Word) returns (k: Kernel)
    requires 0 < base && base + GLOBAL_HEAP_SIZE + 15 < TWO_32
    modifies ram
    ensures fresh(k) && fresh(k.table) && fresh(k.table.global) && fresh(k.queue)
    ensures k.Valid() && BothSpawned(k.table.tasks, k.queue.s, idle, user)
    ensures k.mie == {} && forall i :: 0 <= i < MAX_TASKS ==> !k.blocked[i].blocked
  {
    k := Prepare(ram, base);
    SpawnIdle(k, idle, idleStatus);
    var t := SpawnUser(k, idle, user, userStatus);
  }

  /** The global heap, the task table and the scheduler, all empty. */
  method Prepare(ram: Ram, base: nat) returns (k: Kernel)
    requires 0 < base && base + GLOBAL_HEAP_SIZE + 15 < TWO_32
    modifies ram
    ensures fresh(k) && fresh(k.table) && fresh(k.table.global) && fresh(k.queue) && k.table.ram == ram
    ensures k.Valid() && k.queue.s == [] && k.table.nTask == 0 && k.table.gen == 0
    ensures k.table.global.max - k.table.global.head >= 32768 && forall i :: 0 <= i < MAX_TASKS ==> !k.table.tasks[i].Created()
    ensures k.mie == {} && forall i :: 0 <= i < MAX_TASKS ==> !k.blocked[i].blocked
  {
    GlobalHeapFits(base);
    var global := new Heap(ram, base, GLOBAL_HEAP_SIZE);
    var table := new Table(ram, global);
    k := new Kernel(table);
  }

  lemma BootedNow(h: Handler, idle: Word, user: Word)
    requires h.k.Valid() && OneRuns(h.k.table.tasks, h.k.table.current)
    requires h.k.table.current == 1 && h.k.queue.s == [0] && h.k.queue.Linked()
    requires h.k.mie == {} && forall i :: 0 <= i < MAX_TASKS ==> !h.k.blocked[i].blocked
    requires h.k.live == h.k.table.tasks[1].ctx && h.k.live.pc == user
    requires Spawned(h.k.table.tasks[0], 0, IDLE_PRIORITY, idle)
    requires h.k.table.tasks[1].id == 257 && h.k.table.tasks[1].priority == USER_PRIORITY
    requires h.k.table.tasks[1].slice == SCHED_QUANTUM_TICKS + USER_PRIORITY
    ensures h.Valid() && Booted(h.Now()) && InOrder(h.Now().Sched()) && Top(h.Now().Sched())
  {
    assert forall y :: y in [0] ==> y == 0;
  }

  /** With the priorities it boots with, the kernel's first yield, and the end of the user task's first
      slice, put the queue in disorder; a call that blocks does not. */
  lemma FirstYield(s: Snap, d: Device, irq: int)
    requires s.c == 1 && s.ready == [0] && s.ts[0].priority == IDLE_PRIORITY && s.ts[1].priority == USER_PRIORITY
    ensures s.Code() == SYS_YIELD ==> OutcomeOf(Ecall(d), s) == DISORDERED
    ensures Woken(s.b, irq, MAX_TASKS) == [] && s.ts[1].slice == Spent(irq) ==> OutcomeOf(Interrupt(irq), s) == DISORDERED
    ensures Blocks(s.live, d) ==> OutcomeOf(Ecall(d), s) == RESUMED
  {
  }
}

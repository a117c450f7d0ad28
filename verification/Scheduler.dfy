/** Scheduling, context switch, blocking and waking (scheduler.c, task.c). */
module Scheduler {
  import opened Width
  import opened TaskTable
  import opened HeapList
  import opened KernelHeap
  import opened ReadyQueue
  import opened Rotas

  const IRQ_TIMER := 7
  const IRQ_EXTERNAL := 11

  /** wait_irq_mask as the set of interrupt numbers whose bits are set. */
  datatype BlockedEntry = BlockedEntry(tid: int, mask: set<int>, blocked: bool)

  type BlockedTable = b: seq<BlockedEntry> | |b| == 8 witness seq(8, _ => BlockedEntry(0, {}, false))
  type Lists = s: seq<seq<Blk>> | |s| == 8 witness seq(8, _ => [])
  type Tasks = t: seq<Task> | |t| == 8 witness seq(8, _ => EMPTY_TASK)

  // ---------------------------------------------------------------- invariants on values

  ghost predicate SlotInv(t: Task, e: Entry, b: BlockedEntry, i: int, inQueue: bool) {
    && (t.Created() ==> TaskSlot(t.id) == i && e.tid == t.id)
    && (inQueue <==> t.state == READY)
    && (b.blocked <==> t.state == BLOCKED_IRQ)
    && (b.blocked ==> b.tid == t.id)
  }

  /** The queue holds exactly the READY tasks, the blocked marks exactly the BLOCKED_IRQ ones, ids
      and links agree. */
  ghost predicate SchedInv(ts: Tasks, e: Entries, s: seq<int>, b: BlockedTable) {
    forall i {:trigger b[i]} :: 0 <= i < MAX_TASKS ==> SlotInv(ts[i], e[i], b[i], i, i in s)
  }

  /** Every task but c is at rest. */
  ghost predicate OthersAtRest(ts: Tasks, c: int) {
    forall i :: 0 <= i < MAX_TASKS && i != c ==> !ts[i].state.RUNNING? && !ts[i].state.TERMINATED?
  }

  /** Exactly one task runs, it is c, and its slice is not used up. */
  ghost predicate OneRuns(ts: Tasks, c: nat) {
    c < MAX_TASKS && ts[c].state == RUNNING && ts[c].slice >= 1 && OthersAtRest(ts, c)
  }

  function Priorities(ts: Tasks): Prios {
    seq(8, i requires 0 <= i < 8 => ts[i].priority)
  }

  lemma SamePriorities(ts: Tasks, us: Tasks)
    requires forall i :: 0 <= i < MAX_TASKS ==> us[i].priority == ts[i].priority
    ensures Priorities(us) == Priorities(ts)
  {
  }

  lemma SortedElsewhere(s: seq<int>, p: Prios, p': Prios)
    requires Sorted(s, p) && forall y :: y in s ==> Prio(p', y) == Prio(p, y)
    ensures Sorted(s, p')
  {
    forall i, j | 0 <= i < j < |s|
      ensures Prio(p', s[i]) >= Prio(p', s[j])
    {
      assert s[i] in s && s[j] in s;
    }
  }

  // ---------------------------------------------------------------- value-level steps

  lemma SlotsBound(s: seq<int>)
    requires Slots(s)
    ensures |s| <= MAX_TASKS
  {
    var all := {0, 1, 2, 3, 4, 5, 6, 7};
    var mine := set i | 0 <= i < |s| :: s[i];
    ElementsCount(s);
    assert mine <= all;
    assert all == mine + (all - mine);
  }

  lemma {:induction false} ElementsCount(s: seq<int>)
    requires forall i, j :: 0 <= i < j < |s| ==> s[i] != s[j]
    ensures |set i | 0 <= i < |s| :: s[i]| == |s|
  {
    if s != [] {
      var t := s[..|s| - 1];
      ElementsCount(t);
      assert (set i | 0 <= i < |s| :: s[i]) == (set i | 0 <= i < |t| :: t[i]) + {s[|s| - 1]};
    }
  }

  /** A queue entry names a task that is current in its slot and READY. */
  predicate Runnable(ts: Tasks, tid: int) {
    var i := TaskSlot(tid);
    i < MAX_TASKS && ts[i].id == tid && ts[i].state == READY
  }

  /** Position the search of schedule stops at, from position i on, or the length: it steps over the
      task that just ran whenever something follows it, and over entries that are not runnable. */
  function Pick(ts: Tasks, e: Entries, s: seq<int>, cur: int, i: nat): nat
    requires Slots(s)
    decreases |s| - i
  {
    if i >= |s| then |s|
    else
      var j := if e[s[i]].tid == cur && i + 1 < |s| then i + 1 else i;
      if Runnable(ts, e[s[j]].tid) then j else Pick(ts, e, s, cur, j + 1)
  }

  /** While the queue holds exactly the READY tasks, the search stops at the head, or at the second
      entry if the head is the task that just ran and is not alone. */
  lemma PickIs(ts: Tasks, e: Entries, s: seq<int>, b: BlockedTable, c: nat)
    requires SchedInv(ts, e, s, b) && Slots(s) && s != [] && c < MAX_TASKS && TaskSlot(ts[c].id) == c
    ensures Pick(ts, e, s, ts[c].id, 0) == if s[0] == c && |s| > 1 then 1 else 0
  {
    assert SlotInv(ts[s[0]], e[s[0]], b[s[0]], s[0], s[0] in s);
    if |s| > 1 {
      assert SlotInv(ts[s[1]], e[s[1]], b[s[1]], s[1], s[1] in s);
    }
  }

  /** t is s and c. */
  ghost predicate Joined(s: seq<int>, c: int, t: seq<int>) {
    forall i :: i in t <==> i == c || i in s
  }

  /** The running task goes into the queue. */
  lemma RequeueInv(ts: Tasks, e: Entries, f: Entries, s: seq<int>, t: seq<int>, b: BlockedTable, c: nat)
    requires SchedInv(ts, e, s, b) && c < MAX_TASKS && ts[c].state == RUNNING && SameTids(e, f) && Joined(s, c, t)
    ensures SchedInv(ts[c := ts[c].(state := READY)], f, t, b)
  {
  }

  lemma ContextInv(ts: Tasks, e: Entries, s: seq<int>, b: BlockedTable, c: nat, t: Task)
    requires SchedInv(ts, e, s, b) && c < MAX_TASKS
    requires t.id == ts[c].id && t.priority == ts[c].priority && t.state == ts[c].state
    ensures SchedInv(ts[c := t], e, s, b)
  {
  }

  /** The table after c is retired and x dispatched, but for contexts. */
  ghost predicate StatesAfter(ts: Tasks, us: Tasks, c: int, x: int)
    requires 0 <= c < MAX_TASKS && 0 <= x < MAX_TASKS
  {
    forall i :: 0 <= i < MAX_TASKS ==> us[i].(ctx := ts[i].ctx) == Scheduled(ts, c, x)[i]
  }

  lemma StatesScheduled(ts: Tasks, us: Tasks, c: int, x: int)
    requires 0 <= c < MAX_TASKS && 0 <= x < MAX_TASKS
    requires us == ts || exists k: Context :: us == ts[c := ts[c].(ctx := k)]
    ensures StatesAfter(ts, Scheduled(us, c, x), c, x)
  {
  }

  /** A task that is neither ready nor blocked changes to another such state. */
  lemma RestateInv(ts: Tasks, e: Entries, s: seq<int>, b: BlockedTable, c: nat, t: Task)
    requires SchedInv(ts, e, s, b) && c < MAX_TASKS && !ts[c].state.READY? && !ts[c].state.BLOCKED_IRQ?
    requires !t.state.READY? && !t.state.BLOCKED_IRQ? && (t.Created() ==> ts[c].Created())
    requires t.id == ts[c].id && t.priority == ts[c].priority
    ensures SchedInv(ts[c := t], e, s, b)
  {
  }

  lemma QueuedAreReady(ts: Tasks, e: Entries, s: seq<int>, b: BlockedTable)
    requires SchedInv(ts, e, s, b) && Slots(s)
    ensures forall x :: x in s ==> 0 <= x < MAX_TASKS && ts[x].state == READY
  {
    forall x | x in s
      ensures 0 <= x < MAX_TASKS && ts[x].state == READY
    {
      assert SlotInv(ts[x], e[x], b[x], x, x in s);
    }
  }

  function Refill(t: Task): nat {
    if t.slice == 0 then SCHED_QUANTUM_TICKS + t.priority * SCHED_PRIORITY_BONUS_TICKS else t.slice
  }

  /** The running, blocked or ended task c as schedule leaves it. */
  function Retired(t: Task): Task {
    if t.state == RUNNING then t.(state := READY)
    else if t.state == TERMINATED then t.(state := NOT_CREATED) else t
  }

  /** The task table after schedule retires c and dispatches x. */
  function Scheduled(ts: Tasks, c: int, x: int): Tasks
    requires 0 <= c < MAX_TASKS && 0 <= x < MAX_TASKS
  {
    var us: Tasks := ts[c := Retired(ts[c])];
    us[x := us[x].(state := RUNNING, slice := Refill(us[x]))]
  }

  /** schedule changes no context, id, priority or heap, and no state but those of the two tasks. */
  lemma ScheduledKeeps(ts: Tasks, c: int, x: int, i: int)
    requires 0 <= c < MAX_TASKS && 0 <= x < MAX_TASKS && 0 <= i < MAX_TASKS
    ensures var u := Scheduled(ts, c, x)[i];
            && u.ctx == ts[i].ctx && u.id == ts[i].id && u.priority == ts[i].priority && u.heap == ts[i].heap
            && u.stackBase == ts[i].stackBase && u.slice == (if i == x then Refill(ts[i]) else ts[i].slice)
            && u.state == (if i == x then RUNNING else if i == c then Retired(ts[c]).state else ts[i].state)
  {
  }

  /** How a task sees its context: the trap frame for the current task, its saved copy for others. */
  function ViewOf(ts: Tasks, live: Context, c: int, i: int): Context
    requires 0 <= i < MAX_TASKS
  {
    if i == c then live else ts[i].ctx
  }

  ghost predicate ViewsKept(ts: Tasks, us: Tasks, live: Context, live': Context, c: int, x: int) {
    forall i :: 0 <= i < MAX_TASKS && ts[i].state != TERMINATED ==> ViewOf(us, live', x, i) == ViewOf(ts, live, c, i)
  }

  /** Saving the frame before, and loading it after, keeps every task's view. */
  lemma SwitchKeepsViews(ts: Tasks, us: Tasks, c: int, x: int, live: Context, live': Context)
    requires 0 <= c < MAX_TASKS && 0 <= x < MAX_TASKS
    requires us == if ts[c].state == TERMINATED then ts else ts[c := ts[c].(ctx := live)]
    requires ts[c].state == TERMINATED ==> x != c
    requires live' == if x == c then live else us[x].ctx
    ensures ViewsKept(ts, Scheduled(us, c, x), live, live', c, x)
  {
  }

  /** Interrupts the blocked tasks below slot n wait for. */
  function AwaitedIrqs(b: BlockedTable, n: nat): set<int>
    requires n <= MAX_TASKS
  {
    if n == 0 then {} else AwaitedIrqs(b, n - 1) + if b[n - 1].blocked then b[n - 1].mask else {}
  }

  lemma {:induction false} AwaitedExactly(b: BlockedTable, n: nat, irq: int)
    requires n <= MAX_TASKS
    ensures irq in AwaitedIrqs(b, n) <==> exists i :: 0 <= i < n && Wakes(b[i], irq)
  {
    if n > 0 {
      AwaitedExactly(b, n - 1, irq);
      assert irq in AwaitedIrqs(b, n) <==> irq in AwaitedIrqs(b, n - 1) || Wakes(b[n - 1], irq);
    }
  }

  /** Interrupts enabled while a task runs: the timer and exactly what blocked tasks wait for. */
  ghost predicate Listens(mie: set<int>, b: BlockedTable) {
    mie == {IRQ_TIMER} + AwaitedIrqs(b, MAX_TASKS)
  }

  // ---------------------------------------------------------------- waking and blocking

  predicate Wakes(b: BlockedEntry, irq: int) {
    b.blocked && irq in b.mask
  }

  /** Slots below n that an interrupt wakes, in slot order. */
  function Woken(b: BlockedTable, irq: int, n: nat): seq<int>
    requires n <= MAX_TASKS
  {
    if n == 0 then [] else Woken(b, irq, n - 1) + if Wakes(b[n - 1], irq) then [n - 1] else []
  }

  lemma {:induction false} WokenWere(b: BlockedTable, irq: int, n: nat)
    requires n <= MAX_TASKS
    ensures forall y :: y in Woken(b, irq, n) ==> 0 <= y < n && Wakes(b[y], irq)
  {
    if n > 0 {
      WokenWere(b, irq, n - 1);
    }
  }

  lemma {:induction false} NobodyWoken(b: BlockedTable, irq: int, n: nat)
    requires n <= MAX_TASKS && Woken(b, irq, n) == []
    ensures forall i :: 0 <= i < n ==> !Wakes(b[i], irq)
  {
    if n > 0 {
      NobodyWoken(b, irq, n - 1);
    }
  }

  /** The queue after the slots below n have been looked at. */
  function Pushed(s: seq<int>, p: Prios, b: BlockedTable, irq: int, n: nat): seq<int>
    requires n <= MAX_TASKS
  {
    InsertAll(s, p, Woken(b, irq, n))
  }

  lemma PushedNext(s: seq<int>, p: Prios, b: BlockedTable, irq: int, n: nat)
    requires n < MAX_TASKS
    ensures var t := Pushed(s, p, b, irq, n);
            Pushed(s, p, b, irq, n + 1) == if Wakes(b[n], irq) then Insert(t, Position(t, p, n), n) else t
  {
    InsertAllThen(s, p, Woken(b, irq, n), n);
    assert Woken(b, irq, n) + [] == Woken(b, irq, n);
  }

  /** The tables after the slots below n have been looked at. */
  ghost predicate WokenUp(ts: Tasks, us: Tasks, b: BlockedTable, d: BlockedTable, irq: int, n: nat) {
    forall i :: 0 <= i < MAX_TASKS ==>
      if i < n && Wakes(b[i], irq) then us[i] == ts[i].(state := READY) && !d[i].blocked
      else us[i] == ts[i] && d[i] == b[i]
  }

  lemma WokenStep(ts: Tasks, us: Tasks, vs: Tasks, b: BlockedTable, d: BlockedTable, f: BlockedTable, irq: int, n: nat)
    requires n < MAX_TASKS && WokenUp(ts, us, b, d, irq, n)
    requires if Wakes(d[n], irq) then vs == us[n := us[n].(state := READY)] && f == d[n := d[n].(mask := {}, blocked := false)]
             else vs == us && f == d
    ensures Wakes(d[n], irq) == Wakes(b[n], irq) && WokenUp(ts, vs, b, f, irq, n + 1)
  {
  }

  lemma RestAfterWake(ts: Tasks, us: Tasks, b: BlockedTable, d: BlockedTable, irq: int, c: nat)
    requires c < MAX_TASKS && !b[c].blocked && OthersAtRest(ts, c) && WokenUp(ts, us, b, d, irq, MAX_TASKS)
    ensures us[c] == ts[c] && OthersAtRest(us, c)
  {
  }

  lemma OthersKeepContexts(ts: Tasks, us: Tasks, fs: Tasks, live: Context, live': Context, c: nat, x: nat)
    requires c < MAX_TASKS && OthersAtRest(ts, c) && us == ts[c := ts[c].(state := TERMINATED)]
    requires ViewsKept(us, fs, live, live', c, x)
    ensures forall i :: 0 <= i < MAX_TASKS && i != c ==> ViewOf(fs, live', x, i) == ts[i].ctx
  {
  }

  lemma StampInv(ts: Tasks, us: Tasks, e: Entries, s: seq<int>, b: BlockedTable)
    requires SchedInv(ts, e, s, b) && (us == ts || SameButStamp(ts, us))
    ensures SchedInv(us, e, s, b)
  {
  }

  lemma SpawnInv(ts: Tasks, e: Entries, f: Entries, g: Entries, s: seq<int>, s': seq<int>, b: BlockedTable, c: nat, t: Task)
    requires SchedInv(ts, e, s, b) && c < MAX_TASKS && !ts[c].Created()
    requires t.state == READY && TaskSlot(t.id) == c
    requires f == e[c := e[c].(tid := t.id)] && SameTids(f, g) && Joined(s, c, s')
    ensures SchedInv(ts[c := t], g, s', b)
  {
  }

  /** A task is taken from anywhere in the queue and runs. */
  lemma DispatchInv(ts: Tasks, e: Entries, f: Entries, s: seq<int>, b: BlockedTable, k: nat, t: Task)
    requires SchedInv(ts, e, s, b) && k < |s| && Slots(s) && SameTids(e, f)
    requires t.state == RUNNING && t.id == ts[s[k]].id && t.priority == ts[s[k]].priority
    ensures SchedInv(ts[s[k] := t], f, Without(s, k), b)
  {
  }

  lemma WakeInv(ts: Tasks, e: Entries, f: Entries, s: seq<int>, t: seq<int>, b: BlockedTable, c: nat)
    requires SchedInv(ts, e, s, b) && c < MAX_TASKS && b[c].blocked && SameTids(e, f) && Joined(s, c, t)
    ensures SchedInv(ts[c := ts[c].(state := READY)], f, t, b[c := b[c].(mask := {}, blocked := false)])
  {
  }

  lemma BlockInv(ts: Tasks, e: Entries, s: seq<int>, b: BlockedTable, c: nat, x: BlockedEntry)
    requires SchedInv(ts, e, s, b) && c < MAX_TASKS && ts[c].state == RUNNING && x.blocked && x.tid == ts[c].id
    ensures SchedInv(ts[c := ts[c].(state := BLOCKED_IRQ)], e, s, b[c := x])
  {
    var d: BlockedTable := b[c := x];
    forall i {:trigger d[i]} | 0 <= i < MAX_TASKS
      ensures SlotInv(ts[c := ts[c].(state := BLOCKED_IRQ)][i], e[i], d[i], i, i in s)
    {
      assert SlotInv(ts[i], e[i], b[i], i, i in s);
    }
  }

  /** All created tasks have one priority. */
  ghost predicate SameLevel(ts: Tasks, q: nat) {
    forall i :: 0 <= i < MAX_TASKS && ts[i].Created() ==> ts[i].priority == q
  }

  ghost predicate AllEqual(ts: Tasks) { exists q :: SameLevel(ts, q) }

  lemma EqualsDoNotOvertake(ts: Tasks, x: int, y: int)
    requires AllEqual(ts) && 0 <= x < MAX_TASKS && 0 <= y < MAX_TASKS && ts[x].Created() && ts[y].Created()
    ensures Prio(Priorities(ts), x) == Prio(Priorities(ts), y)
  {
    var q :| SameLevel(ts, q);
  }

  /** TasksKeep looks at the blocks alone. */
  lemma KeepOfSameBlocks(m: Words, n: Words, ts: Tasks, us: Tasks, except: set<int>)
    requires TasksKeep(m, n, us, except)
    requires forall i :: 0 <= i < MAX_TASKS && i !in except ==>
               us[i].stackBase == ts[i].stackBase && us[i].heap == ts[i].heap && (ts[i].Created() ==> us[i].Created())
    ensures TasksKeep(m, n, ts, except)
  {
    forall j | 0 <= j < |ts| && ts[j].Created() && j !in except
      ensures SameBlocks(m, n, ts[j])
    {
      assert SameBlocks(m, n, us[j]);
    }
  }

  lemma KeepOfSaved(m: Words, n: Words, ts: Tasks, us: Tasks, c: nat, k: Context)
    requires c < MAX_TASKS && (us == ts || us == ts[c := ts[c].(ctx := k)]) && TasksKeep(m, n, us, {c})
    ensures TasksKeep(m, n, ts, {c})
  {
    KeepOfSameBlocks(m, n, ts, us, {c});
  }

  // ---------------------------------------------------------------- the kernel

  /** How schedule ends: another round, no task left, or a queue that has lost its order: the task that
      runs is in it, and the tasks behind are not. */
  datatype Verdict = SWITCHED | EMPTY | DERAILED

  function VerdictOf(r: Rota, goesOn: bool): Verdict {
    if goesOn then if Jumps(r) then DERAILED else SWITCHED
    else if r.ready == [] then EMPTY else SWITCHED
  }

  /** c, put back, is found at the head, with others behind it. */
  function HeadVerdict(s: seq<int>, c: int): Verdict {
    if s == [] then EMPTY else if s[0] == c && |s| > 1 then DERAILED else SWITCHED
  }

  class Kernel {
    const table: Table
    const queue: Queue
    var blocked: BlockedTable
    var live: Context
    var mie: set<int>

    /** Table, queue and marks agree, and the queue is in order of priority. */
    ghost predicate Valid()
      reads this`blocked, table, table.ram, table.global, queue
    {
      && table.Valid() && queue.Valid() && SchedInv(table.tasks, queue.e, queue.s, blocked)
      && Sorted(queue.s, Priorities(table.tasks))
    }

    /** Who is ready, who runs, and how important each is. */
    ghost function CurrentRota(): Rota
      reads table, queue
      requires |table.tasks| == MAX_TASKS
    {
      Rota(queue.s, table.current, Priorities(table.tasks))
    }

    constructor (table: Table)
      requires table.Valid() && table.nTask == 0
      ensures Valid() && fresh(queue) && queue.Linked() && queue.s == [] && this.table == table
      ensures mie == {} && forall i :: 0 <= i < MAX_TASKS ==> !blocked[i].blocked
    {
      this.table := table;
      queue := new Queue();
      blocked := seq(8, _ => BlockedEntry(0, {}, false));
      live := EMPTY_CONTEXT;
      mie := {};
      new;
      NoneCreated(table.tasks);
    }

    /** get_task_of_id of the current task: its own slot. */
    method CurrentSlot() returns (c: nat)
      requires Valid() && table.tasks[table.current].Created()
      ensures c == table.current
    {
      ghost var i := table.current;
      assert SlotInv(table.tasks[i], queue.e[i], blocked[i], i, i in queue.s);
      c := table.Find(table.tasks[table.current].id);
    }

    lemma MakeValid(ts: Tasks)
      requires table.Valid() && queue.Valid() && SchedInv(table.tasks, queue.e, queue.s, blocked)
      requires Sorted(queue.s, Priorities(ts))
      requires forall i :: 0 <= i < MAX_TASKS ==> table.tasks[i].priority == ts[i].priority
      ensures Valid() && Priorities(table.tasks) == Priorities(ts)
    {
      SamePriorities(ts, table.tasks);
    }

    /** A change of one task's heap concerns the table alone. */
    lemma HeapKeepsValid(ts: Tasks, c: nat)
      requires table.Valid() && queue.Valid() && SchedInv(ts, queue.e, queue.s, blocked) && c < MAX_TASKS
      requires Sorted(queue.s, Priorities(ts))
      requires table.tasks == ts[c := ts[c].(heap := table.tasks[c].heap)]
      ensures Valid() && Priorities(table.tasks) == Priorities(ts)
      ensures forall i :: 0 <= i < MAX_TASKS ==> table.tasks[i].(heap := ts[i].heap) == ts[i]
    {
      ContextInv(ts, queue.e, queue.s, blocked, c, table.tasks[c]);
      MakeValid(ts);
    }

    /** push_ready_task. */
    method PushReady(x: int)
      requires queue.Valid() && |table.tasks| == MAX_TASKS && 0 <= x < MAX_TASKS && x !in queue.s
      requires Sorted(queue.s, Priorities(table.tasks))
      modifies queue
      ensures var p, s := Priorities(table.tasks), old(queue.s);
              && queue.Valid() && SameTids(old(queue.e), queue.e)
              && queue.s == Insert(s, Position(s, p, x), x) && Joined(s, x, queue.s) && Sorted(queue.s, p)
              && (old(queue.Linked()) && (s == [] || Prio(p, x) <= Prio(p, s[0])) ==> queue.Linked())
              && (s != [] && Prio(p, x) > Prio(p, s[0]) ==> queue.e[s[0]].prev == NIL)
    {
      var prio := Priorities(table.tasks);
      InsertSlots(queue.s, 0, x);
      SlotsBound(Insert(queue.s, 0, x));
      InsertKeepsSorted(queue.s, prio, x);
      InsertMembers(queue.s, Position(queue.s, prio, x), x);
      var ok := queue.Push(x, prio);
    }

    /** The first half of schedule: the current task back into the queue, or destroyed, or left blocked. */
    method RetireCurrent()
      requires Valid() && OthersAtRest(table.tasks, table.current)
      requires var st := table.tasks[table.current].state; st == RUNNING || st == BLOCKED_IRQ || st == TERMINATED
      modifies table, table.ram, table.global, queue
      ensures Valid() && table.current == old(table.current) && OthersAtRest(table.tasks, -1)
      ensures var c, r := table.current, old(CurrentRota());
              && table.tasks == old(table.tasks)[c := Retired(old(table.tasks)[c])]
              && Priorities(table.tasks) == r.prio && table.nested == old(table.nested)
              && (if old(table.tasks)[c].state == RUNNING then
                    queue.s == Requeued(r) && table.ram.w == old(table.ram.w)
                    && (Jumps(r) ==> queue.e[r.ready[0]].prev == NIL)
                    && (!Jumps(r) && old(queue.Linked()) ==> queue.Linked())
                  else queue.s == r.ready && (old(queue.Linked()) ==> queue.Linked()))
              && (old(table.tasks)[c].state == BLOCKED_IRQ ==> table.ram.w == old(table.ram.w))
      ensures TasksKeep(old(table.ram.w), table.ram.w, old(table.tasks), {old(table.current)})
    {
      var c := table.current;
      ghost var ts := table.tasks;
      assert SlotInv(ts[c], queue.e[c], blocked[c], c, c in queue.s);
      var t := table.tasks[c];
      if t.state == RUNNING {
        RequeueCurrent();
      } else if t.state == TERMINATED {
        RestateInv(ts, queue.e, queue.s, blocked, c, t.(state := NOT_CREATED));
        table.DestroyTask(t.id);
        MakeValid(ts);
      }
    }

    method RequeueCurrent()
      requires Valid() && table.tasks[table.current].state == RUNNING
      modifies table`tasks, queue
      ensures Valid()
      ensures var c, r := table.current, old(CurrentRota());
              && table.tasks == old(table.tasks)[c := old(table.tasks)[c].(state := READY)]
              && Priorities(table.tasks) == r.prio
              && queue.s == Requeued(r) && Joined(r.ready, c, queue.s)
              && (Jumps(r) ==> queue.e[r.ready[0]].prev == NIL)
              && (!Jumps(r) && old(queue.Linked()) ==> queue.Linked())
    {
      var c := table.current;
      ghost var ts, e, s := table.tasks, queue.e, queue.s;
      assert SlotInv(ts[c], e[c], blocked[c], c, c in s);
      table.Update(c, table.tasks[c].(state := READY));
      SamePriorities(ts, table.tasks);
      PushReady(c);
      RequeueInv(ts, e, queue.e, s, queue.s, blocked, c);
      MakeValid(ts);
    }

    /** Prefers the entry after next, if next names the task that just ran. */
    method StepOver(next: int, ghost i: nat) returns (other: int, steps: nat)
      requires queue.Chained() && table.Valid() && i < |queue.s| && next == queue.s[i]
      ensures steps == (if queue.e[queue.s[i]].tid == table.tasks[table.current].id && i + 1 < |queue.s| then 1 else 0)
      ensures other == queue.s[i + steps]
    {
      other, steps := next, 0;
      if queue.e[next].tid == table.tasks[table.current].id {
        var second := queue.e[next].next;
        if second != NIL {
          other, steps := second, 1;
        }
      }
    }

    /** schedule's search along the ready queue. The queue has no cycle, so the count never exceeds
        MAX_TASKS. */
    method Search() returns (next: int)
      requires queue.Chained() && table.Valid()
      ensures var k := Pick(table.tasks, queue.e, queue.s, table.tasks[table.current].id, 0);
              next == if k < |queue.s| then queue.s[k] else NIL
    {
      next := queue.head;
      var count := 0;
      ghost var ts, e, s, cur := table.tasks, queue.e, queue.s, table.tasks[table.current].id;
      SlotsBound(s);
      while next != NIL
        invariant 0 <= count <= |s| && next == if count < |s| then s[count] else NIL
        invariant Pick(ts, e, s, cur, 0) == Pick(ts, e, s, cur, count)
        decreases |s| - count
      {
        var steps;
        next, steps := StepOver(next, count);
        count := count + steps;
        var x := table.Find(queue.e[next].tid);
        if x != -1 && table.tasks[x].state == READY {
          return;
        }
        next := queue.e[next].next;
        count := count + 1;
        if count > MAX_TASKS {
          assert false;
        }
      }
    }

    /** The task the search stops at: the one at the head, or behind it if the head just ran and is not
        alone. */
    method PickNext() returns (next: int, x: int, ghost k: nat)
      requires Valid() && queue.s != [] && TaskSlot(table.tasks[table.current].id) == table.current
      ensures k == (if queue.s[0] == table.current && |queue.s| > 1 then 1 else 0)
      ensures next == x == queue.s[k] && table.tasks[x].state == READY
    {
      next := Search();
      PickIs(table.tasks, queue.e, queue.s, blocked, table.current);
      k := Pick(table.tasks, queue.e, queue.s, table.tasks[table.current].id, 0);
      assert SlotInv(table.tasks[next], queue.e[next], blocked[next], next, next in queue.s);
      x := table.Find(queue.e[next].tid);
    }

    /** Takes task x out of the queue and makes it current, as t. */
    method TakeOut(x: int, t: Task, ghost k: nat)
      requires Valid() && k < |queue.s| && x == queue.s[k] && table.tasks[x].state == READY
      requires t.state == RUNNING && t.(state := READY, slice := 0) == table.tasks[x].(slice := 0)
      modifies table`tasks, table`current, queue
      ensures table.Valid() && table.current == x && table.tasks == old(table.tasks)[x := t]
      ensures if old(queue.e)[x].prev == PrevIn(old(queue.s), k) then
                && Valid() && queue.s == Without(old(queue.s), k) && (old(queue.Linked()) ==> queue.Linked())
                && Priorities(table.tasks) == old(Priorities(table.tasks))
              else k > 0 && Forward(queue.e, queue.head, old(queue.s)[..k + 1]) && queue.n == old(queue.n) - 1
    {
      ghost var ts, e, s := table.tasks, queue.e, queue.s;
      queue.Remove(x, k);
      table.SetCurrent(x);
      table.Update(x, t);
      if e[x].prev == PrevIn(s, k) {
        DispatchInv(ts, e, queue.e, s, blocked, k, t);
        SortedWithout(s, Priorities(ts), k);
        MakeValid(ts);
      }
    }

    /** Takes entry next out of the queue and runs its task x. From the head the queue stays right. With no
        prev link, from anywhere else, the task stays in it and what was behind is lost. */
    method RunPicked(next: int, x: int, ghost k: nat)
      requires Valid() && OthersAtRest(table.tasks, -1) && k < |queue.s|
      requires next == x == queue.s[k] && table.tasks[x].state == READY
      modifies table`tasks, table`current, queue
      ensures table.Valid() && table.current == x
      ensures table.tasks == old(table.tasks)[x := old(table.tasks)[x].(state := RUNNING, slice := Refill(old(table.tasks)[x]))]
      ensures k == 0 ==>
                && Valid() && OneRuns(table.tasks, table.current) && queue.s == old(queue.s)[1..]
                && Priorities(table.tasks) == old(Priorities(table.tasks)) && (old(queue.Linked()) ==> queue.Linked())
      ensures k > 0 && old(queue.e)[x].prev == NIL ==>
                Forward(queue.e, queue.head, old(queue.s)[..k + 1]) && queue.n == old(queue.n) - 1
    {
      assert Without(queue.s, 0) == queue.s[1..];
      TakeOut(next, table.tasks[x].(state := RUNNING, slice := Refill(table.tasks[x])), k);
    }

    /** The second half of schedule. */
    method DispatchNext() returns (v: Verdict)
      requires Valid() && OthersAtRest(table.tasks, -1) && TaskSlot(table.tasks[table.current].id) == table.current
      requires queue.s != [] && queue.s[0] == table.current && |queue.s| > 1 ==> queue.e[queue.s[1]].prev == NIL
      modifies table`tasks, table`current, queue, this`mie
      ensures var s, c := old(queue.s), old(table.current);
              && v == HeadVerdict(s, c)
              && (v.SWITCHED? ==>
                    && Valid() && OneRuns(table.tasks, table.current) && Listens(mie, blocked)
                    && table.current == s[0] && queue.s == s[1..] && (old(queue.Linked()) ==> queue.Linked())
                    && Priorities(table.tasks) == old(Priorities(table.tasks)))
              && (v.DERAILED? ==>
                    table.current == s[1] && Forward(queue.e, queue.head, s[..2]) && queue.n == |s| - 1)
              && (!v.EMPTY? ==>
                    var x := table.current;
                    table.tasks == old(table.tasks)[x := old(table.tasks)[x].(state := RUNNING, slice := Refill(old(table.tasks)[x]))])
    {
      if queue.n == 0 {
        return EMPTY;
      }
      ghost var k;
      var next, x;
      next, x, k := PickNext();
      var derails := next != queue.head;
      RunPicked(next, x, k);
      CollectMie();
      return if derails then DERAILED else SWITCHED;
    }

    /** mie: the timer and the interrupts blocked tasks wait for. */
    method CollectMie()
      modifies this`mie
      ensures Listens(mie, blocked)
    {
      mie := {IRQ_TIMER};
      for i := 0 to MAX_TASKS
        invariant mie == {IRQ_TIMER} + AwaitedIrqs(blocked, i)
      {
        if blocked[i].blocked {
          mie := mie + blocked[i].mask;
        }
      }
    }

    /** schedule has put the head of the queue on, from schedule r; linked if the queue was. */
    ghost predicate HeadRuns(r: Rota, goesOn: bool, linked: bool)
      reads this`blocked, this`mie, table, table.ram, table.global, queue
    {
      && VerdictOf(r, goesOn) == SWITCHED && Valid() && OneRuns(table.tasks, table.current) && Listens(mie, blocked)
      && CurrentRota() == Next(r, if goesOn then Yield else Leave) && (linked ==> queue.Linked())
    }

    /** The task that runs is still in the queue, behind the one it took over from, and no other is. */
    ghost predicate HeadStays(r: Rota, c: int)
      reads table, queue
    {
      && r.ready != [] && table.current == r.ready[0]
      && Forward(queue.e, queue.head, [c, r.ready[0]]) && queue.n == |r.ready|
    }

    /** schedule, for any priorities. Nothing is left to run exactly if the current task does not go on and
        no other is ready. Otherwise the head of the queue runs, and the queue is right afterwards exactly
        if the current task was not put in front of a nonempty queue; then the task that now runs is the
        second and last in it, and every other ready task is lost. */
    method Schedule() returns (v: Verdict)
      requires Valid() && OthersAtRest(table.tasks, table.current)
      requires var st := table.tasks[table.current].state; st == RUNNING || st == BLOCKED_IRQ || st == TERMINATED
      modifies table, table.ram, table.global, queue, this`mie
      ensures var c, ts, r := old(table.current), old(table.tasks), old(CurrentRota());
              var runs := ts[c].state == RUNNING;
              && v == VerdictOf(r, runs) && (v.SWITCHED? ==> HeadRuns(r, runs, old(queue.Linked())))
              && (v.DERAILED? ==> HeadStays(r, c))
              && (!v.EMPTY? ==> table.tasks == Scheduled(ts, c, table.current))
              && table.nested == old(table.nested) && (!ts[c].state.TERMINATED? ==> table.ram.w == old(table.ram.w))
      ensures TasksKeep(old(table.ram.w), table.ram.w, old(table.tasks), {old(table.current)})
    {
      ghost var c, r, goesOn := table.current, CurrentRota(), table.tasks[table.current].state == RUNNING;
      assert SlotInv(table.tasks[c], queue.e[c], blocked[c], c, c in queue.s);
      RetireCurrent();
      RequeuedHead(r, goesOn);
      v := DispatchNext();
    }

    // -------------------------------------------------------------- context switch

    /** switch_to_next_task: no task's own view of its context changes, whoever runs next. */
    method SwitchToNext() returns (v: Verdict)
      requires Valid() && OthersAtRest(table.tasks, table.current)
      requires var st := table.tasks[table.current].state; st == RUNNING || st == BLOCKED_IRQ || st == TERMINATED
      modifies this`live, this`mie, table, table.ram, table.global, queue
      ensures var c, ts, r := old(table.current), old(table.tasks), old(CurrentRota());
              var runs := ts[c].state == RUNNING;
              && v == VerdictOf(r, runs) && (v.SWITCHED? ==> HeadRuns(r, runs, old(queue.Linked())))
              && (v.DERAILED? ==> HeadStays(r, c))
              && (v.SWITCHED? ==>
                    && ViewsKept(ts, table.tasks, old(live), live, c, table.current)
                    && StatesAfter(ts, table.tasks, c, table.current))
              && table.nested == old(table.nested) && (!ts[c].state.TERMINATED? ==> table.ram.w == old(table.ram.w))
      ensures TasksKeep(old(table.ram.w), table.ram.w, old(table.tasks), {old(table.current)})
    {
      ghost var ts, c := table.tasks, table.current;
      assert SlotInv(ts[c], queue.e[c], blocked[c], c, c in queue.s);
      var id := table.tasks[table.current].id;
      ghost var us;
      v, us := SaveAndSchedule();
      if v == SWITCHED {
        EnterNext(id, ts, us, c);
      }
    }

    /** The frame goes into the current task, and schedule runs; us is the table in between. */
    method SaveAndSchedule() returns (v: Verdict, ghost us: Tasks)
      requires Valid() && OthersAtRest(table.tasks, table.current)
      requires var st := table.tasks[table.current].state; st == RUNNING || st == BLOCKED_IRQ || st == TERMINATED
      modifies this`mie, table, table.ram, table.global, queue
      ensures var c, ts, r := old(table.current), old(table.tasks), old(CurrentRota());
              var runs := ts[c].state == RUNNING;
              && us == (if ts[c].state == TERMINATED then ts else ts[c := ts[c].(ctx := live)])
              && v == VerdictOf(r, runs) && (v.SWITCHED? ==> HeadRuns(r, runs, old(queue.Linked())))
              && (v.DERAILED? ==> HeadStays(r, c))
              && (v.SWITCHED? ==>
                    table.tasks == Scheduled(us, c, table.current) && (ts[c].state == TERMINATED ==> table.current != c))
              && table.nested == old(table.nested) && (!ts[c].state.TERMINATED? ==> table.ram.w == old(table.ram.w))
      ensures TasksKeep(old(table.ram.w), table.ram.w, old(table.tasks), {old(table.current)})
    {
      ghost var ts, c, m := table.tasks, table.current, table.ram.w;
      assert SlotInv(ts[c], queue.e[c], blocked[c], c, c in queue.s);
      SaveIfLive();
      us := table.tasks;
      assert us[c].state == ts[c].state;
      v := Schedule();
      KeepOfSaved(m, table.ram.w, ts, us, c, live);
    }

    /** The frame for the task dispatched: everyone's view is kept. */
    method EnterNext(id: int, ghost ts: Tasks, ghost us: Tasks, ghost c: nat)
      requires Valid() && c < MAX_TASKS && us[c].id == id && TaskSlot(id) == c
      requires OneRuns(table.tasks, table.current) && table.tasks == Scheduled(us, c, table.current)
      requires us == if ts[c].state == TERMINATED then ts else ts[c := ts[c].(ctx := live)]
      requires ts[c].state == TERMINATED ==> table.current != c
      modifies this`live
      ensures ViewsKept(ts, table.tasks, old(live), live, c, table.current)
      ensures StatesAfter(ts, table.tasks, c, table.current)
    {
      ghost var live0 := live;
      LoadContext(id, us, c);
      SwitchKeepsViews(ts, us, c, table.current, live0, live);
      StatesScheduled(ts, us, c, table.current);
    }

    /** copy_context into the trap frame, if another task than before is current. */
    method LoadContext(id: int, ghost us: Tasks, ghost c: nat)
      requires Valid() && c < MAX_TASKS && us[c].id == id && TaskSlot(id) == c
      requires OneRuns(table.tasks, table.current) && table.tasks == Scheduled(us, c, table.current)
      modifies this`live
      ensures live == if table.current == c then old(live) else us[table.current].ctx
    {
      var x := table.current;
      assert SlotInv(table.tasks[x], queue.e[x], blocked[x], x, x in queue.s);
      ScheduledKeeps(us, c, x, x);
      if id != table.tasks[x].id {
        live := table.tasks[x].ctx;
      }
    }

    /** The frame is not kept for a task that has ended. */
    method SaveIfLive()
      requires Valid()
      modifies table`tasks
      ensures Valid() && CurrentRota() == old(CurrentRota())
      ensures var c, ts := table.current, old(table.tasks);
              table.tasks == if ts[c].state == TERMINATED then ts else ts[c := ts[c].(ctx := live)]
    {
      if table.tasks[table.current].state != TERMINATED {
        SaveContext();
      }
    }

    /** copy_context of the trap frame into the current task. */
    method SaveContext()
      requires Valid()
      modifies table`tasks
      ensures Valid()
      ensures var c := table.current; table.tasks == old(table.tasks)[c := old(table.tasks)[c].(ctx := live)]
      ensures Priorities(table.tasks) == old(Priorities(table.tasks))
    {
      var c := table.current;
      ghost var ts := table.tasks;
      ContextInv(ts, queue.e, queue.s, blocked, c, ts[c].(ctx := live));
      table.Update(c, table.tasks[c].(ctx := live));
      MakeValid(ts);
    }

    // -------------------------------------------------------------- blocking and waking

    /** block_task_irq of the running task. */
    method BlockCurrent(irq: int)
      requires Valid() && OneRuns(table.tasks, table.current)
      modifies this`blocked, table`tasks
      ensures Valid()
      ensures var c := table.current;
              blocked == old(blocked)[c := BlockedEntry(table.tasks[c].id, old(blocked)[c].mask + {irq}, true)]
      ensures var c := table.current; table.tasks == old(table.tasks)[c := old(table.tasks)[c].(state := BLOCKED_IRQ)]
      ensures Priorities(table.tasks) == old(Priorities(table.tasks))
    {
      var c := table.current;
      var t := table.tasks[c];
      ghost var ts := table.tasks;
      assert SlotInv(t, queue.e[c], blocked[c], c, c in queue.s);
      var x := blocked[c].(blocked := true, tid := t.id, mask := blocked[c].mask + {irq});
      BlockInv(table.tasks, queue.e, queue.s, blocked, c, x);
      blocked := blocked[c := x];
      table.Update(c, t.(state := BLOCKED_IRQ));
      MakeValid(ts);
    }

    /** One slot of wake_irq_tasks. The panic for a marked task that is not blocked cannot happen. */
    method WakeSlot(i: nat)
      requires Valid() && i < MAX_TASKS && blocked[i].blocked
      modifies this`blocked, table`tasks, queue
      ensures Valid() && Priorities(table.tasks) == old(Priorities(table.tasks))
      ensures queue.s == Insert(old(queue.s), Position(old(queue.s), Priorities(table.tasks), i), i)
      ensures table.tasks == old(table.tasks)[i := old(table.tasks)[i].(state := READY)]
      ensures blocked == old(blocked)[i := old(blocked)[i].(mask := {}, blocked := false)]
      ensures AllEqual(old(table.tasks)) && old(queue.Linked()) ==> queue.Linked()
    {
      assert SlotInv(table.tasks[i], queue.e[i], blocked[i], i, i in queue.s);
      var j := table.Find(blocked[i].tid);
      assert j == i && table.tasks[j].state == BLOCKED_IRQ;
      WakeSlotCore(i);
    }

    method WakeSlotCore(i: nat)
      requires Valid() && i < MAX_TASKS && blocked[i].blocked && i !in queue.s && table.tasks[i].Created()
      modifies this`blocked, table`tasks, queue
      ensures Valid() && Priorities(table.tasks) == old(Priorities(table.tasks))
      ensures queue.s == Insert(old(queue.s), Position(old(queue.s), Priorities(table.tasks), i), i)
      ensures table.tasks == old(table.tasks)[i := old(table.tasks)[i].(state := READY)]
      ensures blocked == old(blocked)[i := old(blocked)[i].(mask := {}, blocked := false)]
      ensures AllEqual(old(table.tasks)) && old(queue.Linked()) ==> queue.Linked()
    {
      ghost var ts, e, s, b := table.tasks, queue.e, queue.s, blocked;
      QueuedAreReady(ts, e, s, b);
      if AllEqual(ts) && s != [] {
        assert s[0] in s;
        EqualsDoNotOvertake(ts, i, s[0]);
      }
      blocked := blocked[i := blocked[i].(mask := {}, blocked := false)];
      table.Update(i, table.tasks[i].(state := READY));
      SamePriorities(ts, table.tasks);
      PushReady(i);
      WakeInv(ts, e, queue.e, s, queue.s, b, i);
      MakeValid(ts);
    }

    /** One iteration of wake_irq_tasks. */
    method WakeIfWaiting(i: nat, irq: int) returns (woke: bool)
      requires Valid() && i < MAX_TASKS
      modifies this`blocked, table`tasks, queue
      ensures Valid() && woke == Wakes(old(blocked)[i], irq) && Priorities(table.tasks) == old(Priorities(table.tasks))
      ensures queue.s == if woke then Insert(old(queue.s), Position(old(queue.s), Priorities(table.tasks), i), i)
                         else old(queue.s)
      ensures if woke then table.tasks == old(table.tasks)[i := old(table.tasks)[i].(state := READY)]
                           && blocked == old(blocked)[i := old(blocked)[i].(mask := {}, blocked := false)]
              else table.tasks == old(table.tasks) && blocked == old(blocked)
      ensures AllEqual(old(table.tasks)) && old(queue.Linked()) ==> queue.Linked() && AllEqual(table.tasks)
    {
      ghost var ts := table.tasks;
      woke := false;
      if !blocked[i].blocked {
        return;
      }
      if irq in blocked[i].mask {
        assert SlotInv(ts[i], queue.e[i], blocked[i], i, i in queue.s);
        WakeSlot(i);
        woke := true;
        StillEqual(ts, i);
      }
    }

    /** wake_irq_tasks: every task waiting for the interrupt is pushed, in slot order. */
    method WakeTasks(irq: int) returns (n: nat)
      requires Valid()
      modifies this`blocked, table`tasks, queue
      ensures Valid() && Priorities(table.tasks) == old(Priorities(table.tasks))
      ensures queue.s == Pushed(old(queue.s), Priorities(table.tasks), old(blocked), irq, MAX_TASKS)
      ensures n == |Woken(old(blocked), irq, MAX_TASKS)|
      ensures WokenUp(old(table.tasks), table.tasks, old(blocked), blocked, irq, MAX_TASKS)
      ensures AllEqual(old(table.tasks)) && old(queue.Linked()) ==> queue.Linked()
    {
      n := 0;
      ghost var s0, b0, ts0 := queue.s, blocked, table.tasks;
      ghost var tidy := AllEqual(table.tasks) && queue.Linked();
      for i := 0 to MAX_TASKS
        invariant WokenTo(ts0, b0, s0, irq, i) && n == |Woken(b0, irq, i)|
        invariant tidy ==> queue.Linked() && AllEqual(table.tasks)
      {
        var woke := WakeAt(i, irq, ts0, b0, s0);
        if woke {
          n := n + 1;
        }
      }
      assert WokenTo(ts0, b0, s0, irq, MAX_TASKS);
    }

    /** The slots below i have been looked at. */
    ghost predicate WokenTo(ts: Tasks, b: BlockedTable, s: seq<int>, irq: int, i: nat)
      reads this, table, table.ram, table.global, queue
      requires i <= MAX_TASKS
    {
      && Valid() && Priorities(table.tasks) == Priorities(ts)
      && queue.s == Pushed(s, Priorities(ts), b, irq, i) && WokenUp(ts, table.tasks, b, blocked, irq, i)
    }

    method WakeAt(i: nat, irq: int, ghost ts: Tasks, ghost b: BlockedTable, ghost s: seq<int>) returns (woke: bool)
      requires i < MAX_TASKS && WokenTo(ts, b, s, irq, i)
      modifies this`blocked, table`tasks, queue
      ensures WokenTo(ts, b, s, irq, i + 1) && woke == Wakes(b[i], irq)
      ensures AllEqual(old(table.tasks)) && old(queue.Linked()) ==> queue.Linked() && AllEqual(table.tasks)
    {
      ghost var us, d := table.tasks, blocked;
      woke := WakeIfWaiting(i, irq);
      WokenStep(ts, us, table.tasks, b, d, blocked, irq, i);
      PushedNext(s, Priorities(ts), b, irq, i);
    }

    // -------------------------------------------------------------- the trap handler

    /** The timer's share of a slice; it never underflows. */
    method Tick(irq: int) returns (slice: nat)
      requires Valid() && OneRuns(table.tasks, table.current)
      modifies table`tasks
      ensures Valid()
      ensures var c := table.current;
              && slice == old(table.tasks)[c].slice - (if irq == IRQ_TIMER then 1 else 0)
              && table.tasks == old(table.tasks)[c := old(table.tasks)[c].(slice := slice)]
      ensures Priorities(table.tasks) == old(Priorities(table.tasks))
    {
      slice := table.tasks[table.current].slice;
      if irq == IRQ_TIMER {
        slice := slice - 1;
        SetSlice(slice);
      }
    }

    /** Waking beside a running task. */
    method WakeOthers(irq: int) returns (n: nat)
      requires Valid() && table.tasks[table.current].state == RUNNING && OthersAtRest(table.tasks, table.current)
      modifies this`blocked, table`tasks, queue
      ensures Valid() && Priorities(table.tasks) == old(Priorities(table.tasks))
      ensures queue.s == Pushed(old(queue.s), Priorities(table.tasks), old(blocked), irq, MAX_TASKS)
      ensures n == |Woken(old(blocked), irq, MAX_TASKS)|
      ensures WokenUp(old(table.tasks), table.tasks, old(blocked), blocked, irq, MAX_TASKS)
      ensures AllEqual(old(table.tasks)) && old(queue.Linked()) ==> queue.Linked()
      ensures table.tasks[table.current] == old(table.tasks)[table.current] && OthersAtRest(table.tasks, table.current)
    {
      ghost var c, us, b := table.current, table.tasks, blocked;
      assert SlotInv(us[c], queue.e[c], b[c], c, c in queue.s);
      n := WakeTasks(irq);
      RestAfterWake(us, table.tasks, b, blocked, irq, c);
    }

    method SetSlice(n: nat)
      requires Valid() && table.tasks[table.current].state == RUNNING
      modifies table`tasks
      ensures Valid()
      ensures var c := table.current; table.tasks == old(table.tasks)[c := old(table.tasks)[c].(slice := n)]
      ensures Priorities(table.tasks) == old(Priorities(table.tasks))
    {
      var c := table.current;
      ghost var ts := table.tasks;
      var t := table.tasks[c].(slice := n);
      ContextInv(ts, queue.e, queue.s, blocked, c, t);
      table.Update(c, t);
      MakeValid(ts);
    }

    /** k_exit: the caller's slot and memory are gone afterwards. Fails, where the kernel panics, exactly
        when no other task is ready. */
    method Exit() returns (ok: bool)
      requires Valid() && OneRuns(table.tasks, table.current)
      modifies this`live, this`mie, table, table.ram, table.global, queue
      ensures var c, ts := old(table.current), old(table.tasks);
              var us := ts[c := ts[c].(state := TERMINATED)];
              && (ok <==> old(queue.s) != [])
              && (ok ==>
                    && Valid() && OneRuns(table.tasks, table.current) && Listens(mie, blocked)
                    && CurrentRota() == Next(old(CurrentRota()), Leave)
                    && StatesAfter(us, table.tasks, c, table.current) && c != table.current
                    && (forall i :: 0 <= i < MAX_TASKS && i != c ==> ViewOf(table.tasks, live, table.current, i) == ts[i].ctx)
                    && (old(queue.Linked()) ==> queue.Linked()))
              && table.nested == old(table.nested)
      ensures TasksKeep(old(table.ram.w), table.ram.w, old(table.tasks), {old(table.current)})
    {
      ghost var c, ts, m := table.current, table.tasks, table.ram.w;
      assert SlotInv(ts[c], queue.e[c], blocked[c], c, c in queue.s);
      var t := table.tasks[table.current];
      RestateInv(ts, queue.e, queue.s, blocked, c, t.(state := TERMINATED));
      table.Update(table.current, t.(state := TERMINATED));
      MakeValid(ts);
      ghost var us, live0 := table.tasks, live;
      var v := SwitchToNext();
      ok := v == SWITCHED;
      KeepOfSameBlocks(m, table.ram.w, ts, us, {c});
      if ok {
        assert table.current in old(queue.s);
        OthersKeepContexts(ts, us, table.tasks, live0, live, c, table.current);
      }
    }

    // -------------------------------------------------------------- starting

    /** spawn_task: the new task takes its place in the queue. */
    method Spawn(entry: Word, mstatus: Word, priority: nat) returns (slot: int)
      requires Valid()
      modifies table, table.ram, table.global, queue
      ensures Valid() && table.current == old(table.current)
      ensures -1 <= slot < MAX_TASKS
      ensures slot == -1 ==> queue.s == old(queue.s) && (old(queue.Linked()) ==> queue.Linked())
      ensures slot >= 0 ==>
                && !old(table.tasks)[slot].Created() && (forall j :: 0 <= j < slot ==> old(table.tasks)[j].Created())
                && table.nTask == old(table.nTask) + 1 <= MAX_TASKS
                && NewTask(table.tasks[slot], TaskId(slot, old(table.gen)), priority, mstatus, entry)
                && table.tasks == old(table.tasks)[slot := table.tasks[slot]]
                && queue.s == Insert(old(queue.s), Position(old(queue.s), Priorities(table.tasks), slot), slot)
                && (old(queue.Linked()) && (old(queue.s) == [] || priority <= table.tasks[old(queue.s)[0]].priority) ==>
                      queue.Linked())
      ensures table.gen == if old(table.nTask) == MAX_TASKS then old(table.gen) else (old(table.gen) + 1) % GENERATIONS
      ensures TasksKeep(old(table.ram.w), table.ram.w, old(table.tasks), {})
      ensures table.global.max - table.global.head >= 32768 ==> (slot == -1 <==> old(table.nTask) == MAX_TASKS)
    {
      ghost var ts, e, s := table.tasks, queue.e, queue.s;
      QueuedAreReady(ts, e, s, blocked);
      slot := table.CreateTask(entry, mstatus, priority);
      if slot == -1 {
        StampKeepsValid(ts);
        return;
      }
      assert SlotInv(ts[slot], e[slot], blocked[slot], slot, slot in s);
      SortedElsewhere(s, Priorities(ts), Priorities(table.tasks));
      AddToSchedule(slot, ts);
    }

    /** A slot that has been looked at, and not filled, concerns no task. */
    lemma StampKeepsValid(ts: Tasks)
      requires table.Valid() && queue.Valid() && SchedInv(ts, queue.e, queue.s, blocked)
      requires Sorted(queue.s, Priorities(ts)) && (table.tasks == ts || SameButStamp(ts, table.tasks))
      ensures Valid()
    {
      QueuedAreReady(ts, queue.e, queue.s, blocked);
      StampInv(ts, table.tasks, queue.e, queue.s, blocked);
      SortedElsewhere(queue.s, Priorities(ts), Priorities(table.tasks));
    }

    /** add_task_to_schedule of a task just created. */
    method AddToSchedule(x: int, ghost ts: Tasks)
      requires table.Valid() && queue.Valid() && SchedInv(ts, queue.e, queue.s, blocked)
      requires 0 <= x < MAX_TASKS && !ts[x].Created() && x !in queue.s && table.tasks == ts[x := table.tasks[x]]
      requires table.tasks[x].state == READY && TaskSlot(table.tasks[x].id) == x
      requires Sorted(queue.s, Priorities(table.tasks))
      modifies queue
      ensures Valid()
      ensures var p, s := Priorities(table.tasks), old(queue.s);
              && queue.s == Insert(s, Position(s, p, x), x)
              && (old(queue.Linked()) && (s == [] || Prio(p, x) <= Prio(p, s[0])) ==> queue.Linked())
    {
      ghost var e, s := queue.e, queue.s;
      queue.SetTid(x, table.tasks[x].id);
      ghost var f := queue.e;
      PushReady(x);
      SpawnInv(ts, e, f, queue.e, s, queue.s, blocked, x, table.tasks[x]);
      MakeValid(table.tasks);
    }

    /** start_schedule: enters a ready task. Fails, where the kernel panics, for any other id. The queue is
        right afterwards if the task's prev link was; from anywhere but the head, with none, the task stays
        in it and what was behind is lost. */
    method Start(tid: int) returns (ok: bool, ghost k: nat)
      requires Valid() && OthersAtRest(table.tasks, -1)
      modifies this`live, table`tasks, table`current, queue
      ensures var x := old(table.Find(tid));
              && (ok <==> x != -1 && old(table.tasks)[x].state == READY)
              && (ok ==>
                    && k < |old(queue.s)| && old(queue.s)[k] == x && table.current == x
                    && table.tasks == old(table.tasks)[x := old(table.tasks)[x].(state := RUNNING)]
                    && live == table.tasks[x].ctx
                    && (if old(queue.e)[x].prev == PrevIn(old(queue.s), k) then
                          && Valid() && queue.s == Without(old(queue.s), k) && (old(queue.Linked()) ==> queue.Linked())
                          && (old(table.tasks)[x].slice >= 1 ==> OneRuns(table.tasks, x))
                        else k > 0 && Forward(queue.e, queue.head, old(queue.s)[..k + 1])))
    {
      var x := table.Find(tid);
      k := 0;
      if x == -1 || table.tasks[x].state != READY {
        return false, k;
      }
      ghost var ts, e, s := table.tasks, queue.e, queue.s;
      assert SlotInv(ts[x], e[x], blocked[x], x, x in s);
      k :| k < |s| && s[k] == x;
      TakeOut(x, table.tasks[x].(state := RUNNING), k);
      live := table.tasks[x].ctx;
      return true, k;
    }
  }

  lemma SortedWithout(s: seq<int>, p: Prios, k: nat)
    requires Sorted(s, p) && k < |s|
    ensures Sorted(Without(s, k), p)
  {
    var t := Without(s, k);
    forall i, j | 0 <= i < j < |t|
      ensures Prio(p, t[i]) >= Prio(p, t[j])
    {
      WithoutAt(s, k, i);
      WithoutAt(s, k, j);
    }
  }

  lemma StillEqual(ts: Tasks, i: nat)
    requires i < MAX_TASKS && ts[i].Created()
    ensures AllEqual(ts) ==> AllEqual(ts[i := ts[i].(state := READY)])
  {
    if AllEqual(ts) {
      var q :| SameLevel(ts, q);
      assert SameLevel(ts[i := ts[i].(state := READY)], q);
    }
  }

  /** What the head of the queue is after the current task was put back or not. */
  lemma RequeuedHead(r: Rota, goesOn: bool)
    requires r.running !in r.ready
    ensures var s := if goesOn then Requeued(r) else r.ready;
            && HeadVerdict(s, r.running) == VerdictOf(r, goesOn)
            && (VerdictOf(r, goesOn) == SWITCHED ==> Next(r, if goesOn then Yield else Leave) == Rota(s[1..], s[0], r.prio))
            && (VerdictOf(r, goesOn) == DERAILED ==> s[1] == r.ready[0] && s[..2] == [r.running, r.ready[0]])
  {
  }

  lemma NoneCreated(ts: seq<Task>)
    requires CreatedCount(ts) == 0
    ensures forall i :: 0 <= i < |ts| ==> !ts[i].Created()
  {
  }
}

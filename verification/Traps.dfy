/** Traps and system calls (trap_handler.c, ksys.c, ksys_dispatch.c) on top of the scheduler. */
module Traps {
  import opened Width
  import opened Bits
  import opened HeapList
  import opened KernelHeap
  import opened TaskTable
  import opened ReadyQueue
  import opened Rotas
  import opened Scheduler
  import Clint

  const SYS_EXIT := 1
  const SYS_YIELD := 2
  const SYS_FREE := 16
  const SYS_MALLOC := 17
  const SYS_PUTC := 32
  const SYS_GETC := 33
  const SYS_PUTS := 34

  const MAX_SPIN_ITER := 1024
  const NEWLINE: Byte := 10
  const TICK_LENGTH := 10

  /** What a k_... function tells the dispatcher. */
  datatype Status = DONE | RETRY | BLOCKED

  /** How a trap ends. DISORDERED: the switch has put the running task in front of the ready ones, and the
      queue has lost its order. UNDEFINED: the kernel goes on with memory that is no block header, or with a
      block list that has lost its end. STRAYED: user code has written memory it does not own. In these
      three the model stops. */
  datatype Outcome = RESUMED | PANICKED | DISORDERED | UNDEFINED | STRAYED

  datatype Received = Nothing | Char(c: Byte)

  /** The terminal during one trap: whether it is busy at the n-th read of its status, what it has
      received, and the string before the terminating zero that puts would read at a0. */
  datatype Device = Device(busy: nat -> bool, rx: Received, text: seq<Byte>)

  datatype TrapEvent = Interrupt(irq: int) | Ecall(d: Device) | Fault

  /** What the trap frame says: the word of mcause; the terminal is there in case it is a system call. */
  datatype Raised = Raised(mcause: Word, d: Device)

  const CAUSE_ECALL_U := 8
  const CAUSE_ECALL_M := 11
  const INTERRUPT_BIT := 0x8000_0000

  /** The word, read as signed and cut to 31 bits, as the handler does. */
  lemma CauseSplit(c: Raised)
    ensures if Signed(c.mcause) < 0 then EventOf(c) == Interrupt(c.mcause % INTERRUPT_BIT)
            else EventOf(c) == (var code := c.mcause % INTERRUPT_BIT;
                                if code == CAUSE_ECALL_U || code == CAUSE_ECALL_M then Ecall(c.d) else Fault)
  {
  }

  /** What kind of trap the handler takes it for. */
  function EventOf(c: Raised): TrapEvent {
    if c.mcause >= INTERRUPT_BIT then Interrupt(c.mcause - INTERRUPT_BIT)
    else if c.mcause == CAUSE_ECALL_U || c.mcause == CAUSE_ECALL_M then Ecall(c.d)
    else Fault
  }

  function Events(cs: seq<Raised>): (es: seq<TrapEvent>)
    ensures |es| == |cs|
  {
    seq(|cs|, n requires 0 <= n < |cs| => EventOf(cs[n]))
  }

  /** One of the polls from the t-th on, as many as k_putc makes, finds the terminal idle. */
  ghost predicate Accepts(d: Device, t: nat) {
    exists n: nat :: t <= n < t + MAX_SPIN_ITER && !d.busy(n)
  }

  ghost predicate IdleFrom(d: Device, n: nat) {
    exists m: nat :: n <= m && !d.busy(m)
  }

  /** The terminal never stays busy for good. */
  ghost predicate Serves(d: Device) {
    forall n: nat :: IdleFrom(d, n)
  }

  // ---------------------------------------------------------------- the kernel's state at a trap

  type Slot = x: int | 0 <= x < 8

  /** w is memory; linked says that the prev links of the ready queue invert its next links. */
  datatype Snap = Snap(ts: Tasks, live: Context, c: Slot, ready: seq<int>, b: BlockedTable, nested: Lists,
                       w: Words, linked: bool, mie: set<int>, sent: seq<Byte>, cmp: Dword) {
    function Sched(): Rota { Rota(ready, c, Priorities(ts)) }
    function Code(): int { live.regs[17] }
    function Arg(): Word { live.regs[10] }
    function OwnHeap(): HeapDesc { ts[c].heap }
    function OwnList(): seq<Blk> { nested[c] }
  }

  function ViewIn(s: Snap, i: Slot): Context { ViewOf(s.ts, s.live, s.c, i) }

  // ---------------------------------------------------------------- what a call does

  ghost predicate Names(bl: seq<Blk>, p: int) {
    exists k :: 0 <= k < |bl| && bl[k].Payload() == p
  }

  ghost function Named(bl: seq<Blk>, p: int): (k: nat)
    requires Names(bl, p)
    ensures k < |bl| && bl[k].Payload() == p
  {
    var k :| 0 <= k < |bl| && bl[k].Payload() == p;
    k
  }

  /** A free the pointer check lets through. */
  predicate FreesChecked(s: Snap) {
    s.Code() == SYS_FREE && ValidPtr(s.OwnHeap().head, s.OwnHeap().max, s.Arg())
  }

  /** ... of a block that is not allocated, as a second free of it: the kernel panics. */
  ghost predicate FreesFree(s: Snap) {
    FreesChecked(s) && Names(s.OwnList(), s.Arg()) && !s.OwnList()[Named(s.OwnList(), s.Arg())].used
  }

  /** ... of no block at all. */
  ghost predicate FreesNothing(s: Snap) {
    FreesChecked(s) && !Names(s.OwnList(), s.Arg())
  }

  predicate MallocCorrupts(s: Snap) {
    s.Code() == SYS_MALLOC && Corrupts(s.OwnHeap(), s.OwnList(), s.Arg())
  }

  predicate Blocks(k: Context, d: Device) { k.regs[17] == SYS_GETC && d.rx.Nothing? }
  ghost predicate Retries(k: Context, d: Device) { k.regs[17] == SYS_PUTC && !Accepts(d, 0) }

  /** The running task ends or blocks. */
  predicate Leaves(s: Snap, d: Device) { s.Code() == SYS_EXIT || Blocks(s.live, d) }

  function Advance(k: Context): Context { k.(pc := (k.pc + 4) % TWO_32) }

  function SetA0(k: Context, w: Word): Context { k.(regs := k.regs[10 := w]) }

  /** k_getc stores one byte, the low one of a0. */
  function StoreLowByte(k: Context, c: Byte): Context {
    SetA0(k, k.regs[10] - k.regs[10] % 256 + c)
  }

  function MallocAnswer(s: Snap): int { HeapAnswer(s.OwnHeap(), s.OwnList(), s.Arg()) }

  /** a0 as the call leaves it. */
  function Answer(s: Snap, d: Device): int {
    if s.Code() == SYS_MALLOC then MallocAnswer(s)
    else if s.Code() == SYS_GETC && d.rx.Char? then s.Arg() - s.Arg() % 256 + d.rx.c
    else s.Arg()
  }

  /** c is the context k after the call: nothing at all has changed if it blocks or is to be retried;
      otherwise pc is 4 further and a0 holds the answer. */
  ghost predicate Returned(s: Snap, d: Device, c: Context) {
    if Blocks(s.live, d) || Retries(s.live, d) then c == s.live
    else
      && c.pc == (s.live.pc + 4) % TWO_32 && c.mstatus == s.live.mstatus
      && c.regs[10] == Answer(s, d) && (forall i :: 0 <= i < 32 && i != 10 ==> c.regs[i] == s.live.regs[i])
  }

  /** The list of the caller's heap after the call. */
  ghost function ListAfter(s: Snap): seq<Blk> {
    if s.Code() == SYS_MALLOC then AllocList(s.OwnHeap(), s.OwnList(), s.Arg())
    else if FreesChecked(s) && Names(s.OwnList(), s.Arg()) then Release(s.OwnList(), Named(s.OwnList(), s.Arg()))
    else s.OwnList()
  }

  /** Payloads the call gives up. */
  function GivenUp(s: Snap): set<int> { if FreesChecked(s) then {s.Arg()} else {} }

  /** What the call sends to the terminal. */
  ghost function Output(s: Snap, d: Device): seq<Byte> {
    if s.Code() == SYS_PUTC && Accepts(d, 0) then [s.Arg() % 256]
    else if s.Code() == SYS_PUTS then d.text + [NEWLINE]
    else []
  }

  // ---------------------------------------------------------------- what a trap does

  /** The slice is used up, or someone wakes. */
  predicate Yields(s: Snap, irq: int) {
    s.ts[s.c].slice == Spent(irq) || Woken(s.b, irq, MAX_TASKS) != []
  }

  /** What an interrupt takes off the running task's slice. */
  function Spent(irq: int): nat { if irq == IRQ_TIMER then 1 else 0 }

  /** The schedule once an interrupt's waiters have arrived. */
  function Arrived(s: Snap, irq: int): Rota {
    Next(s.Sched(), Arrive(Woken(s.b, irq, MAX_TASKS)))
  }

  ghost function OutcomeOf(trap: TrapEvent, s: Snap): Outcome {
    match trap
    case Interrupt(irq) => if Yields(s, irq) && Jumps(Arrived(s, irq)) then DISORDERED else RESUMED
    case Fault => PANICKED
    case Ecall(d) =>
      if FreesNothing(s) || MallocCorrupts(s) then UNDEFINED
      else if FreesFree(s) || (Leaves(s, d) && s.ready == []) then PANICKED
      else if s.Code() == SYS_YIELD && Jumps(s.Sched()) then DISORDERED
      else RESUMED
  }

  /** What a trap does to the schedule. */
  function EventsOf(trap: TrapEvent, s: Snap): seq<Event> {
    match trap
    case Interrupt(irq) =>
      [Arrive(Woken(s.b, irq, MAX_TASKS))] + if Yields(s, irq) then [Yield] else []
    case Ecall(d) => if Leaves(s, d) then [Leave] else if s.Code() == SYS_YIELD then [Yield] else []
    case Fault => []
  }

  lemma InterruptFollows(s: Snap, irq: int)
    requires OutcomeOf(Interrupt(irq), s) == RESUMED
    ensures var evs, m := EventsOf(Interrupt(irq), s), Arrived(s, irq);
            && Follows(s.Sched(), evs, if Yields(s, irq) then Next(m, Yield) else m)
            && Switches(evs) == if Yields(s, irq) then 1 else 0
  {
    var evs := EventsOf(Interrupt(irq), s);
    assert evs[1..] == (if Yields(s, irq) then [Yield] else []) && [Yield][1..] == [];
    CallFollows(Arrived(s, irq), evs[1..]);
    assert evs[0] == Arrive(Woken(s.b, irq, MAX_TASKS));
  }

  predicate Exits(trap: TrapEvent, s: Snap) { trap.Ecall? && s.Code() == SYS_EXIT }

  /** Every other task keeps, or is given, the context it was saved with, and keeps its heap. */
  ghost predicate OthersUntouched(s: Snap, t: Snap) {
    forall i: Slot :: i != s.c ==> ViewIn(t, i) == s.ts[i].ctx && t.nested[i] == s.nested[i]
  }

  /** The trap switches tasks. */
  predicate SwitchesTask(trap: TrapEvent, s: Snap) {
    match trap
    case Interrupt(irq) => Yields(s, irq)
    case Ecall(d) => Leaves(s, d) || s.Code() == SYS_YIELD
    case Fault => false
  }

  function StateAfter(s: Snap, trap: TrapEvent, t: Snap, i: Slot): TaskState {
    if i == t.c then RUNNING
    else if i == s.c then
      if Exits(trap, s) then NOT_CREATED else if trap.Ecall? && Blocks(s.live, trap.d) then BLOCKED_IRQ else READY
    else if trap.Interrupt? && Wakes(s.b[i], trap.irq) then READY
    else s.ts[i].state
  }

  /** A timer tick costs the running task one; a task switched to with nothing left gets a new slice. */
  function SliceAfter(s: Snap, trap: TrapEvent, t: Snap, i: Slot): int {
    var left := s.ts[i].slice - if i == s.c && trap.Interrupt? then Spent(trap.irq) else 0;
    if i == t.c && SwitchesTask(trap, s) && left == 0
    then SCHED_QUANTUM_TICKS + s.ts[i].priority * SCHED_PRIORITY_BONUS_TICKS else left
  }

  /** What a trap does to a task's entry, apart from its context. */
  predicate TaskAfter(s: Snap, trap: TrapEvent, t: Snap, i: Slot) {
    var a, b := s.ts[i], t.ts[i];
    && b.id == a.id && b.priority == a.priority && b.stackBase == a.stackBase
    && b.heap.(total := 0) == a.heap.(total := 0) && (i != s.c ==> b.heap == a.heap)
    && b.slice == SliceAfter(s, trap, t, i) && b.state == StateAfter(s, trap, t, i)
  }

  /** Bytes: no other task's stack or heap changes; the caller's stack and the payloads it goes on holding do
      not change; only exit, malloc and free write memory at all. */
  ghost predicate BytesAfter(s: Snap, trap: TrapEvent, t: Snap) {
    && TasksKeep(s.w, t.w, s.ts, {s.c})
    && (!Exits(trap, s) ==> OwnStep(s.w, t.w, s.ts, s.OwnList(), t.nested[s.c], s.c, if trap.Ecall? then GivenUp(s) else {}))
    && (trap.Interrupt? || !(s.Code() == SYS_EXIT || s.Code() == SYS_MALLOC || s.Code() == SYS_FREE) ==> t.w == s.w)
  }

  /** The prev links survive unless a waking task is pushed in front of others. */
  ghost predicate LinksAfter(s: Snap, trap: TrapEvent, t: Snap) {
    s.linked && (trap.Interrupt? ==> AllEqual(s.ts)) ==> t.linked
  }

  /** The caller of a system call, or the task interrupted. */
  ghost predicate CallerGoesOn(s: Snap, trap: TrapEvent, t: Snap) {
    match trap
    case Ecall(d) =>
      if s.Code() == SYS_EXIT then !t.ts[s.c].Created()
      else Returned(s, d, ViewIn(t, s.c)) && t.nested[s.c] == ListAfter(s) && t.sent == s.sent + Output(s, d)
    case _ => ViewIn(t, s.c) == s.live && t.nested[s.c] == s.nested[s.c] && t.sent == s.sent
  }

  /** Who waits for what: an interrupt wakes exactly its waiters, a blocking call adds the caller. */
  ghost predicate WaitersAfter(s: Snap, trap: TrapEvent, t: Snap) {
    match trap
    case Interrupt(irq) =>
      forall i: Slot :: if Wakes(s.b[i], irq) then !t.b[i].blocked else t.b[i] == s.b[i]
    case Ecall(d) =>
      t.b == if Blocks(s.live, d) then s.b[s.c := BlockedEntry(s.ts[s.c].id, s.b[s.c].mask + {IRQ_EXTERNAL}, true)] else s.b
    case Fault => true
  }

  /** mie is set by a switch, to the timer and what is waited for, and by nothing else. */
  ghost predicate EnabledAfter(s: Snap, trap: TrapEvent, t: Snap) {
    if SwitchesTask(trap, s) then Listens(t.mie, t.b) else t.mie == s.mie
  }

  /** t is the state a trap that resumes leaves, from state s. */
  ghost predicate Trapped(s: Snap, trap: TrapEvent, t: Snap) {
    && Follows(s.Sched(), EventsOf(trap, s), t.Sched())
    && OthersUntouched(s, t) && CallerGoesOn(s, trap, t) && WaitersAfter(s, trap, t) && EnabledAfter(s, trap, t)
    && (forall i: Slot :: TaskAfter(s, trap, t, i)) && BytesAfter(s, trap, t) && LinksAfter(s, trap, t)
    && t.cmp == if trap == Interrupt(IRQ_TIMER) then (s.cmp + TICK_LENGTH) % TWO_64 else s.cmp
  }

  /** Whether the links of a task's heap lead to the block before p. */
  lemma NamedByLinks(m: Words, d: HeapDesc, bl: seq<Blk>, p: int)
    requires NestedAt(m, d, bl)
    ensures Reaches(m, d.head, p - HEADER) <==> Names(bl, p)
  {
    ReachesBlocks(m, bl, d.head, d.max, 0, p - HEADER);
    if Names(bl, p) {
      assert bl[Named(bl, p)].addr == p - HEADER;
    }
  }

  lemma AnswerIsWord(m: Words, d: HeapDesc, bl: seq<Blk>, n: Word)
    requires NestedAt(m, d, bl)
    ensures 0 <= HeapAnswer(d, bl, n) < TWO_32
    ensures Corrupts(d, bl, n) <==> Need(n) == SELF_LINK && HeapAnswer(d, bl, n) != NULL
  {
    var k := Taken(bl, d.total, d.size, n);
    if k < |bl| {
      AddrsPositive(bl, d.head, d.max, k);
    }
  }

  /** The caller's heap after malloc or free. */
  ghost predicate HeapChanged(s: Snap, t: Snap) {
    && t.ts == s.ts[s.c := s.ts[s.c].(heap := s.OwnHeap().(total := t.OwnHeap().total))]
    && t.nested == s.nested[s.c := ListAfter(s)]
    && OwnStep(s.w, t.w, s.ts, s.OwnList(), t.OwnList(), s.c, GivenUp(s))
    && (s.Code() != SYS_MALLOC && s.Code() != SYS_FREE ==> t.w == s.w)
  }

  /** The state after malloc or free: the caller's heap, and nothing else. */
  ghost predicate HeapStep(s: Snap, t: Snap) {
    HeapChanged(s, t) && t == s.(ts := t.ts, nested := t.nested, w := t.w)
  }

  /** The state after the switch over the call codes, before pc is looked at. */
  ghost predicate Served(s: Snap, d: Device, t: Snap) {
    && HeapChanged(s, t) && t.live.regs[10] == Answer(s, d)
    && t == s.(live := SetA0(s.live, t.live.regs[10]), ts := t.ts, nested := t.nested, w := t.w,
               sent := s.sent + Output(s, d))
  }

  lemma HeapServes(s: Snap, d: Device, t: Snap, a0: Word)
    requires HeapStep(s, t) && (s.Code() == SYS_FREE || s.Code() == SYS_MALLOC) && a0 == Answer(s, d)
    ensures Served(s, d, t.(live := SetA0(s.live, a0)))
    ensures s.Code() == SYS_FREE ==> t.(live := SetA0(s.live, a0)) == t
  {
    assert s.Code() == SYS_FREE ==> s.live.regs[10 := a0] == s.live.regs;
    assert s.sent + [] == s.sent;
  }

  /** The state after the running task has blocked in getc. */
  ghost predicate Waits(s: Snap, t: Snap) {
    t == s.(ts := s.ts[s.c := s.ts[s.c].(state := BLOCKED_IRQ)],
            b := s.b[s.c := BlockedEntry(s.ts[s.c].id, s.b[s.c].mask + {IRQ_EXTERNAL}, true)])
  }

  lemma NothingMoves(m: Words, ts: Tasks, list: seq<Blk>, c: Slot, except: set<int>)
    ensures OwnStep(m, m, ts, list, list, c, except)
  {
  }

  /** The block just allocated is the one its payload names, and freeing it restores the list. */
  lemma FreshBlock(d: HeapDesc, m: Words, bl: seq<Blk>, n: Word)
    requires NestedAt(m, d, bl) && HeapAnswer(d, bl, n) != NULL && !Corrupts(d, bl, n)
    ensures var p, cl := HeapAnswer(d, bl, n), AllocList(d, bl, n);
            && ValidPtr(d.head, d.max, p) && Names(cl, p) && cl[Named(cl, p)].used && Release(cl, Named(cl, p)) == bl
            && Names(bl, p) && !bl[Named(bl, p)].used
  {
    var k := Taken(bl, d.total, d.size, n);
    NeedFacts(n);
    FitsAlike(bl[k], Need(n));
    FreshCarved(bl, k, Need(n), d.head, d.max);
  }

  lemma FreshCarved(bl: seq<Blk>, k: nat, need: nat, head: int, max: int)
    requires Wf(bl, head, max) && 0 < head && k < |bl| && Fits(bl[k], need) && need % 16 == 0
    ensures var p, cl := bl[k].Payload(), Carve(bl, k, need);
            && ValidPtr(head, max, p) && Names(cl, p) && cl[Named(cl, p)].used && Release(cl, Named(cl, p)) == bl
            && Names(bl, p) && !bl[Named(bl, p)].used
  {
    var p, cl := bl[k].Payload(), Carve(bl, k, need);
    CarvePayloadValid(bl, k, need, head, max);
    CarveWf(bl, k, need, head, max);
    assert cl[k].Payload() == p;
    PayloadsDistinct(cl, head, max, k, Named(cl, p));
    PayloadsDistinct(bl, head, max, k, Named(bl, p));
    ReleaseUndoesCarve(bl, k, need, head, max);
  }

  lemma FreeOfBlock(s: Snap, d: Device)
    requires FreesChecked(s) && Names(s.OwnList(), s.Arg())
    ensures OutcomeOf(Ecall(d), s) == if s.OwnList()[Named(s.OwnList(), s.Arg())].used then RESUMED else PANICKED
    ensures ListAfter(s) == Release(s.OwnList(), Named(s.OwnList(), s.Arg()))
  {
  }

  /** f frees p in a heap with bounds like h and list bl. */
  predicate FreesIn(f: Snap, h: HeapDesc, bl: seq<Blk>, p: int) {
    f.Code() == SYS_FREE && f.Arg() == p && f.OwnList() == bl && f.OwnHeap().head == h.head && f.OwnHeap().max == h.max
  }

  /** malloc, free, free: the first free resumes and restores the list, the second panics. */
  lemma SecondFreePanics(m: Words, h: HeapDesc, bl: seq<Blk>, n: Word, f: Snap, g: Snap, d: Device)
    requires NestedAt(m, h, bl) && HeapAnswer(h, bl, n) != NULL && !Corrupts(h, bl, n)
    requires FreesIn(f, h, AllocList(h, bl, n), HeapAnswer(h, bl, n))
    requires FreesIn(g, h, ListAfter(f), HeapAnswer(h, bl, n))
    ensures OutcomeOf(Ecall(d), f) == RESUMED && g.OwnList() == bl
    ensures OutcomeOf(Ecall(d), g) == PANICKED
  {
    FreshBlock(h, m, bl, n);
    FreeOfBlock(f, d);
    FreeOfBlock(g, d);
  }

  // ---------------------------------------------------------------- the parts of a trap, put together

  lemma ServedTrapped(s: Snap, d: Device, m: Snap, t: Snap)
    requires OneRuns(s.ts, s.c) && Served(s, d, m) && !Blocks(s.live, d) && s.Code() != SYS_EXIT && s.Code() != SYS_YIELD
    requires t == m.(live := if Retries(s.live, d) then m.live else Advance(m.live))
    ensures Trapped(s, Ecall(d), t)
  {
    SamePriorities(s.ts, t.ts);
    CallFollows(s.Sched(), []);
  }

  /** u is m after a context switch, by a yield or because the task of m does not go on. */
  ghost predicate Switched(m: Snap, ev: Event, u: Snap)
    requires Enabled(m.Sched(), ev)
  {
    && u.Sched() == Next(m.Sched(), ev)
    && ViewsKept(m.ts, u.ts, m.live, u.live, m.c, u.c) && StatesAfter(m.ts, u.ts, m.c, u.c)
    && u.nested == m.nested && u.w == m.w && u.sent == m.sent && u.cmp == m.cmp && u.b == m.b
    && Listens(u.mie, u.b) && (m.linked ==> u.linked)
  }

  lemma BlockedTrapped(s: Snap, d: Device, m: Snap, t: Snap)
    requires OneRuns(s.ts, s.c) && Blocks(s.live, d) && Waits(s, m) && s.ready != [] && Switched(m, Leave, t)
    requires s.ready[0] != s.c
    ensures Trapped(s, Ecall(d), t)
  {
    SamePriorities(s.ts, m.ts);
    CallFollows(s.Sched(), [Leave]);
    NothingMoves(s.w, s.ts, s.OwnList(), s.c, GivenUp(s));
    forall i: Slot
      ensures ViewIn(t, i) == ViewIn(s, i) && TaskAfter(s, Ecall(d), t, i)
    {
      assert m.ts[i].state != TERMINATED && ViewIn(m, i) == ViewIn(s, i);
    }
  }

  lemma YieldTrapped(s: Snap, d: Device, m: Snap, t: Snap)
    requires OneRuns(s.ts, s.c) && s.Code() == SYS_YIELD && !Jumps(s.Sched())
    requires m == s.(live := Advance(s.live)) && Switched(m, Yield, t)
    ensures Trapped(s, Ecall(d), t)
  {
    CallFollows(s.Sched(), [Yield]);
    NothingMoves(s.w, s.ts, s.OwnList(), s.c, GivenUp(s));
    forall i: Slot
      ensures ViewIn(t, i) == ViewIn(m, i) && TaskAfter(s, Ecall(d), t, i)
    {
      assert m.ts[i].state != TERMINATED;
    }
  }

  lemma ExitTrapped(s: Snap, d: Device, t: Snap)
    requires OneRuns(s.ts, s.c) && s.Code() == SYS_EXIT && s.ready != []
    requires t.Sched() == Next(s.Sched(), Leave) && t.c != s.c
    requires forall i: Slot :: i != s.c ==> ViewIn(t, i) == s.ts[i].ctx
    requires StatesAfter(s.ts[s.c := s.ts[s.c].(state := TERMINATED)], t.ts, s.c, t.c) && TasksKeep(s.w, t.w, s.ts, {s.c})
    requires t.nested == s.nested && t.cmp == s.cmp && t.b == s.b && Listens(t.mie, t.b) && (s.linked ==> t.linked)
    ensures Trapped(s, Ecall(d), t)
  {
    CallFollows(s.Sched(), [Leave]);
    forall i: Slot
      ensures TaskAfter(s, Ecall(d), t, i)
    {
    }
  }

  /** m is s after the tick and the wakes, us its tasks between the two. */
  ghost predicate Awake(s: Snap, irq: int, us: Tasks, m: Snap) {
    && us == s.ts[s.c := s.ts[s.c].(slice := us[s.c].slice)] && us[s.c].slice == s.ts[s.c].slice - Spent(irq)
    && WokenUp(us, m.ts, s.b, m.b, irq, MAX_TASKS) && m.Sched() == Arrived(s, irq)
    && m.live == s.live && m.nested == s.nested && m.w == s.w && m.sent == s.sent && m.mie == s.mie
    && (s.linked && AllEqual(s.ts) ==> m.linked)
    && m.cmp == if irq == IRQ_TIMER then (s.cmp + TICK_LENGTH) % TWO_64 else s.cmp
  }

  /** a is s after the tick. */
  ghost predicate Ticked(s: Snap, irq: int, a: Snap) {
    && s.ts[s.c].slice >= Spent(irq)
    && a == s.(ts := s.ts[s.c := s.ts[s.c].(slice := s.ts[s.c].slice - Spent(irq))],
               cmp := if irq == IRQ_TIMER then (s.cmp + TICK_LENGTH) % TWO_64 else s.cmp)
  }

  lemma AwakeFrom(s: Snap, irq: int, a: Snap, m: Snap)
    requires Ticked(s, irq, a) && WokenUp(a.ts, m.ts, a.b, m.b, irq, MAX_TASKS)
    requires m == a.(ts := m.ts, b := m.b, ready := Pushed(a.ready, Priorities(m.ts), a.b, irq, MAX_TASKS), linked := m.linked)
    requires Priorities(m.ts) == Priorities(a.ts) && (a.linked && AllEqual(a.ts) ==> m.linked)
    ensures Awake(s, irq, a.ts, m)
  {
    SamePriorities(s.ts, a.ts);
    if AllEqual(s.ts) {
      var q :| SameLevel(s.ts, q);
      assert SameLevel(a.ts, q);
    }
  }

  lemma InterruptTrapped(s: Snap, irq: int, us: Tasks, m: Snap, t: Snap)
    requires OneRuns(s.ts, s.c) && Awake(s, irq, us, m) && OutcomeOf(Interrupt(irq), s) == RESUMED && !s.b[s.c].blocked
    requires if Yields(s, irq) then Switched(m, Yield, t) else t == m
    ensures Trapped(s, Interrupt(irq), t)
  {
    InterruptFollows(s, irq);
    NothingMoves(s.w, s.ts, s.OwnList(), s.c, {});
    forall i: Slot
      ensures ViewIn(t, i) == ViewIn(s, i) && TaskAfter(s, Interrupt(irq), t, i)
    {
      InterruptedTask(s, irq, us, m, t, i);
    }
  }

  lemma InterruptedTask(s: Snap, irq: int, us: Tasks, m: Snap, t: Snap, i: Slot)
    requires OneRuns(s.ts, s.c) && Awake(s, irq, us, m) && OutcomeOf(Interrupt(irq), s) == RESUMED && !s.b[s.c].blocked
    requires if Yields(s, irq) then Switched(m, Yield, t) else t == m
    ensures ViewIn(t, i) == ViewIn(s, i) && TaskAfter(s, Interrupt(irq), t, i)
  {
    assert m.ts[i].ctx == s.ts[i].ctx && m.ts[i].state != TERMINATED;
  }

  // ---------------------------------------------------------------- runs of traps

  /** What user code does up to the next trap: its registers then, and its stores in order. */
  datatype Act = Act(ctx: Context, stores: seq<(int, int)>)

  type User = (nat, Context) -> Act

  function Stored(w: Words, stores: seq<(int, int)>): Words
    decreases |stores|
  {
    if stores == [] then w else Stored(w[stores[0].0 := stores[0].1], stores[1..])
  }

  /** Every store goes to the running task's own stack or to a payload it holds. */
  ghost predicate Confined(s: Snap, stores: seq<(int, int)>) {
    forall i :: 0 <= i < |stores| ==> OwnMemory(s.ts[s.c], s.OwnList(), stores[i].0)
  }

  /** One task runs, with a slice of at least 1; the queue holds exactly the READY tasks, in order of
      priority; exactly the BLOCKED_IRQ tasks are marked. */
  ghost predicate Sane(s: Snap) {
    && OneRuns(s.ts, s.c) && Slots(s.ready) && InOrder(s.Sched())
    && forall i: Slot :: (i in s.ready <==> s.ts[i].state == READY) && (s.b[i].blocked <==> s.ts[i].state == BLOCKED_IRQ)
  }

  /** The state before the user code that leads to trap n. */
  function Before(s: Snap, outs: seq<Snap>, n: nat): Snap
    requires n <= |outs|
  {
    if n == 0 then s else outs[n - 1]
  }

  /** From state s, user code and traps in turn: ins are the states at the traps, outs those after the ones
      that resumed. User code changes its own registers and memory only. */
  ghost predicate Trace(s: Snap, traps: seq<TrapEvent>, user: User, ins: seq<Snap>, outs: seq<Snap>) {
    && |outs| <= |ins| <= |traps| && |ins| <= |outs| + 1
    && (forall n: nat :: n < |ins| ==> Enters(s, user, ins, outs, n))
    && (forall n: nat :: n < |outs| ==> Resumes(traps, ins, outs, n))
  }

  /** The user code after the last trap leaves its memory. */
  ghost predicate Strayed(s: Snap, traps: seq<TrapEvent>, user: User, ins: seq<Snap>, outs: seq<Snap>) {
    && |ins| == |outs| < |traps|
    && var b := Before(s, outs, |outs|); !Confined(b, user(|outs|, b.live).stores)
  }

  ghost predicate Enters(s: Snap, user: User, ins: seq<Snap>, outs: seq<Snap>, n: nat)
    requires n < |ins| <= |outs| + 1
  {
    Acts(Before(s, outs, n), user(n, Before(s, outs, n).live), ins[n])
  }

  /** t is the state user code leaves. */
  ghost predicate Acts(b: Snap, act: Act, t: Snap) {
    && t == b.(live := act.ctx, w := Stored(b.w, act.stores)) && Confined(b, act.stores)
    && TasksKeep(b.w, t.w, b.ts, {b.c}) && Sane(t)
  }

  ghost predicate Resumes(traps: seq<TrapEvent>, ins: seq<Snap>, outs: seq<Snap>, n: nat)
    requires n < |outs| <= |ins| <= |traps|
  {
    OutcomeOf(traps[n], ins[n]) == RESUMED && Trapped(ins[n], traps[n], outs[n])
  }

  /** What each of the first n traps did to the schedule, and all of them. */
  ghost function EventsAt(traps: seq<TrapEvent>, ins: seq<Snap>, n: nat): seq<seq<Event>>
    requires n <= |ins| <= |traps|
  {
    seq(n, m requires 0 <= m < n => EventsOf(traps[m], ins[m]))
  }

  ghost function EventsTo(traps: seq<TrapEvent>, ins: seq<Snap>, n: nat): seq<Event>
    requires n <= |ins| <= |traps|
  {
    Flatten(EventsAt(traps, ins, n))
  }

  lemma EventsToNext(traps: seq<TrapEvent>, ins: seq<Snap>, n: nat)
    requires n < |ins| <= |traps|
    ensures EventsTo(traps, ins, n + 1) == EventsTo(traps, ins, n) + EventsOf(traps[n], ins[n])
  {
    assert EventsAt(traps, ins, n + 1)[..n] == EventsAt(traps, ins, n);
  }

  /** The schedule after n traps, as their events make it. */
  ghost predicate FollowsTo(s: Snap, traps: seq<TrapEvent>, ins: seq<Snap>, outs: seq<Snap>, n: nat)
    requires n <= |outs| <= |ins| <= |traps|
  {
    Follows(s.Sched(), EventsTo(traps, ins, n), Before(s, outs, n).Sched())
  }

  ghost predicate StepFollows(s: Snap, traps: seq<TrapEvent>, ins: seq<Snap>, outs: seq<Snap>, n: nat)
    requires n < |outs| <= |ins| <= |traps|
  {
    Follows(Before(s, outs, n).Sched(), EventsOf(traps[n], ins[n]), outs[n].Sched())
  }

  lemma TraceStep(s: Snap, traps: seq<TrapEvent>, user: User, ins: seq<Snap>, outs: seq<Snap>, n: nat)
    requires Trace(s, traps, user, ins, outs) && n < |outs|
    ensures StepFollows(s, traps, ins, outs, n)
  {
    assert Enters(s, user, ins, outs, n) && Resumes(traps, ins, outs, n);
    assert ins[n].Sched() == Before(s, outs, n).Sched();
  }

  lemma FollowsToNext(s: Snap, traps: seq<TrapEvent>, ins: seq<Snap>, outs: seq<Snap>, n: nat)
    requires n < |outs| <= |ins| <= |traps| && FollowsTo(s, traps, ins, outs, n) && StepFollows(s, traps, ins, outs, n)
    ensures FollowsTo(s, traps, ins, outs, n + 1)
  {
    EventsToNext(traps, ins, n);
    FollowsThen(s.Sched(), EventsTo(traps, ins, n), Before(s, outs, n).Sched(), EventsOf(traps[n], ins[n]), outs[n].Sched());
  }

  /** Along a run of traps the schedule is one run of the rota. */
  lemma {:induction false} TraceFollows(s: Snap, traps: seq<TrapEvent>, user: User, ins: seq<Snap>, outs: seq<Snap>, n: nat)
    requires Trace(s, traps, user, ins, outs) && n <= |outs|
    ensures FollowsTo(s, traps, ins, outs, n)
  {
    if n > 0 {
      TraceFollows(s, traps, user, ins, outs, n - 1);
      TraceStep(s, traps, user, ins, outs, n - 1);
      FollowsToNext(s, traps, ins, outs, n - 1);
    }
  }

  // ---------------------------------------------------------------- contexts and memory over runs

  /** What task i sees of itself is the same in t as in s. */
  ghost predicate Untouched(s: Snap, t: Snap, i: Slot) {
    && ViewIn(t, i) == ViewIn(s, i) && t.ts[i].heap == s.ts[i].heap && t.nested[i] == s.nested[i]
    && t.ts[i].id == s.ts[i].id && t.ts[i].stackBase == s.ts[i].stackBase
    && (s.ts[i].Created() ==> t.ts[i].Created() && SameBlocks(s.w, t.w, s.ts[i]))
  }

  lemma WaitsOneTrap(b: Snap, act: Act, s: Snap, trap: TrapEvent, t: Snap, i: Slot)
    requires Acts(b, act, s) && Trapped(s, trap, t) && i != s.c
    ensures Untouched(b, t, i)
  {
    assert TaskAfter(s, trap, t, i);
    if b.ts[i].Created() {
      assert SameBlocks(b.w, s.w, b.ts[i]) && SameBlocks(s.w, t.w, s.ts[i]);
    }
  }

  lemma UntouchedThen(s: Snap, t: Snap, u: Snap, i: Slot)
    requires Untouched(s, t, i) && Untouched(t, u, i)
    ensures Untouched(s, u, i)
  {
  }

  /** A task that waits, however many traps and tasks go by, finds its context bit for bit when it runs
      at last, and its stack and its heap byte for byte. */
  lemma {:induction false} WaitingTaskUntouched(s: Snap, traps: seq<TrapEvent>, user: User, ins: seq<Snap>, outs: seq<Snap>,
                                                m: nat, n: nat, i: Slot)
    requires Trace(s, traps, user, ins, outs) && m <= n <= |outs|
    requires forall l: nat :: m <= l < n ==> ins[l].c != i
    ensures Untouched(Before(s, outs, m), Before(s, outs, n), i)
  {
    if m < n {
      WaitingTaskUntouched(s, traps, user, ins, outs, m, n - 1, i);
      assert Enters(s, user, ins, outs, n - 1) && Resumes(traps, ins, outs, n - 1);
      var b := Before(s, outs, n - 1);
      WaitsOneTrap(b, user(n - 1, b.live), ins[n - 1], traps[n - 1], outs[n - 1], i);
      UntouchedThen(Before(s, outs, m), b, outs[n - 1], i);
    }
  }

  /** The task interrupted goes on where it was when it next runs: the context it gets back is the one of
      its last trap, apart from the effect of its call. */
  lemma ResumedWhereTrapped(s: Snap, traps: seq<TrapEvent>, user: User, ins: seq<Snap>, outs: seq<Snap>, m: nat, n: nat)
    requires Trace(s, traps, user, ins, outs) && m < n <= |outs|
    requires !Exits(traps[m], ins[m]) && forall l: nat :: m < l < n ==> ins[l].c != ins[m].c
    ensures var view := ViewIn(Before(s, outs, n), ins[m].c);
            if traps[m].Ecall? then Returned(ins[m], traps[m].d, view) else view == ins[m].live
  {
    assert Resumes(traps, ins, outs, m);
    assert CallerGoesOn(ins[m], traps[m], outs[m]);
    WaitingTaskUntouched(s, traps, user, ins, outs, m + 1, n, ins[m].c);
  }

  // ---------------------------------------------------------------- who runs

  /** After a trap no ready task has a higher priority than the one that runs, if that was so before. */
  lemma TopAfterTrap(s: Snap, trap: TrapEvent, t: Snap)
    requires OutcomeOf(trap, s) == RESUMED && Trapped(s, trap, t) && InOrder(s.Sched())
    ensures InOrder(t.Sched()) && (Top(s.Sched()) || SwitchesTask(trap, s) ==> Top(t.Sched()))
  {
    var evs := EventsOf(trap, s);
    AfterIsTop(s.Sched(), evs);
    if trap.Interrupt? {
      InterruptFollows(s, trap.irq);
      assert !Yields(s, trap.irq) ==> InsertAll(s.ready, Priorities(s.ts), []) == s.ready;
    }
  }

  /** Over a whole run: whoever runs is of the highest priority there is, and the queue stays in order. */
  lemma {:induction false} HighestPriorityRuns(s: Snap, traps: seq<TrapEvent>, user: User, ins: seq<Snap>, outs: seq<Snap>, n: nat)
    requires Trace(s, traps, user, ins, outs) && n <= |outs| && InOrder(s.Sched()) && Top(s.Sched())
    ensures InOrder(Before(s, outs, n).Sched()) && Top(Before(s, outs, n).Sched())
  {
    if n > 0 {
      HighestPriorityRuns(s, traps, user, ins, outs, n - 1);
      assert Enters(s, user, ins, outs, n - 1) && Resumes(traps, ins, outs, n - 1);
      TopAfterTrap(ins[n - 1], traps[n - 1], outs[n - 1]);
    }
  }

  /** Timer interrupts among the traps from m up to n. */
  function Ticks(traps: seq<TrapEvent>, m: nat, n: nat): nat
    requires m <= n <= |traps|
  {
    if m == n then 0 else Ticks(traps, m, n - 1) + if traps[n - 1] == Interrupt(IRQ_TIMER) then 1 else 0
  }

  /** While no trap switches, the slice of the running task is what the ticks have left of it. */
  lemma {:induction false} SliceCountsDown(s: Snap, traps: seq<TrapEvent>, user: User, ins: seq<Snap>, outs: seq<Snap>, m: nat, n: nat)
    requires Trace(s, traps, user, ins, outs) && m <= n < |ins|
    requires forall l: nat :: m <= l < n ==> !SwitchesTask(traps[l], ins[l])
    ensures ins[n].c == ins[m].c && ins[n].ts[ins[n].c].slice == ins[m].ts[ins[m].c].slice - Ticks(traps, m, n)
  {
    if m < n {
      SliceCountsDown(s, traps, user, ins, outs, m, n - 1);
      assert Enters(s, user, ins, outs, n) && Resumes(traps, ins, outs, n - 1);
      StaysCurrent(ins[n - 1], traps[n - 1], outs[n - 1]);
    }
  }

  lemma StaysCurrent(s: Snap, trap: TrapEvent, t: Snap)
    requires OutcomeOf(trap, s) == RESUMED && Trapped(s, trap, t) && !SwitchesTask(trap, s)
    ensures t.c == s.c && t.ts[t.c].slice == s.ts[s.c].slice - if trap == Interrupt(IRQ_TIMER) then 1 else 0
  {
    if trap.Interrupt? {
      InterruptFollows(s, trap.irq);
    }
    assert TaskAfter(s, trap, t, s.c);
  }

  /** Preemption: a task is switched out by as many timer interrupts as its slice had ticks left, if it
      does not give way before. */
  lemma PreemptedInTime(s: Snap, traps: seq<TrapEvent>, user: User, ins: seq<Snap>, outs: seq<Snap>, m: nat, n: nat)
    requires Trace(s, traps, user, ins, outs) && m < n <= |ins|
    requires Ticks(traps, m, n) == ins[m].ts[ins[m].c].slice && traps[n - 1] == Interrupt(IRQ_TIMER)
    ensures exists l: nat :: m <= l < n && SwitchesTask(traps[l], ins[l])
  {
    if forall l: nat :: m <= l < n - 1 ==> !SwitchesTask(traps[l], ins[l]) {
      SliceCountsDown(s, traps, user, ins, outs, m, n - 1);
      assert SwitchesTask(traps[n - 1], ins[n - 1]);
    }
  }

  lemma NoSwitchKeepsWaiters(s: Snap, trap: TrapEvent, t: Snap)
    requires OutcomeOf(trap, s) == RESUMED && Trapped(s, trap, t) && !SwitchesTask(trap, s)
    ensures t.mie == s.mie && t.b == s.b
  {
    if trap.Interrupt? {
      NobodyWoken(s.b, trap.irq, MAX_TASKS);
      assert forall i: Slot :: t.b[i] == s.b[i];
    }
  }

  /** From the first switch on, the timer and exactly the interrupts someone waits for are enabled
      whenever a task runs. Until then mie is what it was at the start. */
  lemma {:induction false} EnabledAlong(s: Snap, traps: seq<TrapEvent>, user: User, ins: seq<Snap>, outs: seq<Snap>, n: nat)
    requires Trace(s, traps, user, ins, outs) && n <= |outs|
    ensures var t := Before(s, outs, n);
            if forall l: nat :: l < n ==> !SwitchesTask(traps[l], ins[l]) then t.mie == s.mie else Listens(t.mie, t.b)
  {
    if n > 0 {
      EnabledAlong(s, traps, user, ins, outs, n - 1);
      assert Enters(s, user, ins, outs, n - 1) && Resumes(traps, ins, outs, n - 1);
      if !SwitchesTask(traps[n - 1], ins[n - 1]) {
        NoSwitchKeepsWaiters(ins[n - 1], traps[n - 1], outs[n - 1]);
      }
    }
  }

  /** A run that stops in a panic, while one task, the idle task, never blocks and never ends, was
      stopped by a fault or by the free of a block that is not allocated. */
  lemma PanicsOnlyByFault(s: Snap, traps: seq<TrapEvent>, user: User, ins: seq<Snap>, outs: seq<Snap>, x: Slot)
    requires Trace(s, traps, user, ins, outs) && |ins| == |outs| + 1
    requires OnRota(s.Sched(), x) && StaysOn(s.Sched(), EventsTo(traps, ins, |ins|), x)
    requires OutcomeOf(traps[|outs|], ins[|outs|]) == PANICKED
    ensures traps[|outs|].Fault? || FreesFree(ins[|outs|])
  {
    var n := |outs|;
    TraceFollows(s, traps, user, ins, outs, n);
    EventsToNext(traps, ins, n);
    assert Enters(s, user, ins, outs, n);
    StaysOnLater(s.Sched(), EventsTo(traps, ins, n), EventsOf(traps[n], ins[n]), x);
  }

  // ---------------------------------------------------------------- equal priorities over runs

  lemma EqualAfterTrap(s: Snap, trap: TrapEvent, t: Snap, q: nat)
    requires Trapped(s, trap, t) && OneRuns(s.ts, s.c) && Sane(s) && SameLevel(s.ts, q) && OutcomeOf(trap, s) == RESUMED
    ensures SameLevel(t.ts, q) && (s.linked ==> t.linked)
  {
    assert AllEqual(s.ts);
    forall i: Slot | t.ts[i].Created()
      ensures t.ts[i].priority == q
    {
      assert TaskAfter(s, trap, t, i);
      if !s.ts[i].Created() {
        RunsExisting(s, trap, t, i);
      }
    }
  }

  /** A slot with no task is not given one by a trap. */
  lemma RunsExisting(s: Snap, trap: TrapEvent, t: Snap, i: Slot)
    requires Trapped(s, trap, t) && Sane(s) && !s.ts[i].Created() && OutcomeOf(trap, s) == RESUMED
    ensures i != t.c && !t.ts[i].Created()
  {
    assert TaskAfter(s, trap, t, i) && !Wakes(s.b[i], if trap.Interrupt? then trap.irq else 0);
    if i == t.c {
      var evs := EventsOf(trap, s);
      RunningWasThere(s, trap);
    }
  }

  /** Who runs after a trap ran or was ready before, or woke. */
  lemma RunningWasThere(s: Snap, trap: TrapEvent)
    requires OutcomeOf(trap, s) == RESUMED && Possible(s.Sched(), EventsOf(trap, s))
    ensures var y := After(s.Sched(), EventsOf(trap, s)).running;
            y == s.c || y in s.ready || (trap.Interrupt? && exists j :: 0 <= j < MAX_TASKS && j == y && Wakes(s.b[j], trap.irq))
  {
    var evs := EventsOf(trap, s);
    match trap
    case Interrupt(irq) =>
      InterruptFollows(s, irq);
      InsertAllKeeps(s.ready, Priorities(s.ts), Woken(s.b, irq, MAX_TASKS));
      WokenWere(s.b, irq, MAX_TASKS);
      var m := Arrived(s, irq);
      InsertMembers(m.ready, Position(m.ready, m.prio, m.running), m.running);
      assert Requeued(m)[0] in Requeued(m);
    case Ecall(d) =>
      CallFollows(s.Sched(), evs);
      InsertMembers(s.ready, Position(s.ready, Priorities(s.ts), s.c), s.c);
      assert Requeued(s.Sched())[0] in Requeued(s.Sched());
      assert s.ready != [] ==> s.ready[0] in s.ready;
    case Fault =>
  }

  lemma {:induction false} EqualAlong(s: Snap, traps: seq<TrapEvent>, user: User, ins: seq<Snap>, outs: seq<Snap>, n: nat, q: nat)
    requires Trace(s, traps, user, ins, outs) && n <= |outs| && SameLevel(s.ts, q)
    ensures SameLevel(Before(s, outs, n).ts, q) && (s.linked ==> Before(s, outs, n).linked)
    ensures forall m: nat :: m < n ==> SameLevel(ins[m].ts, q)
  {
    if n > 0 {
      EqualAlong(s, traps, user, ins, outs, n - 1, q);
      assert Enters(s, user, ins, outs, n - 1) && Resumes(traps, ins, outs, n - 1);
      EqualAfterTrap(ins[n - 1], traps[n - 1], outs[n - 1], q);
    }
  }

  /** With one priority for all tasks the queue stays doubly linked over every run, no trap puts it in
      disorder, and the task at position k runs at the (k + 1)-th switch. */
  lemma EqualsTakeTurns(s: Snap, traps: seq<TrapEvent>, user: User, ins: seq<Snap>, outs: seq<Snap>, n: nat, k: nat)
    requires Trace(s, traps, user, ins, outs) && n <= |outs| && Sane(s) && AllEqual(s.ts) && k < |s.ready|
    ensures s.linked ==> Before(s, outs, n).linked
    ensures n < |ins| ==> OutcomeOf(traps[n], ins[n]) != DISORDERED
    ensures n > 0 && SwitchesTask(traps[n - 1], ins[n - 1]) && Switches(EventsTo(traps, ins, n)) == k + 1 ==>
              Before(s, outs, n).c == s.ready[k]
  {
    var q :| SameLevel(s.ts, q);
    EqualAlong(s, traps, user, ins, outs, n, q);
    TraceFollows(s, traps, user, ins, outs, n);
    EventsLevel(s, traps, user, ins, outs, n, q);
    LevelStart(s, q);
    if n < |ins| {
      assert Enters(s, user, ins, outs, n);
      NoDisorder(traps[n], ins[n], q);
    }
    if n > 0 && SwitchesTask(traps[n - 1], ins[n - 1]) && Switches(EventsTo(traps, ins, n)) == k + 1 {
      LastIsSwitch(traps, ins, n);
      RoundRobin(s.Sched(), EventsTo(traps, ins, n), k, q);
    }
  }

  lemma LevelStart(s: Snap, q: nat)
    requires Sane(s) && SameLevel(s.ts, q)
    ensures Level(s.Sched(), [], q)
  {
    forall y | y in s.ready
      ensures Prio(Priorities(s.ts), y) == q
    {
      var j :| 0 <= j < |s.ready| && s.ready[j] == y;
      var z: Slot := y;
    }
  }

  lemma NoDisorder(trap: TrapEvent, s: Snap, q: nat)
    requires Sane(s) && SameLevel(s.ts, q)
    ensures OutcomeOf(trap, s) != DISORDERED
  {
    LevelStart(s, q);
    if trap.Interrupt? {
      var xs := Woken(s.b, trap.irq, MAX_TASKS);
      WokenLevel(s, trap.irq, q);
      LevelNext(s.Sched(), [Arrive(xs), Yield], q);
      LevelNext(Arrived(s, trap.irq), [Arrive(xs), Yield][1..], q);
    }
  }

  lemma WokenLevel(s: Snap, irq: int, q: nat)
    requires Sane(s) && SameLevel(s.ts, q)
    ensures forall y :: y in Woken(s.b, irq, MAX_TASKS) ==> Prio(Priorities(s.ts), y) == q
  {
    WokenWere(s.b, irq, MAX_TASKS);
    forall y | y in Woken(s.b, irq, MAX_TASKS)
      ensures Prio(Priorities(s.ts), y) == q
    {
      var z: Slot := y;
      assert s.b[z].blocked;
    }
  }

  /** Everyone who arrives during a run has priority q. */
  lemma {:induction false} EventsLevel(s: Snap, traps: seq<TrapEvent>, user: User, ins: seq<Snap>, outs: seq<Snap>, n: nat, q: nat)
    requires Trace(s, traps, user, ins, outs) && n <= |outs| && Sane(s) && SameLevel(s.ts, q)
    ensures Level(s.Sched(), EventsTo(traps, ins, n), q)
  {
    LevelStart(s, q);
    if n > 0 {
      EventsLevel(s, traps, user, ins, outs, n - 1, q);
      SamePriosAt(s, traps, user, ins, outs, n - 1);
      EqualAlong(s, traps, user, ins, outs, n, q);
      ArrivalsLevel(traps[n - 1], ins[n - 1], q);
      EventsToNext(traps, ins, n - 1);
      LevelMore(s.Sched(), EventsTo(traps, ins, n - 1), EventsOf(traps[n - 1], ins[n - 1]), q);
    }
  }

  lemma SamePriosAt(s: Snap, traps: seq<TrapEvent>, user: User, ins: seq<Snap>, outs: seq<Snap>, n: nat)
    requires Trace(s, traps, user, ins, outs) && n <= |outs| && n < |ins|
    ensures Sane(ins[n]) && Priorities(ins[n].ts) == Priorities(s.ts)
  {
    TraceFollows(s, traps, user, ins, outs, n);
    AfterKeepsPrio(s.Sched(), EventsTo(traps, ins, n));
    assert Enters(s, user, ins, outs, n);
  }

  /** Whoever a trap brings has priority q. */
  lemma ArrivalsLevel(trap: TrapEvent, s: Snap, q: nat)
    requires Sane(s) && SameLevel(s.ts, q)
    ensures Arrivals(EventsOf(trap, s), Priorities(s.ts), q)
  {
    if trap.Interrupt? {
      WokenLevel(s, trap.irq, q);
    }
  }

  lemma LastIsSwitch(traps: seq<TrapEvent>, ins: seq<Snap>, n: nat)
    requires 0 < n <= |ins| <= |traps| && SwitchesTask(traps[n - 1], ins[n - 1])
    ensures var evs := EventsTo(traps, ins, n); evs != [] && !evs[|evs| - 1].Arrive?
  {
    EventsToNext(traps, ins, n - 1);
    var last := EventsOf(traps[n - 1], ins[n - 1]);
    assert last != [] && !last[|last| - 1].Arrive?;
  }

  // ---------------------------------------------------------------- steps of a trace

  lemma EntersNext(s: Snap, traps: seq<TrapEvent>, user: User, ins: seq<Snap>, outs: seq<Snap>, t: Snap)
    requires Trace(s, traps, user, ins, outs) && |ins| == |outs| < |traps|
    requires var b := Before(s, outs, |outs|); Acts(b, user(|ins|, b.live), t)
    ensures Trace(s, traps, user, ins + [t], outs)
  {
    forall n: nat | n < |ins| + 1
      ensures Enters(s, user, ins + [t], outs, n)
    {
      assert n < |ins| ==> Enters(s, user, ins, outs, n);
    }
    forall n: nat | n < |outs|
      ensures Resumes(traps, ins + [t], outs, n)
    {
      assert Resumes(traps, ins, outs, n);
    }
  }

  lemma ResumesNext(s: Snap, traps: seq<TrapEvent>, user: User, ins: seq<Snap>, outs: seq<Snap>, t: Snap)
    requires Trace(s, traps, user, ins, outs) && |ins| == |outs| + 1
    requires OutcomeOf(traps[|outs|], ins[|outs|]) == RESUMED && Trapped(ins[|outs|], traps[|outs|], t)
    ensures Trace(s, traps, user, ins, outs + [t])
  {
    forall n: nat | n < |ins|
      ensures Enters(s, user, ins, outs + [t], n)
    {
      assert Enters(s, user, ins, outs, n);
    }
    forall n: nat | n < |outs| + 1
      ensures Resumes(traps, ins, outs + [t], n)
    {
      assert n < |outs| ==> Resumes(traps, ins, outs, n);
    }
  }

  lemma SwitchingOutcome(s: Snap, d: Device)
    ensures s.Code() == SYS_EXIT ==> OutcomeOf(Ecall(d), s) == if s.ready == [] then PANICKED else RESUMED
    ensures s.Code() == SYS_YIELD ==> OutcomeOf(Ecall(d), s) == if Jumps(s.Sched()) then DISORDERED else RESUMED
  {
  }

  lemma OutcomeIsNoStray(trap: TrapEvent, s: Snap)
    ensures OutcomeOf(trap, s) != STRAYED
  {
  }

  lemma HeadWaits(s: Snap)
    requires Sane(s) && s.ready != []
    ensures s.ready[0] != s.c
  {
    var x: Slot := s.ready[0];
    assert x in s.ready;
  }

  lemma StoredNext(w: Words, stores: seq<(int, int)>, i: nat)
    requires i < |stores|
    ensures Stored(w, stores[..i + 1]) == Stored(w, stores[..i])[stores[i].0 := stores[i].1]
    decreases i
  {
    if i > 0 {
      var v := w[stores[0].0 := stores[0].1];
      StoredNext(v, stores[1..], i - 1);
      assert stores[..i + 1][1..] == stores[1..][..i] && stores[..i][1..] == stores[1..][..i - 1];
    }
  }

  // ---------------------------------------------------------------- the handler

  class Handler {
    const k: Kernel
    var sent: seq<Byte>
    const bus: Clint.Bus

    ghost predicate Valid()
      reads k`blocked, k.table, k.table.ram, k.table.global, k.queue
    {
      k.Valid() && OneRuns(k.table.tasks, k.table.current)
    }

    /** What holds at every trap. */
    lemma NowSane()
      requires Valid()
      ensures Sane(Now()) && !k.blocked[k.table.current].blocked && k.table.current !in k.queue.s
    {
      forall i: Slot
        ensures SlotInv(k.table.tasks[i], k.queue.e[i], k.blocked[i], i, i in k.queue.s)
      {
      }
    }

    ghost function Now(): Snap
      reads this, bus, k, k.table, k.table.ram, k.table.global, k.queue
      requires k.Valid()
    {
      Snap(k.table.tasks, k.live, k.table.current, k.queue.s, k.blocked, k.table.nested,
           k.table.ram.w, k.queue.Linked(), k.mie, sent, bus.t.cmp)
    }

    constructor (k: Kernel, bus: Clint.Bus)
      ensures this.k == k && this.bus == bus && sent == []
    {
      this.k := k;
      this.bus := bus;
      sent := [];
    }

    /** k_putc: polls the status, at most MAX_SPIN_ITER times. */
    method KPutc(c: Byte, d: Device, t: nat) returns (st: Status, t': nat)
      modifies this`sent
      ensures st == if Accepts(d, t) then DONE else RETRY
      ensures sent == old(sent) + if st.DONE? then [c] else []
      ensures st.RETRY? ==> t' == t + MAX_SPIN_ITER
    {
      var i := 0;
      while i <= MAX_SPIN_ITER
        invariant 0 <= i <= MAX_SPIN_ITER && forall n: nat :: t <= n < t + i ==> d.busy(n)
      {
        if i == MAX_SPIN_ITER {
          return RETRY, t + i;
        }
        if !d.busy(t + i) {
          break;
        }
        i := i + 1;
      }
      sent := sent + [c];
      return DONE, t + i + 1;
    }

    /** k_puts: every character, then a newline, each as often as it takes. */
    method KPuts(d: Device) returns (st: Status)
      requires Serves(d)
      modifies this`sent
      ensures st.DONE? && sent == old(sent) + d.text + [NEWLINE]
    {
      var i, t := 0, 0;
      var line := d.text + [NEWLINE];
      while true
        invariant 0 <= i <= |d.text| && sent == old(sent) + line[..i]
        decreases |d.text| - i
      {
        t := SendChar(line[i], d, t);
        assert line[..i] + [line[i]] == line[..i + 1];
        if i == |d.text| {
          break;
        }
        i := i + 1;
      }
      assert line[..|line|] == line;
      return DONE;
    }

    /** Repeats k_putc until it is done. */
    method SendChar(c: Byte, d: Device, t: nat) returns (t': nat)
      requires Serves(d)
      modifies this`sent
      ensures sent == old(sent) + [c]
    {
      assert IdleFrom(d, t);
      ghost var m: nat :| t <= m && !d.busy(m);
      var st;
      st, t' := KPutc(c, d, t);
      while st != DONE
        invariant st.RETRY? ==> t' <= m && sent == old(sent)
        invariant st.DONE? ==> sent == old(sent) + [c]
        invariant st.RETRY? || st.DONE?
        decreases if st.DONE? then 0 else m - t' + 1
      {
        st, t' := KPutc(c, d, t');
      }
    }

    /** k_malloc on the caller's own heap. */
    method KMalloc(n: Word) returns (st: Status, p: Word, o: Outcome)
      requires Valid() && k.live.regs[17] == SYS_MALLOC && n == k.live.regs[10]
      modifies k.table`tasks, k.table`nested, k.table.ram
      ensures st.DONE? && p == MallocAnswer(old(Now()))
      ensures o == if MallocCorrupts(old(Now())) then UNDEFINED else RESUMED
      ensures o.RESUMED? ==> Valid() && HeapStep(old(Now()), Now())
    {
      var c := k.CurrentSlot();
      ghost var s := Now();
      AnswerIsWord(k.table.ram.w, s.OwnHeap(), s.OwnList(), n);
      p := k.table.TaskAlloc(c, n);
      st := DONE;
      if Need(n) == SELF_LINK && p != NULL {
        return st, p, UNDEFINED;
      }
      o := RESUMED;
      HeapServed(s);
    }

    /** k_free: a pointer the check refuses is ignored. */
    method KFree(p: Word) returns (st: Status, o: Outcome)
      requires Valid() && k.live.regs[17] == SYS_FREE && p == k.live.regs[10]
      modifies k.table`tasks, k.table`nested, k.table.ram
      ensures st.DONE?
      ensures o == if FreesNothing(old(Now())) then UNDEFINED else if FreesFree(old(Now())) then PANICKED else RESUMED
      ensures o.RESUMED? ==> Valid() && HeapStep(old(Now()), Now())
      ensures var h := old(Now()).OwnHeap();
              !(h.head + HEADER <= p <= h.max - HEADER && p % 16 == 0) ==> o.RESUMED? && Now() == old(Now())
    {
      var c := k.CurrentSlot();
      AcceptedExactly(k.table.nested[c], k.table.tasks[c].heap.head, k.table.tasks[c].heap.max, p);
      st, o := DONE, RESUMED;
      var heap := k.table.tasks[c].heap;
      if ValidPtr(heap.head, heap.max, p) {
        o := FreeAccepted(c, p);
      } else {
        NothingMoves(k.table.ram.w, k.table.tasks, k.table.nested[c], c, {});
      }
    }

    /** After a change of the running task's heap, which nothing else has noticed. */
    lemma HeapServed(s: Snap)
      requires k.table.Valid() && k.queue.Valid() && k.table.current == s.c && OneRuns(s.ts, s.c)
      requires SchedInv(s.ts, k.queue.e, k.queue.s, k.blocked) && Sorted(k.queue.s, Priorities(s.ts))
      requires s ==
               Snap(s.ts, k.live, k.table.current, k.queue.s, k.blocked, s.nested, s.w, k.queue.Linked(), k.mie, sent, bus.t.cmp)
      requires k.table.tasks == s.ts[s.c := s.ts[s.c].(heap := s.OwnHeap().(total := k.table.tasks[s.c].heap.total))]
      requires k.table.nested == s.nested[s.c := ListAfter(s)]
      requires OwnStep(s.w, k.table.ram.w, s.ts, s.OwnList(), ListAfter(s), s.c, GivenUp(s))
      requires s.Code() == SYS_MALLOC || s.Code() == SYS_FREE
      ensures Valid() && HeapStep(s, Now())
    {
      k.HeapKeepsValid(s.ts, s.c);
    }

    /** free_heap of a pointer that has passed its check, in the running task's heap. */
    method FreeAccepted(c: nat, p: Word) returns (o: Outcome)
      requires Valid() && c == k.table.current && FreesChecked(Now()) && p == k.live.regs[10]
      modifies k.table`tasks, k.table`nested, k.table.ram
      ensures o == if FreesNothing(old(Now())) then UNDEFINED else if FreesFree(old(Now())) then PANICKED else RESUMED
      ensures o.RESUMED? ==> Valid() && HeapStep(old(Now()), Now())
    {
      ghost var s := Now();
      var heap := k.table.tasks[c].heap;
      NamedByLinks(k.table.ram.w, heap, k.table.nested[c], p);
      if !Reaches(k.table.ram.w, heap.head, p - HEADER) {
        return UNDEFINED;
      }
      ghost var j := Named(k.table.nested[c], p);
      assert ListAfter(s) == Release(s.OwnList(), j) && GivenUp(s) == {p};
      var r := k.table.TaskFree(c, p, j);
      if r == PANIC_DOUBLE_FREE {
        return PANICKED;
      }
      HeapServed(s);
      return RESUMED;
    }

    /** k_getc: with nothing received the caller blocks on the external interrupt. */
    method KGetc(d: Device) returns (st: Status)
      requires Valid() && k.live.regs[17] == SYS_GETC
      modifies k`live, k`blocked, k.table`tasks
      ensures st == if d.rx.Nothing? then BLOCKED else DONE
      ensures k.Valid()
      ensures st.DONE? ==> Now() == old(Now()).(live := StoreLowByte(old(k.live), d.rx.c))
      ensures st.BLOCKED? ==> Waits(old(Now()), Now())
    {
      if d.rx.Nothing? {
        k.BlockCurrent(IRQ_EXTERNAL);
        return BLOCKED;
      }
      k.live := StoreLowByte(k.live, d.rx.c);
      return DONE;
    }

    /** dispatch_syscall's switch, but for the two calls that switch tasks themselves. */
    method CallService(d: Device) returns (st: Status, o: Outcome)
      requires Valid() && k.live.regs[17] != SYS_EXIT && k.live.regs[17] != SYS_YIELD
      requires k.live.regs[17] == SYS_PUTS ==> Serves(d)
      modifies this`sent, k`live, k`blocked, k.table`tasks, k.table`nested, k.table.ram
      ensures o == if FreesNothing(old(Now())) || MallocCorrupts(old(Now())) then UNDEFINED
                   else if FreesFree(old(Now())) then PANICKED else RESUMED
      ensures st == if Blocks(old(k.live), d) then BLOCKED else if Retries(old(k.live), d) then RETRY else DONE
      ensures o.RESUMED? ==> k.Valid()
      ensures o.RESUMED? && st.BLOCKED? ==> Waits(old(Now()), Now())
      ensures o.RESUMED? && !st.BLOCKED? ==> Valid() && Served(old(Now()), d, Now())
    {
      var code := k.live.regs[17];
      if code == SYS_FREE || code == SYS_MALLOC {
        st := DONE;
        o := HeapCall(d);
      } else {
        o := RESUMED;
        st := TerminalCall(d);
      }
    }

    /** malloc and free. */
    method HeapCall(ghost d: Device) returns (o: Outcome)
      requires Valid() && (k.live.regs[17] == SYS_FREE || k.live.regs[17] == SYS_MALLOC)
      modifies k`live, k.table`tasks, k.table`nested, k.table.ram
      ensures o == if FreesNothing(old(Now())) || MallocCorrupts(old(Now())) then UNDEFINED
                   else if FreesFree(old(Now())) then PANICKED else RESUMED
      ensures o.RESUMED? ==> Valid() && Served(old(Now()), d, Now())
    {
      var st;
      ghost var s := Now();
      if k.live.regs[17] == SYS_FREE {
        st, o := KFree(k.live.regs[10]);
        if o.RESUMED? {
          HeapServes(s, d, Now(), s.Arg());
        }
      } else {
        var p;
        st, p, o := KMalloc(k.live.regs[10]);
        if o.RESUMED? {
          HeapServes(s, d, Now(), p);
        }
        k.live := SetA0(k.live, p);
      }
    }

    /** The calls that touch no heap, unknown ones included. */
    method TerminalCall(d: Device) returns (st: Status)
      requires Valid() && k.live.regs[17] != SYS_FREE && k.live.regs[17] != SYS_MALLOC
      requires k.live.regs[17] == SYS_PUTS ==> Serves(d)
      modifies this`sent, k`live, k`blocked, k.table`tasks
      ensures st == if Blocks(old(k.live), d) then BLOCKED else if Retries(old(k.live), d) then RETRY else DONE
      ensures k.Valid() && if st.BLOCKED? then Waits(old(Now()), Now()) else Valid() && Served(old(Now()), d, Now())
    {
      ghost var s := Now();
      NothingMoves(s.w, s.ts, s.OwnList(), s.c, {});
      var code := k.live.regs[17];
      assert s == s.(live := SetA0(s.live, s.Arg())) && GivenUp(s) == {} && ListAfter(s) == s.OwnList();
      if code == SYS_PUTC {
        var t;
        st, t := KPutc(k.live.regs[10] % 256, d, 0);
      } else if code == SYS_GETC {
        st := KGetc(d);
      } else if code == SYS_PUTS {
        st := KPuts(d);
      } else {
        st := DONE;
      }
    }

    /** k_yield of the running or just blocked task. */
    method KYield() returns (v: Verdict)
      requires k.Valid() && OthersAtRest(k.table.tasks, k.table.current)
      requires k.table.tasks[k.table.current].state == RUNNING || k.table.tasks[k.table.current].state == BLOCKED_IRQ
      modifies k`live, k`mie, k.table, k.table.ram, k.table.global, k.queue
      ensures var m := old(Now());
              var ev := if m.ts[m.c].state == RUNNING then Yield else Leave;
              && v == (if Enabled(m.Sched(), ev) then SWITCHED else if ev == Yield then DERAILED else EMPTY)
              && (v.SWITCHED? ==> Valid() && Switched(m, ev, Now()))
    {
      v := k.SwitchToNext();
    }

    /** The end of dispatch_syscall: pc moves on if the call is done and has not seen to that itself; a
        blocked caller yields; one to be retried does neither. */
    method Finish(advance: bool, status: Status, ghost s: Snap, ghost d: Device) returns (ok: bool)
      requires k.Valid() && Sane(s)
      requires status == if advance && Blocks(s.live, d) then BLOCKED
                         else if advance && Retries(s.live, d) then RETRY else DONE
      requires if !advance then Valid() && Trapped(s, Ecall(d), Now())
               else s.Code() != SYS_EXIT && s.Code() != SYS_YIELD
                    && if status == BLOCKED then Waits(s, Now()) else Valid() && Served(s, d, Now())
      modifies k`live, k`mie, k.table, k.table.ram, k.table.global, k.queue
      ensures ok <==> !(status == BLOCKED && s.ready == [])
      ensures ok ==> Valid() && Trapped(s, Ecall(d), Now())
    {
      ok := true;
      if advance && status == DONE {
        MovePc(s, d);
      } else if status == BLOCKED {
        ok := YieldBlocked(s, d);
      } else if advance {
        ServedTrapped(s, d, Now(), Now());
      }
    }

    method MovePc(ghost s: Snap, ghost d: Device)
      requires Valid() && Sane(s) && s.Code() != SYS_EXIT && s.Code() != SYS_YIELD
      requires Served(s, d, Now()) && !Blocks(s.live, d) && !Retries(s.live, d)
      modifies k`live
      ensures Valid() && Trapped(s, Ecall(d), Now())
    {
      ghost var m := Now();
      k.live := Advance(k.live);
      ServedTrapped(s, d, m, Now());
    }

    method YieldBlocked(ghost s: Snap, ghost d: Device) returns (ok: bool)
      requires k.Valid() && Sane(s) && Blocks(s.live, d) && Waits(s, Now())
      modifies k`live, k`mie, k.table, k.table.ram, k.table.global, k.queue
      ensures ok <==> s.ready != []
      ensures ok ==> Valid() && Trapped(s, Ecall(d), Now())
    {
      ghost var m := Now();
      SamePriorities(s.ts, m.ts);
      var v := KYield();
      ok := v == SWITCHED;
      if ok {
        HeadWaits(s);
        BlockedTrapped(s, d, m, Now());
      }
    }

    /** k_exit. */
    method KExit(ghost d: Device) returns (ok: bool)
      requires Valid() && k.live.regs[17] == SYS_EXIT
      modifies k`live, k`mie, k.table, k.table.ram, k.table.global, k.queue
      ensures ok <==> old(Now()).ready != []
      ensures ok ==> Valid() && Trapped(old(Now()), Ecall(d), Now())
    {
      ghost var s := Now();
      ok := k.Exit();
      if ok {
        ExitTrapped(s, d, Now());
      }
    }

    /** The yield call: pc moves on before the switch. */
    method YieldCall(ghost d: Device) returns (ok: bool)
      requires Valid() && k.live.regs[17] == SYS_YIELD
      modifies k`live, k`mie, k.table, k.table.ram, k.table.global, k.queue
      ensures ok <==> !Jumps(old(Now()).Sched())
      ensures ok ==> Valid() && Trapped(old(Now()), Ecall(d), Now())
    {
      ghost var s := Now();
      k.live := Advance(k.live);
      ghost var m := Now();
      var v := KYield();
      ok := v == SWITCHED;
      if ok {
        YieldTrapped(s, d, m, Now());
      }
    }

    /** The two calls that switch tasks themselves. */
    method SwitchingCall(d: Device) returns (o: Outcome)
      requires Valid() && (k.live.regs[17] == SYS_EXIT || k.live.regs[17] == SYS_YIELD)
      modifies k`live, k`mie, k.table, k.table.ram, k.table.global, k.queue
      ensures o == OutcomeOf(Ecall(d), old(Now()))
      ensures o.RESUMED? ==> Valid() && Trapped(old(Now()), Ecall(d), Now())
    {
      SwitchingOutcome(Now(), d);
      if k.live.regs[17] == SYS_EXIT {
        var ok := KExit(d);
        o := if ok then RESUMED else PANICKED;
      } else {
        var ok := YieldCall(d);
        o := if ok then RESUMED else DISORDERED;
      }
    }

    /** dispatch_syscall. */
    method Dispatch(d: Device) returns (o: Outcome)
      requires Valid() && (k.live.regs[17] == SYS_PUTS ==> Serves(d))
      modifies this`sent, k`live, k`mie, k`blocked, k.table, k.table.ram, k.table.global, k.queue
      ensures o == OutcomeOf(Ecall(d), old(Now()))
      ensures o.RESUMED? ==> Valid() && Trapped(old(Now()), Ecall(d), Now())
    {
      ghost var s := Now();
      NowSane();
      var code := k.live.regs[17];
      var advance, status := true, DONE;
      if code == SYS_EXIT || code == SYS_YIELD {
        o := SwitchingCall(d);
        advance := false;
      } else {
        status, o := CallService(d);
      }
      if o == RESUMED {
        var ok := Finish(advance, status, s, d);
        o := if ok then RESUMED else PANICKED;
      }
    }

    /** set_timecmp of get_timecmp plus a tick. */
    method AdvanceDeadline()
      modifies bus
      ensures bus.t.cmp == (old(bus.t.cmp) + TICK_LENGTH) % TWO_64
    {
      var t := bus.GetTimecmp();
      ghost var half := bus.SetTimecmp((t + TICK_LENGTH) % TWO_64);
    }

    /** The tick and the wakes. */
    method TickAndWake(irq: int) returns (slice: nat, n: nat, ghost us: Tasks)
      requires Valid()
      modifies bus, k`blocked, k.table`tasks, k.queue
      ensures k.Valid() && k.table.tasks[k.table.current].state == RUNNING && OthersAtRest(k.table.tasks, k.table.current)
      ensures Awake(old(Now()), irq, us, Now()) && slice == us[k.table.current].slice
      ensures n == |Woken(old(k.blocked), irq, MAX_TASKS)|
    {
      ghost var s := Now();
      slice := TickOnly(irq);
      us := k.table.tasks;
      ghost var a := Now();
      n := k.WakeOthers(irq);
      AwakeFrom(s, irq, a, Now());
    }

    /** The slice and the next deadline. */
    method TickOnly(irq: int) returns (slice: nat)
      requires Valid()
      modifies bus, k.table`tasks
      ensures k.Valid() && k.table.tasks[k.table.current].state == RUNNING && OthersAtRest(k.table.tasks, k.table.current)
      ensures Ticked(old(Now()), irq, Now()) && slice == Now().ts[Now().c].slice
    {
      slice := k.Tick(irq);
      if irq == IRQ_TIMER {
        AdvanceDeadline();
      }
    }

    /** An interrupt: tick, wake, and yield if the slice is used up or someone woke. */
    method HandleInterrupt(irq: int) returns (o: Outcome)
      requires Valid()
      modifies bus, k`live, k`mie, k`blocked, k.table, k.table.ram, k.table.global, k.queue
      ensures o == OutcomeOf(Interrupt(irq), old(Now()))
      ensures o.RESUMED? ==> Valid() && Trapped(old(Now()), Interrupt(irq), Now())
    {
      ghost var s := Now();
      NowSane();
      ghost var us;
      var slice, n;
      slice, n, us := TickAndWake(irq);
      ghost var m := Now();
      if slice == 0 || n > 0 {
        var v := KYield();
        if v != SWITCHED {
          return DISORDERED;
        }
      }
      o := RESUMED;
      InterruptTrapped(s, irq, us, m, Now());
    }

    /** trap_handler: the switch on mcause, a negative word an interrupt. */
    method HandleTrap(c: Raised) returns (o: Outcome)
      requires Valid() && (EventOf(c).Ecall? ==> Serves(c.d))
      modifies this`sent, bus, k`live, k`mie, k`blocked, k.table, k.table.ram, k.table.global, k.queue
      ensures o == OutcomeOf(EventOf(c), old(Now()))
      ensures o.RESUMED? ==> Valid() && Trapped(old(Now()), EventOf(c), Now())
    {
      CauseSplit(c);
      if Signed(c.mcause) < 0 {
        o := HandleInterrupt(c.mcause % INTERRUPT_BIT);
      } else {
        o := HandleException(c.mcause % INTERRUPT_BIT, c.d);
      }
    }

    /** The switch on the exception code. */
    method HandleException(code: int, d: Device) returns (o: Outcome)
      requires Valid() && (code == CAUSE_ECALL_U || code == CAUSE_ECALL_M ==> Serves(d))
      modifies this`sent, k`live, k`mie, k`blocked, k.table, k.table.ram, k.table.global, k.queue
      ensures if code == CAUSE_ECALL_U || code == CAUSE_ECALL_M
              then o == OutcomeOf(Ecall(d), old(Now())) && (o.RESUMED? ==> Valid() && Trapped(old(Now()), Ecall(d), Now()))
              else o == PANICKED
    {
      if code == CAUSE_ECALL_U || code == CAUSE_ECALL_M {
        o := Dispatch(d);
      } else {
        o := PANICKED;
      }
    }

    /** The first i stores have been made, from state b on. */
    ghost predicate HasStored(b: Snap, stores: seq<(int, int)>, i: nat)
      reads this, bus, k, k.table, k.table.ram, k.table.global, k.queue
      requires i <= |stores|
    {
      && Valid() && Now() == b.(w := Stored(b.w, stores[..i])) && Confined(b, stores[..i])
      && TasksKeep(b.w, k.table.ram.w, b.ts, {b.c})
    }

    /** The next store, if it is to memory the running task owns. */
    method StoreNext(c: nat, stores: seq<(int, int)>, i: nat, ghost b: Snap) returns (ok: bool)
      requires i < |stores| && HasStored(b, stores, i) && c == k.table.current
      modifies k.table.ram
      ensures Valid()
      ensures if ok then HasStored(b, stores, i + 1) else !Confined(b, stores)
    {
      ghost var m := k.table.ram.w;
      ok := k.table.TaskStore(c, stores[i].0, stores[i].1);
      if ok {
        StoredNext(b.w, stores, i);
        TasksKeepThen(b.w, m, k.table.ram.w, b.ts, {b.c});
      }
    }

    /** User code: its stores, each to its own memory, and its registers. */
    method RunUser(act: Act) returns (ok: bool)
      requires Valid()
      modifies k`live, k.table.ram
      ensures Valid() && (ok <==> Confined(old(Now()), act.stores))
      ensures ok ==> Acts(old(Now()), act, Now())
    {
      ghost var b := Now();
      var c := k.CurrentSlot();
      ok := true;
      for i := 0 to |act.stores|
        invariant ok && HasStored(b, act.stores, i)
      {
        ok := StoreNext(c, act.stores, i, b);
        if !ok {
          return;
        }
      }
      assert act.stores[..|act.stores|] == act.stores;
      k.live := act.ctx;
      NowSane();
    }

    /** User code up to its next trap, a the state there, and the trap. */
    method UserThenTrap(act: Act, c: Raised) returns (ok: bool, o: Outcome, ghost a: Snap)
      requires Valid() && (EventOf(c).Ecall? ==> Serves(c.d))
      modifies this`sent, bus, k`live, k`mie, k`blocked, k.table, k.table.ram, k.table.global, k.queue
      ensures ok <==> Confined(old(Now()), act.stores)
      ensures ok ==> Acts(old(Now()), act, a) && o == OutcomeOf(EventOf(c), a)
      ensures ok && o.RESUMED? ==> Valid() && Trapped(a, EventOf(c), Now())
    {
      a := Now();
      ok := RunUser(act);
      if !ok {
        return ok, RESUMED, a;
      }
      a := Now();
      o := HandleTrap(c);
    }

    /** n rounds from state s on have led to the present state. */
    ghost predicate HasRun(n: nat, s: Snap, traps: seq<TrapEvent>, user: User, ins: seq<Snap>, outs: seq<Snap>)
      reads this, bus, k, k.table, k.table.ram, k.table.global, k.queue
    {
      Valid() && |ins| == |outs| == n && Trace(s, traps, user, ins, outs) && Now() == Before(s, outs, n)
    }

    /** One more round of a run. */
    method Round(cs: seq<Raised>, user: User, n: nat, ghost s: Snap, ghost ins: seq<Snap>, ghost outs: seq<Snap>)
      returns (o: Outcome, ghost ins': seq<Snap>, ghost outs': seq<Snap>)
      requires n < |cs| && HasRun(n, s, Events(cs), user, ins, outs)
      requires EventOf(cs[n]).Ecall? ==> Serves(cs[n].d)
      modifies this`sent, bus, k`live, k`mie, k`blocked, k.table, k.table.ram, k.table.global, k.queue
      ensures Trace(s, Events(cs), user, ins', outs')
      ensures match o
              case RESUMED => HasRun(n + 1, s, Events(cs), user, ins', outs')
              case STRAYED => Strayed(s, Events(cs), user, ins', outs')
              case _ => |ins'| == |outs'| + 1 && o == OutcomeOf(Events(cs)[|outs'|], ins'[|outs'|])
    {
      ghost var traps := Events(cs);
      ins', outs' := ins, outs;
      ghost var a;
      var ok;
      ok, o, a := UserThenTrap(user(n, k.live), cs[n]);
      if ok {
        OutcomeIsNoStray(traps[n], a);
        ins' := ins + [a];
        EntersNext(s, traps, user, ins, outs, a);
        if o == RESUMED {
          outs' := outs + [Now()];
          ResumesNext(s, traps, user, ins', outs, Now());
        }
      } else {
        o := STRAYED;
      }
    }

    /** Traps with any causes one after the other, with any user code between them, until one does not resume or user code
        leaves its memory. */
    method RunTraps(cs: seq<Raised>, user: User) returns (o: Outcome, ghost ins: seq<Snap>, ghost outs: seq<Snap>)
      requires Valid() && forall n :: 0 <= n < |cs| && EventOf(cs[n]).Ecall? ==> Serves(cs[n].d)
      modifies this`sent, bus, k`live, k`mie, k`blocked, k.table, k.table.ram, k.table.global, k.queue
      ensures Trace(old(Now()), Events(cs), user, ins, outs)
      ensures match o
              case RESUMED => |outs| == |cs| && Valid() && Now() == Before(old(Now()), outs, |cs|)
              case STRAYED => Strayed(old(Now()), Events(cs), user, ins, outs)
              case _ => |ins| == |outs| + 1 && o == OutcomeOf(Events(cs)[|outs|], ins[|outs|])
    {
      ghost var s := Now();
      o, ins, outs := RESUMED, [], [];
      for n := 0 to |cs|
        invariant o.RESUMED? && HasRun(n, s, Events(cs), user, ins, outs)
      {
        o, ins, outs := Round(cs, user, n, s, ins, outs);
        if o != RESUMED {
          return;
        }
      }
    }
  }
}

/** The schedule as a rota: a queue of ready tasks in order of priority, and the one that runs. */
module Rotas {
  import opened ReadyQueue

  /** What happens to the ready queue and the running task: an ordinary yield, the running task
      leaving (blocked or ended), and tasks arriving (woken or spawned). */
  datatype Event = Yield | Leave | Arrive(xs: seq<int>)

  datatype Rota = Rota(ready: seq<int>, running: int, prio: Prios)

  /** The running task would be pushed in front of the ready ones. */
  predicate Jumps(r: Rota) {
    r.ready != [] && Prio(r.prio, r.running) > Prio(r.prio, r.ready[0])
  }

  predicate Enabled(r: Rota, ev: Event) {
    (ev.Leave? ==> r.ready != []) && (ev.Yield? ==> !Jumps(r))
  }

  /** The ready queue with the running task put back. */
  function Requeued(r: Rota): (s: seq<int>)
    ensures |s| == |r.ready| + 1
  {
    Insert(r.ready, Position(r.ready, r.prio, r.running), r.running)
  }

  function Next(r: Rota, ev: Event): Rota
    requires Enabled(r, ev)
  {
    match ev
    case Yield => r.(ready := Requeued(r)[1..], running := Requeued(r)[0])
    case Leave => r.(ready := r.ready[1..], running := r.ready[0])
    case Arrive(xs) => r.(ready := InsertAll(r.ready, r.prio, xs))
  }

  ghost predicate Possible(r: Rota, evs: seq<Event>)
    decreases |evs|
  {
    evs == [] || (Enabled(r, evs[0]) && Possible(Next(r, evs[0]), evs[1..]))
  }

  ghost function After(r: Rota, evs: seq<Event>): Rota
    requires Possible(r, evs)
    decreases |evs|
  {
    if evs == [] then r else After(Next(r, evs[0]), evs[1..])
  }

  function Switches(evs: seq<Event>): nat {
    if evs == [] then 0 else (if evs[0].Arrive? then 0 else 1) + Switches(evs[1..])
  }

  // ---------------------------------------------------------------- priorities

  ghost predicate InOrder(r: Rota) { Sorted(r.ready, r.prio) }

  /** No ready task has a higher priority than the running one. */
  ghost predicate Top(r: Rota) {
    forall y :: y in r.ready ==> Prio(r.prio, y) <= Prio(r.prio, r.running)
  }

  /** The queue stays in order, and whoever a switch runs is of the highest priority there is. */
  lemma NextIsTop(r: Rota, ev: Event)
    requires InOrder(r) && Enabled(r, ev)
    ensures InOrder(Next(r, ev)) && Next(r, ev).prio == r.prio
    ensures !ev.Arrive? ==> Top(Next(r, ev))
  {
    match ev
    case Yield => InsertKeepsSorted(r.ready, r.prio, r.running);
    case Leave =>
    case Arrive(xs) => InsertAllKeeps(r.ready, r.prio, xs);
  }

  lemma {:induction false} AfterIsTop(r: Rota, evs: seq<Event>)
    requires InOrder(r) && Possible(r, evs)
    ensures InOrder(After(r, evs)) && After(r, evs).prio == r.prio
    ensures evs != [] && !evs[|evs| - 1].Arrive? ==> Top(After(r, evs))
    decreases |evs|
  {
    if evs != [] {
      NextIsTop(r, evs[0]);
      AfterIsTop(Next(r, evs[0]), evs[1..]);
    }
  }

  lemma {:induction false} AfterKeepsPrio(r: Rota, evs: seq<Event>)
    requires Possible(r, evs)
    ensures After(r, evs).prio == r.prio
    decreases |evs|
  {
    if evs != [] {
      AfterKeepsPrio(Next(r, evs[0]), evs[1..]);
    }
  }

  /** A task of the highest priority can be put back exactly if it runs alone or beside an equal. */
  lemma TopYieldsExactly(r: Rota)
    requires InOrder(r) && Top(r)
    ensures Enabled(r, Yield) <==> r.ready == [] || Prio(r.prio, r.ready[0]) == Prio(r.prio, r.running)
  {
  }

  // ---------------------------------------------------------------- equal priorities

  /** Everyone concerned has priority q. */
  ghost predicate Level(r: Rota, evs: seq<Event>, q: nat) {
    Prio(r.prio, r.running) == q && (forall y :: y in r.ready ==> Prio(r.prio, y) == q) && Arrivals(evs, r.prio, q)
  }

  ghost predicate Arrivals(evs: seq<Event>, prio: Prios, q: nat) {
    forall i :: 0 <= i < |evs| && evs[i].Arrive? ==> forall y :: y in evs[i].xs ==> Prio(prio, y) == q
  }

  lemma LevelMore(r: Rota, evs: seq<Event>, more: seq<Event>, q: nat)
    requires Level(r, evs, q) && Arrivals(more, r.prio, q)
    ensures Level(r, evs + more, q)
  {
  }

  /** Then the queue is first in, first out, and every yield is possible. */
  lemma LevelNext(r: Rota, evs: seq<Event>, q: nat)
    requires Level(r, evs, q) && evs != [] && (evs[0].Leave? ==> r.ready != [])
    ensures Enabled(r, evs[0]) && Level(Next(r, evs[0]), evs[1..], q)
    ensures match evs[0]
            case Yield => [Next(r, evs[0]).running] + Next(r, evs[0]).ready == r.ready + [r.running]
            case Leave => [Next(r, evs[0]).running] + Next(r, evs[0]).ready == r.ready
            case Arrive(xs) => Next(r, evs[0]) == r.(ready := r.ready + xs)
  {
    match evs[0]
    case Yield => EqualPrioritiesAreFifo(r.ready, r.prio, r.running, q);
    case Leave =>
    case Arrive(xs) => EqualArrivalsAppend(r.ready, r.prio, xs, q);
  }

  /** Round robin among equals: whatever else happens, the task at position k runs at the (k + 1)-th
      switch and until then moves up one place at each. */
  lemma {:induction false} RoundRobin(r: Rota, evs: seq<Event>, k: nat, q: nat)
    requires Level(r, evs, q) && Possible(r, evs) && k < |r.ready| && Switches(evs) <= k + 1
    ensures var j := Switches(evs);
            && (j <= k ==> k - j < |After(r, evs).ready| && After(r, evs).ready[k - j] == r.ready[k])
            && (j == k + 1 && !evs[|evs| - 1].Arrive? ==> After(r, evs).running == r.ready[k])
    decreases |evs|
  {
    if evs != [] {
      var n := Next(r, evs[0]);
      LevelNext(r, evs, q);
      if evs[0].Arrive? {
        assert n.ready[k] == r.ready[k];
        RoundRobin(n, evs[1..], k, q);
      } else {
        var all := [n.running] + n.ready;
        assert all[k] == r.ready[k];
        if k > 0 {
          assert n.ready[k - 1] == r.ready[k];
          RoundRobin(n, evs[1..], k - 1, q);
        } else {
          OnlyArrivals(n, evs[1..]);
        }
      }
    }
  }

  lemma {:induction false} OnlyArrivals(r: Rota, evs: seq<Event>)
    requires Possible(r, evs) && Switches(evs) == 0
    ensures After(r, evs).running == r.running
    ensures forall i :: 0 <= i < |evs| ==> evs[i].Arrive?
    decreases |evs|
  {
    if evs != [] {
      OnlyArrivals(Next(r, evs[0]), evs[1..]);
      assert forall i :: 0 < i < |evs| ==> evs[i] == evs[1..][i - 1];
    }
  }

  // ---------------------------------------------------------------- a task that stays on

  /** Task x never blocks and never ends. */
  ghost predicate StaysOn(r: Rota, evs: seq<Event>, x: int)
    decreases |evs|
  {
    evs == [] || ((evs[0].Leave? ==> r.running != x) && (Enabled(r, evs[0]) ==> StaysOn(Next(r, evs[0]), evs[1..], x)))
  }

  /** No yield puts the running task in front. */
  ghost predicate NeverJumps(r: Rota, evs: seq<Event>)
    decreases |evs|
  {
    evs == [] || ((evs[0].Yield? ==> !Jumps(r)) && (Enabled(r, evs[0]) ==> NeverJumps(Next(r, evs[0]), evs[1..])))
  }

  ghost predicate OnRota(r: Rota, x: int) { x in r.ready || r.running == x }

  lemma StaysOnNext(r: Rota, ev: Event, x: int)
    requires OnRota(r, x) && Enabled(r, ev) && (ev.Leave? ==> r.running != x)
    ensures OnRota(Next(r, ev), x)
  {
    match ev
    case Yield =>
      InsertMembers(r.ready, Position(r.ready, r.prio, r.running), r.running);
      assert Requeued(r) == [Requeued(r)[0]] + Requeued(r)[1..];
    case Leave => assert r.ready == [r.ready[0]] + r.ready[1..];
    case Arrive(xs) => InsertAllKeeps(r.ready, r.prio, xs);
  }

  /** One task that stays on, as the idle task does, is enough: no switch ever finds the queue empty. */
  lemma {:induction false} IdleKeepsScheduleAlive(r: Rota, evs: seq<Event>, x: int)
    requires OnRota(r, x) && StaysOn(r, evs, x) && NeverJumps(r, evs)
    ensures Possible(r, evs) && OnRota(After(r, evs), x)
    decreases |evs|
  {
    if evs != [] {
      StaysOnNext(r, evs[0], x);
      IdleKeepsScheduleAlive(Next(r, evs[0]), evs[1..], x);
    }
  }

  // ---------------------------------------------------------------- composition

  /** The schedule r evolves by evs into t. */
  ghost predicate Follows(r: Rota, evs: seq<Event>, t: Rota) {
    Possible(r, evs) && t == After(r, evs)
  }

  lemma CallFollows(r: Rota, evs: seq<Event>)
    requires |evs| <= 1 && forall i :: 0 <= i < |evs| ==> Enabled(r, evs[i])
    ensures Follows(r, evs, if evs == [] then r else Next(r, evs[0]))
  {
  }

  lemma {:induction false} FollowsOn(r: Rota, evs: seq<Event>, more: seq<Event>, t: Rota)
    requires Possible(r, evs) && Follows(After(r, evs), more, t)
    ensures Follows(r, evs + more, t)
    decreases |evs|
  {
    if evs == [] {
      assert evs + more == more;
    } else {
      assert (evs + more)[1..] == evs[1..] + more;
      FollowsOn(Next(r, evs[0]), evs[1..], more, t);
    }
  }

  lemma FollowsThen(r: Rota, evs: seq<Event>, m: Rota, more: seq<Event>, t: Rota)
    requires Follows(r, evs, m) && Follows(m, more, t)
    ensures Follows(r, evs + more, t)
  {
    FollowsOn(r, evs, more, t);
  }

  function Flatten(evs: seq<seq<Event>>): seq<Event> {
    if evs == [] then [] else Flatten(evs[..|evs| - 1]) + evs[|evs| - 1]
  }

  /** The part of x's staying on that follows. */
  lemma {:induction false} StaysOnLater(r: Rota, evs: seq<Event>, more: seq<Event>, x: int)
    requires Possible(r, evs) && StaysOn(r, evs + more, x) && OnRota(r, x)
    ensures StaysOn(After(r, evs), more, x) && OnRota(After(r, evs), x)
    decreases |evs|
  {
    if evs == [] {
      assert evs + more == more;
    } else {
      assert (evs + more)[1..] == evs[1..] + more;
      StaysOnNext(r, evs[0], x);
      StaysOnLater(Next(r, evs[0]), evs[1..], more, x);
    }
  }
}

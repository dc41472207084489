/**
 * What the dispatcher's steps do to its lists, levels and threads, and what follows over
 * whole runs: first in, first out, spl restored, nobody lost, nobody stuck.
 */
module DispatcherRuns {
  import Seqs
  import opened Dispatcher
  import opened DispatcherProof

  // How a list that is first in, first out may change; `back` allows taking from the tail.
  predicate QueueStep(q: seq<int>, q': seq<int>, front: bool, back: bool) {
    || q' == q
    || (|q'| == |q| + 1 && q'[..|q|] == q)
    || (front && q != [] && q' == q[1..])
    || (back && q != [] && q' == q[..|q| - 1])
  }

  // The events that put a thread on a list or take it off one.
  ghost predicate Moving(s: State, e: Event)
    requires Enabled(s, e)
  {
    match e
    case Fork(_, _) => true
    case WakeTake(_, _) => true
    case WakePut(_, _) => true
    case Place(_) => true
    case Pick(c) => s.lists[Rq(c)] != []
    case Exorcise(_) => true
    case MigTake(_) => !MigLocal(s, e)
    case MigSend(_) => !MigLocal(s, e)
    case MigBack(_) => !MigLocal(s, e)
    case _ => false
  }

  // Only the current thread of the CPU changes, and neither its place nor its CPU.
  ghost predicate OnlyCurrent(s: State, e: Event, s': State)
    requires 0 <= e.c < |s.cpus| && Shaped(s)
  {
    var c, u := e.c, s.cpus[e.c].current;
    && |s'.cpus| == |s.cpus| && s'.cpus == s.cpus[c := s'.cpus[c]]
    && s'.lists == s.lists && u in s'.threads && s'.threads == s.threads[u := s'.threads[u]]
    && s'.threads[u].cpu == s.threads[u].cpu && s'.threads[u].loc == s.threads[u].loc
    && (e.Enter? || s'.threads[u].ret == s.threads[u].ret)
    && s'.threads[u].saved == s.threads[u].saved
    && s'.threads[u].state == if e.Unlock? then Run else s.threads[u].state
  }

  lemma SpinOnlyCurrent(s: State, e: Event)
    requires Enabled(s, e) && (e.Acquire? || e.Release? || e.SetSpl? || e.Interrupt? || e.EndInterrupt?)
    ensures OnlyCurrent(s, e, Step(s, e))
  {
    hide Shaped, Executes, MayEnter, Targetable;
  }

  lemma SwitchOnlyCurrent(s: State, e: Event)
    requires Enabled(s, e) && !Moving(s, e)
      && (e.Enter? || e.Return? || e.Pick? || e.IdleInterrupt? || e.IdleIrq? || e.Leave? || e.Unlock? || e.Finish?)
    ensures OnlyCurrent(s, e, Step(s, e))
  {
    hide Shaped, Executes, MayEnter, Targetable;
  }

  lemma MigrationOnlyCurrent(s: State, e: Event)
    requires Enabled(s, e) && MigLocal(s, e)
    ensures OnlyCurrent(s, e, Step(s, e))
  {
    hide Shaped, Executes, MayEnter, Targetable;
  }

  lemma OthersOnlyCurrent(s: State, e: Event)
    requires Enabled(s, e) && !Moving(s, e) && !e.Switch?
    ensures OnlyCurrent(s, e, Step(s, e))
  {
    hide OnlyCurrent, Step, Shaped, Executes, MayEnter, Targetable;
    if e.Acquire? || e.Release? || e.SetSpl? || e.Interrupt? || e.EndInterrupt? {
      SpinOnlyCurrent(s, e);
    } else if MigLocal(s, e) {
      MigrationOnlyCurrent(s, e);
    } else {
      SwitchOnlyCurrent(s, e);
    }
  }

  lemma OthersMoveNobody(s: State, e: Event)
    requires Enabled(s, e) && !Moving(s, e)
    ensures Step(s, e).lists == s.lists
  {
    if !e.Switch? {
      OthersOnlyCurrent(s, e);
      hide Step;
    }
  }

  lemma QueueSteps(q: seq<int>, t: int, front: bool, back: bool)
    ensures QueueStep(q, q, front, back) && QueueStep(q, q + [t], front, back)
    ensures front && q != [] ==> QueueStep(q, q[1..], front, back)
    ensures back && q != [] ==> QueueStep(q, q[..|q| - 1], front, back)
  {
    assert (q + [t])[..|q|] == q;
  }

  // The thread that a moving step moves.
  ghost function Moved(s: State, e: Event): int
    requires Enabled(s, e) && Moving(s, e)
  {
    var u := s.cpus[e.c].current;
    match e
    case Fork(_, t) => t
    case WakeTake(_, w) => s.lists[Chan(w)][0]
    case WakePut(_, k) => s.lists[Wake(u)][k]
    case Place(_) => u
    case MigSend(c) => s.lists[Victims(c)][0]
    case MigBack(c) => s.lists[Victims(c)][0]
    case _ => 0
  }

  lemma WakeQueues(s: State, e: Event, l: Loc)
    requires Enabled(s, e) && (e.Fork? || e.WakeTake? || e.WakePut? || e.Exorcise?) && (l.Rq? || l.Chan?)
    ensures (forall k :: k in Step(s, e).lists) && QueueStep(s.lists[l], Step(s, e).lists[l], l.Chan?, false)
  {
    QueueSteps(s.lists[l], Moved(s, e), l.Chan?, false);
    hide QueueStep, Executes, MayEnter, Targetable;
  }

  lemma SwitchQueues(s: State, e: Event, l: Loc)
    requires Enabled(s, e) && (e.Place? || (e.Pick? && Moving(s, e))) && (l.Rq? || l.Chan?)
    ensures (forall k :: k in Step(s, e).lists)
      && QueueStep(s.lists[l], Step(s, e).lists[l], l.Chan? || e == Pick(l.c), false)
  {
    QueueSteps(s.lists[l], Moved(s, e), l.Chan? || e == Pick(l.c), false);
    hide QueueStep, Executes, MayEnter, Targetable;
  }

  lemma MigrationQueues(s: State, e: Event, l: Loc)
    requires Enabled(s, e) && (e.MigTake? || e.MigSend? || e.MigBack?) && Moving(s, e) && (l.Rq? || l.Chan?)
    ensures (forall k :: k in Step(s, e).lists)
      && QueueStep(s.lists[l], Step(s, e).lists[l], false, l.Rq? && e == MigTake(l.c))
  {
    QueueSteps(s.lists[l], Moved(s, e), false, l.Rq? && e == MigTake(l.c));
    hide QueueStep, Executes, MayEnter, Targetable;
  }

  /**
   * Run queues and wait channels are first in, first out: a step leaves the list alone, adds
   * one thread at the tail or takes the head off.  A run queue loses its head only when its
   * CPU picks a thread, and its tail only to a migration by its own CPU.
   */
  lemma ListsAreQueues(s: State, e: Event, l: Loc)
    requires Inv(s) && Enabled(s, e) && (l.Rq? || l.Chan?)
    ensures Inv(Step(s, e))
    ensures QueueStep(s.lists[l], Step(s, e).lists[l], l.Chan? || e == Pick(l.c), l.Rq? && e == MigTake(l.c))
  {
    StepInv(s, e);
    hide Inv, Shaped, Executes, Targetable, MayEnter, Step;
    if !Moving(s, e) {
      OthersMoveNobody(s, e);
    } else if e.Place? || e.Pick? {
      SwitchQueues(s, e, l);
    } else if e.MigTake? || e.MigSend? || e.MigBack? {
      MigrationQueues(s, e, l);
    } else {
      WakeQueues(s, e, l);
    }
  }

  lemma SplKeptMoving(s: State, e: Event, t: int)
    requires Enabled(s, e) && Moving(s, e) && t in s.threads && t in Step(s, e).threads && !(e.Fork? && e.t == t)
    ensures Step(s, e).threads[t].ret == s.threads[t].ret
  {
    hide Executes, MayEnter, Targetable;
  }

  lemma SplKeptOthers(s: State, e: Event, t: int)
    requires Enabled(s, e) && !Moving(s, e) && t in s.threads && t in Step(s, e).threads
    ensures !(e.Enter? && t == s.cpus[e.c].current) ==> Step(s, e).threads[t].ret == s.threads[t].ret
  {
    if !e.Switch? {
      OthersOnlyCurrent(s, e);
      hide Step;
    }
  }

  lemma SplAtEnd(s: State, e: Event)
    requires Inv(s) && Enabled(s, e) && (e.Enter? || e.Finish? || e.Return?)
    ensures var t := s.cpus[e.c].current;
            && t in s.threads && t in Step(s, e).threads
            && (e.Enter? ==> Step(s, e).threads[t].ret == s.threads[t].high)
            && (!e.Enter? ==> Step(s, e).threads[t].high == s.threads[t].ret && Step(s, e).threads[t].held == 0)
  {
    assert CurrentOk(s.cpus, s.threads, e.c);
    hide Inv;
  }

  // The spl of a thread is noted when it enters thread_switch and changed by nobody.
  lemma SplStep(s: State, e: Event, t: int)
    requires Inv(s) && Enabled(s, e) && t in s.threads && t in Step(s, e).threads && !(e.Fork? && e.t == t)
    ensures e.Enter? && t == s.cpus[e.c].current ==> Step(s, e).threads[t].ret == s.threads[t].high
    ensures !(e.Enter? && t == s.cpus[e.c].current) ==> Step(s, e).threads[t].ret == s.threads[t].ret
  {
    hide Inv, Step;
    if Moving(s, e) {
      SplKeptMoving(s, e, t);
    } else {
      SplKeptOthers(s, e, t);
    }
    if e.Enter? {
      SplAtEnd(s, e);
    }
  }

  lemma CpuKeptMoving(s: State, e: Event, t: int)
    requires Inv(s) && Enabled(s, e) && Moving(s, e) && !e.MigSend? && t in s.threads && t in Step(s, e).threads
    ensures Step(s, e).threads[t].cpu == s.threads[t].cpu
  {
    hide Inv, Executes, MayEnter, Targetable;
  }

  lemma CpuKeptOthers(s: State, e: Event, t: int)
    requires Enabled(s, e) && !Moving(s, e) && t in s.threads && t in Step(s, e).threads
    ensures Step(s, e).threads[t].cpu == s.threads[t].cpu
  {
    if !e.Switch? {
      OthersOnlyCurrent(s, e);
      hide Step;
    }
  }

  /**
   * Only a migration changes t_cpu, and only of a thread that is current on no CPU and has
   * its context saved; it goes onto the run queue of its new CPU.
   */
  lemma OnlyMigrationMoves(s: State, e: Event, t: int)
    requires Inv(s) && Enabled(s, e) && t in s.threads && t in Step(s, e).threads
    requires Step(s, e).threads[t].cpu != s.threads[t].cpu
    ensures e.MigSend? && Moving(s, e) && t == s.lists[Victims(e.c)][0] && s.threads[t].saved
    ensures Step(s, e) == MigSent(s, e.c) && t in MigSent(s, e.c).lists[Rq(s.cpus[e.c].mig.i)]
    ensures forall d :: 0 <= d < |s.cpus| ==> s.cpus[d].current != t
  {
    if !Moving(s, e) {
      CpuKeptOthers(s, e, t);
    } else if !e.MigSend? {
      CpuKeptMoving(s, e, t);
    } else {
      MovedIsSaved(s, e.c, t);
    }
  }

  lemma MovedIsSaved(s: State, c: int, t: int)
    requires Inv(s) && Enabled(s, MigSend(c)) && Moving(s, MigSend(c)) && t in s.threads && t in MigSent(s, c).threads
    requires MigSent(s, c).threads[t].cpu != s.threads[t].cpu
    ensures t == s.lists[Victims(c)][0] && s.threads[t].saved && t in MigSent(s, c).lists[Rq(s.cpus[c].mig.i)]
    ensures forall d :: 0 <= d < |s.cpus| ==> s.cpus[d].current != t
  {
    MigSentInv(s, c);
    hide Places, CpuOk, ThreadOk;
    forall d | 0 <= d < |s.cpus| ensures s.cpus[d].current != t {
      assert CurrentOk(s.cpus, s.threads, d);
    }
  }

  // ---------------------------------------------------------------- going on

  // The next event of a CPU outside a migration.
  ghost function NextEvent(s: State, c: int): (e: Event)
    requires Shaped(s) && 0 <= c < |s.cpus|
    ensures e.c == c
  {
    var C := s.cpus[c];
    match C.phase
    case Running => if Cur(s, c).held > 0 then Release(c) else Enter(c, ToReady)
    case Locked(how) => if how.ToReady? && s.lists[Rq(c)] == [] then Return(c) else Place(c)
    case Picking => Pick(c)
    case Idle => IdleInterrupt(c)
    case Chosen(_) => Switch(c)
    case Tail => Unlock(c)
    case Cleanup => if s.lists[Zombies(c)] == [] then Finish(c) else Exorcise(c)
  }

  // The next event of a CPU whose interrupt handler is migrating threads.
  ghost function NextMigration(s: State, c: int): (e: Event)
    requires 0 <= c < |s.cpus|
    ensures e.c == c
  {
    var m := s.cpus[c].mig;
    match m
    case NoMigration => MigStart(c)
    case Count(i, _, _) => if i == |s.cpus| then MigDecide(c) else MigCount(c)
    case Take(_, _, _) => MigTake(c)
    case Send(i, left, _) => if i == |s.cpus| || left == 0 then MigBack(c) else MigSend(c)
  }

  lemma CalmGoesOn(s: State, c: int)
    requires Inv(s) && Shaped(s) && 0 <= c < |s.cpus| && s.cpus[c].mig.NoMigration?
    ensures Enabled(s, NextEvent(s, c))
  {
    hide Places;
    assert CurrentOk(s.cpus, s.threads, c) && CpuOk(s, c) && ThreadOk(s, s.cpus[c].current);
  }

  lemma MigrationGoesOn(s: State, c: int)
    requires Inv(s) && Shaped(s) && 0 <= c < |s.cpus| && !s.cpus[c].mig.NoMigration?
    requires var m := s.cpus[c].mig;
             (m.Count? || m.Send?) && 0 <= m.i < |s.cpus| && m.i != c ==> !s.cpus[m.i].locked
    ensures Enabled(s, NextMigration(s, c))
  {
    hide Places;
    assert CurrentOk(s.cpus, s.threads, c) && CpuOk(s, c);
  }

  // A CPU that holds its run-queue lock is not in an interrupt handler.
  lemma LockedIsCalm(s: State, d: int)
    requires Inv(s) && 0 <= d < |s.cpus| && s.cpus[d].locked
    ensures s.cpus[d].mig.NoMigration?
  {
    assert CpuOk(s, d);
  }

  // thread_make_runnable goes on, or the CPU it waits for does.
  lemma WakeGoesOn(s: State, c: int, k: nat) returns (e: Event)
    requires Inv(s) && Shaped(s) && 0 <= c < |s.cpus| && Executes(s, c) && k < |s.lists[Wake(s.cpus[c].current)]|
    ensures Enabled(s, e)
    ensures var d := s.threads[s.lists[Wake(s.cpus[c].current)][k]].cpu;
            e == WakePut(c, k) || (e.c == d && 0 <= d < |s.cpus| && s.cpus[d].locked)
  {
    var t := s.lists[Wake(s.cpus[c].current)][k];
    assert ThreadOk(s, t);
    var d := s.threads[t].cpu;
    if s.cpus[d].locked {
      LockedIsCalm(s, d);
      CalmGoesOn(s, d);
      e := NextEvent(s, d);
    } else {
      e := WakePut(c, k);
    }
  }

  // The run-queue lock that a CPU is about to take, if any: that of the CPU of a thread it is
  // waking, or that of the CPU its migration has come to.
  ghost predicate WaitsFor(s: State, c: int, d: int)
    requires Shaped(s) && 0 <= c < |s.cpus|
  {
    var m, wake := s.cpus[c].mig, s.lists[Wake(s.cpus[c].current)];
    || ((m.Count? || m.Send?) && d == m.i)
    || (Executes(s, c) && wake != [] && d == s.threads[wake[0]].cpu)
  }

  /**
   * No CPU is ever stuck: it has an event of its own, or it waits for the run-queue lock of a
   * CPU that has one.  A CPU in the middle of a wakeup goes on with the wakeup.
   */
  lemma NeverStuck(s: State, c: int) returns (e: Event)
    requires Inv(s) && 0 <= c < |s.cpus|
    ensures Shaped(s) && Enabled(s, e) && (e.c == c || (WaitsFor(s, c, e.c) && s.cpus[e.c].locked))
    ensures var wake := s.lists[Wake(s.cpus[c].current)];
            Executes(s, c) && wake != [] ==>
              e == WakePut(c, 0) || (e.c == s.threads[wake[0]].cpu && s.cpus[e.c].locked)
  {
    InvShaped(s);
    var m := s.cpus[c].mig;
    hide Inv, Shaped, Enabled, NextEvent, NextMigration;
    if Executes(s, c) && s.lists[Wake(s.cpus[c].current)] != [] {
      e := WakeGoesOn(s, c, 0);
    } else if m.NoMigration? {
      e := NextEvent(s, c);
      CalmGoesOn(s, c);
    } else if (m.Count? || m.Send?) && 0 <= m.i < |s.cpus| && m.i != c && s.cpus[m.i].locked {
      LockedIsCalm(s, m.i);
      e := NextEvent(s, m.i);
      CalmGoesOn(s, m.i);
    } else {
      e := NextMigration(s, c);
      MigrationGoesOn(s, c);
    }
  }

  /**
   * The assertions of the trap handler: an interrupt at spl 0 finds the count at 0, and the
   * end of its handling finds spl high and the count at 1.
   */
  lemma TrapAssertions(s: State, c: int)
    requires Inv(s) && 0 <= c < |s.cpus| && s.cpus[c].phase.Running?
    ensures s.cpus[c].current in s.threads
    ensures var T := s.threads[s.cpus[c].current];
            && (s.cpus[c].irq ==> !T.high && T.count == 0)
            && (T.intr && T.held == 0 ==> T.high && T.count == 1)
  {
    assert CurrentOk(s.cpus, s.threads, c) && ThreadOk(s, s.cpus[c].current);
  }

  lemma MovingConserves(s: State, e: Event)
    requires Enabled(s, e) && Moving(s, e)
    ensures Step(s, e).threads.Keys ==
            if e.Fork? then s.threads.Keys + {e.t}
            else if e.Exorcise? then s.threads.Keys - {s.lists[Zombies(e.c)][0]}
            else s.threads.Keys
  {
    hide Executes, MayEnter, Targetable;
  }

  // Only fork adds a thread and only exorcise takes one away.
  lemma KeysStep(s: State, e: Event)
    requires Enabled(s, e)
    ensures Step(s, e).threads.Keys ==
            if e.Fork? then s.threads.Keys + {e.t}
            else if e.Exorcise? then s.threads.Keys - {s.lists[Zombies(e.c)][0]}
            else s.threads.Keys
  {
    hide Step, Enabled;
    if Moving(s, e) {
      MovingConserves(s, e);
    } else {
      assert !e.Fork? && !e.Exorcise?;
      StayingConserves(s, e);
    }
  }

  lemma StayingConserves(s: State, e: Event)
    requires Enabled(s, e) && !Moving(s, e)
    ensures Step(s, e).threads.Keys == s.threads.Keys
  {
    if e.Switch? {
      hide Executes, MayEnter, Targetable;
    } else {
      OthersOnlyCurrent(s, e);
      hide Step, Enabled;
    }
  }

  // ---------------------------------------------------------------- over whole runs

  // How often CPU c took a thread off its run queue between the i-th and the j-th state.
  ghost function Removals(ss: seq<State>, es: seq<Event>, c: int, i: nat, j: nat): nat
    requires IsRun(ss, es) && i <= j < |ss|
    decreases j
  {
    if i == j then 0
    else
      Removals(ss, es, c, i, j - 1) + if es[j - 1] == Pick(c) && QueueAt(ss, es, j - 1, c) != [] then 1 else 0
  }

  ghost function QueueAt(ss: seq<State>, es: seq<Event>, i: nat, c: int): seq<int>
    requires IsRun(ss, es) && i < |ss|
  {
    RunInv(ss, es, i);
    ss[i].lists[Rq(c)]
  }

  // One step without a migration: the head goes if the CPU picks it, else the queue only grows.
  lemma QueueStepExact(s: State, e: Event, c: int)
    requires Inv(s) && Enabled(s, e) && e != MigTake(c)
    ensures Inv(Step(s, e))
    ensures var q, q' := s.lists[Rq(c)], Step(s, e).lists[Rq(c)];
            if e == Pick(c) && q != [] then q' == q[1..] && Step(s, e).cpus[c].phase == Chosen(q[0])
            else |q| <= |q'| && q'[..|q|] == q
  {
    ListsAreQueues(s, e, Rq(c));
    hide Inv;
    if e != Pick(c) {
      hide Step;
    }
  }

  // CPU c takes a thread off its run queue in the j-th step, and that thread is t.
  ghost predicate Dispatches(ss: seq<State>, es: seq<Event>, j: nat, c: int, t: int)
    requires IsRun(ss, es) && j < |es|
  {
    es[j] == Pick(c) && 0 <= c < |ss[j + 1].cpus| && ss[j + 1].cpus[c].phase == Chosen(t)
  }

  // The next state's queue after one step, and whom the step dispatched.
  lemma MovedUp(ss: seq<State>, es: seq<Event>, c: int, j: nat)
    requires IsRun(ss, es) && j < |es| && es[j] != MigTake(c)
    ensures var q, q' := QueueAt(ss, es, j, c), QueueAt(ss, es, j + 1, c);
            if es[j] == Pick(c) && q != [] then q' == q[1..] && Dispatches(ss, es, j, c, q[0])
            else |q| <= |q'| && q'[..|q|] == q
  {
    RunInv(ss, es, j);
    assert Enabled(ss[j], es[j]) && ss[j + 1] == Step(ss[j], es[j]);
    QueueStepExact(ss[j], es[j], c);
    hide Inv, Step;
  }

  /**
   * The run queue is served in order: while CPU c does not migrate threads away, the thread
   * at position k has moved up by the number of removals, so the (k+1)-th removal dispatches
   * exactly that thread.
   */
  lemma {:induction false} FirstInFirstOut(ss: seq<State>, es: seq<Event>, c: int, i: nat, j: nat, k: nat)
    requires IsRun(ss, es) && i <= j < |ss| && k < |QueueAt(ss, es, i, c)|
    requires (forall m :: i <= m < j ==> es[m] != MigTake(c)) && Removals(ss, es, c, i, j) <= k
    ensures var d, q := Removals(ss, es, c, i, j), QueueAt(ss, es, j, c);
            k - d < |q| && q[k - d] == QueueAt(ss, es, i, c)[k]
    ensures Removals(ss, es, c, i, j) == k && j < |es| && es[j] == Pick(c) ==>
              Dispatches(ss, es, j, c, QueueAt(ss, es, i, c)[k])
  {
    hide QueueAt, Dispatches, Enabled, Step;
    if i < j {
      FirstInFirstOut(ss, es, c, i, j - 1, k);
      MovedUp(ss, es, c, j - 1);
    }
    if j < |es| && es[j] == Pick(c) {
      MovedUp(ss, es, c, j);
    }
  }

  // Thread t enters thread_switch in the i-th step.
  ghost predicate Enters(ss: seq<State>, es: seq<Event>, i: nat, t: int)
    requires IsRun(ss, es) && i < |es|
  {
    es[i].Enter? && t == ss[i].cpus[es[i].c].current
  }

  // Thread t leaves thread_switch in the i-th step: by the early return or at the end.
  ghost predicate Leaves(ss: seq<State>, es: seq<Event>, i: nat, t: int)
    requires IsRun(ss, es) && i < |es|
  {
    (es[i].Finish? || es[i].Return?) && t == ss[i].cpus[es[i].c].current
  }

  // The spl noted for a thread changes only when the thread itself enters.
  lemma Noted(ss: seq<State>, es: seq<Event>, i: nat, t: int)
    requires IsRun(ss, es) && i < |es| && t in ss[i].threads && t in ss[i + 1].threads
    ensures var x, x' := ss[i].threads[t], ss[i + 1].threads[t];
            x'.ret == if Enters(ss, es, i, t) then x.high else x.ret
  {
    RunInv(ss, es, i);
    assert Enabled(ss[i], es[i]) && ss[i + 1] == Step(ss[i], es[i]);
    assert !(es[i].Fork? && es[i].t == t);
    hide Inv, Step;
    SplStep(ss[i], es[i], t);
  }

  lemma LeavesAt(ss: seq<State>, es: seq<Event>, i: nat, t: int)
    requires IsRun(ss, es) && i < |es| && Leaves(ss, es, i, t)
    ensures t in ss[i].threads && t in ss[i + 1].threads
    ensures ss[i + 1].threads[t].high == ss[i].threads[t].ret && ss[i + 1].threads[t].held == 0
  {
    RunInv(ss, es, i);
    assert Enabled(ss[i], es[i]) && ss[i + 1] == Step(ss[i], es[i]);
    hide Inv, Step;
    SplAtEnd(ss[i], es[i]);
  }

  /**
   * thread_switch returns at the spl it was called at, whatever ran in between: if thread t
   * enters in the i-th step and the next time it enters or leaves it leaves, in the j-th,
   * then it has the spl it had and no spinlock is charged to it.
   */
  lemma {:induction false} SplRestored(ss: seq<State>, es: seq<Event>, i: nat, j: nat, t: int)
    requires IsRun(ss, es) && i < j < |ss| && Enters(ss, es, i, t)
    requires forall m :: i <= m <= j ==> t in ss[m].threads
    requires forall m :: i < m < j ==> !Enters(ss, es, m, t)
    ensures ss[j].threads[t].ret == ss[i].threads[t].high
    ensures j < |es| && Leaves(ss, es, j, t) ==>
              && t in ss[j + 1].threads
              && ss[j + 1].threads[t].high == ss[i].threads[t].high && ss[j + 1].threads[t].held == 0
  {
    hide Enters, Leaves, Enabled, Step;
    if i + 1 < j {
      SplRestored(ss, es, i, j - 1, t);
    }
    Noted(ss, es, j - 1, t);
    if j < |es| && Leaves(ss, es, j, t) {
      LeavesAt(ss, es, j, t);
    }
  }

  // Thread t is destroyed by exorcise, or created by thread_fork, in the i-th step.
  ghost predicate ComesOrGoes(ss: seq<State>, es: seq<Event>, i: nat, t: int)
    requires IsRun(ss, es) && i < |es|
  {
    (es[i].Exorcise? && t == ss[i].lists[Zombies(es[i].c)][0]) || (es[i].Fork? && t == es[i].t)
  }

  /**
   * Thread t is in one place: once on the list it knows of and on no other, or on no list and
   * then either running on its CPU alone or chosen to run next there.
   */
  ghost predicate InOnePlace(s: State, t: int)
    requires t in s.threads && forall l :: l in s.lists
  {
    var T := s.threads[t];
    && (forall l :: multiset(s.lists[l])[t] == if l == T.loc && l != Nowhere then 1 else 0)
    && 0 <= T.cpu < |s.cpus|
    && (T.loc == Nowhere ==>
          || s.cpus[T.cpu].phase == Chosen(t)
          || (s.cpus[T.cpu].current == t && OffLists(s.cpus[T.cpu].phase)))
    && (forall c :: 0 <= c < |s.cpus| && c != T.cpu ==> s.cpus[c].current != t && s.cpus[c].phase != Chosen(t))
  }

  lemma OnListOnce(s: State, t: int, l: Loc)
    requires Inv(s) && t in s.threads
    ensures multiset(s.lists[l])[t] == if l == s.threads[t].loc && l != Nowhere then 1 else 0
  {
    hide CurrentOk, CpuOk, ThreadOk;
    Seqs.CountOfNoDup(s.lists[l], t);
  }

  lemma PlacedOnce(s: State, t: int)
    requires Inv(s) && t in s.threads
    ensures InOnePlace(s, t)
  {
    InvShaped(s);
    hide Places, CpuOk;
    forall l ensures multiset(s.lists[l])[t] == if l == s.threads[t].loc && l != Nowhere then 1 else 0 {
      OnListOnce(s, t, l);
    }
    assert ThreadOk(s, t);
    forall c | 0 <= c < |s.cpus| && c != s.threads[t].cpu
      ensures s.cpus[c].current != t && s.cpus[c].phase != Chosen(t)
    {
      assert CurrentOk(s.cpus, s.threads, c);
    }
  }

  lemma ThreadStays(ss: seq<State>, es: seq<Event>, i: nat, t: int)
    requires IsRun(ss, es) && i < |es| && !ComesOrGoes(ss, es, i, t)
    ensures t in ss[i].threads <==> t in ss[i + 1].threads
  {
    assert Enabled(ss[i], es[i]) && ss[i + 1] == Step(ss[i], es[i]);
    KeysStep(ss[i], es[i]);
    hide Step;
    assert t in ss[i + 1].threads <==> t in ss[i + 1].threads.Keys;
    assert t in ss[i].threads <==> t in ss[i].threads.Keys;
  }

  /**
   * No thread is lost, duplicated or made up: in every run a thread exists from its fork until
   * it is exorcised and not outside that time, and while it exists it is in exactly one place.
   */
  lemma {:induction false} ThreadsConserved(ss: seq<State>, es: seq<Event>, i: nat, j: nat, t: int)
    requires IsRun(ss, es) && i <= j < |ss| && forall m :: i <= m < j ==> !ComesOrGoes(ss, es, m, t)
    ensures t in ss[i].threads <==> t in ss[j].threads
    ensures t in ss[j].threads ==> (forall l :: l in ss[j].lists) && InOnePlace(ss[j], t)
  {
    hide ComesOrGoes, Enabled, Step, InOnePlace;
    if i < j {
      ThreadsConserved(ss, es, i, j - 1, t);
      ThreadStays(ss, es, j - 1, t);
    }
    RunInv(ss, es, j);
    if t in ss[j].threads {
      InvShaped(ss[j]);
      PlacedOnce(ss[j], t);
    }
  }
}

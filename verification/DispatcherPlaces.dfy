/**
 * Where the dispatcher puts threads: what takes a thread off a list and where it goes, and,
 * over whole runs, that a thread sleeps, waits or dies where it was told to.
 */
module DispatcherPlaces {
  import opened Dispatcher
  import opened DispatcherProof
  import opened DispatcherRuns

  // Where thread_switch puts a thread that enters for the purpose on CPU c, and as what.
  function Destination(c: int, how: Purpose): Loc {
    match how
    case ToReady => Rq(c)
    case ToSleep(w) => Chan(w)
    case ToZombie => Zombies(c)
  }

  function StateFor(how: Purpose): ThreadState {
    match how
    case ToReady => Ready
    case ToSleep(_) => Sleep
    case ToZombie => Zombie
  }

  /**
   * The step takes thread t, which is on list l, off it: a wakeup takes the first sleeper of
   * its channel, thread_make_runnable one of the threads that the same thread is waking, the
   * switch the first of the own run queue, a migration the last of the own run queue or the
   * first of its victims, and exorcise the first zombie.
   */
  ghost predicate Takes(s: State, e: Event, l: Loc, t: int)
    requires Enabled(s, e)
  {
    var c, C := e.c, s.cpus[e.c];
    match l
    case Nowhere => false
    case Chan(w) => e == WakeTake(c, w) && s.lists[l][0] == t
    case Wake(u) => e.WakePut? && C.current == u && s.lists[l][e.k] == t
    case Rq(d) =>
      || (e == Pick(d) && s.lists[l] != [] && s.lists[l][0] == t)
      || (e == MigTake(d) && s.lists[l] != [] && s.lists[l][|s.lists[l]| - 1] == t)
    case Victims(d) => (e == MigSend(d) || e == MigBack(d)) && s.lists[l] != [] && s.lists[l][0] == t
    case Zombies(d) => e == Exorcise(d) && s.lists[l][0] == t
  }

  // Where it goes then.
  ghost predicate Goes(s: State, e: Event, t: int, l': Loc)
    requires Enabled(s, e) && t in s.threads
  {
    var C := s.cpus[e.c];
    match e
    case WakeTake(_, _) => l' == Wake(C.current)
    case WakePut(_, _) => l' == Rq(s.threads[t].cpu)
    case Pick(_) => l' == Nowhere
    case MigTake(c) => l' == Victims(c)
    case MigSend(_) => C.mig.Send? && l' == Rq(C.mig.i)
    case MigBack(c) => l' == Rq(c)
    case Place(c) => C.phase.Locked? && l' == Destination(c, C.phase.how)
    case _ => false
  }

  // From s to s' thread t moved, if it did, as Takes and Goes say.
  ghost predicate PlaceKept(s: State, e: Event, t: int, s': State)
    requires Enabled(s, e) && t in s.threads && t in s'.threads
  {
    var l, l' := s.threads[t].loc, s'.threads[t].loc;
    l' != l ==> Goes(s, e, t, l') && (Takes(s, e, l, t) || (e.Place? && t == s.cpus[e.c].current))
  }

  lemma WakePlaces(s: State, e: Event, t: int)
    requires Inv(s) && Enabled(s, e) && (e.Fork? || e.WakeTake? || e.WakePut? || e.Exorcise?)
    requires t in s.threads && t in Step(s, e).threads && !(e.Fork? && e.t == t)
    ensures PlaceKept(s, e, t, Step(s, e))
  {
    Heads(s, e);
    hide Inv, Executes, MayEnter, Targetable;
  }

  lemma SwitchPlaces(s: State, e: Event, t: int)
    requires Inv(s) && Enabled(s, e) && (e.Place? || (e.Pick? && Moving(s, e)))
    requires t in s.threads && t in Step(s, e).threads
    ensures PlaceKept(s, e, t, Step(s, e))
  {
    Heads(s, e);
    hide Inv, Executes, MayEnter, Targetable;
  }

  lemma MigrationPlaces(s: State, e: Event, t: int)
    requires Inv(s) && Enabled(s, e) && (e.MigTake? || e.MigSend? || e.MigBack?) && Moving(s, e)
    requires t in s.threads && t in Step(s, e).threads
    ensures PlaceKept(s, e, t, Step(s, e))
  {
    Heads(s, e);
    hide Inv, Executes, MayEnter, Targetable;
  }

  lemma MovingPlaces(s: State, e: Event, t: int)
    requires Inv(s) && Enabled(s, e) && Moving(s, e) && t in s.threads && t in Step(s, e).threads
    requires !(e.Fork? && e.t == t)
    ensures PlaceKept(s, e, t, Step(s, e))
  {
    hide Inv, Step, PlaceKept;
    if e.Place? || e.Pick? {
      SwitchPlaces(s, e, t);
    } else if e.MigTake? || e.MigSend? || e.MigBack? {
      MigrationPlaces(s, e, t);
    } else {
      WakePlaces(s, e, t);
    }
  }

  lemma StillPlaced(s: State, e: Event, t: int)
    requires Enabled(s, e) && !Moving(s, e) && t in s.threads
    ensures t in Step(s, e).threads && Step(s, e).threads[t].loc == s.threads[t].loc
  {
    if !e.Switch? {
      OthersOnlyCurrent(s, e);
      hide Step, Enabled;
    }
  }

  /**
   * A thread changes its place only when the step that may take it off its list does, and then
   * it goes where that step puts threads.
   */
  lemma PlaceStep(s: State, e: Event, t: int)
    requires Inv(s) && Enabled(s, e) && t in s.threads && t in Step(s, e).threads && !(e.Fork? && e.t == t)
    ensures PlaceKept(s, e, t, Step(s, e))
  {
    hide Inv, Step, Takes, Goes, Enabled;
    if Moving(s, e) {
      MovingPlaces(s, e, t);
    } else {
      StillPlaced(s, e, t);
    }
  }

  // The threads that steps take know the lists they are on.
  lemma Heads(s: State, e: Event)
    requires Inv(s) && Enabled(s, e)
    ensures e.WakeTake? ==> s.threads[s.lists[Chan(e.w)][0]].loc == Chan(e.w)
    ensures var l := s.lists[Wake(s.cpus[e.c].current)];
            e.WakePut? ==> s.threads[l[e.k]].loc == Wake(s.cpus[e.c].current)
    ensures var l := s.lists[Rq(e.c)];
            l != [] ==> s.threads[l[0]].loc == Rq(e.c) && s.threads[l[|l| - 1]].loc == Rq(e.c)
    ensures var l := s.lists[Victims(e.c)]; l != [] ==> s.threads[l[0]].loc == Victims(e.c)
  {
    hide CurrentOk, CpuOk, ThreadOk, Executes, MayEnter, Targetable;
    Member(s, Rq(e.c));
    Member(s, Victims(e.c));
    if e.WakeTake? {
      Member(s, Chan(e.w));
    }
    if e.WakePut? {
      var l := s.lists[Wake(s.cpus[e.c].current)];
      assert l[e.k] in l;
    }
  }

  lemma Member(s: State, l: Loc)
    requires Inv(s)
    ensures s.lists[l] != [] ==>
              var q := s.lists[l];
              && q[0] in s.threads && q[|q| - 1] in s.threads
              && s.threads[q[0]].loc == l && s.threads[q[|q| - 1]].loc == l
  {
    hide CurrentOk, CpuOk, ThreadOk;
    var q := s.lists[l];
    if q != [] {
      var a, b := q[0], q[|q| - 1];
      assert a in s.lists[l] && b in s.lists[l];
    }
  }

  // ---------------------------------------------------------------- staying on a list

  // A thread leaves a list only if a step takes it.
  lemma LeavesList(s: State, e: Event, l: Loc, t: int)
    requires Inv(s) && Enabled(s, e) && t in s.lists[l]
    ensures Inv(Step(s, e))
    ensures t !in Step(s, e).lists[l] ==> Takes(s, e, l, t)
    ensures t !in Step(s, e).lists[l] && !e.Exorcise? ==>
              t in s.threads && t in Step(s, e).threads && Goes(s, e, t, Step(s, e).threads[t].loc)
  {
    StepInv(s, e);
    OnIt(s, l, t);
    if t in Step(s, e).threads {
      KnowsIt(Step(s, e), l, t);
      NotPlaced(s, e, l, t);
      assert e.Fork? ==> e.t != t;
      hide Inv, Step, Enabled;
      PlaceStep(s, e, t);
    } else {
      Gone(s, e, l, t);
    }
  }

  lemma OnIt(s: State, l: Loc, t: int)
    requires Inv(s) && t in s.lists[l]
    ensures t in s.threads && s.threads[t].loc == l && l != Nowhere
  {
    hide CurrentOk, CpuOk, ThreadOk;
  }

  lemma KnowsIt(s: State, l: Loc, t: int)
    requires Inv(s) && t in s.threads
    ensures l != Nowhere && s.threads[t].loc == l ==> t in s.lists[l]
  {
    hide CurrentOk, CpuOk, ThreadOk;
  }

  // The current thread is on no list when it is placed.
  lemma NotPlaced(s: State, e: Event, l: Loc, t: int)
    requires Inv(s) && Enabled(s, e) && t in s.lists[l]
    ensures e.Place? ==> t != s.cpus[e.c].current
  {
    hide CpuOk, ThreadOk;
    if e.Place? {
      assert CurrentOk(s.cpus, s.threads, e.c);
      OnIt(s, l, t);
    }
  }

  // Only exorcise destroys a thread, which is the first zombie.
  lemma Gone(s: State, e: Event, l: Loc, t: int)
    requires Inv(s) && Enabled(s, e) && t in s.lists[l] && t in s.threads && s.threads[t].loc == l
    requires t !in Step(s, e).threads
    ensures Takes(s, e, l, t) && e.Exorcise?
  {
    KeysStep(s, e);
    Member(s, Zombies(e.c));
    hide Inv, Step;
    assert t in s.threads.Keys && t !in Step(s, e).threads.Keys;
  }

  /**
   * In every run a thread stays on its list until the step that may take it off does: a
   * sleeper until a wakeup of its channel finds it first, a ready thread until its CPU picks
   * it or migrates it away, a zombie until it is exorcised.
   */
  lemma {:induction false} StaysOn(ss: seq<State>, es: seq<Event>, i: nat, j: nat, l: Loc, t: int)
    requires IsRun(ss, es) && i <= j < |ss| && ListAt(ss, es, i, l, t)
    requires forall m :: i <= m < j ==> !TakesAt(ss, es, m, l, t)
    ensures ListAt(ss, es, j, l, t)
  {
    hide ListAt, TakesAt, Enabled, Step;
    if i < j {
      StaysOn(ss, es, i, j - 1, l, t);
      StaysAt(ss, es, j - 1, l, t);
    }
  }

  ghost predicate ListAt(ss: seq<State>, es: seq<Event>, i: nat, l: Loc, t: int)
    requires IsRun(ss, es) && i < |ss|
  {
    RunInv(ss, es, i);
    t in ss[i].lists[l]
  }

  ghost predicate TakesAt(ss: seq<State>, es: seq<Event>, i: nat, l: Loc, t: int)
    requires IsRun(ss, es) && i < |es|
  {
    Enabled(ss[i], es[i]) && Takes(ss[i], es[i], l, t)
  }

  lemma StaysAt(ss: seq<State>, es: seq<Event>, i: nat, l: Loc, t: int)
    requires IsRun(ss, es) && i < |es| && ListAt(ss, es, i, l, t) && !TakesAt(ss, es, i, l, t)
    ensures ListAt(ss, es, i + 1, l, t)
  {
    RunInv(ss, es, i);
    assert Enabled(ss[i], es[i]) && ss[i + 1] == Step(ss[i], es[i]);
    LeavesList(ss[i], es[i], l, t);
    hide Inv, Step, Enabled, Takes;
  }

  // ---------------------------------------------------------------- from entry to placement

  // What other CPUs do to a CPU is send it an interrupt.
  lemma OtherCpus(s: State, e: Event, c: int)
    requires Enabled(s, e) && 0 <= c < |s.cpus| && e.c != c
    ensures var s' := Step(s, e); |s'.cpus| == |s.cpus| && s'.cpus[c] == s.cpus[c].(ipi := s'.cpus[c].ipi)
  {
    if Moving(s, e) {
      OthersMove(s, e, c);
    } else if !e.Switch? {
      OthersOnlyCurrent(s, e);
      hide Step, Enabled;
    } else {
      hide Executes, MayEnter, Targetable, Shaped;
    }
  }

  lemma OthersMove(s: State, e: Event, c: int)
    requires Enabled(s, e) && Moving(s, e) && 0 <= c < |s.cpus| && e.c != c
    ensures var s' := Step(s, e); |s'.cpus| == |s.cpus| && s'.cpus[c] == s.cpus[c].(ipi := s'.cpus[c].ipi)
  {
    hide Executes, MayEnter;
  }

  /**
   * IPI_UNIDLE is sent only to a CPU that is idle or about to look for work, together with a
   * thread for its run queue.
   */
  lemma IpiOnlyToIdle(s: State, e: Event, d: int)
    requires Enabled(s, e) && 0 <= d < |s.cpus|
    ensures |Step(s, e).cpus| == |s.cpus|
    ensures !s.cpus[d].ipi && Step(s, e).cpus[d].ipi ==>
              s.cpus[d].isidle && |Step(s, e).lists[Rq(d)]| == |s.lists[Rq(d)]| + 1
  {
    if Moving(s, e) {
      IpiMoving(s, e, d);
    } else {
      hide Executes, MayEnter, Targetable, Shaped;
    }
  }

  lemma IpiMoving(s: State, e: Event, d: int)
    requires Enabled(s, e) && Moving(s, e) && 0 <= d < |s.cpus|
    ensures |Step(s, e).cpus| == |s.cpus|
    ensures !s.cpus[d].ipi && Step(s, e).cpus[d].ipi ==>
              s.cpus[d].isidle && |Step(s, e).lists[Rq(d)]| == |s.lists[Rq(d)]| + 1
  {
    hide Executes, MayEnter;
  }

  // In thread_switch with the lock held, a CPU does nothing but go on.
  lemma LockedCalm(s: State, e: Event)
    requires Inv(s) && Enabled(s, e) && s.cpus[e.c].phase.Locked?
    ensures e.Place? || e.Return?
  {
    assert CpuOk(s, e.c);
    hide Inv, CurrentOk, ThreadOk, Places, MayEnter, Targetable, Shaped;
  }

  // Until it is placed or returns, a thread in thread_switch stays where it is in it.
  lemma LockedStays(s: State, e: Event, c: int)
    requires Inv(s) && Enabled(s, e) && 0 <= c < |s.cpus| && s.cpus[c].phase.Locked?
    requires e != Place(c) && e != Return(c)
    ensures var s' := Step(s, e);
            |s'.cpus| == |s.cpus| && s'.cpus[c].phase == s.cpus[c].phase && s'.cpus[c].current == s.cpus[c].current
  {
    hide Inv, Step;
    if e.c == c {
      LockedCalm(s, e);
    } else {
      OtherCpus(s, e, c);
    }
  }

  /**
   * A thread that enters thread_switch to sleep on a channel is put last on that very channel,
   * one that yields on its own run queue, one that exits on the zombies of its CPU, in the
   * state that goes with it; only a yield with no thread ready returns at once, and it does.
   */
  lemma {:induction false} PlacedWhereTold(ss: seq<State>, es: seq<Event>, i: nat, j: nat, c: int, how: Purpose)
    requires IsRun(ss, es) && i < j < |es| && es[i] == Enter(c, how) && (es[j] == Place(c) || es[j] == Return(c))
    requires forall m :: i < m < j ==> es[m] != Place(c) && es[m] != Return(c)
    ensures 0 <= c < |ss[i].cpus| && forall l :: l in ss[j].lists && l in ss[j + 1].lists
    ensures var t, l := ss[i].cpus[c].current, Destination(c, how);
            if how.ToReady? && ss[j].lists[Rq(c)] == [] then
              es[j] == Return(c) && ss[j + 1].lists == ss[j].lists
            else
              && es[j] == Place(c) && ss[j + 1].lists == ss[j].lists[l := ss[j].lists[l] + [t]]
              && t in ss[j + 1].threads && ss[j + 1].threads[t].state == StateFor(how)
  {
    LockedUntil(ss, es, i, j, c, how);
    assert Enabled(ss[j], es[j]) && ss[j + 1] == Step(ss[j], es[j]);
    hide MayEnter, Targetable, Executes;
  }

  lemma {:induction false} LockedUntil(ss: seq<State>, es: seq<Event>, i: nat, j: nat, c: int, how: Purpose)
    requires IsRun(ss, es) && i < j < |ss| && es[i] == Enter(c, how)
    requires forall m :: i < m < j ==> es[m] != Place(c) && es[m] != Return(c)
    ensures 0 <= c < |ss[i].cpus| == |ss[j].cpus|
    ensures ss[j].cpus[c].phase == Locked(how) && ss[j].cpus[c].current == ss[i].cpus[c].current
  {
    hide Enabled, Step;
    if i + 1 < j {
      LockedUntil(ss, es, i, j - 1, c, how);
      LockedAt(ss, es, j - 1, c);
    } else {
      EnteredAt(ss, es, i, c, how);
    }
  }

  lemma EnteredAt(ss: seq<State>, es: seq<Event>, i: nat, c: int, how: Purpose)
    requires IsRun(ss, es) && i < |es| && es[i] == Enter(c, how)
    ensures 0 <= c < |ss[i].cpus| == |ss[i + 1].cpus|
    ensures ss[i + 1].cpus[c].phase == Locked(how) && ss[i + 1].cpus[c].current == ss[i].cpus[c].current
  {
    assert Enabled(ss[i], es[i]) && ss[i + 1] == Step(ss[i], es[i]);
  }

  lemma LockedAt(ss: seq<State>, es: seq<Event>, i: nat, c: int)
    requires IsRun(ss, es) && i < |es| && 0 <= c < |ss[i].cpus| && ss[i].cpus[c].phase.Locked?
    requires es[i] != Place(c) && es[i] != Return(c)
    ensures |ss[i + 1].cpus| == |ss[i].cpus| && ss[i + 1].cpus[c].phase == ss[i].cpus[c].phase
    ensures ss[i + 1].cpus[c].current == ss[i].cpus[c].current
  {
    RunInv(ss, es, i);
    assert Enabled(ss[i], es[i]) && ss[i + 1] == Step(ss[i], es[i]);
    LockedStays(ss[i], es[i], c);
    hide Inv, Step;
  }
}

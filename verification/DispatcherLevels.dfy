/**
 * What a thread may rely on about itself over every run of the dispatcher: the spinlocks it
 * is charged with, its spl and its state are its own doing, whatever ran in between.
 */
module DispatcherLevels {
  import opened Dispatcher
  import opened DispatcherProof
  import opened DispatcherRuns
  import opened DispatcherPlaces

  // ---------------------------------------------------------------- one step

  // A step that moves a thread changes its place and perhaps its CPU, and nothing else of it,
  // unless it places the current thread.
  ghost predicate SameRecord(T: Thread, T': Thread) {
    T' == T.(loc := T'.loc, cpu := T'.cpu)
  }

  lemma WakeRecord(s: State, e: Event, t: int)
    requires Enabled(s, e) && (e.Fork? || e.WakeTake? || e.WakePut? || e.Exorcise?)
    requires t in s.threads && t in Step(s, e).threads && !(e.Fork? && e.t == t)
    ensures SameRecord(s.threads[t], Step(s, e).threads[t])
  {
    hide Executes, MayEnter, Targetable;
  }

  lemma OtherMovedRecord(s: State, e: Event, t: int)
    requires Enabled(s, e) && Moving(s, e) && !(e.Fork? || e.WakeTake? || e.WakePut? || e.Exorcise?)
    requires t in s.threads && t in Step(s, e).threads && !(e.Place? && t == s.cpus[e.c].current)
    ensures SameRecord(s.threads[t], Step(s, e).threads[t])
  {
    hide Executes, MayEnter, Targetable;
  }

  lemma MovedRecord(s: State, e: Event, t: int)
    requires Enabled(s, e) && Moving(s, e) && t in s.threads && t in Step(s, e).threads && !(e.Fork? && e.t == t)
    requires !(e.Place? && t == s.cpus[e.c].current)
    ensures var T' := Step(s, e).threads[t]; T' == s.threads[t].(loc := T'.loc, cpu := T'.cpu)
  {
    hide Step, Enabled;
    if e.Fork? || e.WakeTake? || e.WakePut? || e.Exorcise? {
      WakeRecord(s, e, t);
    } else {
      OtherMovedRecord(s, e, t);
    }
  }

  // A step of another CPU, or of its own CPU while it is not current, changes no more of a
  // thread than that either, except that a switch to it resumes it.
  lemma OtherRecord(s: State, e: Event, t: int)
    requires Enabled(s, e) && t in s.threads && t in Step(s, e).threads && !(e.Fork? && e.t == t)
    requires t != s.cpus[e.c].current
    ensures var T' := Step(s, e).threads[t]; T' == s.threads[t].(loc := T'.loc, cpu := T'.cpu, saved := T'.saved)
    ensures !e.Switch? ==> Step(s, e).threads[t].saved == s.threads[t].saved
  {
    if Moving(s, e) {
      MovedRecord(s, e, t);
      hide Step, Enabled;
    } else if !e.Switch? {
      OthersOnlyCurrent(s, e);
      hide Step, Enabled;
    } else {
      hide Executes, MayEnter, Targetable, Shaped;
    }
  }

  // ---------------------------------------------------------------- spinlocks

  // The spinlocks that thread_switch itself has charged to a thread: the run-queue lock.
  ghost function Extra(s: State, t: int): int
    requires t in s.threads && 0 <= s.threads[t].cpu < |s.cpus|
  {
    var T, p := s.threads[t], s.cpus[s.threads[t].cpu].phase;
    if T.saved then 1 else if p.Running? || p.Idle? || p.Cleanup? then 0 else 1
  }

  // The others are those that the code around thread_switch has taken.
  ghost function Net(s: State, t: int): int
    requires t in s.threads && 0 <= s.threads[t].cpu < |s.cpus|
  {
    s.threads[t].held - Extra(s, t)
  }

  // What the step takes or lets go on behalf of the thread; going to sleep lets go the lock
  // of the wait channel.
  ghost function Taken(s: State, e: Event, t: int): int
    requires Enabled(s, e)
  {
    var C := s.cpus[e.c];
    if C.current != t then 0
    else if e.Acquire? then 1
    else if e.Release? || (e.Place? && C.phase.how.ToSleep?) then -1
    else 0
  }

  // The spl the thread runs at when it runs; an interrupt found it at spl 0.
  ghost function Effective(s: State, t: int): bool
    requires t in s.threads && 0 <= s.threads[t].cpu < |s.cpus|
  {
    var T := s.threads[t];
    !T.intr && if T.saved || !s.cpus[T.cpu].phase.Running? then T.ret else T.high
  }

  ghost predicate Charges(s: State, e: Event, s': State, t: int)
    requires Enabled(s, e) && t in s.threads && 0 <= s.threads[t].cpu < |s.cpus|
    requires t in s'.threads && 0 <= s'.threads[t].cpu < |s'.cpus|
  {
    && Net(s', t) == Net(s, t) + Taken(s, e, t)
    && Effective(s', t) == if e.SetSpl? && t == s.cpus[e.c].current then e.high else Effective(s, t)
  }

  lemma Seated(s: State, t: int)
    requires Inv(s) && t in s.threads
    ensures 0 <= s.threads[t].cpu < |s.cpus| && (!s.threads[t].saved ==> s.cpus[s.threads[t].cpu].current == t)
    ensures Accounted(s.threads[t])
  {
    InvShaped(s);
    hide Places, CpuOk, CurrentOk;
    assert ThreadOk(s, t);
  }

  lemma CurrentSeated(s: State, c: int)
    requires Inv(s) && 0 <= c < |s.cpus|
    ensures var C := s.cpus[c];
            && C.current in s.threads && s.threads[C.current].cpu == c && !s.threads[C.current].saved
            && (!C.phase.Idle? ==> (C.irq <==> s.threads[C.current].count == 0))
            && Charged(C.phase, s.threads[C.current])
  {
    hide Places, CpuOk, ThreadOk;
    assert CurrentOk(s.cpus, s.threads, c);
  }

  lemma SpinCharges(s: State, e: Event)
    requires Inv(s) && Enabled(s, e) && (e.Acquire? || e.Release? || e.SetSpl? || e.Interrupt? || e.EndInterrupt?)
    ensures var t, s' := s.cpus[e.c].current, Step(s, e);
            && t in s'.threads && s.threads[t].cpu == s'.threads[t].cpu == e.c < |s'.cpus|
            && Charges(s, e, s', t)
  {
    CurrentSeated(s, e.c);
    Seated(s, s.cpus[e.c].current);
    hide Inv, Shaped, MayEnter, Targetable;
  }

  lemma EnterCharges(s: State, e: Event)
    requires Inv(s) && Enabled(s, e) && (e.Enter? || e.Return? || e.Finish?)
    ensures var t, s' := s.cpus[e.c].current, Step(s, e);
            && t in s'.threads && s.threads[t].cpu == s'.threads[t].cpu == e.c < |s'.cpus|
            && Charges(s, e, s', t)
  {
    CurrentSeated(s, e.c);
    Seated(s, s.cpus[e.c].current);
    hide Inv, Shaped, MayEnter, Targetable;
  }

  lemma PlaceCharges(s: State, e: Event)
    requires Inv(s) && Enabled(s, e) && e.Place?
    ensures var t, s' := s.cpus[e.c].current, Step(s, e);
            && t in s'.threads && s.threads[t].cpu == s'.threads[t].cpu == e.c < |s'.cpus|
            && Charges(s, e, s', t)
  {
    CurrentSeated(s, e.c);
    Seated(s, s.cpus[e.c].current);
    hide Inv, Shaped, MayEnter, Targetable;
  }

  lemma PickCharges(s: State, e: Event)
    requires Inv(s) && Enabled(s, e) && e.Pick?
    ensures var t, s' := s.cpus[e.c].current, Step(s, e);
            && t in s'.threads && s.threads[t].cpu == s'.threads[t].cpu == e.c < |s'.cpus|
            && Charges(s, e, s', t)
  {
    CurrentSeated(s, e.c);
    Seated(s, s.cpus[e.c].current);
    hide Inv, Shaped, MayEnter, Targetable;
  }

  lemma IdleCharges(s: State, e: Event)
    requires Inv(s) && Enabled(s, e) && (e.IdleInterrupt? || e.IdleIrq? || e.Leave? || e.Unlock?)
    ensures var t, s' := s.cpus[e.c].current, Step(s, e);
            && t in s'.threads && s.threads[t].cpu == s'.threads[t].cpu == e.c < |s'.cpus|
            && Charges(s, e, s', t)
  {
    CurrentSeated(s, e.c);
    Seated(s, s.cpus[e.c].current);
    hide Inv, Shaped, MayEnter, Targetable;
  }

  // The steps that leave the current thread and its phase alone.
  predicate Aside(e: Event) {
    || e.Fork? || e.WakeTake? || e.WakePut? || e.Exorcise? || e.MigStart? || e.MigCount? || e.MigDecide?
    || e.MigTake? || e.MigSend? || e.MigBack?
  }

  lemma WakePhase(s: State, e: Event)
    requires Enabled(s, e) && (e.Fork? || e.WakeTake? || e.WakePut? || e.Exorcise?)
    ensures |Step(s, e).cpus| == |s.cpus| && Step(s, e).cpus[e.c].phase == s.cpus[e.c].phase
    ensures Step(s, e).cpus[e.c].current == s.cpus[e.c].current
  {
    hide Executes, MayEnter, Shaped;
  }

  lemma MigrationPhase(s: State, e: Event)
    requires Enabled(s, e) && (e.MigTake? || e.MigSend? || e.MigBack?)
    ensures |Step(s, e).cpus| == |s.cpus| && Step(s, e).cpus[e.c].phase == s.cpus[e.c].phase
    ensures Step(s, e).cpus[e.c].current == s.cpus[e.c].current
  {
    hide Executes, MayEnter, Shaped, Targetable;
  }

  lemma AsidePhase(s: State, e: Event)
    requires Enabled(s, e) && Aside(e)
    ensures |Step(s, e).cpus| == |s.cpus| && Step(s, e).cpus[e.c].phase == s.cpus[e.c].phase
    ensures Step(s, e).cpus[e.c].current == s.cpus[e.c].current
  {
    if e.Fork? || e.WakeTake? || e.WakePut? || e.Exorcise? {
      WakePhase(s, e);
      hide Step, Enabled;
    } else if e.MigTake? || e.MigSend? || e.MigBack? {
      MigrationPhase(s, e);
      hide Step, Enabled;
    } else {
      hide Executes, MayEnter, Shaped, Targetable;
    }
  }

  lemma AsideRecord(s: State, e: Event)
    requires Enabled(s, e) && Aside(e) && s.cpus[e.c].current in Step(s, e).threads
    requires !(e.Fork? && e.t == s.cpus[e.c].current)
    ensures var t, T' := s.cpus[e.c].current, Step(s, e).threads[s.cpus[e.c].current];
            T' == s.threads[t].(loc := T'.loc, cpu := T'.cpu)
  {
    if Moving(s, e) {
      hide Step, Enabled;
      MovedRecord(s, e, s.cpus[e.c].current);
    } else {
      LocalRecord(s, e);
    }
  }

  lemma LocalRecord(s: State, e: Event)
    requires Enabled(s, e) && Aside(e) && !Moving(s, e)
    ensures Step(s, e).threads == s.threads
  {
    hide Executes, MayEnter, Targetable;
    assert s.threads[s.cpus[e.c].current := Cur(s, e.c)] == s.threads;
  }

  // Only a saved thread that is current nowhere may change its CPU.
  lemma KeepsCpu(s: State, e: Event, t: int)
    requires Inv(s) && Enabled(s, e) && t in s.threads && t in Step(s, e).threads
    requires !s.threads[t].saved || t == s.cpus[e.c].current
    ensures Step(s, e).threads[t].cpu == s.threads[t].cpu
  {
    hide Inv, Step, Moving, MigSent;
    if Step(s, e).threads[t].cpu != s.threads[t].cpu {
      OnlyMigrationMoves(s, e, t);
    }
  }

  // Records and phases that stay the same keep the charges.
  lemma SameCharges(s: State, e: Event, s': State, t: int)
    requires Enabled(s, e) && t in s.threads && 0 <= s.threads[t].cpu < |s.cpus|
    requires t in s'.threads && 0 <= s'.threads[t].cpu < |s'.cpus|
    requires var T, T' := s.threads[t], s'.threads[t];
             && T'.held == T.held && T'.high == T.high && T'.ret == T.ret && T'.intr == T.intr && T'.saved == T.saved
             && (!T.saved ==> s'.cpus[T'.cpu].phase == s.cpus[T.cpu].phase)
    requires Taken(s, e, t) == 0 && !(e.SetSpl? && t == s.cpus[e.c].current)
    ensures Charges(s, e, s', t)
  {
    hide Enabled, Taken;
  }

  lemma AsideCharges(s: State, e: Event)
    requires Inv(s) && Enabled(s, e) && Aside(e) && s.cpus[e.c].current in Step(s, e).threads
    ensures var t, s' := s.cpus[e.c].current, Step(s, e);
            && s.threads[t].cpu == s'.threads[t].cpu == e.c < |s'.cpus|
            && Charges(s, e, s', t)
  {
    var t := s.cpus[e.c].current;
    CurrentSeated(s, e.c);
    assert e.Fork? ==> e.t != t;
    hide Inv, Step, Enabled, Charges;
    AsidePhase(s, e);
    AsideRecord(s, e);
    KeepsCpu(s, e, t);
    SameCharges(s, e, Step(s, e), t);
  }

  lemma SwitchedCharges(s: State, c: int, t: int)
    requires Inv(s) && Enabled(s, Switch(c)) && t in s.threads
    ensures var s' := Switched(s, c);
            && 0 <= s.threads[t].cpu < |s.cpus| && t in s'.threads && 0 <= s'.threads[t].cpu < |s'.cpus|
            && Charges(s, Switch(c), s', t)
  {
    CurrentSeated(s, c);
    Seated(s, t);
    ChosenSaved(s, c);
    hide Inv, Shaped, Executes, MayEnter, Targetable;
  }

  // The thread that is switched to is saved, or is the current one.
  lemma ChosenSaved(s: State, c: int)
    requires Inv(s) && Enabled(s, Switch(c))
    ensures var n := s.cpus[c].phase.next; s.threads[n].cpu == c && (s.threads[n].saved || n == s.cpus[c].current)
  {
    hide Places, CpuOk;
    var n := s.cpus[c].phase.next;
    assert CurrentOk(s.cpus, s.threads, c) && ThreadOk(s, n);
  }

  // A thread that is not current on the CPU.
  lemma OtherCharges(s: State, e: Event, t: int)
    requires Inv(s) && Enabled(s, e) && !e.Switch? && t in s.threads && t in Step(s, e).threads
    requires t != s.cpus[e.c].current && !(e.Fork? && e.t == t)
    requires 0 <= s.threads[t].cpu < |s.cpus| && 0 <= Step(s, e).threads[t].cpu < |Step(s, e).cpus|
    ensures Charges(s, e, Step(s, e), t)
  {
    hide Inv, Step, Enabled, Charges;
    Seated(s, t);
    OtherRecord(s, e, t);
    if !s.threads[t].saved {
      KeepsCpu(s, e, t);
      OtherCpus(s, e, s.threads[t].cpu);
    }
    SameCharges(s, e, Step(s, e), t);
  }

  /**
   * Every step changes the spinlocks charged to a thread beyond the run-queue lock, and the
   * spl it runs at, only as that thread's own calls say.
   */
  lemma ChargesStep(s: State, e: Event, t: int)
    requires Inv(s) && Enabled(s, e) && t in s.threads && t in Step(s, e).threads && !(e.Fork? && e.t == t)
    ensures 0 <= s.threads[t].cpu < |s.cpus| && 0 <= Step(s, e).threads[t].cpu < |Step(s, e).cpus|
    ensures Charges(s, e, Step(s, e), t)
  {
    Seated(s, t);
    StepInv(s, e);
    Seated(Step(s, e), t);
    hide Inv, Charges, Enabled;
    if e.Switch? {
      SwitchedCharges(s, e.c, t);
    } else {
      hide Step;
      if t != s.cpus[e.c].current {
        OtherCharges(s, e, t);
      } else if Aside(e) {
        AsideCharges(s, e);
      } else if e.Acquire? || e.Release? || e.SetSpl? || e.Interrupt? || e.EndInterrupt? {
        SpinCharges(s, e);
      } else if e.Enter? || e.Return? || e.Finish? {
        EnterCharges(s, e);
      } else if e.Place? {
        PlaceCharges(s, e);
      } else if e.Pick? {
        PickCharges(s, e);
      } else {
        IdleCharges(s, e);
      }
    }
  }

  // ---------------------------------------------------------------- over runs

  // The balance of a thread's own calls between the i-th and the j-th state.
  ghost function Balance(ss: seq<State>, es: seq<Event>, i: nat, j: nat, t: int): int
    requires IsRun(ss, es) && i <= j < |ss|
    decreases j
  {
    if i == j then 0 else Balance(ss, es, i, j - 1, t) + TakenAt(ss, es, j - 1, t)
  }

  ghost function TakenAt(ss: seq<State>, es: seq<Event>, m: nat, t: int): int
    requires IsRun(ss, es) && m < |es|
  {
    assert Enabled(ss[m], es[m]);
    Taken(ss[m], es[m], t)
  }

  ghost function NetAt(ss: seq<State>, es: seq<Event>, m: nat, t: int): int
    requires IsRun(ss, es) && m < |ss| && t in ss[m].threads
  {
    RunInv(ss, es, m);
    Seated(ss[m], t);
    Net(ss[m], t)
  }

  ghost function SplAt(ss: seq<State>, es: seq<Event>, m: nat, t: int): bool
    requires IsRun(ss, es) && m < |ss| && t in ss[m].threads
  {
    RunInv(ss, es, m);
    Seated(ss[m], t);
    Effective(ss[m], t)
  }

  // Thread t sets its spl in the m-th step.
  ghost predicate Sets(ss: seq<State>, es: seq<Event>, m: nat, t: int)
    requires IsRun(ss, es) && m < |es|
  {
    assert Enabled(ss[m], es[m]);
    es[m].SetSpl? && t == ss[m].cpus[es[m].c].current
  }

  lemma ChargesAt(ss: seq<State>, es: seq<Event>, m: nat, t: int)
    requires IsRun(ss, es) && m < |es| && t in ss[m].threads && t in ss[m + 1].threads
    ensures NetAt(ss, es, m + 1, t) == NetAt(ss, es, m, t) + TakenAt(ss, es, m, t)
    ensures SplAt(ss, es, m + 1, t) == if Sets(ss, es, m, t) then es[m].high else SplAt(ss, es, m, t)
  {
    RunInv(ss, es, m);
    assert Enabled(ss[m], es[m]) && ss[m + 1] == Step(ss[m], es[m]);
    assert !(es[m].Fork? && es[m].t == t);
    ChargesStep(ss[m], es[m], t);
    hide Inv, Step, Enabled;
  }

  /**
   * Spinlocks are conserved: in every run, whatever switches, interrupts and migrations come
   * between, a thread is charged with those it had plus those it took less those it let go,
   * counting the lock of a wait channel as let go when it falls asleep.
   */
  lemma {:induction false} SpinlocksConserved(ss: seq<State>, es: seq<Event>, i: nat, j: nat, t: int)
    requires IsRun(ss, es) && i <= j < |ss| && forall m :: i <= m <= j ==> t in ss[m].threads
    ensures NetAt(ss, es, j, t) == NetAt(ss, es, i, t) + Balance(ss, es, i, j, t)
  {
    hide NetAt, TakenAt, Enabled, Step;
    if i < j {
      SpinlocksConserved(ss, es, i, j - 1, t);
      ChargesAt(ss, es, j - 1, t);
    }
  }

  /**
   * The spl is the thread's own: in every run it runs at the level it last set, whatever
   * switches, interrupts and migrations come between.
   */
  lemma {:induction false} SplIsOwn(ss: seq<State>, es: seq<Event>, i: nat, j: nat, t: int)
    requires IsRun(ss, es) && i <= j < |ss| && forall m :: i <= m <= j ==> t in ss[m].threads
    requires forall m :: i <= m < j ==> !Sets(ss, es, m, t)
    ensures SplAt(ss, es, j, t) == SplAt(ss, es, i, t)
    ensures j < |es| && Sets(ss, es, j, t) && t in ss[j + 1].threads ==> SplAt(ss, es, j + 1, t) == es[j].high
  {
    hide SplAt, Sets, NetAt, TakenAt, Enabled, Step;
    if i < j {
      SplIsOwn(ss, es, i, j - 1, t);
      ChargesAt(ss, es, j - 1, t);
    }
    if j < |es| && t in ss[j + 1].threads {
      ChargesAt(ss, es, j, t);
    }
  }

  // ---------------------------------------------------------------- t_state

  // Outside thread_switch, on the way in, or on the way out.
  predicate Runs(p: Phase) {
    p.Running? || p.Locked? || p.Cleanup?
  }

  // A running thread is S_RUN, one on a channel S_SLEEP, an exited one S_ZOMBIE.
  ghost predicate StateOk(s: State, t: int)
    requires t in s.threads && 0 <= s.threads[t].cpu < |s.cpus|
  {
    var T := s.threads[t];
    && (T.loc.Chan? ==> T.state == Sleep) && (T.loc.Zombies? ==> T.state == Zombie)
    && (!T.saved && Runs(s.cpus[T.cpu].phase) ==> T.state == Run)
  }

  lemma StateStep(s: State, e: Event, t: int)
    requires Enabled(s, e) && t in s.threads && t in Step(s, e).threads && !(e.Fork? && e.t == t)
    ensures var C, x' := s.cpus[e.c], Step(s, e).threads[t].state;
            x' == if t == C.current && e.Place? then StateFor(C.phase.how)
                  else if t == C.current && e.Unlock? then Run else s.threads[t].state
  {
    if t != s.cpus[e.c].current {
      OtherRecord(s, e, t);
      hide Step, Enabled;
    } else if e.Place? || e.Switch? {
      hide Executes, MayEnter, Targetable;
    } else if Moving(s, e) {
      MovedRecord(s, e, t);
      hide Step, Enabled;
    } else {
      OthersOnlyCurrent(s, e);
      hide Step, Enabled;
    }
  }

  // A CPU comes to run a thread only by the unlocking at the end of a switch.
  lemma RunsStep(s: State, e: Event, c: int)
    requires Enabled(s, e) && 0 <= c < |s.cpus|
    ensures |Step(s, e).cpus| == |s.cpus|
    ensures Runs(Step(s, e).cpus[c].phase) && e != Unlock(c) ==>
              Runs(s.cpus[c].phase) && Step(s, e).cpus[c].current == s.cpus[c].current
  {
    if e.c != c {
      OtherCpus(s, e, c);
      hide Step, Enabled;
    } else if Aside(e) {
      AsidePhase(s, e);
      hide Step, Enabled;
    } else {
      hide Executes, MayEnter, Targetable, Shaped;
    }
  }

  lemma StateOnList(s: State, e: Event, t: int)
    requires Inv(s) && Enabled(s, e) && t in s.threads && t in Step(s, e).threads && !(e.Fork? && e.t == t)
    requires 0 <= s.threads[t].cpu < |s.cpus| && StateOk(s, t)
    ensures var T' := Step(s, e).threads[t];
            (T'.loc.Chan? ==> T'.state == Sleep) && (T'.loc.Zombies? ==> T'.state == Zombie)
  {
    assert e.Place? ==> s.cpus[e.c].phase.Locked?;
    hide Inv, Step, Runs, Enabled;
    TailOffLists(s, e);
    PlaceStep(s, e, t);
    StateStep(s, e, t);
  }

  lemma StateRunning(s: State, e: Event, t: int)
    requires Inv(s) && Enabled(s, e) && t in s.threads && t in Step(s, e).threads && !(e.Fork? && e.t == t)
    requires 0 <= s.threads[t].cpu < |s.cpus| && 0 <= Step(s, e).threads[t].cpu < |Step(s, e).cpus|
    requires Inv(Step(s, e)) && StateOk(s, t) && !Step(s, e).threads[t].saved
    requires Runs(Step(s, e).cpus[Step(s, e).threads[t].cpu].phase)
    ensures Step(s, e).threads[t].state == Run
  {
    assert 0 <= e.c < |s.cpus| && (e.Place? ==> s.cpus[e.c].phase.Locked?) && (e.Unlock? ==> s.cpus[e.c].phase.Tail?);
    hide Inv, Step, Enabled, Charged;
    var d := Step(s, e).threads[t].cpu;
    CurrentSeated(s, e.c);
    PlaceEnds(s, e);
    RunsStep(s, e, e.c);
    RunsStep(s, e, d);
    Seated(Step(s, e), t);
    CurrentSeated(s, d);
    hide Runs;
    StateStep(s, e, t);
  }

  lemma PlaceEnds(s: State, e: Event)
    requires Enabled(s, e)
    ensures e.Place? ==> |Step(s, e).cpus| == |s.cpus| && Step(s, e).cpus[e.c].phase.Picking?
    ensures e.Unlock? ==> |Step(s, e).cpus| == |s.cpus| && Step(s, e).cpus[e.c].current == s.cpus[e.c].current
  {
    hide Executes, MayEnter, Targetable, Shaped;
  }

  lemma StateKept(s: State, e: Event, t: int)
    requires Inv(s) && Enabled(s, e) && t in s.threads && t in Step(s, e).threads && !(e.Fork? && e.t == t)
    requires 0 <= s.threads[t].cpu < |s.cpus| && 0 <= Step(s, e).threads[t].cpu < |Step(s, e).cpus|
    requires Inv(Step(s, e)) && StateOk(s, t)
    ensures StateOk(Step(s, e), t)
  {
    hide Inv, Step, Enabled, Runs;
    StateOnList(s, e, t);
    if !Step(s, e).threads[t].saved && Runs(Step(s, e).cpus[Step(s, e).threads[t].cpu].phase) {
      StateRunning(s, e, t);
    }
  }

  lemma TailOffLists(s: State, e: Event)
    requires Inv(s) && Enabled(s, e)
    ensures e.Unlock? || e.Place? ==> s.threads[s.cpus[e.c].current].loc == Nowhere
  {
    hide Places, CpuOk, ThreadOk;
    assert CurrentOk(s.cpus, s.threads, e.c);
  }

  /**
   * A forked thread belongs to the CPU of the thread that forks it and is the last of those
   * that this thread is about to make runnable; everything else stays.
   */
  lemma ForkedOn(s: State, e: Event)
    requires Inv(s) && Enabled(s, e) && e.Fork?
    ensures var t, u, s' := e.t, s.cpus[e.c].current, Step(s, e);
            && s'.cpus == s.cpus && s'.threads == s.threads[t := s'.threads[t]]
            && s'.threads[t].cpu == s.threads[u].cpu == e.c && s'.threads[t].saved
            && s'.threads[t].loc == Wake(u) && s'.lists == s.lists[Wake(u) := s.lists[Wake(u)] + [t]]
  {
    CurrentSeated(s, e.c);
    hide Inv, Executes, MayEnter, Targetable;
  }

  lemma StateAt(ss: seq<State>, es: seq<Event>, i: nat, t: int)
    requires IsRun(ss, es) && i < |es| && t in ss[i + 1].threads
    requires t in ss[i].threads ==> 0 <= ss[i].threads[t].cpu < |ss[i].cpus| && StateOk(ss[i], t)
    ensures 0 <= ss[i + 1].threads[t].cpu < |ss[i + 1].cpus| && StateOk(ss[i + 1], t)
  {
    var s, e := ss[i], es[i];
    RunInv(ss, es, i);
    RunInv(ss, es, i + 1);
    assert Enabled(s, e) && ss[i + 1] == Step(s, e);
    Seated(ss[i + 1], t);
    assert e.Fork? ==> e.t !in s.threads;
    hide Inv, Step, Enabled, IsRun;
    if e.Fork? && e.t == t {
      ForkedOn(s, e);
    } else {
      KeysStep(s, e);
      assert t in Step(s, e).threads.Keys && t in s.threads.Keys;
      StateKept(s, e, t);
    }
  }

  /**
   * t_state tells where a thread is, in every reachable state.
   */
  lemma {:induction false} StateMatches(ss: seq<State>, es: seq<Event>, i: nat, t: int)
    requires IsRun(ss, es) && i < |ss| && t in ss[i].threads
    ensures 0 <= ss[i].threads[t].cpu < |ss[i].cpus| && StateOk(ss[i], t)
  {
    hide Enabled, Step;
    if i > 0 {
      if t in ss[i - 1].threads {
        StateMatches(ss, es, i - 1, t);
      }
      StateAt(ss, es, i - 1, t);
    }
  }
}

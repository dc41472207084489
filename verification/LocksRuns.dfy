/**
 * What the calls of `synch.c` on a lock and its condition variables have done when they
 * return, over every run of the step system of `Locks`.
 */
module LocksRuns {
  import Seqs
  import opened Locks

  // In lock_acquire, or in the part of cv_wait that takes the lock again.
  predicate Locking(p: Pc) {
    p.Want? || p.Test? || p.Bridge? || p.Let? || p.Fall? || p.Asleep?
  }

  // In lock_release.
  predicate Releasing(p: Pc, k: Cont) {
    (p.RelWant? || p.RelClear? || p.RelWake? || p.RelDone?) && p.k == k
  }

  // The thread is on its way to sleep on the lock's channel, or asleep.
  predicate Falling(p: Pc) {
    p.Bridge? || p.Let? || p.Fall? || p.Asleep?
  }

  // In cv_wait up to the wakeup.
  predicate Unwoken(p: Pc, cv: int) {
    p == CvWant(cv) || Releasing(p, Wait(cv)) || p == CvFall(cv) || p == CvAsleep(cv)
  }

  // Where a thread may be from the start of a call until it starts the next.
  predicate InCall(e: Event, p: Pc)
    requires !e.Go?
  {
    match e
    case Acquire(_) => Locking(p) || p.Hold?
    case Release(_) => Releasing(p, Return) || p.Out?
    case CvWait(_, cv) => Unwoken(p, cv) || Locking(p) || p.Hold?
    case Signal(_, cv) => p == SigWant(cv) || p.Hold?
    case Broadcast(_, cv) => p == AllWant(cv) || p.Hold?
  }

  // The step is lock_release's wakeup of t, who sleeps longest on the lock's channel.
  ghost predicate WakesLocker(s: State, e: Event, t: int) {
    e.Go? && e.t in s.pcs && s.pcs[e.t].RelWake? && s.list != [] && s.list[0] == t
  }

  // The step is a broadcast on the cv, or a signal that finds t sleeping longest on it.
  ghost predicate WakesWaiter(s: State, e: Event, t: int, cv: int) {
    && e.Go? && e.t in s.pcs && cv in s.cvlist
    && (s.pcs[e.t] == AllWant(cv) || (s.pcs[e.t] == SigWant(cv) && s.cvlist[cv] != [] && s.cvlist[cv][0] == t))
  }

  // Where one step takes another thread: nowhere, or off the channel it sleeps on.
  ghost predicate OthersFollow(s: State, e: Event, t: int, p': Pc)
    requires t in s.pcs
  {
    var p := s.pcs[t];
    || p' == p
    || (p.Asleep? && p' == Want(true) && WakesLocker(s, e, t))
    || (p.CvAsleep? && p' == Want(false) && WakesWaiter(s, e, t, p.cv))
  }

  // Where it takes the thread itself.
  predicate OwnFollows(e: Event, p: Pc, p': Pc) {
    match e
    case Acquire(_) => p.Out? && p' == Want(false)
    case Release(_) => p.Hold? && p' == RelWant(Return)
    case CvWait(_, cv) => p.Hold? && p' == CvWant(cv)
    case Signal(_, cv) => p.Hold? && p' == SigWant(cv)
    case Broadcast(_, cv) => p.Hold? && p' == AllWant(cv)
    case Go(_) =>
      match p
      case Want(w) => p' == Test(w)
      case Test(_) => p'.Hold? || p'.Bridge?
      case Bridge => p'.Let?
      case Let => p'.Fall?
      case Fall => p'.Asleep?
      case RelWant(k) => p' == RelClear(k)
      case RelClear(k) => p' == RelWake(k)
      case RelWake(k) => p' == RelDone(k)
      case RelDone(k) => if k.Return? then p'.Out? else p' == CvFall(k.cv)
      case CvWant(cv) => p' == RelWant(Wait(cv))
      case CvFall(cv) => p' == CvAsleep(cv)
      case SigWant(_) => p'.Hold?
      case AllWant(_) => p'.Hold?
      case _ => false
  }

  lemma BeginStep(s: State, e: Event)
    requires Enabled(s, e) && !e.Go?
    ensures var pcs' := Step(s, e).pcs;
            e.t in pcs' && OwnFollows(e, s.pcs[e.t], pcs'[e.t]) && pcs' == s.pcs[e.t := pcs'[e.t]]
  {
    hide Shaped;
  }

  lemma GoPc(s: State, t: int)
    requires Enabled(s, Go(t)) && !Waking(s.pcs[t])
    ensures t in Went(s, t).pcs && Went(s, t).pcs == s.pcs[t := Went(s, t).pcs[t]]
  {
    hide Shaped;
  }

  lemma GoStep(s: State, t: int)
    requires Enabled(s, Go(t)) && !Waking(s.pcs[t])
    ensures var pcs' := Went(s, t).pcs;
            t in pcs' && OwnFollows(Go(t), s.pcs[t], pcs'[t]) && pcs' == s.pcs[t := pcs'[t]]
  {
    GoPc(s, t);
    hide Shaped, Enabled;
    assert t in Went(s, t).pcs;
  }

  lemma OwnStep(s: State, e: Event)
    requires Inv(s) && Enabled(s, e)
    ensures e.t in Step(s, e).pcs && OwnFollows(e, s.pcs[e.t], Step(s, e).pcs[e.t])
  {
    if !e.Go? {
      BeginStep(s, e);
    } else if !Waking(s.pcs[e.t]) {
      GoStep(s, e.t);
    } else {
      WakeFields(s, e.t);
    }
    hide Inv, Enabled, Went;
  }

  lemma OthersStep(s: State, e: Event, t: int)
    requires Inv(s) && Enabled(s, e) && t in s.pcs && t != e.t
    ensures t in Step(s, e).pcs && OthersFollow(s, e, t, Step(s, e).pcs[t])
  {
    if !e.Go? {
      BeginStep(s, e);
      hide Inv, Enabled;
    } else if !Waking(s.pcs[e.t]) {
      GoStep(s, e.t);
      hide Inv, Enabled, Went;
    } else {
      OthersWake(s, e.t, t);
      hide Inv, Enabled, Went;
    }
  }

  lemma OthersWake(s: State, u: int, t: int)
    requires Inv(s) && Enabled(s, Go(u)) && Waking(s.pcs[u]) && t in s.pcs && t != u
    ensures t in Went(s, u).pcs && OthersFollow(s, Go(u), t, Went(s, u).pcs[t])
  {
    Heads(s, Go(u));
    AllAsleep(s, Go(u));
    InvAt(s, u);
    hide Inv, Shaped, At;
  }

  // The threads that a broadcast wakes sleep on its cv.
  lemma AllAsleep(s: State, e: Event)
    requires Inv(s) && Enabled(s, e)
    ensures e.Go? && s.pcs[e.t].AllWant? ==>
              forall u :: u in s.cvlist[s.pcs[e.t].cv] ==> u in s.pcs && s.pcs[u] == CvAsleep(s.pcs[e.t].cv)
  {
    hide Spins, CvSpins, Owns, Bridged, Covered, Queued;
  }

  // ---------------------------------------------------------------- over runs

  lemma Steps(ss: seq<State>, es: seq<Event>, i: nat, t: int)
    requires IsRun(ss, es) && i < |es| && t in ss[i].pcs
    ensures es[i].t in ss[i].pcs && t in ss[i + 1].pcs
    ensures if es[i].t == t then OwnFollows(es[i], ss[i].pcs[t], ss[i + 1].pcs[t])
            else OthersFollow(ss[i], es[i], t, ss[i + 1].pcs[t])
  {
    RunInv(ss, es, i);
    assert Enabled(ss[i], es[i]) && ss[i + 1] == Step(ss[i], es[i]);
    hide Inv, Step;
    if es[i].t == t {
      OwnStep(ss[i], es[i]);
    } else {
      OthersStep(ss[i], es[i], t);
    }
  }

  /**
   * A call does what it is for and nothing else.  Until it starts the next call, a thread is
   * in this one or past it: past lock_acquire and past each cv operation it holds the lock,
   * and past lock_release it does not; no call gives up halfway.
   */
  lemma {:induction false} CallEnds(ss: seq<State>, es: seq<Event>, i: nat, j: nat, t: int)
    requires IsRun(ss, es) && i < j < |ss| && !es[i].Go? && es[i].t == t
    requires forall m :: i < m < j ==> es[m].t == t ==> es[m].Go?
    ensures t in ss[j].pcs && InCall(es[i], ss[j].pcs[t])
    ensures ss[j].pcs[t].Hold? ==> DoIHold(ss[j], t)
    ensures ss[j].pcs[t].Out? ==> !DoIHold(ss[j], t)
  {
    hide Enabled, Step, Inv;
    if i + 1 == j {
      StartsIn(ss, es, i);
    } else {
      CallEnds(ss, es, i, j - 1, t);
    }
    Steps(ss, es, j - 1, t);
    hide OthersFollow;
    RunSafe(ss, es, j, t, t);
  }

  lemma StartsIn(ss: seq<State>, es: seq<Event>, i: nat)
    requires IsRun(ss, es) && i < |es|
    ensures es[i].t in ss[i].pcs
  {
    assert Enabled(ss[i], es[i]);
  }

  /**
   * lock_acquire does not wait busily: after it has found the lock held a thread tests again,
   * or gets the lock, only if it slept meanwhile and a release took it off the channel.
   */
  lemma {:induction false} LockerWoken(ss: seq<State>, es: seq<Event>, i: nat, j: nat, t: int) returns (m: nat)
    requires IsRun(ss, es) && i < j < |ss| && t in ss[i].pcs && Falling(ss[i].pcs[t])
    requires t in ss[j].pcs && !Falling(ss[j].pcs[t])
    ensures i <= m < j && t in ss[m].pcs && ss[m].pcs[t].Asleep? && WakesLocker(ss[m], es[m], t)
    decreases j - i
  {
    hide Enabled, Step, Inv, WakesLocker, WakesWaiter;
    Steps(ss, es, i, t);
    if Falling(ss[i + 1].pcs[t]) {
      m := LockerWoken(ss, es, i + 1, j, t);
    } else {
      m := i;
    }
  }

  /**
   * cv_wait returns only after the thread has slept on that cv and a signal or broadcast on it
   * has taken it off.
   */
  lemma {:induction false} WaiterWoken(ss: seq<State>, es: seq<Event>, i: nat, j: nat, t: int, cv: int) returns (m: nat)
    requires IsRun(ss, es) && i < j < |ss| && t in ss[i].pcs && Unwoken(ss[i].pcs[t], cv)
    requires t in ss[j].pcs && !Unwoken(ss[j].pcs[t], cv)
    ensures i <= m < j && t in ss[m].pcs && ss[m].pcs[t] == CvAsleep(cv) && WakesWaiter(ss[m], es[m], t, cv)
    decreases j - i
  {
    hide Enabled, Step, Inv, WakesLocker, WakesWaiter;
    Steps(ss, es, i, t);
    if Unwoken(ss[i + 1].pcs[t], cv) {
      m := WaiterWoken(ss, es, i + 1, j, t, cv);
    } else {
      m := i;
    }
  }

  /**
   * So a cv_wait that has returned, with the lock held again, was woken in between.
   */
  lemma WaitReturns(ss: seq<State>, es: seq<Event>, i: nat, j: nat, t: int, cv: int) returns (m: nat)
    requires IsRun(ss, es) && i < j < |ss| && es[i] == CvWait(t, cv)
    requires (forall m :: i < m < j ==> es[m].t == t ==> es[m].Go?) && t in ss[j].pcs && ss[j].pcs[t].Hold?
    ensures DoIHold(ss[j], t)
    ensures i < m < j && t in ss[m].pcs && ss[m].pcs[t] == CvAsleep(cv) && WakesWaiter(ss[m], es[m], t, cv)
    ensures !DoIHold(ss[m], t)
  {
    CallEnds(ss, es, i, j, t);
    StartsIn(ss, es, i);
    Steps(ss, es, i, t);
    hide Enabled, Step, Inv, WakesLocker, WakesWaiter;
    m := WaiterWoken(ss, es, i + 1, j, t, cv);
    RunSafe(ss, es, m, t, t);
  }

  // ---------------------------------------------------------------- the channels in order

  // A list only gains the thread at the end and loses the first, or everybody.
  predicate QueueStep(l: seq<int>, l': seq<int>, adds: bool, t: int, all: bool) {
    l' == l || (adds && l' == l + [t]) || (l != [] && l' == l[1..]) || (all && l' == [])
  }

  /**
   * Threads sleep in order: a thread goes to the end of a channel when it falls asleep there,
   * a wakeup takes the first, and only a broadcast on the cv takes all.  So the first of a
   * channel is the one that has slept longest.
   */
  lemma ChannelsAreQueues(s: State, e: Event, cv: int)
    requires Inv(s) && Enabled(s, e)
    ensures QueueStep(s.list, Step(s, e).list, e.Go? && s.pcs[e.t].Fall?, e.t, false)
    ensures cv in s.cvlist ==>
              && cv in Step(s, e).cvlist
              && QueueStep(s.cvlist[cv], Step(s, e).cvlist[cv], e == Go(e.t) && s.pcs[e.t] == CvFall(cv), e.t,
                           e.Go? && s.pcs[e.t] == AllWant(cv))
  {
    InvAt(s, e.t);
    hide Inv, Shaped, At;
  }

  // One step keeps two elements that stay in order.
  lemma OrderStep(l: seq<int>, l': seq<int>, adds: bool, t: int, a: nat, b: nat) returns (a': nat, b': nat)
    requires QueueStep(l, l', adds, t, false) && Seqs.NoDup(l) && a < b < |l| && l[a] in l' && l[b] in l'
    ensures a' < b' < |l'| && l'[a'] == l[a] && l'[b'] == l[b]
  {
    a', b' := a, b;
    if l != [] && l' == l[1..] && l' != l {
      assert a != 0;
      a', b' := a - 1, b - 1;
    }
  }

  lemma ListStep(ss: seq<State>, es: seq<Event>, i: nat)
    requires IsRun(ss, es) && i < |es|
    ensures es[i].t in ss[i].pcs && Seqs.NoDup(ss[i].list)
    ensures QueueStep(ss[i].list, ss[i + 1].list, es[i].Go? && ss[i].pcs[es[i].t].Fall?, es[i].t, false)
  {
    RunInv(ss, es, i);
    assert Enabled(ss[i], es[i]) && ss[i + 1] == Step(ss[i], es[i]);
    ChannelsAreQueues(ss[i], es[i], 0);
    hide Step, QueueStep;
  }

  /**
   * Who sleeps ahead of another on the lock's channel is woken first: as long as both sleep
   * there, they keep their order.
   */
  lemma {:induction false} SleepInOrder(ss: seq<State>, es: seq<Event>, i: nat, j: nat, a: nat, b: nat)
      returns (a': nat, b': nat)
    requires IsRun(ss, es) && i <= j < |ss| && a < b < |ss[i].list|
    requires forall m :: i <= m <= j ==> ss[i].list[a] in ss[m].list && ss[i].list[b] in ss[m].list
    ensures a' < b' < |ss[j].list| && ss[j].list[a'] == ss[i].list[a] && ss[j].list[b'] == ss[i].list[b]
  {
    hide Enabled, Step, QueueStep, Seqs.NoDup;
    if i == j {
      a', b' := a, b;
    } else {
      a', b' := SleepInOrder(ss, es, i, j - 1, a, b);
      ListStep(ss, es, j - 1);
      var e := es[j - 1];
      a', b' := OrderStep(ss[j - 1].list, ss[j].list, e.Go? && ss[j - 1].pcs[e.t].Fall?, e.t, a', b');
    }
  }
}

/**
 * The lock and the condition variables of `synch.c`, as a step system over one lock, its
 * wait channel and any number of condition variables.  A step ends where a spinlock is
 * taken or let go.
 */
module Locks {
  import Seqs

  const NOBODY: int := -1

  // What follows a lock_release: the caller, or the rest of cv_wait.
  datatype Cont = Return | Wait(cv: int)

  /**
   * Where a thread is.  lock_acquire: Want the spinlock, Test `held` under it, Bridge to the
   * channel lock, Let the spinlock go, Fall asleep, be Asleep; `woken` marks a thread taken
   * off the channel that has not tested again.  Hold: the lock is held.  lock_release:
   * RelWant the spinlock, RelClear `held`, RelWake one sleeper, RelDone.  cv_wait: CvWant
   * the channel lock of the cv, release the lock, CvFall asleep, be CvAsleep.  SigWant and
   * AllWant are cv_signal and cv_broadcast.
   */
  datatype Pc =
    | Out
    | Want(woken: bool) | Test(woken: bool) | Bridge | Let | Fall | Asleep
    | Hold
    | RelWant(k: Cont) | RelClear(k: Cont) | RelWake(k: Cont) | RelDone(k: Cont)
    | CvWant(cv: int) | CvFall(cv: int) | CvAsleep(cv: int)
    | SigWant(cv: int) | AllWant(cv: int)

  datatype State = State(pcs: map<int, Pc>, held: bool, owner: int, spin: int, chan: int, list: seq<int>,
                         cvchan: map<int, int>, cvlist: map<int, seq<int>>)

  datatype Event =
    | Acquire(t: int) | Release(t: int) | CvWait(t: int, cv: int) | Signal(t: int, cv: int) | Broadcast(t: int, cv: int)
    | Go(t: int)

  // Past lock_acquire and before lock_release has cleared the owner.
  predicate Inside(p: Pc) {
    p.Hold? || p.RelWant? || p.RelClear? || p.CvWant? || p.SigWant? || p.AllWant?
  }

  predicate HasSpin(p: Pc) {
    p.Test? || p.Bridge? || p.Let? || p.RelClear? || p.RelWake? || p.RelDone?
  }

  predicate HasChan(p: Pc) {
    p.Let? || p.Fall?
  }

  // The cv whose channel lock a thread holds.
  function CvHeld(p: Pc): Cont {
    match p
    case RelWant(k) => k
    case RelClear(k) => k
    case RelWake(k) => k
    case RelDone(k) => k
    case CvFall(cv) => Wait(cv)
    case _ => Return
  }

  predicate IsWoken(p: Pc) {
    (p.Want? || p.Test?) && p.woken
  }

  // In cv_wait, with the lock released and no wakeup received.
  predicate Waiting(p: Pc, cv: int) {
    ((p.RelWake? || p.RelDone?) && p.k == Wait(cv)) || p == CvFall(cv) || p == CvAsleep(cv)
  }

  // lock_do_i_hold.
  predicate DoIHold(s: State, t: int) {
    s.owner == t
  }

  // ---------------------------------------------------------------- the steps

  ghost predicate Shaped(s: State) {
    && (forall t :: t in s.list ==> t in s.pcs)
    && (forall cv :: cv in s.cvchan <==> cv in s.cvlist)
    && (forall cv, t :: cv in s.cvlist && t in s.cvlist[cv] ==> t in s.pcs)
  }

  ghost predicate Enabled(s: State, e: Event) {
    && Shaped(s) && e.t in s.pcs
    && match e
       case Acquire(t) => s.pcs[t].Out?
       case Release(t) => s.pcs[t].Hold?
       case CvWait(t, cv) => s.pcs[t].Hold? && cv in s.cvchan
       case Signal(t, cv) => s.pcs[t].Hold? && cv in s.cvchan
       case Broadcast(t, cv) => s.pcs[t].Hold? && cv in s.cvchan
       case Go(t) =>
         match s.pcs[t]
         case Out => false
         case Hold => false
         case Asleep => false
         case CvAsleep(_) => false
         case Want(_) => s.spin == NOBODY
         case RelWant(_) => s.spin == NOBODY
         case Bridge => s.chan == NOBODY
         case RelWake(_) => s.chan == NOBODY
         case CvWant(cv) => cv in s.cvchan && s.cvchan[cv] == NOBODY
         case SigWant(cv) => cv in s.cvchan && s.cvchan[cv] == NOBODY
         case AllWant(cv) => cv in s.cvchan && s.cvchan[cv] == NOBODY
         case CvFall(cv) => cv in s.cvchan
         case _ => true
  }

  function Move(s: State, t: int, p: Pc): State {
    s.(pcs := s.pcs[t := p])
  }

  // wchan_wakeone on the lock's channel.
  ghost function Wakeone(s: State, t: int, p: Pc): State {
    if s.list == [] then Move(s, t, p)
    else Move(Move(s, s.list[0], Want(true)), t, p).(list := s.list[1..])
  }

  // wchan_wakeone on the channel of a cv.
  ghost function CvWakeone(s: State, t: int, cv: int): State
    requires cv in s.cvlist
  {
    var l := s.cvlist[cv];
    if l == [] then Move(s, t, Hold)
    else Move(Move(s, l[0], Want(false)), t, Hold).(cvlist := s.cvlist[cv := l[1..]])
  }

  // wchan_wakeall on the channel of a cv.
  ghost function CvWakeall(s: State, t: int, cv: int): State
    requires cv in s.cvlist
  {
    var l := s.cvlist[cv];
    s.(pcs := (map u | u in s.pcs :: if u == t then Hold else if u in l then Want(false) else s.pcs[u]),
       cvlist := s.cvlist[cv := []])
  }

  ghost function Step(s: State, e: Event): State
    requires Enabled(s, e)
  {
    match e
    case Acquire(t) => Move(s, t, Want(false))
    case Release(t) => Move(s, t, RelWant(Return))
    case CvWait(t, cv) => Move(s, t, CvWant(cv))
    case Signal(t, cv) => Move(s, t, SigWant(cv))
    case Broadcast(t, cv) => Move(s, t, AllWant(cv))
    case Go(t) => Went(s, t)
  }

  ghost function Went(s: State, t: int): State
    requires Enabled(s, Go(t))
  {
    match s.pcs[t]
    case Want(w) => Move(s, t, Test(w)).(spin := t)
    case Test(_) =>
      if s.held then Move(s, t, Bridge)
      else Move(s, t, Hold).(held := true, owner := t, spin := NOBODY)
    case Bridge => Move(s, t, Let).(chan := t)
    case Let => Move(s, t, Fall).(spin := NOBODY)
    case Fall => Move(s, t, Asleep).(chan := NOBODY, list := s.list + [t])
    case RelWant(k) => Move(s, t, RelClear(k)).(spin := t)
    case RelClear(k) => Move(s, t, RelWake(k)).(held := false, owner := NOBODY)
    case RelWake(k) => Wakeone(s, t, RelDone(k))
    case RelDone(k) => Move(s, t, if k.Return? then Out else CvFall(k.cv)).(spin := NOBODY)
    case CvWant(cv) => Move(s, t, RelWant(Wait(cv))).(cvchan := s.cvchan[cv := t])
    case CvFall(cv) => Move(s, t, CvAsleep(cv)).(cvchan := s.cvchan[cv := NOBODY],
      cvlist := s.cvlist[cv := s.cvlist[cv] + [t]])
    case SigWant(cv) => CvWakeone(s, t, cv)
    case AllWant(cv) => CvWakeall(s, t, cv)
    case _ => s
  }

  // ---------------------------------------------------------------- the invariant

  ghost predicate Spins(pcs: map<int, Pc>, spin: int, chan: int) {
    && NOBODY !in pcs && (spin == NOBODY || spin in pcs) && (chan == NOBODY || chan in pcs)
    && (forall t :: t in pcs ==> (HasSpin(pcs[t]) <==> spin == t) && (HasChan(pcs[t]) <==> chan == t))
  }

  ghost predicate CvSpins(pcs: map<int, Pc>, cvchan: map<int, int>) {
    && (forall cv :: cv in cvchan && cvchan[cv] != NOBODY ==> cvchan[cv] in pcs && CvHeld(pcs[cvchan[cv]]) == Wait(cv))
    && (forall t :: t in pcs && CvHeld(pcs[t]).Wait? ==> CvHeld(pcs[t]).cv in cvchan && cvchan[CvHeld(pcs[t]).cv] == t)
  }

  ghost predicate Owns(pcs: map<int, Pc>, held: bool, owner: int) {
    && (held <==> owner != NOBODY) && (owner == NOBODY || owner in pcs)
    && (forall t :: t in pcs ==> (Inside(pcs[t]) <==> owner == t))
  }

  ghost predicate Queued(pcs: map<int, Pc>, list: seq<int>) {
    && Seqs.NoDup(list) && (forall t :: t in list ==> t in pcs)
    && (forall t :: t in pcs ==> (pcs[t].Asleep? <==> t in list))
  }

  ghost predicate CvQueued(pcs: map<int, Pc>, cvlist: map<int, seq<int>>) {
    && (forall cv :: cv in cvlist ==> Seqs.NoDup(cvlist[cv]))
    && (forall cv, t :: cv in cvlist && t in cvlist[cv] ==> t in pcs && pcs[t] == CvAsleep(cv))
    && (forall t :: t in pcs && pcs[t].CvAsleep? ==> pcs[t].cv in cvlist && t in cvlist[pcs[t].cv])
  }

  ghost predicate Bridged(pcs: map<int, Pc>, held: bool) {
    forall t :: t in pcs && (pcs[t].Bridge? || pcs[t].Let?) ==> held
  }

  ghost predicate Sleepers(pcs: map<int, Pc>) {
    exists t :: t in pcs && (pcs[t].Asleep? || pcs[t].Fall?)
  }

  // A thread that was woken and has not tested again, or a release that has yet to wake.
  ghost predicate OnTheWay(pcs: map<int, Pc>) {
    exists t :: t in pcs && (IsWoken(pcs[t]) || pcs[t].RelWake?)
  }

  ghost predicate Covered(pcs: map<int, Pc>, held: bool) {
    !held && Sleepers(pcs) ==> OnTheWay(pcs)
  }

  // A thread about to use a cv names an existing one.
  ghost predicate Named(pcs: map<int, Pc>, cvchan: map<int, int>) {
    forall t :: t in pcs ==>
      (pcs[t].CvWant? || pcs[t].SigWant? || pcs[t].AllWant? || pcs[t].CvFall? || pcs[t].CvAsleep? ==>
        pcs[t].cv in cvchan)
  }

  ghost predicate Inv(s: State) {
    && (forall cv :: cv in s.cvchan <==> cv in s.cvlist)
    && Spins(s.pcs, s.spin, s.chan) && CvSpins(s.pcs, s.cvchan) && Owns(s.pcs, s.held, s.owner)
    && Queued(s.pcs, s.list) && CvQueued(s.pcs, s.cvlist)
    && Bridged(s.pcs, s.held) && Covered(s.pcs, s.held) && Named(s.pcs, s.cvchan)
  }

  // ---------------------------------------------------------------- every step keeps it

  // The thread that a step wakes, if any, was on a channel.
  lemma Heads(s: State, e: Event)
    requires Inv(s) && Enabled(s, e)
    ensures s.list != [] ==> s.list[0] in s.list && s.list[0] in s.pcs && s.pcs[s.list[0]].Asleep? && e.t != s.list[0]
    ensures e.Go? && s.pcs[e.t].SigWant? && s.cvlist[s.pcs[e.t].cv] != [] ==>
              var u := s.cvlist[s.pcs[e.t].cv][0];
                && u in s.cvlist[s.pcs[e.t].cv] && u in s.pcs
                && s.pcs[u] == CvAsleep(s.pcs[e.t].cv) && e.t != u
  {
    hide Spins, CvSpins, Owns, Bridged, Covered;
    if s.list != [] {
      var u := s.list[0];
      assert u in s.list;
    }
    if e.Go? && s.pcs[e.t].SigWant? && s.cvlist[s.pcs[e.t].cv] != [] {
      var u := s.cvlist[s.pcs[e.t].cv][0];
      assert u in s.cvlist[s.pcs[e.t].cv];
    }
  }

  predicate Sleeping(p: Pc) {
    p.Asleep? || p.CvAsleep?
  }

  // Only t moves, except that sleepers may be woken.
  ghost predicate Moves(pcs: map<int, Pc>, t: int, pcs': map<int, Pc>) {
    && t in pcs && pcs'.Keys == pcs.Keys
    && forall u :: u in pcs && u != t ==> pcs'[u] == pcs[u] || (Sleeping(pcs[u]) && pcs'[u].Want?)
  }

  // A spinlock or the ownership changes hands only between t and nobody.
  predicate Hands(t: int, a: int, b: int) {
    a == b || ((a == t || a == NOBODY) && (b == t || b == NOBODY))
  }

  ghost predicate Shapely(s: State, t: int, s': State) {
    && Moves(s.pcs, t, s'.pcs) && Hands(t, s.spin, s'.spin) && Hands(t, s.chan, s'.chan) && Hands(t, s.owner, s'.owner)
    && s'.cvchan.Keys == s.cvchan.Keys && (forall cv :: cv in s.cvchan ==> Hands(t, s.cvchan[cv], s'.cvchan[cv]))
    && (HasSpin(s'.pcs[t]) <==> s'.spin == t) && (HasChan(s'.pcs[t]) <==> s'.chan == t)
    && (Inside(s'.pcs[t]) <==> s'.owner == t) && (s'.held <==> s'.owner != NOBODY)
    && (CvHeld(s'.pcs[t]).Wait? ==> CvHeld(s'.pcs[t]).cv in s'.cvchan && s'.cvchan[CvHeld(s'.pcs[t]).cv] == t)
    && (forall cv :: cv in s.cvchan && s'.cvchan[cv] == t ==> CvHeld(s'.pcs[t]) == Wait(cv))
  }

  // The invariant as far as one thread is concerned.
  ghost predicate At(s: State, t: int) {
    && t in s.pcs && t != NOBODY && (HasSpin(s.pcs[t]) <==> s.spin == t) && (HasChan(s.pcs[t]) <==> s.chan == t)
    && (Inside(s.pcs[t]) <==> s.owner == t) && (s.held <==> s.owner != NOBODY)
    && (CvHeld(s.pcs[t]).Wait? ==> CvHeld(s.pcs[t]).cv in s.cvchan && s.cvchan[CvHeld(s.pcs[t]).cv] == t)
    && (forall cv :: cv in s.cvchan && s.cvchan[cv] == t ==> CvHeld(s.pcs[t]) == Wait(cv))
    && (s.pcs[t].CvWant? || s.pcs[t].SigWant? || s.pcs[t].AllWant? || s.pcs[t].CvFall? ==> s.pcs[t].cv in s.cvchan)
  }

  lemma InvAt(s: State, t: int)
    requires Inv(s) && t in s.pcs
    ensures At(s, t)
  {
    hide Queued, CvQueued, Covered, Bridged;
  }

  lemma ShapelyBegin(s: State, e: Event)
    requires At(s, e.t) && Enabled(s, e) && !e.Go?
    ensures Shapely(s, e.t, Step(s, e))
  {
    hide Shaped;
  }

  predicate Acquiring(p: Pc) {
    p.Want? || p.Test? || p.Bridge? || p.Let? || p.Fall?
  }

  predicate Waking(p: Pc) {
    p.RelWake? || p.SigWant? || p.AllWant?
  }

  lemma ShapelyAcquire(s: State, t: int)
    requires At(s, t) && Enabled(s, Go(t)) && Acquiring(s.pcs[t])
    ensures Shapely(s, t, Went(s, t))
  {
    hide Shaped;
  }

  lemma ShapelyRelease(s: State, t: int)
    requires At(s, t) && Enabled(s, Go(t)) && (s.pcs[t].RelWant? || s.pcs[t].RelClear? || s.pcs[t].RelDone?)
    ensures Shapely(s, t, Went(s, t))
  {
    hide Shaped;
  }

  lemma ShapelyCv(s: State, t: int)
    requires At(s, t) && Enabled(s, Go(t)) && (s.pcs[t].CvWant? || s.pcs[t].CvFall?)
    ensures Shapely(s, t, Went(s, t))
  {
    hide Shaped;
  }

  lemma WakeMoves(s: State, t: int)
    requires Inv(s) && Enabled(s, Go(t)) && Waking(s.pcs[t])
    ensures Moves(s.pcs, t, Went(s, t).pcs)
  {
    Heads(s, Go(t));
    hide Covered, Bridged, Spins, CvSpins, Owns, Queued, Named;
  }

  // A wakeup changes hands of nothing.
  lemma WakeFields(s: State, t: int)
    requires Inv(s) && Enabled(s, Go(t)) && Waking(s.pcs[t])
    ensures var s' := Went(s, t);
            && s'.spin == s.spin && s'.chan == s.chan && s'.owner == s.owner && s'.held == s.held
              && s'.cvchan == s.cvchan
            && t in s'.pcs && s'.pcs[t] == if s.pcs[t].RelWake? then RelDone(s.pcs[t].k) else Hold
  {
    Heads(s, Go(t));
    hide Inv, Shaped;
  }

  lemma ShapelyWake(s: State, t: int)
    requires Inv(s) && Enabled(s, Go(t)) && Waking(s.pcs[t])
    ensures Shapely(s, t, Went(s, t))
  {
    WakeMoves(s, t);
    InvAt(s, t);
    WakeFields(s, t);
    hide Shaped, Inv, Moves, Went;
  }

  lemma LocksKept(s: State, t: int, s': State)
    requires Inv(s) && Shapely(s, t, s')
    ensures Spins(s'.pcs, s'.spin, s'.chan) && Owns(s'.pcs, s'.held, s'.owner)
  {
    hide Queued, CvQueued, Covered, Bridged, CvSpins, Named;
  }

  lemma CvLocksKept(s: State, t: int, s': State)
    requires Inv(s) && Shapely(s, t, s')
    ensures CvSpins(s'.pcs, s'.cvchan)
  {
    hide Queued, CvQueued, Covered, Bridged, Owns, Named;
  }

  predicate OnCv(p: Pc) {
    p.CvWant? || p.SigWant? || p.AllWant? || p.CvFall? || p.CvAsleep?
  }

  // What a step that wakes nobody does to the lists.
  ghost predicate Plain(s: State, t: int, s': State) {
    && At(s, t) && t in s'.pcs && s'.pcs == s.pcs[t := s'.pcs[t]] && !Sleeping(s.pcs[t])
    && s'.list == (if s'.pcs[t].Asleep? then s.list + [t] else s.list)
    && (OnCv(s'.pcs[t]) ==> s'.pcs[t].cv in s.cvchan && s'.pcs[t].cv in s.cvlist) && s'.cvchan.Keys == s.cvchan.Keys
    && s'.cvlist == (if s'.pcs[t].CvAsleep? then s.cvlist[s'.pcs[t].cv := s.cvlist[s'.pcs[t].cv] + [t]] else s.cvlist)
    && (s'.held != s.held ==> s.spin == t) && (s'.pcs[t].Bridge? || s'.pcs[t].Let? ==> s'.held)
  }

  lemma PlainBegin(s: State, e: Event)
    requires At(s, e.t) && Enabled(s, e) && !e.Go?
    requires forall cv :: cv in s.cvchan <==> cv in s.cvlist
    ensures Plain(s, e.t, Step(s, e))
  {
    hide Shaped;
  }

  lemma PlainAcquire(s: State, t: int)
    requires At(s, t) && Enabled(s, Go(t)) && Acquiring(s.pcs[t]) && Bridged(s.pcs, s.held)
    ensures Plain(s, t, Went(s, t))
  {
    hide Shaped;
  }

  lemma PlainRelease(s: State, t: int)
    requires At(s, t) && Enabled(s, Go(t)) && !Acquiring(s.pcs[t]) && !Waking(s.pcs[t])
    requires forall cv :: cv in s.cvchan <==> cv in s.cvlist
    ensures Plain(s, t, Went(s, t))
  {
    hide Shaped;
  }

  lemma StepPlain(s: State, e: Event)
    requires At(s, e.t) && Enabled(s, e) && !(e.Go? && Waking(s.pcs[e.t])) && Bridged(s.pcs, s.held)
    requires forall cv :: cv in s.cvchan <==> cv in s.cvlist
    ensures Plain(s, e.t, Step(s, e))
  {
    hide Shaped, At, Plain, Bridged;
    if !e.Go? {
      PlainBegin(s, e);
    } else if Acquiring(s.pcs[e.t]) {
      PlainAcquire(s, e.t);
    } else {
      PlainRelease(s, e.t);
    }
  }

  lemma PlainLists(s: State, t: int, s': State)
    requires Inv(s) && Plain(s, t, s')
    ensures Queued(s'.pcs, s'.list) && CvQueued(s'.pcs, s'.cvlist)
  {
    hide Covered, Bridged, Spins, CvSpins, Owns, Named, At;
  }

  // A thread that is not asleep on the lock changes places.
  lemma ListFrame(pcs: map<int, Pc>, list: seq<int>, t: int, p: Pc)
    requires Queued(pcs, list) && t in pcs && !pcs[t].Asleep? && !p.Asleep?
    ensures Queued(pcs[t := p], list)
  {
  }

  lemma HeadWoken(pcs: map<int, Pc>, list: seq<int>)
    requires Queued(pcs, list) && list != []
    ensures Queued(pcs[list[0] := Want(true)], list[1..])
  {
    Seqs.HeadSplit(list);
  }

  lemma CvWokenLists(s: State, t: int, cv: int)
    requires Queued(s.pcs, s.list) && CvQueued(s.pcs, s.cvlist) && cv in s.cvlist && t in s.pcs && !s.pcs[t].Asleep?
    ensures Queued(CvWakeall(s, t, cv).pcs, s.list)
  {
    var pcs' := CvWakeall(s, t, cv).pcs;
    forall x | x in pcs' ensures pcs'[x].Asleep? <==> x in s.list {
      assert x in s.cvlist[cv] <==> s.pcs[x] == CvAsleep(cv);
    }
  }

  lemma WakeLists(s: State, t: int)
    requires Inv(s) && Enabled(s, Go(t)) && Waking(s.pcs[t])
    ensures Queued(Went(s, t).pcs, Went(s, t).list)
  {
    Heads(s, Go(t));
    InvAt(s, t);
    hide Shaped, Covered, Bridged, Spins, CvSpins, Owns, Queued, Named, CvQueued;
    if s.pcs[t].RelWake? {
      if s.list != [] {
        HeadWoken(s.pcs, s.list);
        ListFrame(s.pcs[s.list[0] := Want(true)], s.list[1..], t, RelDone(s.pcs[t].k));
      } else {
        ListFrame(s.pcs, s.list, t, RelDone(s.pcs[t].k));
      }
    } else if s.pcs[t].SigWant? {
      var l := s.cvlist[s.pcs[t].cv];
      if l != [] {
        ListFrame(s.pcs, s.list, l[0], Want(false));
        ListFrame(s.pcs[l[0] := Want(false)], s.list, t, Hold);
      } else {
        ListFrame(s.pcs, s.list, t, Hold);
      }
    } else {
      CvWokenLists(s, t, s.pcs[t].cv);
    }
  }

  // Threads that are not asleep on a cv change places.
  lemma CvListsFrame(pcs: map<int, Pc>, cvlist: map<int, seq<int>>, t: int, p: Pc)
    requires CvQueued(pcs, cvlist) && t in pcs && !pcs[t].CvAsleep? && !p.CvAsleep?
    ensures CvQueued(pcs[t := p], cvlist)
  {
  }

  lemma CvHeadWoken(pcs: map<int, Pc>, cvlist: map<int, seq<int>>, cv: int)
    requires CvQueued(pcs, cvlist) && cv in cvlist && cvlist[cv] != []
    ensures CvQueued(pcs[cvlist[cv][0] := Want(false)], cvlist[cv := cvlist[cv][1..]])
  {
    var l := cvlist[cv];
    Seqs.HeadSplit(l);
    var u, cvlist', pcs' := l[0], cvlist[cv := l[1..]], pcs[l[0] := Want(false)];
    forall k, x | k in cvlist' && x in cvlist'[k] ensures x in pcs' && pcs'[x] == CvAsleep(k) {
      assert u in cvlist[cv] && pcs[u] == CvAsleep(cv);
      assert x in cvlist[k] && pcs[x] == CvAsleep(k);
    }
  }

  lemma CvAllWoken(s: State, t: int, cv: int)
    requires CvQueued(s.pcs, s.cvlist) && cv in s.cvlist && t in s.pcs && !s.pcs[t].CvAsleep?
    ensures CvQueued(CvWakeall(s, t, cv).pcs, CvWakeall(s, t, cv).cvlist)
  {
    var s' := CvWakeall(s, t, cv);
    forall k, x | k in s'.cvlist && x in s'.cvlist[k] ensures x in s'.pcs && s'.pcs[x] == CvAsleep(k) {
      assert x in s.cvlist[k] && s.pcs[x] == CvAsleep(k);
      assert x !in s.cvlist[cv];
    }
    forall x | x in s'.pcs && s'.pcs[x].CvAsleep? ensures s'.pcs[x].cv in s'.cvlist && x in s'.cvlist[s'.pcs[x].cv] {
      assert s.pcs[x].CvAsleep? && x in s.cvlist[s.pcs[x].cv];
    }
  }

  lemma WakeCvLists(s: State, t: int)
    requires Inv(s) && Enabled(s, Go(t)) && Waking(s.pcs[t])
    ensures CvQueued(Went(s, t).pcs, Went(s, t).cvlist)
  {
    Heads(s, Go(t));
    InvAt(s, t);
    hide Shaped, Covered, Bridged, Spins, CvSpins, Owns, Queued, Named, CvQueued;
    if s.pcs[t].RelWake? {
      if s.list != [] {
        CvListsFrame(s.pcs, s.cvlist, s.list[0], Want(true));
        CvListsFrame(s.pcs[s.list[0] := Want(true)], s.cvlist, t, RelDone(s.pcs[t].k));
      } else {
        CvListsFrame(s.pcs, s.cvlist, t, RelDone(s.pcs[t].k));
      }
    } else if s.pcs[t].SigWant? {
      var cv := s.pcs[t].cv;
      if s.cvlist[cv] != [] {
        CvHeadWoken(s.pcs, s.cvlist, cv);
        CvListsFrame(s.pcs[s.cvlist[cv][0] := Want(false)], s.cvlist[cv := s.cvlist[cv][1..]], t, Hold);
      } else {
        CvListsFrame(s.pcs, s.cvlist, t, Hold);
      }
    } else {
      CvAllWoken(s, t, s.pcs[t].cv);
    }
  }

  // `held` changes only in the hands of the spinlock's holder, who is not on the bridge.
  lemma BridgedKept(s: State, t: int, s': State)
    requires Inv(s) && Moves(s.pcs, t, s'.pcs) && s'.cvchan.Keys == s.cvchan.Keys
    requires (s'.held != s.held ==> s.spin == t) && (s'.pcs[t].Bridge? || s'.pcs[t].Let? ==> s'.held)
    requires OnCv(s'.pcs[t]) ==> s'.pcs[t].cv in s.cvchan
    ensures Bridged(s'.pcs, s'.held) && Named(s'.pcs, s'.cvchan)
  {
    hide Queued, CvQueued, Covered, CvSpins, Owns;
  }

  // ---------------------------------------------------------------- nobody is forgotten

  lemma CoveredPlain(s: State, t: int, s': State)
    requires Inv(s) && Plain(s, t, s')
    requires !s'.held && s.held ==> s'.pcs[t].RelWake?
    requires IsWoken(s.pcs[t]) && !IsWoken(s'.pcs[t]) ==> s'.held
    requires s'.pcs[t].Asleep? ==> s.pcs[t].Fall?
    requires s'.pcs[t].Fall? ==> s.pcs[t].Let?
    requires !s.pcs[t].RelWake?
    ensures Covered(s'.pcs, s'.held)
  {
    hide Queued, CvQueued, CvSpins, Owns, Spins, Named;
    if !s'.held && Sleepers(s'.pcs) {
      var u :| u in s'.pcs && (s'.pcs[u].Asleep? || s'.pcs[u].Fall?);
      if s.held {
        assert s'.pcs[t].RelWake?;
      } else {
        assert !s.pcs[t].Let?;
        assert s.pcs[u].Asleep? || s.pcs[u].Fall?;
        var w :| w in s.pcs && (IsWoken(s.pcs[w]) || s.pcs[w].RelWake?);
        assert IsWoken(s'.pcs[w]) || s'.pcs[w].RelWake?;
      }
    }
  }

  lemma CoveredWake(s: State, t: int)
    requires Inv(s) && Enabled(s, Go(t)) && Waking(s.pcs[t])
    ensures Covered(Went(s, t).pcs, Went(s, t).held)
  {
    Heads(s, Go(t));
    InvAt(s, t);
    WakeMoves(s, t);
    hide Shaped, CvQueued, CvSpins, Owns, Named, Bridged;
    var s' := Went(s, t);
    if s.pcs[t].RelWake? && Sleepers(s'.pcs) {
      var u :| u in s'.pcs && (s'.pcs[u].Asleep? || s'.pcs[u].Fall?);
      assert s.pcs[u].Asleep? && u in s.list;
      assert s.list != [] && IsWoken(s'.pcs[s.list[0]]);
    }
  }

  // ---------------------------------------------------------------- every run

  lemma WakeInv(s: State, t: int)
    requires Inv(s) && Enabled(s, Go(t)) && Waking(s.pcs[t])
    ensures Inv(Went(s, t))
  {
    hide Spins, CvSpins, Queued, CvQueued, Owns, Covered, Bridged, Named, Went, Shapely;
    var s' := Went(s, t);
    InvAt(s, t);
    ShapelyWake(s, t);
    WakeLists(s, t);
    WakeCvLists(s, t);
    CoveredWake(s, t);
    CvListsNamed(s, Go(t));
    LocksKept(s, t, s');
    CvLocksKept(s, t, s');
    BridgedWake(s, t);
  }

  lemma BridgedWake(s: State, t: int)
    requires Inv(s) && Enabled(s, Go(t)) && Waking(s.pcs[t])
    ensures Bridged(Went(s, t).pcs, Went(s, t).held) && Named(Went(s, t).pcs, Went(s, t).cvchan)
  {
    InvAt(s, t);
    WakeMoves(s, t);
    WakeFields(s, t);
    hide Inv, Moves, Went, Spins, CvSpins, Queued, CvQueued, Owns, Covered, Bridged, Named;
    BridgedKept(s, t, Went(s, t));
  }

  lemma ShapelyPlain(s: State, e: Event)
    requires At(s, e.t) && Enabled(s, e) && !(e.Go? && Waking(s.pcs[e.t]))
    ensures Shapely(s, e.t, Step(s, e))
  {
    if !e.Go? {
      ShapelyBegin(s, e);
    } else if Acquiring(s.pcs[e.t]) {
      ShapelyAcquire(s, e.t);
    } else if s.pcs[e.t].CvWant? || s.pcs[e.t].CvFall? {
      ShapelyCv(s, e.t);
    } else {
      ShapelyRelease(s, e.t);
    }
  }

  lemma PlainInv(s: State, e: Event)
    requires Inv(s) && Enabled(s, e) && !(e.Go? && Waking(s.pcs[e.t]))
    ensures Inv(Step(s, e))
  {
    var t, s' := e.t, Step(s, e);
    InvAt(s, t);
    ShapelyPlain(s, e);
    StepPlain(s, e);
    CvListsNamed(s, e);
    hide Inv, Spins, CvSpins, Queued, CvQueued, Owns, Covered, Shaped;
    PlainLists(s, t, s');
    CoveredPlain(s, t, s');
    LocksKept(s, t, s');
    CvLocksKept(s, t, s');
    BridgedKept(s, t, s');
  }

  lemma StepInv(s: State, e: Event)
    requires Inv(s) && Enabled(s, e)
    ensures Inv(Step(s, e))
  {
    hide Inv;
    if e.Go? && Waking(s.pcs[e.t]) {
      WakeInv(s, e.t);
    } else {
      PlainInv(s, e);
    }
  }

  lemma CvListsNamed(s: State, e: Event)
    requires Inv(s) && Enabled(s, e)
    ensures forall cv :: cv in Step(s, e).cvchan <==> cv in Step(s, e).cvlist
  {
    InvAt(s, e.t);
    hide CvQueued, CvSpins, Owns, Named, Bridged, Queued, Spins, Covered;
  }

  ghost predicate Initial(s: State) {
    && !s.held && s.owner == s.spin == s.chan == NOBODY && s.list == []
    && NOBODY !in s.pcs && (forall t :: t in s.pcs ==> s.pcs[t].Out?)
    && s.cvchan.Keys == s.cvlist.Keys
    && (forall cv :: cv in s.cvchan ==> s.cvchan[cv] == NOBODY && s.cvlist[cv] == [])
  }

  ghost predicate IsRun(ss: seq<State>, es: seq<Event>) {
    && |ss| == |es| + 1 && Initial(ss[0])
    && forall i :: 0 <= i < |es| ==> Enabled(ss[i], es[i]) && ss[i + 1] == Step(ss[i], es[i])
  }

  lemma {:induction false} RunInv(ss: seq<State>, es: seq<Event>, i: nat)
    requires IsRun(ss, es) && i < |ss|
    ensures Inv(ss[i])
  {
    if i > 0 {
      RunInv(ss, es, i - 1);
      assert Enabled(ss[i - 1], es[i - 1]) && ss[i] == Step(ss[i - 1], es[i - 1]);
      StepInv(ss[i - 1], es[i - 1]);
    }
  }

  /**
   * In every reachable state at most one thread is past lock_acquire and before
   * lock_release, lock_do_i_hold is true of that thread and of no other, and a free lock
   * that threads sleep on has a woken thread or a release that is about to wake one.
   */
  lemma RunSafe(ss: seq<State>, es: seq<Event>, i: nat, t: int, u: int)
    requires IsRun(ss, es) && i < |ss| && t in ss[i].pcs && u in ss[i].pcs
    ensures var s := ss[i];
            && (Inside(s.pcs[t]) && Inside(s.pcs[u]) ==> t == u)
            && (DoIHold(s, t) <==> Inside(s.pcs[t])) && (s.held <==> s.owner in s.pcs)
            && (!s.held && (s.pcs[t].Asleep? || s.pcs[t].Fall?) ==> OnTheWay(s.pcs))
  {
    RunInv(ss, es, i);
    hide CvQueued, CvSpins, Named, Bridged, Queued;
  }

  /**
   * What lock_do_i_hold tells a thread stays true until the thread itself acts.
   */
  lemma HoldStable(s: State, e: Event, t: int)
    requires Inv(s) && Enabled(s, e) && t in s.pcs && e.t != t
    ensures DoIHold(Step(s, e), t) <==> DoIHold(s, t)
  {
    InvAt(s, e.t);
    InvAt(s, t);
    hide Inv, Shaped;
  }

  /**
   * When a signal or broadcast goes through, every thread that has released the lock in
   * cv_wait and was not woken yet is on the list of the cv already: none is missed.  A
   * broadcast leaves nobody waiting; a signal wakes the one who waits longest.
   */
  lemma SignalCannotMiss(s: State, t: int, cv: int, u: int)
    requires Inv(s) && Enabled(s, Go(t)) && (s.pcs[t] == SigWant(cv) || s.pcs[t] == AllWant(cv))
    requires u in s.pcs && Waiting(s.pcs[u], cv)
    ensures u in s.cvlist[cv]
    ensures s.pcs[t] == AllWant(cv) ==> Step(s, Go(t)).pcs[u] == Want(false) && Step(s, Go(t)).cvlist[cv] == []
    ensures s.pcs[t] == SigWant(cv) ==>
      && Step(s, Go(t)).pcs[s.cvlist[cv][0]] == Want(false)
      && Step(s, Go(t)).cvlist[cv] == s.cvlist[cv][1..]
  {
    Heads(s, Go(t));
    InvAt(s, t);
    InvAt(s, u);
    hide Shaped, Covered, Bridged, Spins, Owns, Queued;
  }

  /**
   * The spinlocks and the lock never deadlock: if some thread is inside an operation of the
   * lock or waits for it, some thread can go on or holds the lock and may release it.
   */
  lemma NeverStuck(s: State, t: int) returns (u: int)
    requires Inv(s) && t in s.pcs && !s.pcs[t].Out? && !s.pcs[t].CvAsleep?
    ensures u in s.pcs && (s.pcs[u].Hold? || Enabled(s, Go(u)))
  {
    if s.chan != NOBODY {
      u := s.chan;
      InvAt(s, u);
    } else if s.spin != NOBODY {
      u := s.spin;
      InvAt(s, u);
    } else if !s.pcs[t].Asleep? {
      u := Unblocked(s, t);
    } else if s.held {
      u := Unblocked(s, s.owner);
    } else {
      assert Sleepers(s.pcs);
      u :| u in s.pcs && (IsWoken(s.pcs[u]) || s.pcs[u].RelWake?);
      InvAt(s, u);
    }
  }

  // With both spinlocks of the lock free, only a cv's channel lock can stand in the way.
  lemma Unblocked(s: State, t: int) returns (u: int)
    requires Inv(s) && s.spin == s.chan == NOBODY && t in s.pcs && !Sleeping(s.pcs[t]) && !s.pcs[t].Out?
    ensures u in s.pcs && (s.pcs[u].Hold? || Enabled(s, Go(u)))
  {
    InvAt(s, t);
    u := t;
    if (s.pcs[t].CvWant? || s.pcs[t].SigWant? || s.pcs[t].AllWant?) && s.cvchan[s.pcs[t].cv] != NOBODY {
      u := s.cvchan[s.pcs[t].cv];
      InvAt(s, u);
    }
  }
}

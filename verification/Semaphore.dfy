/**
 * The semaphore of `synch.c` over its wait channel, as a step system: a step ends where a
 * spinlock is taken or let go, so that wakeups could in principle be lost.
 */
module Semaphore {
  import Seqs

  const NOBODY: int := -1
  const MAX_COUNT: int := 0x7fff_ffff

  /**
   * Where a thread is.  In P: PWait wants sem_lock; PTest has it and will test the count;
   * PBridge found 0 and wants the channel lock; PRelease has both; PFall has let sem_lock
   * go and is being put on the channel; Asleep is on it.  `woken` marks a thread that was
   * taken off the channel and has not tested again.  In V: VWait wants sem_lock, VInc has
   * it, VWake has incremented and wants the channel lock, VDone has woken.
   */
  datatype Pc =
    | Idle
    | PWait(woken: bool) | PTest(woken: bool) | PBridge | PRelease | PFall | Asleep
    | VWait | VInc | VWake | VDone

  // `spin` and `chan` are the threads that hold the two spinlocks; `incs` and `decs` count.
  datatype State = State(pcs: map<int, Pc>, count: int, spin: int, chan: int, list: seq<int>, incs: nat, decs: nat,
                         panicked: bool)

  // The value a C expression of type `int` has when its mathematical value is x, for a
  // machine that wraps.
  function Int(x: int): int {
    (x + MAX_COUNT + 1) % (2 * (MAX_COUNT + 1)) - MAX_COUNT - 1
  }

  datatype Event = BeginP(t: int) | BeginV(t: int) | Go(t: int)

  predicate HasSpin(p: Pc) {
    p.PTest? || p.PBridge? || p.PRelease? || p.VInc? || p.VWake? || p.VDone?
  }

  predicate HasChan(p: Pc) {
    p.PRelease? || p.PFall?
  }

  predicate IsWoken(p: Pc) {
    (p.PWait? || p.PTest?) && p.woken
  }

  ghost function Woken(pcs: map<int, Pc>): set<int> {
    set t | t in pcs && IsWoken(pcs[t])
  }

  // The Vs between their increment and their wakeup.
  ghost function Pending(pcs: map<int, Pc>): set<int> {
    set t | t in pcs && pcs[t].VWake?
  }

  // Somebody is asleep or falling asleep.
  ghost predicate Sleepers(pcs: map<int, Pc>) {
    exists t :: t in pcs && (pcs[t].Asleep? || pcs[t].PFall?)
  }

  // ---------------------------------------------------------------- the steps

  predicate Enabled(s: State, e: Event) {
    && !s.panicked && e.t in s.pcs
    && match e
       case BeginP(t) => s.pcs[t].Idle?
       case BeginV(t) => s.pcs[t].Idle?
       case Go(t) =>
         match s.pcs[t]
         case Idle => false
         case PWait(_) => s.spin == NOBODY
         case VWait => s.spin == NOBODY
         case PBridge => s.chan == NOBODY
         case VWake => s.chan == NOBODY
         case Asleep => false
         case _ => true
  }

  function Move(s: State, t: int, p: Pc): State {
    s.(pcs := s.pcs[t := p])
  }

  function Step(s: State, e: Event): State
    requires Enabled(s, e) && forall i :: 0 <= i < |s.list| ==> s.list[i] in s.pcs
  {
    match e
    case BeginP(t) => Move(s, t, PWait(false))
    case BeginV(t) => Move(s, t, VWait)
    case Go(t) =>
      match s.pcs[t]
      case PWait(w) => Move(s, t, PTest(w)).(spin := t)
      case PTest(_) =>
        if s.count == 0 then Move(s, t, PBridge)
        else if !(s.count > 0) then s.(panicked := true)
        else Move(s, t, Idle).(count := s.count - 1, decs := s.decs + 1, spin := NOBODY)
      case PBridge => Move(s, t, PRelease).(chan := t)
      case PRelease => Move(s, t, PFall).(spin := NOBODY)
      case PFall => Move(s, t, Asleep).(chan := NOBODY, list := s.list + [t])
      case VWait => Move(s, t, VInc).(spin := t)
      case VInc =>
        var s' := Move(s, t, VWake).(count := Int(s.count + 1), incs := s.incs + 1);
        if s'.count > 0 then s' else s'.(panicked := true)
      case VWake =>
        if s.list == [] then Move(s, t, VDone)
        else Move(Move(s, s.list[0], PWait(true)), t, VDone).(list := s.list[1..])
      case VDone => Move(s, t, Idle).(spin := NOBODY)
      case Idle => s
      case Asleep => s
  }

  // ---------------------------------------------------------------- the invariant

  // Who holds which spinlock.
  ghost predicate Spins(pcs: map<int, Pc>, spin: int, chan: int) {
    && NOBODY !in pcs && (spin == NOBODY || spin in pcs) && (chan == NOBODY || chan in pcs)
    && (forall t :: t in pcs ==> (HasSpin(pcs[t]) <==> spin == t) && (HasChan(pcs[t]) <==> chan == t))
  }

  // Who is on the channel.
  ghost predicate Queued(pcs: map<int, Pc>, list: seq<int>) {
    && Seqs.NoDup(list) && (forall t :: t in list ==> t in pcs)
    && (forall t :: t in pcs ==> (pcs[t].Asleep? <==> t in list))
  }

  // The bridge to the channel is crossed only while the count is 0.
  ghost predicate Bridged(pcs: map<int, Pc>, count: int) {
    forall t :: t in pcs && (pcs[t].PBridge? || pcs[t].PRelease?) ==> count == 0
  }

  ghost predicate Locked(s: State) {
    Spins(s.pcs, s.spin, s.chan) && Queued(s.pcs, s.list) && Bridged(s.pcs, s.count)
  }

  // The count is conserved, and the kernel is up as long as it fits an int.
  ghost predicate Conserved(s: State, init: nat) {
    var n := init + s.incs - s.decs;
    s.count == Int(n) && 0 <= n <= MAX_COUNT + 1 && (s.panicked <==> n > MAX_COUNT)
  }

  // No wakeup is lost.
  ghost predicate Covered(s: State) {
    Sleepers(s.pcs) ==> s.count <= |Woken(s.pcs)| + |Pending(s.pcs)|
  }

  ghost predicate Inv(s: State, init: nat) {
    Locked(s) && Conserved(s, init) && Covered(s)
  }

  lemma ListIn(s: State)
    requires Locked(s)
    ensures forall i :: 0 <= i < |s.list| ==> s.list[i] in s.pcs
  {
    forall i | 0 <= i < |s.list| ensures s.list[i] in s.pcs {
      var t := s.list[i];
      assert t in s.list;
    }
  }

  lemma SpinsStep(s: State, e: Event)
    requires Locked(s) && Enabled(s, e) && forall i :: 0 <= i < |s.list| ==> s.list[i] in s.pcs
    ensures Spins(Step(s, e).pcs, Step(s, e).spin, Step(s, e).chan)
  {
    if e.Go? && s.pcs[e.t].VWake? && s.list != [] {
      assert s.list[0] in s.list;
    }
  }

  lemma QueuedStep(s: State, e: Event)
    requires Locked(s) && Enabled(s, e) && forall i :: 0 <= i < |s.list| ==> s.list[i] in s.pcs
    ensures Queued(Step(s, e).pcs, Step(s, e).list)
  {
    hide Spins, Bridged;
    if e.Go? && s.pcs[e.t].VWake? && s.list != [] {
      Seqs.HeadSplit(s.list);
      assert s.list[0] in s.list;
    }
  }

  lemma BridgedStep(s: State, e: Event)
    requires Locked(s) && Enabled(s, e) && forall i :: 0 <= i < |s.list| ==> s.list[i] in s.pcs
    ensures Bridged(Step(s, e).pcs, Step(s, e).count)
  {
  }

  // How one thread's move changes the two counts.
  lemma Recount(pcs: map<int, Pc>, t: int, p: Pc)
    requires t in pcs
    ensures |Woken(pcs[t := p])| == |Woken(pcs)| - (if IsWoken(pcs[t]) then 1 else 0) + (if IsWoken(p) then 1 else 0)
    ensures |Pending(pcs[t := p])| == |Pending(pcs)| - (if pcs[t].VWake? then 1 else 0) + (if p.VWake? then 1 else 0)
  {
    var pcs' := pcs[t := p];
    Seqs.CardChange(Woken(pcs), Woken(pcs'), t);
    Seqs.CardChange(Pending(pcs), Pending(pcs'), t);
  }

  lemma SleepersStay(pcs: map<int, Pc>, t: int, p: Pc)
    requires t in pcs && Sleepers(pcs[t := p]) && !p.Asleep? && !p.PFall?
    ensures Sleepers(pcs)
  {
    var u :| u in pcs[t := p] && (pcs[t := p][u].Asleep? || pcs[t := p][u].PFall?);
    assert pcs[u].Asleep? || pcs[u].PFall?;
  }

  lemma CoveredStep(s: State, e: Event, init: nat)
    requires Inv(s, init) && Enabled(s, e) && forall i :: 0 <= i < |s.list| ==> s.list[i] in s.pcs
    ensures Covered(Step(s, e))
  {
    var s', t := Step(s, e), e.t;
    if Sleepers(s'.pcs) && s' != s {
      if e.Go? && s.pcs[t].VWake? {
        WakeCovered(s, t);
      } else if s'.pcs != s.pcs {
        Recount(s.pcs, t, s'.pcs[t]);
        if !s'.pcs[t].Asleep? && !s'.pcs[t].PFall? {
          SleepersStay(s.pcs, t, s'.pcs[t]);
        }
      }
    }
  }

  // The wakeup of V: with a sleeper on the channel the pending V becomes a woken thread;
  // with none there is no sleeper at all.
  lemma WakeCovered(s: State, t: int)
    requires Locked(s) && Covered(s) && !s.panicked && t in s.pcs && s.pcs[t].VWake? && s.chan == NOBODY
    requires forall i :: 0 <= i < |s.list| ==> s.list[i] in s.pcs
    ensures Covered(Step(s, Go(t)))
  {
    var s' := Step(s, Go(t));
    if s.list == [] {
      assert !Sleepers(s'.pcs);
    } else {
      var u := s.list[0];
      assert u in s.list && s.pcs[u].Asleep?;
      assert Sleepers(s.pcs);
      Recount(s.pcs, u, PWait(true));
      Recount(s.pcs[u := PWait(true)], t, VDone);
    }
  }

  lemma IntFits(x: int)
    requires 0 <= x <= MAX_COUNT + 1
    ensures Int(x) == if x <= MAX_COUNT then x else -x
  {
  }

  lemma ConservedStep(s: State, e: Event, init: nat)
    requires Conserved(s, init) && Enabled(s, e) && forall i :: 0 <= i < |s.list| ==> s.list[i] in s.pcs
    ensures Conserved(Step(s, e), init)
  {
    hide Int;
    var n := init + s.incs - s.decs;
    IntFits(n);
    IntFits(n + 1);
    if n > 0 {
      IntFits(n - 1);
    }
  }

  lemma StepInv(s: State, e: Event, init: nat)
    requires Inv(s, init) && Enabled(s, e)
    ensures (forall i :: 0 <= i < |s.list| ==> s.list[i] in s.pcs) && Inv(Step(s, e), init)
  {
    ListIn(s);
    SpinsStep(s, e);
    QueuedStep(s, e);
    BridgedStep(s, e);
    ConservedStep(s, e, init);
    CoveredStep(s, e, init);
    hide Step, Spins, Queued, Bridged, Conserved, Covered;
  }

  // ---------------------------------------------------------------- every run

  ghost predicate Initial(s: State, init: nat) {
    && s.count == init <= MAX_COUNT && !s.panicked && s.spin == s.chan == NOBODY && s.list == []
      && s.incs == s.decs == 0
    && NOBODY !in s.pcs && forall t :: t in s.pcs ==> s.pcs[t].Idle?
  }

  lemma InitialInv(s: State, init: nat)
    requires Initial(s, init)
    ensures Inv(s, init)
  {
    IntFits(init);
    hide Int;
  }

  ghost predicate Next(s: State, e: Event, s': State) {
    && Enabled(s, e) && (forall i :: 0 <= i < |s.list| ==> s.list[i] in s.pcs)
    && s' == Step(s, e)
  }

  ghost predicate IsRun(ss: seq<State>, es: seq<Event>, init: nat) {
    && |ss| == |es| + 1 && Initial(ss[0], init)
    && forall i :: 0 <= i < |es| ==> Next(ss[i], es[i], ss[i + 1])
  }

  /**
   * In every reachable state the count is the initial value plus the increments of V less
   * the decrements of P and is never negative until the kernel panics; and while a thread is asleep or falling
   * asleep, each unit of the count is matched by a thread that was woken and has not tested
   * again or by a V that has yet to wake one.
   */
  lemma {:induction false} RunInv(ss: seq<State>, es: seq<Event>, init: nat, i: nat)
    requires IsRun(ss, es, init) && i < |ss|
    ensures Inv(ss[i], init)
  {
    if i == 0 {
      InitialInv(ss[0], init);
    } else {
      RunInv(ss, es, init, i - 1);
      assert Next(ss[i - 1], es[i - 1], ss[i]);
      hide Inv, Step, Enabled, Initial;
      StepInv(ss[i - 1], es[i - 1], init);
    }
  }

  /**
   * A positive count with sleepers has somebody on the way: no wakeup is lost.
   */
  lemma NoLostWakeup(s: State, init: nat)
    requires Inv(s, init) && Sleepers(s.pcs) && s.count > 0
    ensures exists t :: t in s.pcs && (IsWoken(s.pcs[t]) || s.pcs[t].VWake?)
  {
    var t := Seqs.Member(if |Woken(s.pcs)| > 0 then Woken(s.pcs) else Pending(s.pcs));
    assert IsWoken(s.pcs[t]) || s.pcs[t].VWake?;
  }

  /**
   * The spinlocks never deadlock: if some thread is inside P or V and not asleep, some
   * thread can go on.
   */
  lemma NeverStuck(s: State, init: nat, t: int) returns (u: int)
    requires Inv(s, init) && !s.panicked && t in s.pcs && !s.pcs[t].Idle? && !s.pcs[t].Asleep?
    ensures Enabled(s, Go(u))
  {
    u := if s.chan != NOBODY then s.chan else if s.spin != NOBODY then s.spin else t;
  }

  /**
   * In every reachable state the kernel has panicked exactly if the increments have outrun
   * the decrements by more than an int holds; until then nothing has wrapped, and the test
   * in P never fails.
   */
  lemma PanicsOnlyOnOverflow(ss: seq<State>, es: seq<Event>, init: nat, i: nat)
    requires IsRun(ss, es, init) && i < |ss|
    ensures ss[i].panicked <==> init + ss[i].incs - ss[i].decs > MAX_COUNT
    ensures !ss[i].panicked ==> ss[i].count == init + ss[i].incs - ss[i].decs >= 0
    ensures i < |es| && ss[i + 1].panicked ==> ss[i].pcs[es[i].t].VInc? && ss[i].count == MAX_COUNT
  {
    RunInv(ss, es, init, i);
    IntFits(init + ss[i].incs - ss[i].decs);
    if i < |es| {
      assert Next(ss[i], es[i], ss[i + 1]);
      RunInv(ss, es, init, i + 1);
    }
  }

  // ---------------------------------------------------------------- what a P or a V has done

  // The operation a thread is in, or was in last: the one it began last in the first n steps.
  datatype Call = NoCall | PCall | VCall

  function CallOf(es: seq<Event>, n: nat, t: int): Call
    requires n <= |es|
  {
    if n == 0 then NoCall
    else if es[n - 1] == BeginP(t) then PCall
    else if es[n - 1] == BeginV(t) then VCall
    else CallOf(es, n - 1, t)
  }

  predicate InP(p: Pc) {
    p.PWait? || p.PTest? || p.PBridge? || p.PRelease? || p.PFall? || p.Asleep?
  }

  predicate InV(p: Pc) {
    p.VWait? || p.VInc? || p.VWake? || p.VDone?
  }

  // The m-th step is the return of a P or of a V.
  ghost predicate Returns(ss: seq<State>, es: seq<Event>, init: nat, m: nat, call: Call)
    requires IsRun(ss, es, init) && m < |es|
  {
    var t := es[m].t;
    && Next(ss[m], es[m], ss[m + 1]) && t in ss[m].pcs && t in ss[m + 1].pcs
    && !ss[m].pcs[t].Idle? && ss[m + 1].pcs[t].Idle? && CallOf(es, m, t) == call
  }

  // How many calls have returned in the first n steps.
  ghost function Returned(ss: seq<State>, es: seq<Event>, init: nat, n: nat, call: Call): nat
    requires IsRun(ss, es, init) && n <= |es|
  {
    if n == 0 then 0 else Returned(ss, es, init, n - 1, call) + if Returns(ss, es, init, n - 1, call) then 1 else 0
  }

  // The Vs that have incremented and not returned.
  ghost function Half(pcs: map<int, Pc>): set<int> {
    set t | t in pcs && (pcs[t].VWake? || pcs[t].VDone?)
  }

  // Where one step takes a thread: on in its own call, or off the channel by a V's wakeup.
  ghost predicate Follows(s: State, e: Event, t: int, p': Pc)
    requires t in s.pcs && e.t in s.pcs
  {
    var p := s.pcs[t];
    if e.t != t then
      p' == p || (p.Asleep? && p' == PWait(true) && e.Go? && s.pcs[e.t].VWake? && s.list != [] && s.list[0] == t)
    else if e.BeginP? then p.Idle? && p' == PWait(false)
    else if e.BeginV? then p.Idle? && p'.VWait?
    else match p
      case PWait(w) => p' == PTest(w)
      case PTest(_) => p'.Idle? || p'.PBridge? || p' == p
      case PBridge => p'.PRelease?
      case PRelease => p'.PFall?
      case PFall => p'.Asleep?
      case VWait => p'.VInc?
      case VInc => p'.VWake?
      case VWake => p'.VDone?
      case VDone => p'.Idle?
      case _ => false
  }

  lemma FollowsStep(s: State, e: Event, s': State, t: int, init: nat)
    requires Inv(s, init) && Next(s, e, s') && t in s.pcs
    ensures s'.pcs.Keys == s.pcs.Keys && t in s'.pcs && Follows(s, e, t, s'.pcs[t])
  {
    hide Spins, Bridged, Conserved, Covered, Int;
    if e.Go? && s.pcs[e.t].VWake? && s.list != [] {
      var u := s.list[0];
      assert u in s.list && s.pcs[u].Asleep?;
      hide Queued;
      assert s'.pcs == s.pcs[u := PWait(true)][e.t := VDone];
    } else {
      hide Queued;
      assert s'.pcs == s.pcs[e.t := s'.pcs[e.t]];
    }
  }

  // A thread that leaves P has taken one unit; one that goes past VInc has added one.
  lemma UnitsStep(s: State, e: Event, s': State, init: nat)
    requires Inv(s, init) && Next(s, e, s')
    ensures e.t in s'.pcs && s'.decs == s.decs + if InP(s.pcs[e.t]) && s'.pcs[e.t].Idle? then 1 else 0
    ensures s'.incs == s.incs + if s.pcs[e.t].VInc? then 1 else 0
    ensures InP(s.pcs[e.t]) && s'.pcs[e.t].Idle? ==> s'.count == s.count - 1
  {
    hide Spins, Queued, Bridged, Conserved, Covered, Int;
  }

  // A thread is in the call it began last.
  lemma {:induction false} InCall(ss: seq<State>, es: seq<Event>, init: nat, n: nat, t: int)
    requires IsRun(ss, es, init) && n <= |es| && t in ss[n].pcs
    ensures InP(ss[n].pcs[t]) ==> CallOf(es, n, t) == PCall
    ensures InV(ss[n].pcs[t]) ==> CallOf(es, n, t) == VCall
  {
    if n > 0 {
      RunInv(ss, es, init, n - 1);
      assert Next(ss[n - 1], es[n - 1], ss[n]);
      assert t in ss[n - 1].pcs by { SameThreads(ss[n - 1], es[n - 1], ss[n], t); }
      InCall(ss, es, init, n - 1, t);
      FollowsStep(ss[n - 1], es[n - 1], ss[n], t, init);
      hide Inv, Next, Step, Enabled;
    }
  }

  lemma SameThreads(s: State, e: Event, s': State, t: int)
    requires Next(s, e, s')
    ensures t in s'.pcs <==> t in s.pcs
  {
    hide Int;
  }

  lemma HalfChange(pcs: map<int, Pc>, pcs': map<int, Pc>, t: int)
    requires t in pcs && pcs'.Keys == pcs.Keys
    requires forall u :: u in pcs && u != t ==> (u in Half(pcs') <==> u in Half(pcs))
    ensures |Half(pcs')| == |Half(pcs)| - (if t in Half(pcs) then 1 else 0) + (if t in Half(pcs') then 1 else 0)
  {
    forall u | u != t ensures u in Half(pcs') <==> u in Half(pcs) {
      assert u in pcs' <==> u in pcs;
    }
    assert Half(pcs) - {t} == Half(pcs') - {t};
    Seqs.CardChange(Half(pcs), Half(pcs'), t);
  }

  lemma NoneHalf(pcs: map<int, Pc>)
    requires forall t :: t in pcs ==> pcs[t].Idle?
    ensures |Half(pcs)| == 0
  {
    if |Half(pcs)| > 0 {
      var t := Seqs.Member(Half(pcs));
      assert false;
    }
  }

  /**
   * In every run the decrements are exactly the Ps that returned and the increments the Vs
   * that returned or are about to: so until the kernel panics the count is the initial value
   * plus the Vs less the Ps.
   */
  lemma {:induction false} UnitsPerCall(ss: seq<State>, es: seq<Event>, init: nat, n: nat)
    requires IsRun(ss, es, init) && n <= |es|
    ensures ss[n].decs == Returned(ss, es, init, n, PCall)
    ensures ss[n].incs == Returned(ss, es, init, n, VCall) + |Half(ss[n].pcs)|
    ensures !ss[n].panicked ==>
              var vs, ps := Returned(ss, es, init, n, VCall), Returned(ss, es, init, n, PCall);
              ss[n].count == init + vs + |Half(ss[n].pcs)| - ps
  {
    hide Inv, Next, Half, Returns, Int;
    if n == 0 {
      NoneHalf(ss[0].pcs);
    } else {
      UnitsPerCall(ss, es, init, n - 1);
      UnitsAt(ss, es, init, n - 1);
    }
    PanicsOnlyOnOverflow(ss, es, init, n);
  }

  lemma UnitsAt(ss: seq<State>, es: seq<Event>, init: nat, m: nat)
    requires IsRun(ss, es, init) && m < |es|
    ensures ss[m + 1].decs == ss[m].decs + if Returns(ss, es, init, m, PCall) then 1 else 0
    ensures ss[m + 1].incs - |Half(ss[m + 1].pcs)|
            == ss[m].incs - |Half(ss[m].pcs)| + if Returns(ss, es, init, m, VCall) then 1 else 0
  {
    var s, e, s', t := ss[m], es[m], ss[m + 1], es[m].t;
    RunInv(ss, es, init, m);
    assert Next(s, e, s');
    assert t in s.pcs;
    InCall(ss, es, init, m, t);
    UnitsStep(s, e, s', init);
    forall u | u in s.pcs ensures u in s'.pcs && Follows(s, e, u, s'.pcs[u]) {
      FollowsStep(s, e, s', u, init);
    }
    FollowsStep(s, e, s', t, init);
    hide Inv, Step, Enabled, IsRun, CallOf;
    forall u | u in s.pcs && u != t ensures u in Half(s'.pcs) <==> u in Half(s.pcs) {
      assert Follows(s, e, u, s'.pcs[u]);
    }
    HalfChange(s.pcs, s'.pcs, t);
  }

  /**
   * P does not wait busily: after it has found the count 0 a thread tests it again only if it
   * slept on the channel meanwhile and a V took it off, and then it was the one that slept
   * longest.
   */
  lemma {:induction false} TestsAgainWhenWoken(ss: seq<State>, es: seq<Event>, init: nat, i: nat, j: nat, t: int)
      returns (m: nat)
    requires IsRun(ss, es, init) && i < j < |ss| && t in ss[i].pcs && ss[i].pcs[t].PBridge?
    requires t in ss[j].pcs && (ss[j].pcs[t].PTest? || ss[j].pcs[t].Idle?)
    ensures i < m < j && t in ss[m].pcs && ss[m].pcs[t].Asleep? && ss[m].list != [] && ss[m].list[0] == t
    ensures es[m].Go? && es[m].t in ss[m].pcs && ss[m].pcs[es[m].t].VWake?
  {
    RunInv(ss, es, init, i);
    assert Next(ss[i], es[i], ss[i + 1]);
    FollowsStep(ss[i], es[i], ss[i + 1], t, init);
    m := WokenFrom(ss, es, init, i, j, t);
  }

  // The search for that wakeup, from a state in which the thread is on its way to sleep.
  lemma {:induction false} WokenFrom(ss: seq<State>, es: seq<Event>, init: nat, i: nat, j: nat, t: int) returns (m: nat)
    requires IsRun(ss, es, init) && i < j < |ss| && t in ss[i].pcs && Falling(ss[i].pcs[t])
    requires t in ss[j].pcs && (ss[j].pcs[t].PTest? || ss[j].pcs[t].Idle?)
    ensures i <= m < j && t in ss[m].pcs && ss[m].pcs[t].Asleep? && ss[m].list != [] && ss[m].list[0] == t
    ensures es[m].Go? && es[m].t in ss[m].pcs && ss[m].pcs[es[m].t].VWake?
    decreases j - i
  {
    RunInv(ss, es, init, i);
    assert Next(ss[i], es[i], ss[i + 1]);
    FollowsStep(ss[i], es[i], ss[i + 1], t, init);
    hide Inv, Step;
    if Falling(ss[i + 1].pcs[t]) {
      m := WokenFrom(ss, es, init, i + 1, j, t);
    } else {
      m := i;
    }
  }

  predicate Falling(p: Pc) {
    p.PBridge? || p.PRelease? || p.PFall? || p.Asleep?
  }

  /**
   * Threads sleep in order: a thread goes to the end of the channel when it falls asleep, and
   * a V's wakeup takes the first.
   */
  lemma ChannelIsQueue(s: State, e: Event, init: nat)
    requires Inv(s, init) && Enabled(s, e) && forall i :: 0 <= i < |s.list| ==> s.list[i] in s.pcs
    ensures var l, l' := s.list, Step(s, e).list;
            || l' == l || (e.Go? && s.pcs[e.t].PFall? && l' == l + [e.t])
            || (e.Go? && s.pcs[e.t].VWake? && l != [] && l' == l[1..])
    ensures e.Go? && s.pcs[e.t].PFall? ==> e.t in Step(s, e).list
    ensures e.Go? && s.pcs[e.t].VWake? && s.list != [] ==> Step(s, e).list == s.list[1..]
  {
    hide Spins, Queued, Bridged, Conserved, Covered, Int;
  }
}

/**
 * The thread dispatcher of `thread.c` with `spl.c` and `spinlock.c`, as a step system over
 * any number of CPUs.  Every locked section is a step; `Phase` says where in
 * thread_switch a CPU is, `Migration` where in thread_consider_migration its interrupt
 * handler is.
 */
module Dispatcher {
  import Seqs

  // The list a thread is on: a run queue, a wait channel, a zombie list, the private list
  // of threads that thread u is waking, or the victims of a migration.
  datatype Loc = Nowhere | Rq(c: int) | Chan(w: int) | Zombies(c: int) | Wake(u: int) | Victims(c: int)

  datatype ThreadState = Run | Ready | Sleep | Zombie

  // The newstate argument of thread_switch.
  datatype Purpose = ToReady | ToSleep(w: int) | ToZombie

  /**
   * `saved` is ghost knowledge: the register context is in the switchframe.  `held` counts
   * the spinlocks charged to the thread, `high` is t_curspl, `ret` the spl that
   * thread_switch will restore, `intr` whether an interrupt found it at spl 0.
   */
  datatype Thread = Thread(cpu: int, saved: bool, state: ThreadState, loc: Loc,
                           count: int, high: bool, held: int, ret: bool, intr: bool)

  /**
   * Running: outside thread_switch.  Locked: the run-queue lock is taken.  Picking: the
   * current thread is on its list, c_isidle is set.  Idle: the lock is released, the CPU is
   * in cpu_idle.  Chosen: a thread is off the run queue.  Tail: it runs, still under the
   * lock its predecessor took.  Cleanup: the lock is released, spl is still high.
   */
  datatype Phase = Running | Locked(how: Purpose) | Picking | Idle | Chosen(next: int) | Tail | Cleanup

  datatype Migration =
    | NoMigration
    | Count(i: int, mine: int, total: int)
    | Take(i: int, left: int, share: int)
    | Send(i: int, left: int, share: int)

  // `ipi` is a pending IPI_UNIDLE; `awake` says that an interrupt has ended cpu_idle.
  datatype Cpu = Cpu(current: int, isidle: bool, locked: bool, irq: bool, phase: Phase, mig: Migration,
                     ipi: bool, awake: bool)

  datatype State = State(cpus: seq<Cpu>, threads: map<int, Thread>, lists: imap<Loc, seq<int>>)

  // ---------------------------------------------------------------- spl and spinlocks

  // A thread and the interrupt enable of the CPU it runs on.
  datatype Level = Level(t: Thread, irq: bool)

  function SplRaise(x: Level): Level {
    Level(x.t.(count := x.t.count + 1), if x.t.count == 0 then false else x.irq)
  }

  function SplLower(x: Level): Level {
    Level(x.t.(count := x.t.count - 1), if x.t.count - 1 == 0 then true else x.irq)
  }

  function SplX(x: Level, high: bool): Level {
    if !x.t.high && high then
      var y := SplRaise(x);
      Level(y.t.(high := true), y.irq)
    else if x.t.high && !high then
      SplLower(Level(x.t.(high := false), x.irq))
    else x
  }

  function SpinAcquire(x: Level): Level {
    var y := SplRaise(x);
    Level(y.t.(held := y.t.held + 1), y.irq)
  }

  function SpinRelease(x: Level): Level {
    var y := SplLower(x);
    Level(y.t.(held := y.t.held - 1), y.irq)
  }

  predicate Accounted(t: Thread) {
    t.held >= 0 && t.count == t.held + if t.high then 1 else 0
  }

  predicate InStep(x: Level) {
    Accounted(x.t) && (x.irq <==> x.t.count == 0)
  }

  // What splraise and spllower mean for a CPU in step.
  lemma RaiseAndLower(x: Level)
    requires InStep(x)
    ensures !SplRaise(x).irq && SplLower(SplRaise(x)) == x
    ensures x.t.count > 0 ==> (SplLower(x).irq <==> x.t.count == 1) && SplRaise(SplLower(x)) == x
  {
  }

  // One spinlock operation or spl call keeps the accounting.
  lemma LevelsKept(x: Level, high: bool)
    requires InStep(x)
    ensures InStep(SplX(x, high)) && InStep(SpinAcquire(x)) && (x.t.held > 0 ==> InStep(SpinRelease(x)))
    ensures SplX(x, high).t.high == high
    ensures SpinRelease(SpinAcquire(x)) == x && SplX(SplX(x, true), x.t.high) == x
  {
  }

  // What a thread does to its level: take a spinlock, release one, call splx.
  datatype LevelOp = LockOp | UnlockOp | SplxOp(high: bool)

  function HeldAfter(n: int, ops: seq<LevelOp>): int {
    if ops == [] then n
    else
      var m := HeldAfter(n, ops[..|ops| - 1]);
      match ops[|ops| - 1]
      case LockOp => m + 1
      case UnlockOp => m - 1
      case SplxOp(_) => m
  }

  function HighAfter(h: bool, ops: seq<LevelOp>): bool {
    if ops == [] then h
    else if ops[|ops| - 1].SplxOp? then ops[|ops| - 1].high
    else HighAfter(h, ops[..|ops| - 1])
  }

  function Levels(x: Level, ops: seq<LevelOp>): Level {
    if ops == [] then x
    else
      var y := Levels(x, ops[..|ops| - 1]);
      match ops[|ops| - 1]
      case LockOp => SpinAcquire(y)
      case UnlockOp => SpinRelease(y)
      case SplxOp(high) => SplX(y, high)
  }

  // The thread of x with so many spinlocks and that spl: the count is their sum, and
  // interrupts are on exactly when it is 0.
  function LevelOf(x: Level, held: int, high: bool): Level {
    var count := held + if high then 1 else 0;
    Level(x.t.(held := held, high := high, count := count), count == 0)
  }

  lemma OneOp(x: Level, held: int, high: bool, to: bool)
    requires held >= 0
    ensures SpinAcquire(LevelOf(x, held, high)) == LevelOf(x, held + 1, high)
    ensures held > 0 ==> SpinRelease(LevelOf(x, held, high)) == LevelOf(x, held - 1, high)
    ensures SplX(LevelOf(x, held, high), to) == LevelOf(x, held, to)
  {
  }

  /**
   * Spinlocks and spl calls may be nested in any order, as long as no spinlock is released
   * that is not held: the count stays the number of spinlocks held plus one for a high spl,
   * and interrupts are on exactly when it is 0.  So when as many spinlocks are held as at
   * the start and spl is what it was, the level is what it was.
   */
  lemma {:induction false} AnyNesting(x: Level, ops: seq<LevelOp>)
    requires InStep(x) && forall n :: 0 <= n <= |ops| ==> HeldAfter(x.t.held, ops[..n]) >= 0
    ensures Levels(x, ops) == LevelOf(x, HeldAfter(x.t.held, ops), HighAfter(x.t.high, ops))
    ensures InStep(Levels(x, ops)) && LevelOf(x, x.t.held, x.t.high) == x
  {
    assert ops[..|ops|] == ops;
    if ops != [] {
      var rest, op := ops[..|ops| - 1], ops[|ops| - 1];
      assert HeldAfter(x.t.held, ops[..|ops| - 1]) >= 0 && HeldAfter(x.t.held, ops) >= 0;
      forall n | 0 <= n <= |rest| ensures HeldAfter(x.t.held, rest[..n]) >= 0 {
        assert rest[..n] == ops[..n];
      }
      AnyNesting(x, rest);
      OneOp(x, HeldAfter(x.t.held, rest), HighAfter(x.t.high, rest), op.SplxOp? && op.high);
      hide SpinAcquire, SpinRelease, SplX;
    }
  }

  // ---------------------------------------------------------------- the invariant

  // Every thread on a list knows it, every list is free of repetition, none loses a thread.
  ghost predicate Places(threads: map<int, Thread>, lists: imap<Loc, seq<int>>) {
    && (forall l :: l in lists)
    && (forall l :: Seqs.NoDup(lists[l])) && lists[Nowhere] == []
    && (forall l, t :: t in lists[l] ==> t in threads && threads[t].loc == l)
    && (forall t :: t in threads && threads[t].loc != Nowhere ==> t in lists[threads[t].loc])
  }

  predicate OffLists(p: Phase) {
    p.Running? || p.Locked? || p.Tail? || p.Cleanup?
  }

  predicate HoldsRq(p: Phase) {
    p.Locked? || p.Picking? || p.Chosen? || p.Tail?
  }

  // What is charged to the current thread in each phase.
  predicate Charged(p: Phase, t: Thread) {
    && (t.intr ==> if p.Running? then t.high else t.ret)
    && match p
    case Running => true
    case Locked(how) => t.high && t.held == (if how.ToSleep? then 2 else 1)
    case Picking => t.high && t.held == 1
    case Idle => t.high
    case Chosen(_) => t.high && t.held == 1
    case Tail => t.high && t.held == 1
    case Cleanup => t.high && t.held == 0
  }

  ghost predicate CurrentOk(cpus: seq<Cpu>, threads: map<int, Thread>, c: int)
    requires 0 <= c < |cpus|
  {
    var p, t := cpus[c].phase, cpus[c].current;
    && t in threads && threads[t].cpu == c && !threads[t].saved && Charged(p, threads[t])
    && (OffLists(p) ==> threads[t].loc == Nowhere)
    && (p.Picking? || p.Idle? ==> threads[t].loc != Nowhere)
    && (p.Chosen? ==> p.next in threads && threads[p.next].loc == Nowhere && threads[p.next].cpu == c)
    && (!p.Idle? ==> (cpus[c].irq <==> threads[t].count == 0))
  }

  ghost predicate CpuOk(s: State, c: int)
    requires 0 <= c < |s.cpus| && forall l :: l in s.lists
  {
    var C := s.cpus[c];
    && C.locked == HoldsRq(C.phase) && C.isidle == (C.phase.Picking? || C.phase.Idle?)
    && (C.phase.Idle? && s.lists[Rq(c)] != [] ==> C.ipi || C.awake)
    && (C.phase == Locked(ToZombie) ==> s.lists[Wake(C.current)] == [])
    && MigrationOk(C.mig, c, |s.cpus|, |s.lists[Rq(c)]|, |s.lists[Victims(c)]|)
    && (!C.mig.NoMigration? ==> C.phase.Running? || (C.phase.Idle? && C.awake))
  }

  // The loops of thread_consider_migration never run out of threads.
  predicate MigrationOk(mig: Migration, c: int, n: int, queue: int, victims: int) {
    match mig
    case NoMigration => victims == 0
    case Count(i, mine, total) => victims == 0 && 0 <= i <= n && 0 <= mine <= total
      && mine <= (if i <= c then 0 else queue)
    case Take(i, left, share) => 0 <= i <= left && left - i <= queue && victims == i
    case Send(i, left, share) => 0 <= i <= n && 0 <= left <= victims
  }

  ghost predicate ThreadOk(s: State, t: int)
    requires t in s.threads && forall l :: l in s.lists
  {
    var T := s.threads[t];
    && 0 <= T.cpu < |s.cpus| && Accounted(T)
    && (T.saved ==> T.high && T.held == 1 && (T.intr ==> T.ret))
    && (!T.saved ==> s.cpus[T.cpu].current == t)
    && (T.loc.Rq? || T.loc.Zombies? || T.loc.Victims? ==> T.loc.c == T.cpu)
    && (T.loc.Zombies? ==>
          T.state == Zombie && (s.lists[Wake(t)] == [] || (!T.saved && s.cpus[T.cpu].phase.Idle?)))
    && (T.loc.Wake? ==> T.loc.u in s.threads)
    && (T.loc.Nowhere? ==>
          var C := s.cpus[T.cpu]; (C.current == t && OffLists(C.phase)) || C.phase == Chosen(t))
  }

  ghost predicate Inv(s: State) {
    && Places(s.threads, s.lists)
    && (forall c :: 0 <= c < |s.cpus| ==> CurrentOk(s.cpus, s.threads, c))
    && (forall c :: 0 <= c < |s.cpus| ==> CpuOk(s, c))
    && (forall t :: t in s.threads ==> ThreadOk(s, t))
  }

  // ---------------------------------------------------------------- the steps

  /**
   * Acquire, Release, SetSpl, Interrupt, EndInterrupt: the spinlock and spl traffic of
   * whatever code runs.  Fork, WakeTake, WakePut: thread_fork and the wait-channel wakeups
   * as far as thread_make_runnable.  Enter to Finish: thread_switch and thread_startup.
   * The rest is thread_consider_migration.
   */
  datatype Event =
    | Acquire(c: int) | Release(c: int) | SetSpl(c: int, high: bool)
    | Interrupt(c: int) | EndInterrupt(c: int)
    | Fork(c: int, t: int) | WakeTake(c: int, w: int) | WakePut(c: int, k: nat)
    | Enter(c: int, how: Purpose) | Return(c: int) | Place(c: int) | Pick(c: int)
    | IdleInterrupt(c: int) | IdleIrq(c: int, on: bool) | Leave(c: int)
    | Switch(c: int) | Unlock(c: int) | Exorcise(c: int) | Finish(c: int)
    | MigStart(c: int) | MigCount(c: int) | MigDecide(c: int) | MigTake(c: int) | MigSend(c: int) | MigBack(c: int)

  ghost predicate Shaped(s: State) {
    && (forall l :: l in s.lists)
    && (forall l, i :: 0 <= i < |s.lists[l]| ==> s.lists[l][i] in s.threads)
    && (forall c :: 0 <= c < |s.cpus| ==> s.cpus[c].current in s.threads)
  }

  ghost function Cur(s: State, c: int): Thread
    requires Shaped(s) && 0 <= c < |s.cpus|
  {
    s.threads[s.cpus[c].current]
  }

  ghost function Now(s: State, c: int): Level
    requires Shaped(s) && 0 <= c < |s.cpus|
  {
    Level(Cur(s, c), s.cpus[c].irq)
  }

  // The CPU runs code that may take spinlocks and wake threads: its current thread, or an
  // interrupt handler in the idle loop.
  ghost predicate Executes(s: State, c: int)
    requires 0 <= c < |s.cpus|
  {
    var C := s.cpus[c];
    C.mig.NoMigration? && (C.phase.Running? || (C.phase.Idle? && C.awake))
  }

  ghost predicate MayEnter(s: State, c: int, how: Purpose)
    requires Shaped(s) && 0 <= c < |s.cpus|
  {
    var T := Cur(s, c);
    match how
    case ToReady => T.held == 0
    case ToSleep(w) => T.held == 1 && !T.intr && s.lists[Wake(s.cpus[c].current)] == []
    case ToZombie => T.held == 0 && !T.intr && s.lists[Wake(s.cpus[c].current)] == []
  }

  // thread_make_runnable must be able to take the lock of the target's CPU.
  ghost predicate Targetable(s: State, t: int) {
    t in s.threads && 0 <= s.threads[t].cpu < |s.cpus| && !s.cpus[s.threads[t].cpu].locked
  }

  ghost predicate Enabled(s: State, e: Event) {
    Shaped(s) && 0 <= e.c < |s.cpus| &&
    var c, C, T := e.c, s.cpus[e.c], Cur(s, e.c);
    var calm := C.phase.Running? && C.mig.NoMigration?;
    match e
    case Acquire(_) => Executes(s, c)
    case Release(_) => Executes(s, c) && T.held > 0
    case SetSpl(_, high) => calm && !T.intr
    case Interrupt(_) => calm && C.irq
    case EndInterrupt(_) => calm && T.intr && T.held == 0
    case Fork(_, t) => calm && t !in s.threads
    case WakeTake(_, w) => Executes(s, c) && s.lists[Chan(w)] != []
    case WakePut(_, k) =>
      Executes(s, c) && k < |s.lists[Wake(C.current)]| && Targetable(s, s.lists[Wake(C.current)][k])
    case Enter(_, how) => calm && !C.locked && MayEnter(s, c, how)
    case Return(_) => C.phase == Locked(ToReady) && s.lists[Rq(c)] == []
    case Place(_) => C.phase.Locked? && !(C.phase.how.ToReady? && s.lists[Rq(c)] == [])
    case Pick(_) => C.phase.Picking?
    case IdleInterrupt(_) => C.phase.Idle?
    case IdleIrq(_, on) => C.phase.Idle?
    case Leave(_) => Executes(s, c) && C.phase.Idle? && s.lists[Wake(C.current)] == [] && T.held == 0 && !C.locked
    case Switch(_) => C.phase.Chosen? && C.phase.next in s.threads
    case Unlock(_) => C.phase.Tail?
    case Exorcise(_) => C.phase.Cleanup? && s.lists[Zombies(c)] != []
    case Finish(_) => C.phase.Cleanup? && s.lists[Zombies(c)] == []
    case MigStart(_) => C.mig.NoMigration? && ((C.phase.Running? && T.intr) || (C.phase.Idle? && C.awake))
    case MigCount(_) => C.mig.Count? && 0 <= C.mig.i < |s.cpus| && !s.cpus[C.mig.i].locked
    case MigDecide(_) => C.mig.Count? && C.mig.i == |s.cpus|
    case MigTake(_) => C.mig.Take? && !C.locked && (C.mig.i != C.mig.left ==> s.lists[Rq(c)] != [])
    case MigSend(_) =>
      && C.mig.Send? && 0 <= C.mig.i < |s.cpus| && C.mig.left > 0
      && (C.mig.i == c
        || (!s.cpus[C.mig.i].locked && (|s.lists[Rq(C.mig.i)]| < C.mig.share ==> s.lists[Victims(c)] != [])))
    case MigBack(_) => C.mig.Send? && (C.mig.i == |s.cpus| || C.mig.left == 0) && !C.locked
  }

  // The CPU and its current thread change, no list does.
  ghost function Local(s: State, c: int, C: Cpu, T: Thread): State
    requires 0 <= c < |s.cpus|
  {
    State(s.cpus[c := C], s.threads[s.cpus[c].current := T], s.lists)
  }

  // thread_make_runnable's end: the thread is last on a run queue, whose CPU is unidled.
  ghost function Runnable(s: State, t: int, T: Thread, d: int, lists: imap<Loc, seq<int>>): State
    requires 0 <= d < |s.cpus| && forall l :: l in lists
  {
    var D := s.cpus[d];
    State(s.cpus[d := D.(ipi := D.ipi || D.isidle)], s.threads[t := T.(loc := Rq(d), cpu := d)],
          lists[Rq(d) := lists[Rq(d)] + [t]])
  }

  function DivRoundUp(a: int, b: int): int
    requires b > 0
  {
    (a + b - 1) / b
  }

  ghost function Step(s: State, e: Event): State
    requires Enabled(s, e)
  {
    var c, C, T, x := e.c, s.cpus[e.c], Cur(s, e.c), Now(s, e.c);
    match e
    case Acquire(_) => Local(s, c, C.(irq := SpinAcquire(x).irq), SpinAcquire(x).t)
    case Release(_) => Local(s, c, C.(irq := SpinRelease(x).irq), SpinRelease(x).t)
    case SetSpl(_, high) => Local(s, c, C.(irq := SplX(x, high).irq), SplX(x, high).t)
    case Interrupt(_) => Local(s, c, C.(irq := false), T.(count := T.count + 1, high := true, intr := true))
    case EndInterrupt(_) => Local(s, c, C.(irq := true), T.(count := T.count - 1, high := false, intr := false))
    case Fork(_, t) => Forked(s, c, t)
    case WakeTake(_, w) => WakeTaken(s, c, w)
    case WakePut(_, k) => WakeDone(s, c, k)
    case Enter(_, how) =>
      var y := SpinAcquire(SplX(x, true));
      Local(s, c, C.(irq := y.irq, locked := true, phase := Locked(how)), y.t.(ret := T.high))
    case Return(_) =>
      var y := SplX(SpinRelease(x), T.ret);
      Local(s, c, C.(irq := y.irq, locked := false, phase := Running), y.t)
    case Place(_) => Placed(s, c)
    case Pick(_) => Picked(s, c)
    case IdleInterrupt(_) => Local(s, c, C.(ipi := false, awake := true), T)
    case IdleIrq(_, on) => Local(s, c, C.(irq := on), T)
    case Leave(_) => Local(s, c, C.(irq := false, locked := true, phase := Picking), SpinAcquire(x).t)
    case Switch(_) => Switched(s, c)
    case Unlock(_) =>
      Local(s, c, C.(irq := SpinRelease(x).irq, locked := false, phase := Cleanup), SpinRelease(x).t.(state := Run))
    case Exorcise(_) => Exorcised(s, c)
    case Finish(_) => Local(s, c, C.(irq := SplX(x, T.ret).irq, phase := Running), SplX(x, T.ret).t)
    case MigStart(_) => Local(s, c, C.(mig := Count(0, 0, 0)), T)
    case MigCount(_) =>
      var n := |s.lists[Rq(C.mig.i)]|;
      Local(s, c, C.(mig := Count(C.mig.i + 1, if C.mig.i == c then n else C.mig.mine, C.mig.total + n)), T)
    case MigDecide(_) =>
      var share := DivRoundUp(C.mig.total, |s.cpus|);
      Local(s, c, C.(mig := if C.mig.mine < share then NoMigration else Take(0, C.mig.mine - share, share)), T)
    case MigTake(_) =>
      if C.mig.i == C.mig.left then Local(s, c, C.(mig := Send(0, C.mig.left, C.mig.share)), T) else MigTaken(s, c)
    case MigSend(_) =>
      if C.mig.i == c || |s.lists[Rq(C.mig.i)]| >= C.mig.share then
        Local(s, c, C.(mig := Send(C.mig.i + 1, C.mig.left, C.mig.share)), T)
      else MigSent(s, c)
    case MigBack(_) => if s.lists[Victims(c)] == [] then Local(s, c, C.(mig := NoMigration), T) else MigReturned(s, c)
  }

  // thread_create and thread_fork, up to the call of thread_make_runnable.
  ghost function Forked(s: State, c: int, t: int): State
    requires Shaped(s) && 0 <= c < |s.cpus|
  {
    var l := Wake(s.cpus[c].current);
    State(s.cpus, s.threads[t := Thread(Cur(s, c).cpu, true, Ready, l, 2, true, 1, false, false)],
          s.lists[l := s.lists[l] + [t]])
  }

  // One round of exorcise.
  ghost function Exorcised(s: State, c: int): State
    requires Shaped(s) && 0 <= c < |s.cpus| && s.lists[Zombies(c)] != []
  {
    var l := Zombies(c);
    State(s.cpus, s.threads - {s.lists[l][0]}, s.lists[l := s.lists[l][1..]])
  }

  // wchan_wakeone and wchan_wakeall take a thread off a channel.
  ghost function WakeTaken(s: State, c: int, w: int): State
    requires Shaped(s) && 0 <= c < |s.cpus| && s.lists[Chan(w)] != []
  {
    var t, l := s.lists[Chan(w)][0], Wake(s.cpus[c].current);
    State(s.cpus, s.threads[t := s.threads[t].(loc := l)],
          s.lists[Chan(w) := s.lists[Chan(w)][1..]][l := s.lists[l] + [t]])
  }

  // thread_make_runnable on one of the threads being woken; those of an interrupt handler
  // and of the thread it interrupted share the list, so it need not be the first.
  ghost function WakeDone(s: State, c: int, k: nat): State
    requires Shaped(s) && 0 <= c < |s.cpus| && k < |s.lists[Wake(s.cpus[c].current)]|
    requires Targetable(s, s.lists[Wake(s.cpus[c].current)][k])
  {
    var l := Wake(s.cpus[c].current);
    var t := s.lists[l][k];
    Runnable(s, t, s.threads[t], s.threads[t].cpu, s.lists[l := Seqs.Remove(s.lists[l], k)])
  }

  // The switch on newstate, and c_isidle.
  ghost function Placed(s: State, c: int): State
    requires Shaped(s) && 0 <= c < |s.cpus| && s.cpus[c].phase.Locked?
  {
    var C, t := s.cpus[c], s.cpus[c].current;
    var T := s.threads[t];
    var (T', l) := match C.phase.how
      case ToReady => (T.(state := Ready), Rq(c))
      case ToSleep(w) => (SpinRelease(Now(s, c)).t.(state := Sleep), Chan(w))
      case ToZombie => (T.(state := Zombie), Zombies(c));
    State(s.cpus[c := C.(isidle := true, phase := Picking)], s.threads[t := T'.(loc := l)],
      s.lists[l := s.lists[l] + [t]])
  }

  // threadlist_remhead on the own run queue; without a thread the CPU goes idle.
  ghost function Picked(s: State, c: int): State
    requires Shaped(s) && 0 <= c < |s.cpus|
  {
    var C, l := s.cpus[c], s.lists[Rq(c)];
    if l == [] then
      var y := SpinRelease(Now(s, c));
      Local(s, c, C.(irq := y.irq, locked := false, phase := Idle, awake := false), y.t)
    else
      State(s.cpus[c := C.(isidle := false, phase := Chosen(l[0]))],
            s.threads[l[0] := s.threads[l[0]].(loc := Nowhere)], s.lists[Rq(c) := l[1..]])
  }

  // switchframe_switch: the old context is saved, then the new one is resumed.
  ghost function Switched(s: State, c: int): State
    requires Shaped(s) && 0 <= c < |s.cpus| && s.cpus[c].phase.Chosen? && s.cpus[c].phase.next in s.threads
  {
    var C, n := s.cpus[c], s.cpus[c].phase.next;
    var threads := s.threads[C.current := s.threads[C.current].(saved := true)];
    State(s.cpus[c := C.(current := n, phase := Tail)], threads[n := threads[n].(saved := false)], s.lists)
  }

  // remtail from the own run queue, addhead to the victims.
  ghost function MigTaken(s: State, c: int): State
    requires Shaped(s) && 0 <= c < |s.cpus| && s.cpus[c].mig.Take?
    requires s.lists[Rq(c)] != []
  {
    var C, l := s.cpus[c], s.lists[Rq(c)];
    var t := l[|l| - 1];
    State(s.cpus[c := C.(mig := Take(C.mig.i + 1, C.mig.left, C.mig.share))],
          s.threads[t := s.threads[t].(loc := Victims(c))],
          s.lists[Rq(c) := l[..|l| - 1]][Victims(c) := [t] + s.lists[Victims(c)]])
  }

  // One round of the transfer loop: curthread is shuffled to the end, others are migrated.
  ghost function MigSent(s: State, c: int): State
    requires Shaped(s) && 0 <= c < |s.cpus| && s.cpus[c].mig.Send? && 0 <= s.cpus[c].mig.i < |s.cpus|
      && s.cpus[c].mig.i != c
    requires s.lists[Victims(c)] != []
  {
    var C, v := s.cpus[c], s.lists[Victims(c)];
    var t := v[0];
    var cpus := s.cpus[c := C.(mig := Send(C.mig.i, C.mig.left - 1, C.mig.share))];
    if t == C.current then State(cpus, s.threads, s.lists[Victims(c) := v[1..] + [t]])
    else Runnable(State(cpus, s.threads, s.lists), t, s.threads[t], C.mig.i, s.lists[Victims(c) := v[1..]])
  }

  // Leftovers go back to the own run queue.
  ghost function MigReturned(s: State, c: int): State
    requires Shaped(s) && 0 <= c < |s.cpus| && s.cpus[c].mig.Send? && s.lists[Victims(c)] != []
  {
    var C, v := s.cpus[c], s.lists[Victims(c)];
    State(s.cpus[c := C.(mig := Send(C.mig.i, 0, C.mig.share))], s.threads[v[0] := s.threads[v[0]].(loc := Rq(c))],
          s.lists[Victims(c) := v[1..]][Rq(c) := s.lists[Rq(c)] + [v[0]]])
  }
}

/**
 * Every step of the dispatcher keeps its invariant, and what follows from it.
 */
module DispatcherProof {
  import opened Seqs
  import opened Dispatcher

  lemma InvShaped(s: State)
    requires Inv(s)
    ensures Shaped(s)
  {
    forall l, i | 0 <= i < |s.lists[l]| ensures s.lists[l][i] in s.threads {
      var t := s.lists[l][i];
      assert t in s.lists[l];
    }
    forall c | 0 <= c < |s.cpus| ensures s.cpus[c].current in s.threads {
      assert CurrentOk(s.cpus, s.threads, c);
    }
  }

  // ---------------------------------------------------------------- steps without a list

  /**
   * A step that changes one CPU and its current thread, moving it neither onto a list nor
   * off one.
   */
  ghost predicate LocalChange(s: State, c: int, C': Cpu, T': Thread) {
    && Shaped(s) && 0 <= c < |s.cpus|
    && var C, T := s.cpus[c], Cur(s, c);
    && C'.current == C.current && !C.phase.Chosen? && !C'.phase.Chosen?
    && T'.cpu == T.cpu && T'.saved == T.saved && T'.loc == T.loc && Accounted(T')
    && (T'.state == T.state || T.loc == Nowhere)
    && Charged(C'.phase, T') && (OffLists(C'.phase) <==> OffLists(C.phase))
    && (!C'.phase.Idle? ==> (C'.irq <==> T'.count == 0))
    && (C.phase.Idle? && !C'.phase.Idle? ==> s.lists[Wake(C.current)] == [])
    && CpuOk(Local(s, c, C', T'), c)
  }

  lemma LocalPlaces(s: State, c: int, C': Cpu, T': Thread)
    requires Inv(s) && LocalChange(s, c, C', T')
    ensures Places(Local(s, c, C', T').threads, s.lists)
  {
  }

  lemma LocalCurrent(s: State, c: int, C': Cpu, T': Thread, d: int)
    requires Inv(s) && LocalChange(s, c, C', T') && 0 <= d < |s.cpus|
    ensures var s' := Local(s, c, C', T'); CurrentOk(s'.cpus, s'.threads, d)
  {
    assert CurrentOk(s.cpus, s.threads, c) && CurrentOk(s.cpus, s.threads, d);
  }

  lemma LocalThread(s: State, c: int, C': Cpu, T': Thread, t: int)
    requires Inv(s) && LocalChange(s, c, C', T') && t in s.threads
    ensures ThreadOk(Local(s, c, C', T'), t)
  {
    assert CurrentOk(s.cpus, s.threads, c) && ThreadOk(s, t) && ThreadOk(s, s.cpus[c].current);
  }

  lemma LocalInv(s: State, c: int, C': Cpu, T': Thread)
    requires Inv(s) && LocalChange(s, c, C', T')
    ensures Inv(Local(s, c, C', T'))
  {
    var s' := Local(s, c, C', T');
    LocalPlaces(s, c, C', T');
    forall d | 0 <= d < |s'.cpus| ensures CurrentOk(s'.cpus, s'.threads, d) && CpuOk(s', d) {
      LocalCurrent(s, c, C', T', d);
      assert CpuOk(s, d);
    }
    forall t | t in s'.threads ensures ThreadOk(s', t) {
      LocalThread(s, c, C', T', t);
    }
  }

  // ---------------------------------------------------------------- moving a thread

  /**
   * Thread t, with its record now T', goes from the list it is on to another; nothing else
   * changes its place.
   */
  ghost predicate Moves(threads: map<int, Thread>, lists: imap<Loc, seq<int>>, t: int, T': Thread,
                        lists': imap<Loc, seq<int>>)
  {
    && t in threads && (forall l :: l in lists) && (forall l :: l in lists') && threads[t].loc != T'.loc
    && (forall l :: l != threads[t].loc && l != T'.loc ==> lists'[l] == lists[l])
    && lists'[Nowhere] == []
    && (threads[t].loc != Nowhere ==> Without(lists[threads[t].loc], lists'[threads[t].loc], t))
    && (T'.loc != Nowhere ==> Without(lists'[T'.loc], lists[T'.loc], t))
  }

  // s is r with t added somewhere.
  ghost predicate Without(s: seq<int>, r: seq<int>, t: int) {
    && t in s && t !in r && (NoDup(s) <==> NoDup(r)) && |s| == |r| + 1
    && forall x :: x in s <==> x in r || x == t
  }

  lemma TailWithout(s: seq<int>)
    requires NoDup(s) && s != []
    ensures Without(s, s[1..], s[0])
  {
    var r := s[1..];
    assert s == [s[0]] + r;
  }

  lemma LastWithout(s: seq<int>)
    requires NoDup(s) && s != []
    ensures Without(s, s[..|s| - 1], s[|s| - 1])
  {
    var r := s[..|s| - 1];
    assert s == r + [s[|s| - 1]];
  }

  lemma AddedWithout(r: seq<int>, t: int)
    requires t !in r
    ensures Without(r + [t], r, t) && Without([t] + r, r, t)
  {
    if NoDup(r + [t]) || NoDup([t] + r) {
      forall i, j | 0 <= i < j < |r| ensures r[i] != r[j] {
        assert (r + [t])[i] == r[i] && (r + [t])[j] == r[j] && ([t] + r)[i + 1] == r[i] && ([t] + r)[j + 1] == r[j];
      }
    }
  }

  lemma MovesPlaces(threads: map<int, Thread>, lists: imap<Loc, seq<int>>, t: int, T': Thread,
                    lists': imap<Loc, seq<int>>)
    requires Places(threads, lists) && Moves(threads, lists, t, T', lists')
    ensures Places(threads[t := T'], lists')
  {
    var threads' := threads[t := T'];
    forall l, u | u in lists'[l] ensures u in threads' && threads'[u].loc == l {
      if u != t {
        assert u in lists[l];
      }
    }
    forall u | u in threads' && threads'[u].loc != Nowhere ensures u in lists'[threads'[u].loc] {
      if u != t {
        assert u in lists[threads[u].loc];
      }
    }
  }

  ghost predicate SameButSignals(C: Cpu, C': Cpu) {
    C'.current == C.current && C'.phase == C.phase && C'.irq == C.irq && C'.locked == C.locked && C'.isidle == C.isidle
  }

  /**
   * A step that moves one thread between two lists, and may move it to another CPU if its
   * context is saved.
   */
  ghost predicate MoveChange(s: State, t: int, T': Thread, s': State) {
    && s'.threads == s.threads[t := T'] && Moves(s.threads, s.lists, t, T', s'.lists)
    && |s'.cpus| == |s.cpus| && (forall c :: 0 <= c < |s.cpus| ==> SameButSignals(s.cpus[c], s'.cpus[c]))
    && var T := s.threads[t];
    && T.loc != Nowhere && T' == T.(loc := T'.loc, cpu := T'.cpu)
    && 0 <= T'.cpu < |s.cpus| && (T'.cpu != T.cpu ==> T.saved)
    && match T'.loc
       case Rq(c) => c == T'.cpu
       case Victims(c) => c == T'.cpu
       case Wake(u) => u in s.threads
         && (s.threads[u].loc.Zombies? ==>
           && 0 <= s.threads[u].cpu < |s.cpus| && !s.threads[u].saved
           && s.cpus[s.threads[u].cpu].phase.Idle?)
       case _ => false
  }

  lemma MoveCurrent(s: State, t: int, T': Thread, s': State, d: int)
    requires Inv(s) && MoveChange(s, t, T', s') && 0 <= d < |s.cpus|
    ensures CurrentOk(s'.cpus, s'.threads, d)
  {
    hide Places, Without;
    assert CurrentOk(s.cpus, s.threads, d) && SameButSignals(s.cpus[d], s'.cpus[d]) && ThreadOk(s, t);
  }

  lemma MoveThread(s: State, t: int, T': Thread, s': State, u: int)
    requires Inv(s) && MoveChange(s, t, T', s') && u in s.threads
    ensures (forall l :: l in s'.lists) && ThreadOk(s', u)
  {
    hide Without;
    var T, U := s.threads[t], s.threads[u];
    assert ThreadOk(s, u) && ThreadOk(s, t) && SameButSignals(s.cpus[U.cpu], s'.cpus[U.cpu]);
    assert SameButSignals(s.cpus[T.cpu], s'.cpus[T.cpu]);
  }

  lemma MoveInv(s: State, t: int, T': Thread, s': State)
    requires Inv(s) && MoveChange(s, t, T', s') && forall c :: 0 <= c < |s.cpus| ==> CpuOk(s', c)
    ensures Inv(s')
  {
    MovesPlaces(s.threads, s.lists, t, T', s'.lists);
    forall d | 0 <= d < |s'.cpus| ensures CurrentOk(s'.cpus, s'.threads, d) {
      MoveCurrent(s, t, T', s', d);
    }
    forall u | u in s'.threads ensures ThreadOk(s', u) {
      MoveThread(s, t, T', s', u);
    }
  }

  // ---------------------------------------------------------------- each step

  lemma SpinStepInv(s: State, e: Event)
    requires Inv(s) && Enabled(s, e)
    requires e.Acquire? || e.Release? || e.SetSpl? || e.Interrupt? || e.EndInterrupt?
    ensures Inv(Step(s, e))
  {
    hide Places;
    var c := e.c;
    var T := Cur(s, c);
    assert CurrentOk(s.cpus, s.threads, c) && CpuOk(s, c) && ThreadOk(s, s.cpus[c].current);
    var s' := Step(s, e);
    LocalInv(s, c, s'.cpus[c], s'.threads[s.cpus[c].current]);
  }

  lemma EnterInv(s: State, e: Event)
    requires Inv(s) && Enabled(s, e) && (e.Enter? || e.Return?)
    ensures Inv(Step(s, e))
  {
    hide Places;
    var c := e.c;
    assert CurrentOk(s.cpus, s.threads, c) && CpuOk(s, c) && ThreadOk(s, s.cpus[c].current);
    var s' := Step(s, e);
    LocalInv(s, c, s'.cpus[c], s'.threads[s.cpus[c].current]);
  }

  lemma FinishInv(s: State, e: Event)
    requires Inv(s) && Enabled(s, e) && (e.Unlock? || e.Finish?)
    ensures Inv(Step(s, e))
  {
    hide Places;
    var c := e.c;
    assert CurrentOk(s.cpus, s.threads, c) && CpuOk(s, c) && ThreadOk(s, s.cpus[c].current);
    var s' := Step(s, e);
    LocalInv(s, c, s'.cpus[c], s'.threads[s.cpus[c].current]);
  }

  lemma IdleInv(s: State, e: Event)
    requires Inv(s) && Enabled(s, e)
    requires e.IdleInterrupt? || e.IdleIrq? || e.Leave? || (e.Pick? && s.lists[Rq(e.c)] == [])
    ensures Inv(Step(s, e))
  {
    hide Places;
    var c := e.c;
    assert CurrentOk(s.cpus, s.threads, c) && CpuOk(s, c) && ThreadOk(s, s.cpus[c].current);
    var s' := Step(s, e);
    LocalInv(s, c, s'.cpus[c], s'.threads[s.cpus[c].current]);
  }

  lemma ShareBound(total: int, n: int)
    requires total >= 0 && n > 0
    ensures DivRoundUp(total, n) >= 0
  {
  }

  // The steps of a migration that move no thread.
  ghost predicate MigLocal(s: State, e: Event)
    requires Enabled(s, e)
  {
    var C := s.cpus[e.c];
    match e
    case MigStart(_) => true
    case MigCount(_) => true
    case MigDecide(_) => true
    case MigTake(_) => C.mig.i == C.mig.left
    case MigSend(_) => C.mig.i == e.c || |s.lists[Rq(C.mig.i)]| >= C.mig.share
    case MigBack(_) => s.lists[Victims(e.c)] == []
    case _ => false
  }

  lemma MigLocalInv(s: State, e: Event)
    requires Inv(s) && Enabled(s, e) && MigLocal(s, e)
    ensures Inv(Step(s, e))
  {
    hide Places;
    var c := e.c;
    assert CurrentOk(s.cpus, s.threads, c) && CpuOk(s, c) && ThreadOk(s, s.cpus[c].current);
    if e.MigDecide? {
      ShareBound(s.cpus[c].mig.total, |s.cpus|);
    }
    var s' := Step(s, e);
    LocalInv(s, c, s'.cpus[c], s'.threads[s.cpus[c].current]);
  }

  lemma NotOnOther(threads: map<int, Thread>, lists: imap<Loc, seq<int>>, t: int, l: Loc)
    requires Places(threads, lists) && t in threads && threads[t].loc != l
    ensures t !in lists[l]
  {
  }

  // No thread is current on two CPUs.
  lemma CurrentUnique(s: State, c: int, d: int)
    requires Inv(s) && 0 <= c < |s.cpus| && 0 <= d < |s.cpus| && c != d
    ensures s.cpus[c].current != s.cpus[d].current
  {
    assert CurrentOk(s.cpus, s.threads, c) && CurrentOk(s.cpus, s.threads, d);
  }

  // The head of one list goes to the tail of another.
  lemma HeadMoves(threads: map<int, Thread>, lists: imap<Loc, seq<int>>, from: Loc, to: Loc, T': Thread)
    requires Places(threads, lists) && lists[from] != [] && from != to && to != Nowhere && T'.loc == to
    ensures var t := lists[from][0];
            && t in threads && threads[t].loc == from && from != Nowhere
            && Moves(threads, lists, t, T', lists[from := lists[from][1..]][to := lists[to] + [t]])
  {
    var t := lists[from][0];
    assert t in lists[from];
    TailWithout(lists[from]);
    NotOnOther(threads, lists, t, to);
    AddedWithout(lists[to], t);
  }

  // The last of one list goes to the front of another.
  lemma LastMoves(threads: map<int, Thread>, lists: imap<Loc, seq<int>>, from: Loc, to: Loc, T': Thread)
    requires Places(threads, lists) && lists[from] != [] && from != to && to != Nowhere && T'.loc == to
    ensures var t := lists[from][|lists[from]| - 1];
            && t in threads && threads[t].loc == from && from != Nowhere
            && Moves(threads, lists, t, T', lists[from := lists[from][..|lists[from]| - 1]][to := [t] + lists[to]])
  {
    var t := lists[from][|lists[from]| - 1];
    assert t in lists[from];
    LastWithout(lists[from]);
    NotOnOther(threads, lists, t, to);
    AddedWithout(lists[to], t);
  }

  lemma WakeTakeInv(s: State, c: int, w: int)
    requires Inv(s) && Shaped(s) && 0 <= c < |s.cpus| && Executes(s, c) && s.lists[Chan(w)] != []
    ensures Inv(WakeTaken(s, c, w))
  {
    hide Places, Moves;
    var s', t, u := WakeTaken(s, c, w), s.lists[Chan(w)][0], s.cpus[c].current;
    HeadMoves(s.threads, s.lists, Chan(w), Wake(u), s'.threads[t]);
    assert CurrentOk(s.cpus, s.threads, c) && ThreadOk(s, t) && ThreadOk(s, u);
    forall d | 0 <= d < |s.cpus| ensures CpuOk(s', d) {
      assert CpuOk(s, d);
      if c != d {
        CurrentUnique(s, c, d);
      }
    }
    MoveInv(s, t, s'.threads[t], s');
  }

  // Any element of one list goes to the tail of another.
  lemma AnyMoves(threads: map<int, Thread>, lists: imap<Loc, seq<int>>, from: Loc, k: nat, to: Loc, T': Thread)
    requires Places(threads, lists) && k < |lists[from]| && from != to && to != Nowhere && T'.loc == to
    ensures var t := lists[from][k];
            && t in threads && threads[t].loc == from && from != Nowhere
            && Moves(threads, lists, t, T', lists[from := Remove(lists[from], k)][to := lists[to] + [t]])
  {
    var t := lists[from][k];
    assert t in lists[from];
    RemoveNoDup(lists[from], k);
    NotOnOther(threads, lists, t, to);
    AddedWithout(lists[to], t);
  }

  lemma WakePutInv(s: State, c: int, k: nat)
    requires Inv(s) && Shaped(s) && 0 <= c < |s.cpus| && k < |s.lists[Wake(s.cpus[c].current)]|
    requires Targetable(s, s.lists[Wake(s.cpus[c].current)][k])
    ensures Inv(WakeDone(s, c, k))
  {
    hide Places, Moves;
    var s', u := WakeDone(s, c, k), s.cpus[c].current;
    var t := s.lists[Wake(u)][k];
    AnyMoves(s.threads, s.lists, Wake(u), k, Rq(s.threads[t].cpu), s'.threads[t]);
    assert ThreadOk(s, t);
    forall d | 0 <= d < |s.cpus| ensures CpuOk(s', d) {
      assert CpuOk(s, d);
    }
    MoveInv(s, t, s'.threads[t], s');
  }

  lemma MigTakeInv(s: State, c: int)
    requires Inv(s) && Shaped(s) && 0 <= c < |s.cpus| && s.cpus[c].mig.Take? && s.lists[Rq(c)] != []
      && s.cpus[c].mig.i != s.cpus[c].mig.left
    ensures Inv(MigTaken(s, c))
  {
    hide Places, Moves;
    var s', l := MigTaken(s, c), s.lists[Rq(c)];
    var t := l[|l| - 1];
    LastMoves(s.threads, s.lists, Rq(c), Victims(c), s'.threads[t]);
    assert ThreadOk(s, t);
    forall d | 0 <= d < |s.cpus| ensures CpuOk(s', d) {
      assert CpuOk(s, d);
    }
    MoveInv(s, t, s'.threads[t], s');
  }

  lemma MigSentCpu(s: State, c: int, b: int)
    requires Inv(s) && Shaped(s) && 0 <= c < |s.cpus| && s.cpus[c].mig.Send? && s.cpus[c].mig.left > 0
    requires s.cpus[c].mig.i != c && 0 <= s.cpus[c].mig.i < |s.cpus| && !s.cpus[s.cpus[c].mig.i].locked
    requires s.lists[Victims(c)] != [] && s.lists[Victims(c)][0] != s.cpus[c].current
    requires 0 <= b < |s.cpus|
    ensures CpuOk(MigSent(s, c), b) && SameButSignals(s.cpus[b], MigSent(s, c).cpus[b])
  {
    hide Places, CurrentOk, ThreadOk, NoDup, Charged, Accounted;
    var d, s' := s.cpus[c].mig.i, MigSent(s, c);
    assert CpuOk(s, b);
    hide Inv;
    assert s'.lists[Wake(s.cpus[b].current)] == s.lists[Wake(s.cpus[b].current)];
    if b == c {
      assert |s'.lists[Victims(c)]| == |s.lists[Victims(c)]| - 1 && s'.lists[Rq(c)] == s.lists[Rq(c)];
    } else if b == d {
      assert s'.lists[Victims(b)] == s.lists[Victims(b)] && |s'.lists[Rq(b)]| == |s.lists[Rq(b)]| + 1;
    } else {
      assert s'.lists[Victims(b)] == s.lists[Victims(b)] && s'.lists[Rq(b)] == s.lists[Rq(b)];
    }
  }

  /**
   * A victim that is not the current thread has its context saved, so it may change CPU.
   */
  lemma MigSentInv(s: State, c: int)
    requires Inv(s) && Shaped(s) && 0 <= c < |s.cpus| && s.cpus[c].mig.Send? && s.cpus[c].mig.left > 0
    requires s.cpus[c].mig.i != c && 0 <= s.cpus[c].mig.i < |s.cpus| && !s.cpus[s.cpus[c].mig.i].locked
    requires s.lists[Victims(c)] != [] && s.lists[Victims(c)][0] != s.cpus[c].current
    ensures s.threads[s.lists[Victims(c)][0]].saved && Inv(MigSent(s, c))
  {
    hide Places, Moves, CpuOk, CurrentOk;
    var s', t, d := MigSent(s, c), s.lists[Victims(c)][0], s.cpus[c].mig.i;
    HeadMoves(s.threads, s.lists, Victims(c), Rq(d), s'.threads[t]);
    assert ThreadOk(s, t) && s.threads[t].saved;
    forall b | 0 <= b < |s.cpus| ensures CpuOk(s', b) && SameButSignals(s.cpus[b], s'.cpus[b]) {
      MigSentCpu(s, c, b);
    }
    MoveInv(s, t, s'.threads[t], s');
  }

  lemma MigReturnedInv(s: State, c: int)
    requires Inv(s) && Shaped(s) && 0 <= c < |s.cpus| && s.cpus[c].mig.Send? && s.lists[Victims(c)] != []
    ensures Inv(MigReturned(s, c))
  {
    hide Places, Moves;
    var s', t := MigReturned(s, c), s.lists[Victims(c)][0];
    HeadMoves(s.threads, s.lists, Victims(c), Rq(c), s'.threads[t]);
    assert ThreadOk(s, t);
    forall b | 0 <= b < |s.cpus| ensures CpuOk(s', b) {
      assert CpuOk(s, b);
    }
    MoveInv(s, t, s'.threads[t], s');
  }

  lemma ShufflePlaces(threads: map<int, Thread>, lists: imap<Loc, seq<int>>, l: Loc)
    requires Places(threads, lists) && lists[l] != []
    ensures Places(threads, lists[l := lists[l][1..] + [lists[l][0]]])
  {
    var v := lists[l];
    var v' := v[1..] + [v[0]];
    TailWithout(v);
    AddedWithout(v[1..], v[0]);
    var lists' := lists[l := v'];
    forall k, t | t in lists'[k] ensures t in threads && threads[t].loc == k {
      assert t in lists[k];
    }
    forall t | t in threads && threads[t].loc != Nowhere ensures t in lists'[threads[t].loc] {
      assert t in lists[threads[t].loc];
    }
  }

  // The current thread is shuffled to the end of the victims.
  lemma ShuffleInv(s: State, c: int)
    requires Inv(s) && Shaped(s) && 0 <= c < |s.cpus| && s.cpus[c].mig.Send? && s.cpus[c].mig.left > 0
      && s.cpus[c].mig.i != c && 0 <= s.cpus[c].mig.i < |s.cpus|
    requires !s.cpus[s.cpus[c].mig.i].locked && s.lists[Victims(c)] != [] && s.lists[Victims(c)][0] == s.cpus[c].current
    ensures Inv(MigSent(s, c))
  {
    hide Places;
    var s' := MigSent(s, c);
    ShufflePlaces(s.threads, s.lists, Victims(c));
    forall d | 0 <= d < |s'.cpus| ensures CurrentOk(s'.cpus, s'.threads, d) && CpuOk(s', d) {
      assert CurrentOk(s.cpus, s.threads, d) && CpuOk(s, d);
    }
    forall u | u in s'.threads ensures ThreadOk(s', u) {
      assert ThreadOk(s, u);
    }
  }

  // ---------------------------------------------------------------- thread_switch

  lemma PlaceMoves(s: State, c: int)
    requires Inv(s) && Shaped(s) && 0 <= c < |s.cpus| && s.cpus[c].phase.Locked?
    ensures var s', t := Placed(s, c), s.cpus[c].current;
            Moves(s.threads, s.lists, t, s'.threads[t], s'.lists) && s.threads[t].loc == Nowhere
  {
    var s', t := Placed(s, c), s.cpus[c].current;
    var l := s'.threads[t].loc;
    assert CurrentOk(s.cpus, s.threads, c) && s.threads[t].loc == Nowhere;
    NotOnOther(s.threads, s.lists, t, l);
    AddedWithout(s.lists[l], t);
  }

  lemma PlaceCpu(s: State, c: int, d: int)
    requires Inv(s) && Shaped(s) && 0 <= c < |s.cpus| && s.cpus[c].phase.Locked? && 0 <= d < |s.cpus|
    ensures var s' := Placed(s, c); CurrentOk(s'.cpus, s'.threads, d) && CpuOk(s', d)
  {
    hide Places;
    assert CurrentOk(s.cpus, s.threads, c) && ThreadOk(s, s.cpus[c].current) && CpuOk(s, c);
    assert CurrentOk(s.cpus, s.threads, d) && CpuOk(s, d);
  }

  lemma PlaceThread(s: State, c: int, u: int)
    requires Inv(s) && Shaped(s) && 0 <= c < |s.cpus| && s.cpus[c].phase.Locked? && u in s.threads
    ensures ThreadOk(Placed(s, c), u)
  {
    hide Places;
    assert CurrentOk(s.cpus, s.threads, c) && ThreadOk(s, s.cpus[c].current) && CpuOk(s, c);
    assert ThreadOk(s, u);
  }

  lemma PlaceInv(s: State, c: int)
    requires Inv(s) && Shaped(s) && 0 <= c < |s.cpus| && s.cpus[c].phase.Locked?
    ensures Inv(Placed(s, c))
  {
    hide Places, Moves, ThreadOk, CpuOk, CurrentOk;
    var s', t := Placed(s, c), s.cpus[c].current;
    PlaceMoves(s, c);
    MovesPlaces(s.threads, s.lists, t, s'.threads[t], s'.lists);
    forall d | 0 <= d < |s'.cpus| ensures CurrentOk(s'.cpus, s'.threads, d) && CpuOk(s', d) {
      PlaceCpu(s, c, d);
    }
    forall u | u in s'.threads ensures ThreadOk(s', u) {
      PlaceThread(s, c, u);
    }
  }

  // A thread taken off the run queue of a CPU has that CPU as its own.
  lemma PickMoves(s: State, c: int)
    requires Inv(s) && Shaped(s) && 0 <= c < |s.cpus| && s.cpus[c].phase.Picking? && s.lists[Rq(c)] != []
    ensures var s', n := Picked(s, c), s.lists[Rq(c)][0];
            && n in s.threads && s.threads[n].loc == Rq(c) && s.threads[n].cpu == c
            && Moves(s.threads, s.lists, n, s'.threads[n], s'.lists)
  {
    var s', n := Picked(s, c), s.lists[Rq(c)][0];
    assert n in s.lists[Rq(c)] && ThreadOk(s, n);
    TailWithout(s.lists[Rq(c)]);
  }

  lemma PickCpu(s: State, c: int, d: int)
    requires Inv(s) && Shaped(s) && 0 <= c < |s.cpus| && s.cpus[c].phase.Picking? && s.lists[Rq(c)] != []
      && 0 <= d < |s.cpus|
    ensures var s' := Picked(s, c); CurrentOk(s'.cpus, s'.threads, d) && CpuOk(s', d)
  {
    PickMoves(s, c);
    hide Places, Accounted, Moves;
    var s', t := Picked(s, c), s.lists[Rq(c)][0];
    assert CurrentOk(s.cpus, s.threads, c) && CpuOk(s, c) && ThreadOk(s, t);
    assert CurrentOk(s.cpus, s.threads, d) && CpuOk(s, d);
    hide Inv, ThreadOk;
    assert s'.lists[Victims(d)] == s.lists[Victims(d)];
    assert s'.lists[Wake(s.cpus[d].current)] == s.lists[Wake(s.cpus[d].current)];
    if d != c {
      assert s'.lists[Rq(d)] == s.lists[Rq(d)] && s'.cpus[d] == s.cpus[d];
    }
  }

  lemma PickThread(s: State, c: int, u: int)
    requires Inv(s) && Shaped(s) && 0 <= c < |s.cpus| && s.cpus[c].phase.Picking? && s.lists[Rq(c)] != []
      && u in s.threads
    ensures ThreadOk(Picked(s, c), u)
  {
    PickMoves(s, c);
    hide Places, Moves;
    assert CurrentOk(s.cpus, s.threads, c) && CpuOk(s, c) && ThreadOk(s, u);
  }

  lemma PickInv(s: State, c: int)
    requires Inv(s) && Shaped(s) && 0 <= c < |s.cpus| && s.cpus[c].phase.Picking? && s.lists[Rq(c)] != []
    ensures Inv(Picked(s, c))
  {
    hide Places, Moves, ThreadOk, CpuOk, CurrentOk;
    var s', n := Picked(s, c), s.lists[Rq(c)][0];
    PickMoves(s, c);
    MovesPlaces(s.threads, s.lists, n, s'.threads[n], s'.lists);
    forall d | 0 <= d < |s'.cpus| ensures CurrentOk(s'.cpus, s'.threads, d) && CpuOk(s', d) {
      PickCpu(s, c, d);
    }
    forall u | u in s'.threads ensures ThreadOk(s', u) {
      PickThread(s, c, u);
    }
  }

  /**
   * A thread is resumed only if its context has been saved: it is the very thread being
   * switched away from, or it was saved before.  It is current on no other CPU.
   */
  lemma ResumesSaved(s: State, c: int)
    requires Inv(s) && Shaped(s) && 0 <= c < |s.cpus| && s.cpus[c].phase.Chosen? && s.cpus[c].phase.next in s.threads
    ensures var n := s.cpus[c].phase.next;
            && (n == s.cpus[c].current || s.threads[n].saved)
            && s.threads[n].cpu == c && forall d :: 0 <= d < |s.cpus| && d != c ==> s.cpus[d].current != n
  {
    var n := s.cpus[c].phase.next;
    assert CurrentOk(s.cpus, s.threads, c) && ThreadOk(s, n);
    forall d | 0 <= d < |s.cpus| && d != c ensures s.cpus[d].current != n {
      assert CurrentOk(s.cpus, s.threads, d);
    }
  }

  lemma SwitchCpu(s: State, c: int, d: int)
    requires Inv(s) && Shaped(s) && 0 <= c < |s.cpus| && s.cpus[c].phase.Chosen? && s.cpus[c].phase.next in s.threads
      && 0 <= d < |s.cpus|
    ensures var s' := Switched(s, c); CurrentOk(s'.cpus, s'.threads, d) && CpuOk(s', d)
  {
    ResumesSaved(s, c);
    hide Places;
    assert CurrentOk(s.cpus, s.threads, c) && CpuOk(s, c) && ThreadOk(s, s.cpus[c].phase.next)
      && ThreadOk(s, s.cpus[c].current);
    assert CurrentOk(s.cpus, s.threads, d) && CpuOk(s, d);
  }

  lemma SwitchThread(s: State, c: int, u: int)
    requires Inv(s) && Shaped(s) && 0 <= c < |s.cpus| && s.cpus[c].phase.Chosen? && s.cpus[c].phase.next in s.threads
      && u in s.threads
    ensures ThreadOk(Switched(s, c), u)
  {
    ResumesSaved(s, c);
    hide Places;
    assert CurrentOk(s.cpus, s.threads, c) && CpuOk(s, c) && ThreadOk(s, s.cpus[c].phase.next) && ThreadOk(s, u);
  }

  lemma SwitchInv(s: State, c: int)
    requires Inv(s) && Shaped(s) && 0 <= c < |s.cpus| && s.cpus[c].phase.Chosen? && s.cpus[c].phase.next in s.threads
    ensures Inv(Switched(s, c))
  {
    hide ThreadOk, CpuOk, CurrentOk;
    var s' := Switched(s, c);
    forall d | 0 <= d < |s'.cpus| ensures CurrentOk(s'.cpus, s'.threads, d) && CpuOk(s', d) {
      SwitchCpu(s, c, d);
    }
    forall u | u in s'.threads ensures ThreadOk(s', u) {
      SwitchThread(s, c, u);
    }
    assert forall u :: u in s'.threads ==> s'.threads[u].loc == s.threads[u].loc;
  }

  // ---------------------------------------------------------------- creation and destruction

  lemma ForkPlaces(s: State, c: int, t: int)
    requires Inv(s) && Shaped(s) && 0 <= c < |s.cpus| && Executes(s, c) && s.cpus[c].phase.Running? && t !in s.threads
    ensures Places(Forked(s, c, t).threads, Forked(s, c, t).lists)
  {
    var s', l := Forked(s, c, t), Wake(s.cpus[c].current);
    assert t in s.lists[l] ==> t in s.threads;
    AddedWithout(s.lists[l], t);
    forall k, u | u in s'.lists[k] ensures u in s'.threads && s'.threads[u].loc == k {
      if u != t {
        assert u in s.lists[k];
      }
    }
  }

  lemma ForkCpu(s: State, c: int, t: int, d: int)
    requires Inv(s) && Shaped(s) && 0 <= c < |s.cpus| && Executes(s, c) && s.cpus[c].phase.Running? && t !in s.threads
    requires 0 <= d < |s.cpus|
    ensures CurrentOk(s.cpus, Forked(s, c, t).threads, d) && CpuOk(Forked(s, c, t), d)
  {
    hide Places;
    assert CurrentOk(s.cpus, s.threads, d) && CpuOk(s, d);
    if c != d {
      CurrentUnique(s, c, d);
    }
  }

  // A new thread starts with the run-queue lock and spl charged.
  lemma ForkThread(s: State, c: int, t: int, u: int)
    requires Inv(s) && Shaped(s) && 0 <= c < |s.cpus| && Executes(s, c) && s.cpus[c].phase.Running? && t !in s.threads
    requires u in Forked(s, c, t).threads
    ensures ThreadOk(Forked(s, c, t), u)
  {
    hide Places;
    assert CurrentOk(s.cpus, s.threads, c) && ThreadOk(s, s.cpus[c].current);
    assert u != t ==> ThreadOk(s, u);
  }

  lemma ForkInv(s: State, c: int, t: int)
    requires Inv(s) && Shaped(s) && 0 <= c < |s.cpus| && Executes(s, c) && s.cpus[c].phase.Running? && t !in s.threads
    ensures Inv(Forked(s, c, t))
  {
    ForkPlaces(s, c, t);
    hide Places, CpuOk, CurrentOk, ThreadOk;
    var s' := Forked(s, c, t);
    forall d | 0 <= d < |s'.cpus| ensures CurrentOk(s'.cpus, s'.threads, d) && CpuOk(s', d) {
      ForkCpu(s, c, t, d);
    }
    forall u | u in s'.threads ensures ThreadOk(s', u) {
      ForkThread(s, c, t, u);
    }
  }

  /**
   * exorcise destroys a thread that exited, is current on no CPU and is waking nobody.
   */
  lemma ExorcisesZombie(s: State, c: int)
    requires Inv(s) && Shaped(s) && 0 <= c < |s.cpus| && s.cpus[c].phase.Cleanup? && s.lists[Zombies(c)] != []
    ensures var z := s.lists[Zombies(c)][0];
            && s.threads[z].state == Zombie && s.threads[z].saved && s.lists[Wake(z)] == []
            && forall d :: 0 <= d < |s.cpus| ==> s.cpus[d].current != z && s.cpus[d].phase != Chosen(z)
  {
    var z := s.lists[Zombies(c)][0];
    assert z in s.lists[Zombies(c)] && ThreadOk(s, z) && CurrentOk(s.cpus, s.threads, c);
    forall d | 0 <= d < |s.cpus| ensures s.cpus[d].current != z && s.cpus[d].phase != Chosen(z) {
      assert CurrentOk(s.cpus, s.threads, d);
    }
  }

  lemma ExorcisePlaces(s: State, c: int)
    requires Inv(s) && Shaped(s) && 0 <= c < |s.cpus| && s.cpus[c].phase.Cleanup? && s.lists[Zombies(c)] != []
    ensures Places(Exorcised(s, c).threads, Exorcised(s, c).lists)
  {
    var s', l := Exorcised(s, c), Zombies(c);
    var z := s.lists[l][0];
    assert z in s.lists[l];
    TailWithout(s.lists[l]);
    forall k, u | u in s'.lists[k] ensures u in s'.threads && s'.threads[u].loc == k {
      assert u in s.lists[k];
    }
    forall u | u in s'.threads && s'.threads[u].loc != Nowhere ensures u in s'.lists[s'.threads[u].loc] {
      assert u in s.lists[s.threads[u].loc];
    }
  }

  lemma NobodyOn(threads: map<int, Thread>, lists: imap<Loc, seq<int>>, l: Loc)
    requires Places(threads, lists) && lists[l] == [] && l != Nowhere
    ensures forall t :: t in threads ==> threads[t].loc != l
  {
  }

  lemma ExorciseCpu(s: State, c: int, d: int)
    requires Inv(s) && Shaped(s) && 0 <= c < |s.cpus| && s.cpus[c].phase.Cleanup? && s.lists[Zombies(c)] != []
    requires 0 <= d < |s.cpus|
    ensures CurrentOk(s.cpus, Exorcised(s, c).threads, d) && CpuOk(Exorcised(s, c), d)
  {
    ExorcisesZombie(s, c);
    hide Places;
    assert CurrentOk(s.cpus, s.threads, d) && CpuOk(s, d);
  }

  lemma ExorciseThread(s: State, c: int, u: int)
    requires Inv(s) && Shaped(s) && 0 <= c < |s.cpus| && s.cpus[c].phase.Cleanup? && s.lists[Zombies(c)] != []
    requires u in Exorcised(s, c).threads
    ensures ThreadOk(Exorcised(s, c), u)
  {
    ExorcisesZombie(s, c);
    NobodyOn(s.threads, s.lists, Wake(s.lists[Zombies(c)][0]));
    hide Places;
    assert ThreadOk(s, u);
  }

  lemma ExorciseInv(s: State, c: int)
    requires Inv(s) && Shaped(s) && 0 <= c < |s.cpus| && s.cpus[c].phase.Cleanup? && s.lists[Zombies(c)] != []
    ensures Inv(Exorcised(s, c))
  {
    ExorcisePlaces(s, c);
    hide Places, CpuOk, CurrentOk, ThreadOk;
    var s' := Exorcised(s, c);
    forall d | 0 <= d < |s'.cpus| ensures CurrentOk(s'.cpus, s'.threads, d) && CpuOk(s', d) {
      ExorciseCpu(s, c, d);
    }
    forall u | u in s'.threads ensures ThreadOk(s', u) {
      ExorciseThread(s, c, u);
    }
  }

  // ---------------------------------------------------------------- every run

  predicate IsMigration(e: Event) {
    e.MigStart? || e.MigCount? || e.MigDecide? || e.MigTake? || e.MigSend? || e.MigBack?
  }

  lemma MigrationStepInv(s: State, e: Event)
    requires Inv(s) && Enabled(s, e) && IsMigration(e)
    ensures Inv(Step(s, e))
  {
    hide Inv;
    var c := e.c;
    if MigLocal(s, e) {
      MigLocalInv(s, e);
    } else if e.MigTake? {
      MigTakeInv(s, c);
    } else if e.MigBack? {
      MigReturnedInv(s, c);
    } else if s.lists[Victims(c)][0] == s.cpus[c].current {
      ShuffleInv(s, c);
    } else {
      MigSentInv(s, c);
    }
  }

  lemma ListStepInv(s: State, e: Event)
    requires Inv(s) && Enabled(s, e)
    requires e.Fork? || e.WakeTake? || e.WakePut? || e.Place? || e.Pick? || e.Switch? || e.Exorcise?
    ensures Inv(Step(s, e))
  {
    hide Inv;
    match e
    case Fork(c, t) => ForkInv(s, c, t);
    case WakeTake(c, w) => WakeTakeInv(s, c, w);
    case WakePut(c, k) => WakePutInv(s, c, k);
    case Place(c) => PlaceInv(s, c);
    case Pick(c) => if s.lists[Rq(c)] == [] { IdleInv(s, e); } else { PickInv(s, c); }
    case Switch(c) => SwitchInv(s, c);
    case Exorcise(c) => ExorciseInv(s, c);
  }

  lemma StepInv(s: State, e: Event)
    requires Inv(s) && Enabled(s, e)
    ensures Inv(Step(s, e))
  {
    hide Inv, Step, Enabled;
    if IsMigration(e) {
      MigrationStepInv(s, e);
    } else if e.Fork? || e.WakeTake? || e.WakePut? || e.Place? || e.Pick? || e.Switch? || e.Exorcise? {
      ListStepInv(s, e);
    } else if e.Enter? || e.Return? {
      EnterInv(s, e);
    } else if e.Unlock? || e.Finish? {
      FinishInv(s, e);
    } else if e.IdleInterrupt? || e.IdleIrq? || e.Leave? {
      IdleInv(s, e);
    } else {
      SpinStepInv(s, e);
    }
  }

  // Every CPU runs its own first thread, at high spl, and nothing else exists.
  ghost predicate Initial(s: State) {
    && (forall c :: 0 <= c < |s.cpus| ==> s.cpus[c] == Cpu(c, false, false, false, Running, NoMigration, false, false))
    && s.threads == (map c | 0 <= c < |s.cpus| :: Thread(c, false, Run, Nowhere, 1, true, 0, false, false))
    && (forall l :: l in s.lists) && (forall l :: s.lists[l] == [])
  }

  lemma InitialInv(s: State)
    requires Initial(s)
    ensures Inv(s)
  {
  }

  // A run: states and the events between them.
  ghost predicate IsRun(ss: seq<State>, es: seq<Event>) {
    && |ss| == |es| + 1 && Initial(ss[0])
    && forall i :: 0 <= i < |es| ==> Enabled(ss[i], es[i]) && ss[i + 1] == Step(ss[i], es[i])
  }

  lemma {:induction false} RunInv(ss: seq<State>, es: seq<Event>, i: nat)
    requires IsRun(ss, es) && i < |ss|
    ensures Inv(ss[i])
  {
    hide Inv, Enabled, Step;
    if i == 0 {
      InitialInv(ss[0]);
    } else {
      RunInv(ss, es, i - 1);
      assert Enabled(ss[i - 1], es[i - 1]) && ss[i] == Step(ss[i - 1], es[i - 1]);
      StepInv(ss[i - 1], es[i - 1]);
    }
  }

  /**
   * In every reachable state: the current thread of a CPU has that CPU as its own, its
   * context is not the saved one, and it is current nowhere else; whoever is on a run queue
   * or chosen belongs to that CPU; interrupts are on outside cpu_idle exactly when the
   * count of the current thread is 0; a thread that is switched out or was just forked has
   * the run-queue lock and spl charged and nothing else; and an idle CPU with work on its
   * queue has been signalled.
   */
  lemma RunSafe(ss: seq<State>, es: seq<Event>, i: nat, c: int, t: int)
    requires IsRun(ss, es) && i < |ss| && 0 <= c < |ss[i].cpus|
    ensures var s, C := ss[i], ss[i].cpus[c];
            && Shaped(s) && s.threads[C.current].cpu == c && !s.threads[C.current].saved
            && (forall d :: 0 <= d < |s.cpus| && d != c ==> s.cpus[d].current != C.current)
            && (t in s.lists[Rq(c)] || C.phase == Chosen(t) ==> t in s.threads && s.threads[t].cpu == c)
            && (!C.phase.Idle? ==> (C.irq <==> s.threads[C.current].count == 0))
            && (t in s.threads ==> Accounted(s.threads[t]))
            && (t in s.threads && s.threads[t].saved ==>
              && s.threads[t].high && s.threads[t].held == 1
              && s.threads[t].count == 2)
            && (C.phase.Idle? && s.lists[Rq(c)] != [] ==> C.ipi || C.awake)
  {
    RunInv(ss, es, i);
    var s := ss[i];
    InvShaped(s);
    assert CurrentOk(s.cpus, s.threads, c) && CpuOk(s, c);
    if t in s.threads {
      assert ThreadOk(s, t);
    }
    forall d | 0 <= d < |s.cpus| && d != c ensures s.cpus[d].current != s.cpus[c].current {
      CurrentUnique(s, c, d);
    }
  }

  /**
   * remtail and remhead never yield NULL in the loops of thread_consider_migration,
   * whatever the other CPUs did since the counting.
   */
  lemma NeverNull(s: State, c: int)
    requires Inv(s) && 0 <= c < |s.cpus|
    ensures s.cpus[c].mig.Take? && s.cpus[c].mig.i < s.cpus[c].mig.left ==> s.lists[Rq(c)] != []
    ensures s.cpus[c].mig.Send? && s.cpus[c].mig.left > 0 ==> s.lists[Victims(c)] != []
  {
    assert CpuOk(s, c);
  }
}

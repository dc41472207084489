/**
 * What thread_consider_migration works with, over every run of the dispatcher: the counts it
 * has taken while the other CPUs went on, the share it computes from them, and how many
 * threads it takes, sends and skips queues for.
 */
module DispatcherMigration {
  import opened Dispatcher
  import opened DispatcherProof
  import opened DispatcherRuns
  import opened DispatcherPlaces

  // ---------------------------------------------------------------- one step

  predicate OfMigration(e: Event) {
    e.MigStart? || e.MigCount? || e.MigDecide? || e.MigTake? || e.MigSend? || e.MigBack?
  }

  // Nothing but its own migration steps changes the migration of a CPU.
  lemma MigrationIsOwn(s: State, e: Event, c: int)
    requires Enabled(s, e) && 0 <= c < |s.cpus| && !(e.c == c && OfMigration(e))
    ensures |Step(s, e).cpus| == |s.cpus| && Step(s, e).cpus[c].mig == s.cpus[c].mig
  {
    if e.c != c {
      OtherCpus(s, e, c);
      hide Step, Enabled;
    } else {
      hide Executes, MayEnter, Shaped;
    }
  }

  // How the migration of a CPU goes on; `length` is that of the queue it has come to.
  function Onward(mig: Migration, e: Event, c: int, n: int, length: int, local: bool): Migration {
    match (mig, e)
    case (_, MigStart(_)) => Count(0, 0, 0)
    case (Count(i, mine, total), MigCount(_)) => Count(i + 1, if i == c then length else mine, total + length)
    case (Count(_, mine, total), MigDecide(_)) =>
      var share := if n > 0 then DivRoundUp(total, n) else 0;
      if mine < share then NoMigration else Take(0, mine - share, share)
    case (Take(i, left, share), MigTake(_)) => if local then Send(0, left, share) else Take(i + 1, left, share)
    case (Send(i, left, share), MigSend(_)) => if local then Send(i + 1, left, share) else Send(i, left - 1, share)
    case (Send(i, left, share), MigBack(_)) => if local then NoMigration else Send(i, 0, share)
    case _ => mig
  }

  lemma CountingStep(s: State, e: Event)
    requires Inv(s) && Enabled(s, e) && (e.MigStart? || e.MigCount? || e.MigDecide?)
    ensures |Step(s, e).cpus| == |s.cpus|
    ensures var mig := s.cpus[e.c].mig;
            var length := if mig.Count? then |s.lists[Rq(mig.i)]| else 0;
            Step(s, e).cpus[e.c].mig == Onward(mig, e, e.c, |s.cpus|, length, MigLocal(s, e))
  {
    hide Inv, Executes, MayEnter, Targetable;
  }

  lemma MovingStep(s: State, e: Event)
    requires Inv(s) && Enabled(s, e) && (e.MigTake? || e.MigSend? || e.MigBack?)
    ensures |Step(s, e).cpus| == |s.cpus|
    ensures var mig := s.cpus[e.c].mig;
            var length := if mig.Count? then |s.lists[Rq(mig.i)]| else 0;
            Step(s, e).cpus[e.c].mig == Onward(mig, e, e.c, |s.cpus|, length, MigLocal(s, e))
  {
    hide Inv, Executes, MayEnter, Targetable;
  }

  lemma MigrationStep(s: State, e: Event)
    requires Inv(s) && Enabled(s, e) && OfMigration(e)
    ensures |Step(s, e).cpus| == |s.cpus|
    ensures var mig := s.cpus[e.c].mig;
            var length := if mig.Count? then |s.lists[Rq(mig.i)]| else 0;
            Step(s, e).cpus[e.c].mig == Onward(mig, e, e.c, |s.cpus|, length, MigLocal(s, e))
  {
    hide Inv, Step, Enabled, Onward, MigLocal;
    if e.MigStart? || e.MigCount? || e.MigDecide? {
      CountingStep(s, e);
    } else {
      MovingStep(s, e);
    }
  }

  // ---------------------------------------------------------------- over runs

  // What a migration has done so far: the lengths it counted, in order; how many threads it
  // took off its own queue; how many it sent on or passed over; how many queues it went past.
  datatype History = History(counts: seq<int>, taken: nat, sent: nat, past: nat)

  function Total(counts: seq<int>): int {
    if counts == [] then 0 else Total(counts[..|counts| - 1]) + counts[|counts| - 1]
  }

  ghost predicate LocalAt(ss: seq<State>, es: seq<Event>, m: nat)
    requires IsRun(ss, es) && m < |es|
  {
    assert Enabled(ss[m], es[m]);
    MigLocal(ss[m], es[m])
  }

  // What a step of CPU c adds; `length` is that of the queue counted.
  function Noted(h: History, e: Event, c: int, length: int, local: bool): History {
    if e == MigCount(c) then h.(counts := h.counts + [length])
    else if e == MigTake(c) && !local then h.(taken := h.taken + 1)
    else if e == MigSend(c) && !local then h.(sent := h.sent + 1)
    else if e == MigSend(c) then h.(past := h.past + 1)
    else h
  }

  // The history of CPU c's migration between the i-th and the j-th state; the k-th length is
  // that of CPU k's queue when it was counted.
  ghost function HistoryOf(ss: seq<State>, es: seq<Event>, c: int, i: nat, j: nat): History
    requires IsRun(ss, es) && i <= j < |ss|
    decreases j
  {
    if i == j then History([], 0, 0, 0)
    else
      var h := HistoryOf(ss, es, c, i, j - 1);
      Noted(h, es[j - 1], c, |QueueAt(ss, es, j - 1, |h.counts|)|, LocalAt(ss, es, j - 1))
  }

  // The state of the migration is what its history says, for n CPUs.
  predicate Agrees(mig: Migration, h: History, c: int, n: int)
    requires 0 <= c < n
  {
    match mig
    case NoMigration => true
    case Count(i, mine, total) =>
      && i == |h.counts| && total == Total(h.counts) && mine == (if c < |h.counts| then h.counts[c] else 0)
      && h.taken == h.sent == h.past == 0
    case Take(i, left, share) =>
      && |h.counts| == n && share == DivRoundUp(Total(h.counts), n) && left == h.counts[c] - share
      && i == h.taken && h.sent == h.past == 0
    case Send(i, left, share) =>
      && |h.counts| == n && share == DivRoundUp(Total(h.counts), n) && h.taken == h.counts[c] - share
      && i == h.past && (left == h.taken - h.sent || left == 0)
  }

  // Which migration steps a CPU takes when.
  predicate MayGoOn(mig: Migration, e: Event, c: int, n: int, local: bool) {
    e.c == c ==>
      && (e.MigStart? ==> mig.NoMigration?) && (e.MigCount? ==> mig.Count? && 0 <= mig.i < n)
      && (e.MigDecide? ==> mig.Count? && mig.i == n) && (e.MigTake? ==> mig.Take? && (local <==> mig.i == mig.left))
      && (e.MigSend? ==> mig.Send? && mig.left > 0) && (e.MigBack? ==> mig.Send?)
  }

  lemma GoesOn(s: State, e: Event)
    requires Enabled(s, e)
    ensures OfMigration(e) ==> MayGoOn(s.cpus[e.c].mig, e, e.c, |s.cpus|, MigLocal(s, e))
  {
    hide Executes, MayEnter, Targetable, Shaped;
  }

  lemma MigrationAt(ss: seq<State>, es: seq<Event>, c: int, m: nat)
    requires IsRun(ss, es) && m < |es| && 0 <= c < |ss[m].cpus|
    ensures |ss[m + 1].cpus| == |ss[m].cpus|
    ensures var mig, e := ss[m].cpus[c].mig, es[m];
            var length := if mig.Count? then |QueueAt(ss, es, m, mig.i)| else 0;
            ss[m + 1].cpus[c].mig ==
            if e.c != c || !OfMigration(e) then mig
            else Onward(mig, e, c, |ss[m].cpus|, length, LocalAt(ss, es, m))
    ensures MayGoOn(ss[m].cpus[c].mig, es[m], c, |ss[m].cpus|, LocalAt(ss, es, m))
  {
    RunInv(ss, es, m);
    assert Enabled(ss[m], es[m]) && ss[m + 1] == Step(ss[m], es[m]);
    hide Inv, Step, Enabled, Onward, MigLocal;
    GoesOn(ss[m], es[m]);
    if es[m].c == c && OfMigration(es[m]) {
      MigrationStep(ss[m], es[m]);
    } else {
      MigrationIsOwn(ss[m], es[m], c);
    }
  }

  lemma AgreesStep(mig: Migration, h: History, e: Event, c: int, n: int, length: int, local: bool)
    requires 0 <= c < n && Agrees(mig, h, c, n) && MayGoOn(mig, e, c, n, local)
    requires e.c == c && OfMigration(e) && !e.MigStart?
    ensures Agrees(Onward(mig, e, c, n, length, local), Noted(h, e, c, length, local), c, n)
  {
    hide DivRoundUp;
    assert (h.counts + [length])[..|h.counts|] == h.counts;
  }

  lemma AgreesAt(ss: seq<State>, es: seq<Event>, c: int, m: nat, h: History)
    requires IsRun(ss, es) && m < |es| && 0 <= c < |ss[m].cpus| && es[m] != MigStart(c)
    requires Agrees(ss[m].cpus[c].mig, h, c, |ss[m].cpus|)
    ensures |ss[m + 1].cpus| == |ss[m].cpus|
    ensures var h' := Noted(h, es[m], c, |QueueAt(ss, es, m, |h.counts|)|, LocalAt(ss, es, m));
            Agrees(ss[m + 1].cpus[c].mig, h', c, |ss[m + 1].cpus|)
  {
    MigrationAt(ss, es, c, m);
    var mig, e, n := ss[m].cpus[c].mig, es[m], |ss[m].cpus|;
    var length, local := |QueueAt(ss, es, m, |h.counts|)|, LocalAt(ss, es, m);
    assert mig.Count? ==> mig.i == |h.counts|;
    hide Enabled, Step, QueueAt, LocalAt, IsRun, Agrees, DivRoundUp;
    if e.c == c && OfMigration(e) {
      AgreesStep(mig, h, e, c, n, length, local);
      SameOnward(mig, e, c, n, if mig.Count? then length else 0, length, local);
    }
  }

  // The length matters only to counting.
  lemma SameOnward(mig: Migration, e: Event, c: int, n: int, a: int, b: int, local: bool)
    requires mig.Count? ==> a == b
    ensures Onward(mig, e, c, n, a, local) == Onward(mig, e, c, n, b, local)
  {
  }

  /**
   * While the other CPUs go on, a migration counts each CPU's queue once, in order, computes
   * the share from what it counted, takes its surplus off its own queue and goes through the
   * queues in order, sending no more than it took.
   */
  lemma {:induction false} MigrationAgrees(ss: seq<State>, es: seq<Event>, c: int, i: nat, j: nat)
    requires IsRun(ss, es) && i < j < |ss| && es[i] == MigStart(c)
    requires forall m :: i < m < j ==> es[m] != MigStart(c)
    ensures 0 <= c < |ss[j].cpus|
    ensures Agrees(ss[j].cpus[c].mig, HistoryOf(ss, es, c, i + 1, j), c, |ss[j].cpus|)
  {
    hide Enabled, Step, QueueAt, LocalAt, Agrees, Noted;
    if i + 1 < j {
      MigrationAgrees(ss, es, c, i, j - 1);
      AgreesAt(ss, es, c, j - 1, HistoryOf(ss, es, c, i + 1, j - 1));
    } else {
      StartAgrees(ss, es, c, i);
    }
  }

  lemma StartAgrees(ss: seq<State>, es: seq<Event>, c: int, i: nat)
    requires IsRun(ss, es) && i < |es| && es[i] == MigStart(c)
    ensures 0 <= c < |ss[i + 1].cpus| && Agrees(ss[i + 1].cpus[c].mig, History([], 0, 0, 0), c, |ss[i + 1].cpus|)
  {
    hide Enabled, Step, QueueAt, LocalAt;
    OnCpu(ss, es, i);
    MigrationAt(ss, es, c, i);
  }

  lemma OnCpu(ss: seq<State>, es: seq<Event>, i: nat)
    requires IsRun(ss, es) && i < |es|
    ensures 0 <= es[i].c < |ss[i].cpus|
  {
    assert Enabled(ss[i], es[i]);
  }

  lemma SendAt(ss: seq<State>, es: seq<Event>, c: int, m: nat)
    requires IsRun(ss, es) && m < |es| && es[m] == MigSend(c) && !LocalAt(ss, es, m)
    ensures 0 <= c < |ss[m].cpus|
    ensures var mig := ss[m].cpus[c].mig;
            && mig.Send? && mig.i != c && 0 <= mig.i < |ss[m].cpus| && mig.left > 0
            && |QueueAt(ss, es, m, mig.i)| < mig.share
  {
    assert Enabled(ss[m], es[m]);
    hide Executes, MayEnter, Targetable, Step;
  }

  /**
   * A thread is sent only to another CPU, whose queue is then shorter than the share that was
   * computed from the counts.
   */
  lemma SentBelowShare(ss: seq<State>, es: seq<Event>, c: int, i: nat, j: nat)
    requires IsRun(ss, es) && i < j < |es| && es[i] == MigStart(c) && es[j] == MigSend(c) && !LocalAt(ss, es, j)
    requires forall m :: i < m < j ==> es[m] != MigStart(c)
    ensures var h := HistoryOf(ss, es, c, i + 1, j);
            && h.past != c && 0 <= h.past < |h.counts| == |ss[j].cpus| && h.sent < h.taken
            && |QueueAt(ss, es, j, h.past)| < DivRoundUp(Total(h.counts), |h.counts|)
  {
    hide Enabled, Step, QueueAt, LocalAt, DivRoundUp;
    MigrationAgrees(ss, es, c, i, j);
    SendAt(ss, es, c, j);
  }
}

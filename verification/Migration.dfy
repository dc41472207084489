/**
 * thread_consider_migration of `thread.c` with the other CPUs quiet: how it shares out the
 * run queues.
 */
module Migration {
  import Words
  import Dispatcher

  // What is added up over the queues: threads, or the copies of one thread.
  datatype Measure = Length | Copies(t: int)

  function Size(q: seq<int>, m: Measure): nat {
    match m
    case Length => |q|
    case Copies(t) => multiset(q)[t]
  }

  function Sum(rq: seq<seq<int>>, m: Measure): nat {
    if rq == [] then 0 else Sum(rq[..|rq| - 1], m) + Size(rq[|rq| - 1], m)
  }

  lemma SizeConcat(a: seq<int>, b: seq<int>, m: Measure)
    ensures Size(a + b, m) == Size(a, m) + Size(b, m)
  {
  }

  lemma {:induction false} SumChange(rq: seq<seq<int>>, i: nat, q: seq<int>, m: Measure)
    requires i < |rq|
    ensures Sum(rq[i := q], m) == Sum(rq, m) - Size(rq[i], m) + Size(q, m)
  {
    var n := |rq| - 1;
    if i == n {
      assert rq[i := q][..n] == rq[..n];
    } else {
      assert rq[i := q][..n] == rq[..n][i := q];
      SumChange(rq[..n], i, q, m);
    }
  }

  lemma {:induction false} SumAtLeast(rq: seq<seq<int>>, b: nat)
    requires forall k :: 0 <= k < |rq| ==> |rq[k]| >= b
    ensures Sum(rq, Length) >= |rq| * b
  {
    if rq != [] {
      SumAtLeast(rq[..|rq| - 1], b);
      Words.MulDist(|rq| - 1, 1, b);
    }
  }

  // one_share rounds up, by less than one share.
  lemma ShareCovers(total: nat, n: nat)
    requires n > 0
    ensures var share := Dispatcher.DivRoundUp(total, n); share >= 0 && total <= n * share < total + n
  {
    Words.DivMod(total + n - 1, n);
  }

  // ---------------------------------------------------------------- moving a thread

  // Queues and victims together hold what they held.
  ghost predicate Conserved(was: seq<seq<int>>, rq: seq<seq<int>>, v: seq<int>) {
    forall m :: Sum(rq, m) + Size(v, m) == Sum(was, m)
  }

  lemma Taken(was: seq<seq<int>>, rq: seq<seq<int>>, v: seq<int>, me: nat)
    requires Conserved(was, rq, v) && me < |rq| && rq[me] != []
    ensures Conserved(was, rq[me := rq[me][..|rq[me]| - 1]], [rq[me][|rq[me]| - 1]] + v)
  {
    var q := rq[me];
    var t, q' := q[|q| - 1], q[..|q| - 1];
    forall m ensures Sum(rq[me := q'], m) + Size([t] + v, m) == Sum(was, m) {
      assert q == q' + [t];
      SizeConcat(q', [t], m);
      SizeConcat([t], v, m);
      SumChange(rq, me, q', m);
    }
  }

  lemma Sent(was: seq<seq<int>>, rq: seq<seq<int>>, v: seq<int>, i: nat)
    requires Conserved(was, rq, v) && i < |rq| && v != []
    ensures Conserved(was, rq[i := rq[i] + [v[0]]], v[1..])
  {
    forall m ensures Sum(rq[i := rq[i] + [v[0]]], m) + Size(v[1..], m) == Sum(was, m) {
      assert v == [v[0]] + v[1..];
      SizeConcat([v[0]], v[1..], m);
      SizeConcat(rq[i], [v[0]], m);
      SumChange(rq, i, rq[i] + [v[0]], m);
    }
  }

  lemma Shuffled(was: seq<seq<int>>, rq: seq<seq<int>>, v: seq<int>)
    requires Conserved(was, rq, v) && v != []
    ensures Conserved(was, rq, v[1..] + [v[0]])
  {
    forall m ensures Sum(rq, m) + Size(v[1..] + [v[0]], m) == Sum(was, m) {
      assert v == [v[0]] + v[1..];
      SizeConcat([v[0]], v[1..], m);
      SizeConcat(v[1..], [v[0]], m);
    }
  }

  // ---------------------------------------------------------------- the code

  // Every other queue has only grown at its end, and not beyond the share.
  ghost predicate Grown(was: seq<seq<int>>, rq: seq<seq<int>>, me: nat, share: int) {
    && |rq| == |was|
    && forall k :: 0 <= k < |rq| && k != me ==> was[k] <= rq[k] && (|rq[k]| <= share || rq[k] == was[k])
  }

  // A run queue never holds a thread twice.
  ghost predicate Once(v: seq<int>, t: int) {
    forall i, j :: 0 <= i < j < |v| ==> v[i] != t || v[j] != t
  }

  // All victims are still to be sent, or all but curthread, which is at the end.
  ghost predicate Passing(v: seq<int>, left: nat, t: int) {
    |v| == left || (|v| == left + 1 && v[left] == t && t !in v[..left])
  }

  lemma PassOver(v: seq<int>, left: nat, t: int)
    requires Once(v, t) && Passing(v, left, t) && left > 0
    ensures v[0] == t ==> Passing(v[1..] + [t], left - 1, t) && Once(v[1..] + [t], t)
    ensures v[0] != t ==> Passing(v[1..], left - 1, t) && Once(v[1..], t)
    ensures v[0] != t ==> (t in v[1..] <==> t in v)
  {
    assert v[..left][0] == v[0];
    if v[0] == t {
      assert (v[1..] + [t])[..left - 1] == v[1..];
    } else if |v| == left + 1 {
      assert v[1..][..left - 1] == v[..left][1..];
    }
  }

  class Queues {
    var rq: seq<seq<int>>

    // The counting loop.
    method CountQueues(me: nat) returns (mine: nat, total: nat)
      requires me < |rq|
      ensures mine == |rq[me]| && total == Sum(rq, Length)
    {
      mine, total := 0, 0;
      var i := 0;
      while i < |rq|
        invariant 0 <= i <= |rq| && total == Sum(rq[..i], Length) && mine == (if i <= me then 0 else |rq[me]|)
      {
        assert rq[..i + 1][..i] == rq[..i];
        total := total + |rq[i]|;
        if i == me {
          mine := |rq[i]|;
        }
        i := i + 1;
      }
      assert rq[..i] == rq;
    }

    // remtail from the own queue, addhead to the victims; remtail never finds nothing.
    method TakeVictims(me: nat, toSend: nat) returns (victims: seq<int>)
      requires me < |rq| && toSend <= |rq[me]|
      modifies this
      ensures Conserved(old(rq), rq, victims)
      ensures var keep := |old(rq)[me]| - toSend;
        && rq == old(rq)[me := old(rq)[me][..keep]]
        && victims == old(rq)[me][keep..]
    {
      victims := [];
      ghost var q := rq[me];
      var i := 0;
      while i < toSend
        invariant 0 <= i <= toSend && |rq| == |old(rq)| && Conserved(old(rq), rq, victims)
        invariant rq[me] == q[..|q| - i] && victims == q[|q| - i..]
        invariant forall k :: 0 <= k < |rq| && k != me ==> rq[k] == old(rq)[k]
      {
        assert rq[me] != [];
        Taken(old(rq), rq, victims, me);
        var t := rq[me][|rq[me]| - 1];
        rq := rq[me := rq[me][..|rq[me]| - 1]];
        victims := [t] + victims;
        i := i + 1;
      }
      assert rq == old(rq)[me := q[..|q| - toSend]];
    }

    // The inner loop: fills one queue up to the share; remhead never finds nothing.
    method FillQueue(me: nat, i: nat, share: int, curthread: int, v: seq<int>, toSend: nat, ghost was: seq<seq<int>>)
      returns (victims: seq<int>, left: nat)
      requires i < |rq| && i != me && me < |rq| && toSend <= |v| && Conserved(was, rq, v) && Grown(was, rq, me, share)
      modifies this
      ensures Conserved(was, rq, victims) && Grown(was, rq, me, share) && left <= toSend && left <= |victims|
      ensures |rq| == |old(rq)| && forall k :: 0 <= k < |rq| && k != i ==> rq[k] == old(rq)[k]
      ensures left == 0 || |rq[i]| >= share
      ensures curthread !in v ==> curthread !in victims && |victims| - left == |v| - toSend
      ensures Once(v, curthread) && Passing(v, toSend, curthread) ==>
        Once(victims, curthread) && Passing(victims, left, curthread) && (curthread in victims <==> curthread in v)
    {
      hide Once, Passing;
      victims, left := v, toSend;
      while |rq[i]| < share && left > 0
        invariant |rq| == |old(rq)| && forall k :: 0 <= k < |rq| && k != i ==> rq[k] == old(rq)[k]
        invariant Conserved(was, rq, victims) && Grown(was, rq, me, share) && left <= toSend && left <= |victims|
        invariant curthread !in v ==> curthread !in victims && |victims| - left == |v| - toSend
        invariant Once(v, curthread) && Passing(v, toSend, curthread) ==>
          Once(victims, curthread) && Passing(victims, left, curthread) && (curthread in victims <==> curthread in v)
        decreases left
      {
        assert victims != [];
        if Once(v, curthread) && Passing(v, toSend, curthread) {
          PassOver(victims, left, curthread);
        }
        var t := victims[0];
        if t == curthread {
          Shuffled(was, rq, victims);
          victims := victims[1..] + [t];
          left := left - 1;
        } else {
          Sent(was, rq, victims, i);
          rq := rq[i := rq[i] + [t]];
          victims := victims[1..];
          left := left - 1;
        }
      }
    }

    // The transfer loops over all CPUs.
    method SendVictims(me: nat, share: int, curthread: int, v: seq<int>, ghost was: seq<seq<int>>)
      returns (victims: seq<int>)
      requires me < |rq| && Conserved(was, rq, v) && Grown(was, rq, me, share)
      modifies this
      ensures Conserved(was, rq, victims) && Grown(was, rq, me, share) && rq[me] == old(rq[me])
      ensures curthread !in v && victims != [] ==> forall k :: 0 <= k < |rq| && k != me ==> |rq[k]| >= share
      ensures Once(v, curthread) && victims != (if curthread in v then [curthread] else []) ==>
        victims != [] && forall k :: 0 <= k < |rq| && k != me ==> |rq[k]| >= share
    {
      victims := v;
      var left, i := |v|, 0;
      while i < |rq| && left > 0
        invariant 0 <= i <= |rq| && me < |rq| && 0 <= left <= |victims|
        invariant Conserved(was, rq, victims) && Grown(was, rq, me, share) && rq[me] == old(rq[me])
        invariant curthread !in v ==> curthread !in victims && |victims| == left
        invariant left > 0 ==> forall k :: 0 <= k < i && k != me ==> |rq[k]| >= share
        invariant Once(v, curthread) ==>
          Once(victims, curthread) && Passing(victims, left, curthread) && (curthread in victims <==> curthread in v)
      {
        if i != me {
          victims, left := FillQueue(me, i, share, curthread, victims, left, was);
        }
        i := i + 1;
      }
    }

    // Leftovers go back to the own queue.
    method TakeBack(me: nat, v: seq<int>, ghost was: seq<seq<int>>)
      requires me < |rq| && Conserved(was, rq, v)
      modifies this
      ensures Conserved(was, rq, []) && rq == old(rq)[me := old(rq)[me] + v]
    {
      var victims := v;
      ghost var n := 0;
      while victims != []
        invariant 0 <= n <= |v| && victims == v[n..] && Conserved(was, rq, victims)
        invariant |rq| == |old(rq)| && rq[me] == old(rq)[me] + v[..n]
        invariant forall k :: 0 <= k < |rq| && k != me ==> rq[k] == old(rq)[k]
        decreases |victims|
      {
        Sent(was, rq, victims, me);
        rq := rq[me := rq[me] + [victims[0]]];
        victims := victims[1..];
        n := n + 1;
      }
      assert v[..n] == v;
      assert rq == old(rq)[me := old(rq)[me] + v];
    }

    /**
     * No thread is lost or duplicated, and no other queue grows above the share.  If the
     * current thread is not among the victims, a CPU that held at least one share ends with
     * exactly that, keeping the front of its queue, and no victim is left over; if it is, it
     * alone comes back.
     */
    method ConsiderMigration(me: nat, curthread: int)
      requires me < |rq|
      modifies this
      ensures |rq| == |old(rq)| && forall m :: Sum(rq, m) == old(Sum(rq, m))
      ensures var was, share := old(rq), Dispatcher.DivRoundUp(old(Sum(rq, Length)), |old(rq)|);
              && Grown(was, rq, me, share)
              && (|was[me]| < share ==> rq == was)
              && (|was[me]| >= share ==> 0 <= share && was[me][..share] <= rq[me])
              && (|was[me]| >= share && curthread !in was[me][share..] ==> rq[me] == was[me][..share])
              && (|was[me]| >= share && Once(was[me], curthread) && curthread in was[me][share..] ==>
                    rq[me] == was[me][..share] + [curthread])
    {
      hide Conserved, Sum, Once, Dispatcher.DivRoundUp;
      var mine, total := CountQueues(me);
      var share := Dispatcher.DivRoundUp(total, |rq|);
      ShareCovers(total, |rq|);
      NoVictims(rq);
      if mine < share {
        return;
      }
      ghost var was := rq;
      var victims := TakeVictims(me, mine - share);
      victims := SendVictims(me, share, curthread, victims, was);
      Leftover(was, rq, victims, me, share, curthread);
      if victims != [] {
        TakeBack(me, victims, was);
      }
      AllBack(was, rq);
    }
  }

  lemma NoVictims(rq: seq<seq<int>>)
    ensures Conserved(rq, rq, [])
  {
    forall m ensures Sum(rq, m) + Size([], m) == Sum(rq, m) {
    }
  }

  lemma AllBack(was: seq<seq<int>>, rq: seq<seq<int>>)
    requires Conserved(was, rq, [])
    ensures forall m :: Sum(rq, m) == Sum(was, m)
  {
    forall m ensures Sum(rq, m) == Sum(was, m) {
      assert Sum(rq, m) + Size([], m) == Sum(was, m);
    }
  }

  // What comes back: nothing, or curthread if it was a victim.
  lemma Leftover(was: seq<seq<int>>, rq: seq<seq<int>>, v: seq<int>, me: nat, share: nat, curthread: int)
    requires Conserved(was, rq, v) && me < |rq| == |was| && |rq| * share >= Sum(was, Length)
    requires share <= |was[me]| && |rq[me]| == share
    requires var tail := was[me][share..];
             && (curthread !in tail && v != [] ==> forall k :: 0 <= k < |rq| && k != me ==> |rq[k]| >= share)
             && (Once(tail, curthread) && v != (if curthread in tail then [curthread] else []) ==>
                   v != [] && forall k :: 0 <= k < |rq| && k != me ==> |rq[k]| >= share)
    ensures curthread !in was[me][share..] ==> v == []
    ensures Once(was[me], curthread) && curthread in was[me][share..] ==> v == [curthread]
  {
    var tail := was[me][share..];
    assert Once(was[me], curthread) ==> Once(tail, curthread);
    hide Conserved, Once;
    if v != [] {
      TooMany(was, rq, v, share);
    }
  }

  // Victims cannot be left over while every queue holds a share.
  lemma TooMany(was: seq<seq<int>>, rq: seq<seq<int>>, v: seq<int>, share: nat)
    requires Conserved(was, rq, v) && |rq| > 0 && |rq| * share >= Sum(was, Length) && v != []
    ensures exists k :: 0 <= k < |rq| && |rq[k]| < share
  {
    assert Sum(rq, Length) + Size(v, Length) == Sum(was, Length);
    if forall k :: 0 <= k < |rq| ==> |rq[k]| >= share {
      SumAtLeast(rq, share);
    }
  }
}

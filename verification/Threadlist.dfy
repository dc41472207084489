/**
 * The doubly linked thread lists of `threadlist.c`, with bookend nodes at both ends.  A
 * thread is represented by the list node inside it.
 */
module Threadlist {
  import opened Seqs

  class Node {
    var prev: Node?
    var next: Node?

    // threadlistnode_init.
    constructor ()
      ensures prev == null && next == null
    {
      prev, next := null, null;
    }
  }

  // a and b are neighbours, each knowing the other.
  ghost predicate Adjacent(a: Node, b: Node)
    reads a, b
  {
    a.next == b && b.prev == a
  }

  // The nodes are linked in this order, and the ends point nowhere.
  ghost predicate Chain(sp: seq<Node>)
    reads sp
  {
    && |sp| >= 2 && NoDup(sp) && sp[0].prev == null && sp[|sp| - 1].next == null
    && forall i :: 0 <= i < |sp| - 1 ==> Adjacent(sp[i], sp[i + 1])
  }

  // A node on no list.
  ghost predicate Loose(x: Node)
    reads x
  {
    x.prev == null && x.next == null
  }

  // threadlist_insertafternode: x goes behind position i.
  method InsertAfterNode(onlist: Node, x: Node, ghost sp: seq<Node>, ghost i: nat)
    requires Chain(sp) && i < |sp| - 1 && onlist == sp[i] && x !in sp && Loose(x)
    modifies x, onlist, onlist.next
    ensures Chain(sp[..i + 1] + [x] + sp[i + 1..])
  {
    assert Adjacent(sp[i], sp[i + 1]);
    var after: Node := onlist.next;
    x.prev := onlist;
    x.next := after;
    onlist.next := x;
    after.prev := x;
    ghost var r := sp[..i + 1] + [x] + sp[i + 1..];
    forall k | 0 <= k < |r| - 1 ensures Adjacent(r[k], r[k + 1]) {
      if k + 1 < i + 1 {
        assert old(Adjacent(sp[k], sp[k + 1]));
      } else if k > i + 1 {
        assert old(Adjacent(sp[k - 1], sp[k]));
      }
    }
  }

  // threadlist_insertbeforenode: x goes in front of position i.
  method InsertBeforeNode(x: Node, onlist: Node, ghost sp: seq<Node>, ghost i: nat)
    requires Chain(sp) && 0 < i < |sp| && onlist == sp[i] && x !in sp && Loose(x)
    modifies x, onlist, onlist.prev
    ensures Chain(sp[..i] + [x] + sp[i..])
  {
    assert Adjacent(sp[i - 1], sp[i]);
    var before: Node := onlist.prev;
    x.prev := before;
    x.next := onlist;
    before.next := x;
    onlist.prev := x;
    ghost var r := sp[..i] + [x] + sp[i..];
    forall k | 0 <= k < |r| - 1 ensures Adjacent(r[k], r[k + 1]) {
      if k + 1 < i {
        assert old(Adjacent(sp[k], sp[k + 1]));
      } else if k > i {
        assert old(Adjacent(sp[k - 1], sp[k]));
      }
    }
  }

  // threadlist_removenode: the node at position i goes.
  method RemoveNode(x: Node, ghost sp: seq<Node>, ghost i: nat)
    requires Chain(sp) && 0 < i < |sp| - 1 && x == sp[i]
    modifies x, x.prev, x.next
    ensures Loose(x) && x !in Remove(sp, i) && Chain(Remove(sp, i))
  {
    assert Adjacent(sp[i - 1], sp[i]) && Adjacent(sp[i], sp[i + 1]);
    var before: Node, after: Node := x.prev, x.next;
    before.next := after;
    after.prev := before;
    x.prev := null;
    x.next := null;
    RemoveNoDup(sp, i);
    ghost var r := Remove(sp, i);
    forall k | 0 <= k < |r| - 1 ensures Adjacent(r[k], r[k + 1]) {
      ghost var j := if k < i then k else k + 1;
      assert r[k] == sp[j] && r[k + 1] == sp[if k + 1 < i then k + 1 else k + 2];
      assert k + 1 != i ==> old(Adjacent(sp[j], sp[j + 1]));
    }
  }

  /**
   * A list and the sequence of its nodes.  Operations on it change nothing outside its own
   * footprint and the node they add.
   */
  class ThreadList {
    const head: Node
    const tail: Node
    var count: int
    ghost var nodes: seq<Node>
    ghost var repr: set<Node>

    ghost function Spine(): seq<Node>
      reads this
    {
      [head] + nodes + [tail]
    }

    ghost predicate Valid()
      reads this, repr
    {
      && (forall x :: x in Spine() ==> x in repr) && (forall x :: x in repr ==> x in Spine())
      && Chain(Spine()) && count == |nodes|
    }

    // threadlist_init.
    constructor ()
      ensures Valid() && nodes == [] && fresh(repr)
    {
      head := new Node();
      tail := new Node();
      count, nodes, repr := 0, [], {head, tail};
      new;
      head.next := tail;
      tail.prev := head;
    }

    method IsEmpty() returns (b: bool)
      requires Valid()
      ensures b <==> nodes == []
    {
      b := count == 0;
    }

    // tl_count follows an insertion.
    method Counted(x: Node, ghost now: seq<Node>)
      requires Chain([head] + now + [tail]) && |now| == count + 1
      requires forall y :: y in [head] + now + [tail] ==> y in repr || y == x
      requires x in now && forall y :: y in repr ==> y in [head] + now + [tail]
      modifies `nodes, `repr, `count
      ensures Valid() && nodes == now && repr == old(repr) + {x}
    {
      nodes, repr := now, repr + {x};
      count := count + 1;
    }

    method AddHead(x: Node)
      requires Valid() && x !in repr && Loose(x)
      modifies this, repr, x
      ensures Valid() && nodes == [x] + old(nodes) && repr == old(repr) + {x}
    {
      assert Adjacent(Spine()[0], Spine()[1]);
      InsertAfterNode(head, x, Spine(), 0);
      assert Spine()[..0 + 1] + [x] + Spine()[0 + 1..] == [head] + ([x] + nodes) + [tail];
      Counted(x, [x] + nodes);
    }

    method AddTail(x: Node)
      requires Valid() && x !in repr && Loose(x)
      modifies this, repr, x
      ensures Valid() && nodes == old(nodes) + [x] && repr == old(repr) + {x}
    {
      ghost var n := |nodes| + 1;
      assert Adjacent(Spine()[n - 1], Spine()[n]);
      InsertBeforeNode(x, tail, Spine(), n);
      assert Spine()[..n] + [x] + Spine()[n..] == [head] + (nodes + [x]) + [tail];
      Counted(x, nodes + [x]);
    }

    // NULL exactly when the list is empty.
    method RemHead() returns (x: Node?)
      requires Valid()
      modifies this, repr
      ensures Valid()
      ensures old(nodes) == [] ==> x == null && nodes == [] && repr == old(repr)
      ensures old(nodes) != [] ==>
        && x == old(nodes[0]) && x in old(repr) && Loose(x) && repr == old(repr) - {x}
        && nodes == old(nodes)[1..]
    {
      assert Adjacent(Spine()[0], Spine()[1]) && (nodes != [] ==> Adjacent(Spine()[1], Spine()[2]));
      var tln: Node := head.next;
      if tln.next == null {
        return null;
      }
      RemoveNode(tln, Spine(), 1);
      assert Remove(Spine(), 1) == [head] + nodes[1..] + [tail];
      nodes, repr := nodes[1..], repr - {tln};
      assert count > 0;
      count := count - 1;
      return tln;
    }

    method RemTail() returns (x: Node?)
      requires Valid()
      modifies this, repr
      ensures Valid()
      ensures old(nodes) == [] ==> x == null && nodes == [] && repr == old(repr)
      ensures old(nodes) != [] ==>
        && x == old(nodes[|nodes| - 1]) && x in old(repr) && Loose(x)
        && repr == old(repr) - {x} && nodes == old(nodes)[..|old(nodes)| - 1]
    {
      ghost var n := |nodes|;
      assert Adjacent(Spine()[n], Spine()[n + 1]) && (nodes != [] ==> Adjacent(Spine()[n - 1], Spine()[n]));
      var tln: Node := tail.prev;
      if tln.prev == null {
        return null;
      }
      RemoveNode(tln, Spine(), n);
      assert Remove(Spine(), n) == [head] + nodes[..n - 1] + [tail];
      nodes, repr := nodes[..n - 1], repr - {tln};
      assert count > 0;
      count := count - 1;
      return tln;
    }

    method InsertAfter(onlist: Node, x: Node, ghost i: nat)
      requires Valid() && i < |nodes| && onlist == nodes[i] && x !in repr && Loose(x)
      modifies this, repr, x
      ensures Valid() && nodes == old(nodes)[..i + 1] + [x] + old(nodes)[i + 1..] && repr == old(repr) + {x}
    {
      assert onlist == Spine()[i + 1] && Adjacent(Spine()[i + 1], Spine()[i + 2]);
      InsertAfterNode(onlist, x, Spine(), i + 1);
      ghost var now := nodes[..i + 1] + [x] + nodes[i + 1..];
      SpineInsert(head, nodes, tail, i + 1, x);
      Counted(x, now);
    }

    method InsertBefore(x: Node, onlist: Node, ghost i: nat)
      requires Valid() && i < |nodes| && onlist == nodes[i] && x !in repr && Loose(x)
      modifies this, repr, x
      ensures Valid() && nodes == old(nodes)[..i] + [x] + old(nodes)[i..] && repr == old(repr) + {x}
    {
      assert onlist == Spine()[i + 1] && Adjacent(Spine()[i], Spine()[i + 1]);
      InsertBeforeNode(x, onlist, Spine(), i + 1);
      ghost var now := nodes[..i] + [x] + nodes[i..];
      SpineInsert(head, nodes, tail, i, x);
      Counted(x, now);
    }

    method RemoveThread(x: Node, ghost i: nat)
      requires Valid() && i < |nodes| && x == nodes[i]
      modifies this, repr
      ensures Valid() && nodes == Remove(old(nodes), i) && repr == old(repr) - {x} && Loose(x)
    {
      assert x == Spine()[i + 1] && Adjacent(Spine()[i], Spine()[i + 1]) && Adjacent(Spine()[i + 1], Spine()[i + 2]);
      RemoveNode(x, Spine(), i + 1);
      assert Remove(Spine(), i + 1) == [head] + Remove(nodes, i) + [tail];
      nodes, repr := Remove(nodes, i), repr - {x};
      assert count > 0;
      count := count - 1;
    }
  }

  lemma SpineInsert(h: Node, ns: seq<Node>, z: Node, j: nat, x: Node)
    requires j <= |ns|
    ensures var sp := [h] + ns + [z];
            && sp[..j + 1] + [x] + sp[j + 1..] == [h] + (ns[..j] + [x] + ns[j..]) + [z]
            && forall y :: y in [h] + (ns[..j] + [x] + ns[j..]) + [z] <==> y in sp || y == x
  {
    var sp := [h] + ns + [z];
    assert sp == sp[..j + 1] + sp[j + 1..];
  }

  // Two lists share no node.
  ghost predicate Apart(a: ThreadList, b: ThreadList)
    reads a, b
  {
    a != b && a.repr !! b.repr
  }

  // Moves the first thread of one list to the end of another.
  method MoveHead(wc: ThreadList, list: ThreadList) returns (moved: bool)
    requires wc.Valid() && list.Valid() && Apart(wc, list)
    modifies wc, wc.repr, list, list.repr
    ensures wc.Valid() && list.Valid() && Apart(wc, list) && wc.repr + list.repr == old(wc.repr + list.repr)
    ensures moved <==> old(wc.nodes) != []
    ensures moved ==> wc.nodes == old(wc.nodes)[1..] && list.nodes == old(list.nodes) + [old(wc.nodes)[0]]
    ensures !moved ==> wc.nodes == [] && list.nodes == old(list.nodes)
    ensures list.nodes + wc.nodes == old(list.nodes) + old(wc.nodes)
  {
    hide Chain;
    MovedConcat(list.nodes, wc.nodes);
    var target := wc.RemHead();
    if target == null {
      return false;
    }
    list.AddTail(target);
    return true;
  }

  lemma MovedConcat(l: seq<Node>, w: seq<Node>)
    ensures w != [] ==> (l + [w[0]]) + w[1..] == l + w
  {
  }

  /**
   * The first loop of wchan_wakeall: the private list gets all sleepers in their order.
   */
  method TakeAll(wc: ThreadList, list: ThreadList)
    requires wc.Valid() && list.Valid() && Apart(wc, list)
    modifies wc, wc.repr, list, list.repr
    ensures wc.Valid() && list.Valid() && Apart(wc, list) && wc.repr + list.repr == old(wc.repr + list.repr)
    ensures wc.nodes == [] && list.nodes == old(list.nodes) + old(wc.nodes)
  {
    hide Chain;
    ghost var all := list.nodes + wc.nodes;
    var more := true;
    while more
      invariant wc.Valid() && list.Valid() && Apart(wc, list) && wc.repr + list.repr == old(wc.repr + list.repr)
      invariant list.nodes + wc.nodes == all && (!more ==> wc.nodes == [])
      decreases |wc.nodes|, more
    {
      more := MoveHead(wc, list);
    }
  }

  // ---------------------------------------------------------------- the lists of the CPUs

  // The private list and the run queues are proper lists within `all` and share no node.
  ghost predicate Separate(list: ThreadList, rqs: seq<ThreadList>, all: set<Node>)
    reads list, list.repr, rqs, all
  {
    && list.Valid() && list.repr <= all
    && (forall c :: 0 <= c < |rqs| ==> rqs[c].repr <= all && rqs[c].Valid() && Apart(list, rqs[c]))
    && (forall c, d :: 0 <= c < d < |rqs| ==> Apart(rqs[c], rqs[d]))
  }

  // The threads of one CPU, in order; `cpu` is t_cpu.
  ghost function OnCpu(ns: seq<Node>, cpu: map<Node, nat>, c: nat): seq<Node>
    requires forall x :: x in ns ==> x in cpu
  {
    if ns == [] then []
    else
      var n := |ns| - 1;
      OnCpu(ns[..n], cpu, c) + if cpu[ns[n]] == c then [ns[n]] else []
  }

  // One turn of the loop: the first thread goes to the end of the run queue of its CPU.
  method MakeRunnable(list: ThreadList, rqs: seq<ThreadList>, cpu: map<Node, nat>, ghost all: set<Node>)
    returns (more: bool)
    requires Separate(list, rqs, all) && forall x :: x in list.nodes ==> x in cpu && cpu[x] < |rqs|
    modifies list, rqs, all
    ensures Separate(list, rqs, all)
    ensures more <==> old(list.nodes) != []
    ensures !more ==> list.nodes == [] && forall c :: 0 <= c < |rqs| ==> rqs[c].nodes == old(rqs[c].nodes)
    ensures more ==>
      var x := old(list.nodes[0]);
      && list.nodes == old(list.nodes)[1..]
      && forall c :: 0 <= c < |rqs| ==> rqs[c].nodes == old(rqs[c].nodes) + if cpu[x] == c then [x] else []
  {
    hide Chain, ThreadList.Valid;
    var target := list.RemHead();
    if target == null {
      return false;
    }
    assert forall c :: 0 <= c < |rqs| ==> rqs[c].Valid() && target !in rqs[c].repr;
    var k := cpu[target];
    rqs[k].AddTail(target);
    return true;
  }

  lemma OnCpuNext(ns: seq<Node>, cpu: map<Node, nat>, c: nat, k: nat)
    requires k < |ns| && forall x :: x in ns ==> x in cpu
    ensures OnCpu(ns[..k + 1], cpu, c) == OnCpu(ns[..k], cpu, c) + if cpu[ns[k]] == c then [ns[k]] else []
  {
    assert ns[..k + 1][..k] == ns[..k];
  }

  /**
   * The second loop of wchan_wakeall: each run queue gains the threads of its CPU, in their
   * order.
   */
  method MakeAllRunnable(list: ThreadList, rqs: seq<ThreadList>, cpu: map<Node, nat>, ghost all: set<Node>)
    requires Separate(list, rqs, all) && forall x :: x in list.nodes ==> x in cpu && cpu[x] < |rqs|
    modifies list, rqs, all
    ensures Separate(list, rqs, all) && list.nodes == []
    ensures forall c :: 0 <= c < |rqs| ==> rqs[c].nodes == old(rqs[c].nodes) + OnCpu(old(list.nodes), cpu, c)
  {
    hide Chain, ThreadList.Valid, Separate;
    ghost var ns, k := list.nodes, 0;
    var more := true;
    while more
      invariant Separate(list, rqs, all) && 0 <= k <= |ns| && list.nodes == ns[k..] && (!more ==> k == |ns|)
      invariant forall c :: 0 <= c < |rqs| ==> rqs[c].nodes == old(rqs[c].nodes) + OnCpu(ns[..k], cpu, c)
      decreases |ns| - k, more
    {
      forall c | 0 <= c < |rqs| && k < |ns|
        ensures OnCpu(ns[..k + 1], cpu, c) == OnCpu(ns[..k], cpu, c) + if cpu[ns[k]] == c then [ns[k]] else []
      {
        OnCpuNext(ns, cpu, c, k);
      }
      more := MakeRunnable(list, rqs, cpu, all);
      if more {
        k := k + 1;
      }
    }
    assert ns[..k] == ns;
  }

  /**
   * wchan_wakeall: the channel is empty, and each run queue has gained the sleepers of its
   * CPU in the order in which they went to sleep.
   */
  method WakeAll(wc: ThreadList, rqs: seq<ThreadList>, cpu: map<Node, nat>, ghost all: set<Node>)
    requires Separate(wc, rqs, all) && forall x :: x in wc.nodes ==> x in cpu && cpu[x] < |rqs|
    modifies wc, rqs, all
    ensures wc.Valid() && wc.nodes == []
    ensures forall c :: 0 <= c < |rqs| ==>
      rqs[c].Valid() && rqs[c].nodes == old(rqs[c].nodes) + OnCpu(old(wc.nodes), cpu, c)
  {
    hide Chain, ThreadList.Valid;
    var list := new ThreadList();
    ghost var own := list.repr;
    TakeAll(wc, list);
    assert list.nodes == old(wc.nodes);
    MakeAllRunnable(list, rqs, cpu, all + own - wc.repr);
  }
}

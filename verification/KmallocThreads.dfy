/**
 * What the threads that share the allocator of `kmalloc.c` may rely on: a live block, its
 * contents, a page in transit and a large allocation are left alone by everybody else.
 */
module KmallocThreads {
  import opened Common
  import Seqs
  import opened KmallocModel
  import KmallocSteps
  import KmallocPages
  import opened KmallocRuns

  // A page that kfree empties had no other live block.
  lemma LastLive(s: State, e: Event)
    requires Inv(s.h, s.v) && e.GiveLast? && Enabled(s, e)
    ensures s.v.live[e.p].Keys == {e.off} && s.v.page[e.p] !in s.v.transit
    ensures forall q :: q in Step(s, e).v.all <==> q in s.v.all && q != e.p
  {
    hide Multiples, Chain, InUse;
    var v, live := s.v, s.v.live[e.p];
    KmallocSteps.GiveInv(s.h, v, v.page[e.p] + e.off, e.p, e.off, e.m);
    var h' := KmallocSteps.GiveHeap(s.h, e.p, v.page[e.p], e.off, e.m);
    KmallocPages.ReleaseInv(h', KmallocSteps.GiveView(v, e.p, e.off), e.p, e.i, e.j);
    Seqs.RemoveNoDup(v.all, e.i);
    assert (live - {e.off}).Keys == live.Keys - {e.off};
  }

  // ---------------------------------------------------------------- live blocks

  // The owner of the block writes to it or frees it.
  predicate Touches(e: Event, p: int, off: int) {
    (e.Write? || e.Give? || e.GiveLast?) && e.p == p && e.off == off
  }

  // Offset off of pageref p is a live block.
  ghost predicate Lives(v: View, p: int, off: int) {
    p in v.all && p in v.page && p in v.blk && p in v.live && off in v.live[p]
  }

  // The block is live in both states, and the same one.
  ghost predicate SameBlock(v: View, v': View, p: int, off: int) {
    && Lives(v, p, off) && Lives(v', p, off)
    && v'.page[p] == v.page[p] && v'.blk[p] == v.blk[p] && v'.live[p][off] == v.live[p][off]
  }

  lemma StaysLive(s: State, e: Event, p: int, off: int)
    requires Inv(s.h, s.v) && Enabled(s, e) && Lives(s.v, p, off) && !Touches(e, p, off)
    ensures SameBlock(s.v, Step(s, e).v, p, off)
  {
    hide Chain, InUse, FreeLists, Parted, Ownership, Used;
    match e
    case GiveLast(q, o, _, _, _) =>
      LastLive(s, e);
      assert off in s.v.live[p].Keys;
      assert p != q;
    case Install(q, _, _, _) => assert p != q && p in [q] + s.v.all;
    case Take(q, size) => TakeFresh(s, q, size);
    case _ =>
  }

  lemma TakeFresh(s: State, p: int, size: int)
    requires Inv(s.h, s.v) && Enabled(s, Take(p, size))
    ensures InvBut(s.h, s.v, p) && s.v.free[p] != [] && s.v.free[p][0] !in s.v.live[p] && 0 < s.v.page[p]
      && 0 <= s.v.free[p][0]
  {
    hide KmallocModel.Lists, FreeList, Parted, Ownership;
    assert InvBut(s.h, s.v, p);
    KmallocSteps.TakeInv(s.h, s.v, p, size);
  }

  // The address is in the block.
  ghost predicate InBlock(v: View, p: int, off: int, a: int)
    requires Lives(v, p, off)
  {
    v.page[p] + off <= a < v.page[p] + off + Size(v.blk[p])
  }

  // Two live blocks have no address in common.
  lemma NotInBoth(h: Heap, v: View, p: int, off: int, p': int, off': int, a: int)
    requires Inv(h, v) && Lives(v, p, off) && Lives(v, p', off') && (p != p' || off != off') && InBlock(v, p, off, a)
    ensures !InBlock(v, p', off', a)
  {
    hide InvBut;
    LiveDisjoint(h, v, v.page[p] + off, p, off, v.page[p'] + off', p', off');
  }

  // A fresh page has no address in common with a registered one.
  lemma NotOnFresh(s: State, p: int, off: int, page: int, a: int)
    requires Inv(s.h, s.v) && Lives(s.v, p, off) && page in s.v.transit && InBlock(s.v, p, off, a)
    ensures !(page <= a < page + PAGE)
  {
    hide Multiples, Chain, InUse, FreeLists, Parted;
    LivePlaced(s.h, s.v, s.v.page[p] + off, p, off);
    PagesApart(s.v.page[p], page);
  }

  lemma WordsKept(s: State, e: Event, p: int, off: int, a: int)
    requires Inv(s.h, s.v) && Enabled(s, e) && Lives(s.v, p, off) && !Touches(e, p, off) && InBlock(s.v, p, off, a)
    ensures Load(Step(s, e).h.mem, a) == Load(s.h.mem, a)
  {
    hide Multiples, Chain, InUse, FreeLists, Parted, Ownership, Used;
    match e
    case Give(q, o, m) => NotInBoth(s.h, s.v, p, off, q, o, a);
    case GiveLast(q, o, m, _, _) => NotInBoth(s.h, s.v, p, off, q, o, a);
    case Write(q, o, m) => NotInBoth(s.h, s.v, p, off, q, o, a);
    case Install(q, page, b, size) =>
      NotOnFresh(s, p, off, page, a);
      KmallocPages.FreshList(s.h.mem, page, b);
    case Foreign(m) => LivePlaced(s.h, s.v, s.v.page[p] + off, p, off);
    case _ =>
  }

  /**
   * Nobody but its owner ends the life of a block or changes a word of it: in every run,
   * until a step writes to it or frees it, it is the same block with the same contents.
   */
  lemma {:induction false} BlockKept(ss: seq<State>, es: seq<Event>, i: nat, j: nat, p: int, off: int, a: int)
    requires Run(ss, es) && i <= j <= |es| && Lives(ss[i].v, p, off) && InBlock(ss[i].v, p, off, a)
    requires forall k :: i <= k < j ==> !Touches(es[k], p, off)
    ensures SameBlock(ss[i].v, ss[j].v, p, off) && Load(ss[j].h.mem, a) == Load(ss[i].h.mem, a)
  {
    if i < j {
      BlockKept(ss, es, i, j - 1, p, off, a);
      RunInv(ss, es, j - 1);
      assert Next(ss[j - 1], es[j - 1], ss[j]);
      hide InvBut, Step, Enabled;
      StaysLive(ss[j - 1], es[j - 1], p, off);
      WordsKept(ss[j - 1], es[j - 1], p, off, a);
    }
  }

  // ---------------------------------------------------------------- one thread among others

  // A step of the thread in question, or of another one.
  datatype Act = Own(e: Event) | Other(e: Event)

  ghost predicate Ran(s: State, acts: seq<Act>, s': State)
    decreases |acts|
  {
    if acts == [] then s' == s
    else Inv(s.h, s.v) && Enabled(s, acts[0].e) && Ran(Step(s, acts[0].e), acts[1..], s')
  }

  function OwnSteps(acts: seq<Act>): seq<Event> {
    if acts == [] then []
    else if acts[0].Own? then [acts[0].e] + OwnSteps(acts[1..])
    else OwnSteps(acts[1..])
  }

  // What a thread counts on while it does not hold kmalloc_spinlock.
  datatype Held = Nothing | HeldPage(page: int) | HeldBlock(p: int, off: int) | HeldBig(a: int)

  ghost predicate Holds(v: View, held: Held) {
    match held
    case Nothing => true
    case HeldPage(page) => page in v.transit
    case HeldBlock(p, off) => Lives(v, p, off)
    case HeldBig(a) => a in v.big
  }

  // The step is not one that only the holder may take.
  predicate Leaves(e: Event, held: Held) {
    match held
    case Nothing => true
    case HeldPage(page) => !((e.ReturnPage? || e.Install?) && e.page == page)
    case HeldBlock(p, off) => !Touches(e, p, off)
    case HeldBig(a) => e != BigFree(a)
  }

  ghost predicate Others(acts: seq<Act>, held: Held) {
    forall k :: 0 <= k < |acts| ==> acts[k].Other? && Leaves(acts[k].e, held)
  }

  // The holder's block keeps its place.
  ghost predicate SameHeld(v: View, v': View, held: Held) {
    Holds(v', held) && (held.HeldBlock? && Lives(v, held.p, held.off) ==> SameBlock(v, v', held.p, held.off))
  }

  lemma {:induction false} RanConcat(s: State, a: seq<Act>, m: State, b: seq<Act>, s': State)
    requires Ran(s, a, m) && Ran(m, b, s')
    ensures Ran(s, a + b, s') && OwnSteps(a + b) == OwnSteps(a) + OwnSteps(b)
    decreases |a|
  {
    hide Inv, Enabled, Step;
    if a == [] {
      assert a + b == b;
    } else {
      RanConcat(Step(s, a[0].e), a[1..], m, b, s');
      assert (a + b)[1..] == a[1..] + b && (a + b)[0] == a[0];
    }
  }

  lemma RanOne(s: State, e: Event)
    requires Inv(s.h, s.v) && Enabled(s, e)
    ensures Ran(s, [Own(e)], Step(s, e)) && OwnSteps([Own(e)]) == [e]
  {
    hide Inv, Enabled, Step;
    assert [Own(e)][1..] == [];
  }

  lemma {:induction false} OthersOwnNothing(acts: seq<Act>, held: Held)
    requires Others(acts, held)
    ensures OwnSteps(acts) == []
  {
    if acts != [] {
      OthersOwnNothing(acts[1..], held);
    }
  }

  lemma HeldStep(s: State, e: Event, held: Held)
    requires Inv(s.h, s.v) && Enabled(s, e) && Holds(s.v, held) && Leaves(e, held)
    ensures SameHeld(s.v, Step(s, e).v, held)
  {
    hide InvBut;
    if held.HeldBlock? {
      StaysLive(s, e, held.p, held.off);
    }
  }

  /**
   * Whatever the others do, a thread keeps what it holds.
   */
  lemma {:induction false} HeldKept(s: State, acts: seq<Act>, s': State, held: Held)
    requires Inv(s.h, s.v) && Ran(s, acts, s') && Others(acts, held) && Holds(s.v, held)
    ensures Inv(s'.h, s'.v) && SameHeld(s.v, s'.v, held)
    decreases |acts|
  {
    hide InvBut, Enabled, Step, Holds, Lives;
    if acts != [] {
      var s1 := Step(s, acts[0].e);
      StepInv(s, acts[0].e);
      HeldStep(s, acts[0].e, held);
      HeldKept(s1, acts[1..], s', held);
    }
  }
}

/**
 * Pages entering and leaving the subpage allocator of `kmalloc.c`: a fully freed page is
 * taken off both lists, a fresh page is threaded and pushed on them.
 */
module KmallocPages {
  import opened Common
  import opened Seqs
  import opened KmallocModel
  import opened KmallocSteps

  // ---------------------------------------------------------------- the bitmap

  function SetBit(inuse: seq<seq<bool>>, p: int, x: bool): seq<seq<bool>>
    requires |inuse| == 8 && (forall i :: 0 <= i < 8 ==> |inuse[i]| == 32) && 0 <= p < NPAGEREFS
  {
    inuse[p / 32 := inuse[p / 32][p % 32 := x]]
  }

  lemma SetBitAt(inuse: seq<seq<bool>>, p: int, x: bool, q: int)
    requires Bitmap(inuse) && 0 <= p < NPAGEREFS && 0 <= q < NPAGEREFS
    ensures Bitmap(SetBit(inuse, p, x))
    ensures InUse(SetBit(inuse, p, x), q) == if p == q then x else InUse(inuse, q)
  {
    assert p == q || p / 32 != q / 32 || p % 32 != q % 32;
  }

  // ---------------------------------------------------------------- taking a page off the lists

  // remove_lists and freepageref, for the page at position i of allbase and j of its size list.
  function Unlist(l: PageLists, all: seq<int>, same: seq<int>, b: int, i: nat, j: nat): PageLists
    requires |l.sizebases| == NSIZES && 0 <= b < NSIZES && |l.inuse| == 8
      && (forall k :: 0 <= k < 8 ==> |l.inuse[k]| == 32)
    requires |l.nextSame| == |l.nextAll| == NPAGEREFS && i < |all| && j < |same|
    requires forall k :: 0 <= k < |all| ==> 0 <= all[k] < NPAGEREFS
    requires forall k :: 0 <= k < |same| ==> 0 <= same[k] < NPAGEREFS
  {
    PageLists(UnlinkNext(l.nextSame, same, j), UnlinkNext(l.nextAll, all, i),
              l.sizebases[b := UnlinkHead(l.nextSame, l.sizebases[b], same, j)],
              UnlinkHead(l.nextAll, l.allbase, all, i), SetBit(l.inuse, all[i], false))
  }

  // Unlinking from one size list leaves the others as they were.
  lemma UnlistOther(l: PageLists, all: seq<int>, same: seq<seq<int>>, blk: map<int, BlockType>, b: int, j: nat, b': int)
    requires Lists(l, all, same, blk) && 0 <= b < NSIZES && 0 <= b' < NSIZES && b != b' && j < |same[b]|
    ensures Chain(UnlinkNext(l.nextSame, same[b], j), l.sizebases[b'], same[b'])
  {
    var next' := UnlinkNext(l.nextSame, same[b], j);
    forall k | 0 <= k < |same[b']| ensures next'[same[b'][k]] == l.nextSame[same[b'][k]] {
      var q := same[b'][k];
      assert q in same[b'] && blk[q] == b';
      if j > 0 {
        var r := same[b][j - 1];
        assert r in same[b] && blk[r] == b;
      }
    }
    ChainFrame(l.nextSame, next', l.sizebases[b'], same[b']);
  }

  lemma UnlistSizes(l: PageLists, all: seq<int>, same: seq<seq<int>>, blk: map<int, BlockType>, b: int, i: nat, j: nat)
    requires Lists(l, all, same, blk) && 0 <= b < NSIZES && i < |all| && j < |same[b]|
    ensures var l', same' := Unlist(l, all, same[b], b, i, j), same[b := Remove(same[b], j)];
            forall b' :: 0 <= b' < NSIZES ==> Chain(l'.nextSame, l'.sizebases[b'], same'[b']) && NoDup(same'[b'])
  {
    var l', same' := Unlist(l, all, same[b], b, i, j), same[b := Remove(same[b], j)];
    forall b' | 0 <= b' < NSIZES ensures Chain(l'.nextSame, l'.sizebases[b'], same'[b']) && NoDup(same'[b']) {
      if b' == b {
        ChainRemove(l.nextSame, l.sizebases[b], same[b], j);
        RemoveNoDup(same[b], j);
      } else {
        UnlistOther(l, all, same, blk, b, j, b');
      }
    }
  }

  lemma UnlistLists(l: PageLists, all: seq<int>, same: seq<seq<int>>, blk: map<int, BlockType>, p: int, i: nat, j: nat)
    requires Lists(l, all, same, blk) && i < |all| && all[i] == p && j < |same[blk[p]]| && same[blk[p]][j] == p
    ensures var b := blk[p];
            Lists(Unlist(l, all, same[b], b, i, j), Remove(all, i), same[b := Remove(same[b], j)], blk)
  {
    var b := blk[p];
    var l', all', same' := Unlist(l, all, same[b], b, i, j), Remove(all, i), same[b := Remove(same[b], j)];
    ChainRemove(l.nextAll, l.allbase, all, i);
    RemoveNoDup(all, i);
    RemoveNoDup(same[b], j);
    UnlistSizes(l, all, same, blk, b, i, j);
    forall q | 0 <= q < NPAGEREFS ensures Bitmap(l'.inuse) && (InUse(l'.inuse, q) <==> q in all') {
      SetBitAt(l.inuse, p, false, q);
    }
    assert Bitmap(l'.inuse) by { SetBitAt(l.inuse, p, false, 0); }
  }

  function ReleaseView(v: View, p: int, i: nat, j: nat): View
    requires p in v.blk && p in v.page && |v.same| == NSIZES && i < |v.all| && j < |v.same[v.blk[p]]|
  {
    v.(all := Remove(v.all, i), same := v.same[v.blk[p] := Remove(v.same[v.blk[p]], j)],
       transit := v.transit + {v.page[p]})
  }

  lemma ReleaseOwnership(v: View, pab: seq<int>, p: int, i: nat)
    requires Headers(pab, v.all, v.page, v.blk) && Ownership(v.all, v.page, v.transit, v.big)
    requires NoDup(v.all) && i < |v.all| && v.all[i] == p
    ensures Ownership(Remove(v.all, i), v.page, v.transit + {v.page[p]}, v.big)
  {
    RemoveNoDup(v.all, i);
    assert p in v.all;
  }

  /**
   * A page whose blocks are all free has no live block, and taking it off the lists keeps
   * the invariant.  The page is then in the hands of the freeing thread alone.
   */
  lemma ReleaseInv(h: Heap, v: View, p: int, i: nat, j: nat)
    requires InvBut(h, v, p) && i < |v.all| && v.all[i] == p && h.nfree[p] == Count(v.blk[p])
    requires j < |v.same[v.blk[p]]| && v.same[v.blk[p]][j] == p
    ensures v.live[p] == map[] && v.page[p] !in v.transit
    ensures Inv(h.(lists := Unlist(h.lists, v.all, v.same[v.blk[p]], v.blk[p], i, j)), ReleaseView(v, p, i, j))
  {
    hide Multiples;
    var all' := Remove(v.all, i);
    assert p in v.all;
    UnlistLists(h.lists, v.all, v.same, v.blk, p, i, j);
    RemoveNoDup(v.all, i);
    ReleaseOwnership(v, h.pab, p, i);
    FullPage(h, v, p);
    assert Headers(h.pab, all', v.page, v.blk);
    assert FreeLists(h.mem, h.flo, h.nfree, all', v.page, v.blk, v.free);
  }

  lemma FullPage(h: Heap, v: View, p: int)
    requires FreeLists(h.mem, h.flo, h.nfree, v.all, v.page, v.blk, v.free) && Partition(v)
    requires p in v.all && h.nfree[p] == Count(v.blk[p])
    ensures v.live[p] == map[]
  {
    hide Multiples;
    assert FreeList(h.mem, v.page[p], v.blk[p], v.free[p], h.flo[p], h.nfree[p]);
    FreeListLength(v.free[p], v.blk[p]);
    assert Parted(v.blk[p], v.free[p], v.live[p]);
    assert v.live[p].Keys == {};
  }

  // ---------------------------------------------------------------- threading a fresh page

  // The free list of a fresh page with n blocks: the last block first.
  ghost function Fresh(sz: int, n: nat): seq<int> {
    if n == 0 then [] else [(n - 1) * sz] + Fresh(sz, n - 1)
  }

  // The memory after n rounds of the threading loop.
  function FreshMem(mem: Memory, page: int, sz: int, n: nat): Memory {
    if n == 0 then mem
    else FreshMem(mem, page, sz, n - 1)[page + (n - 1) * sz := if n == 1 then 0 else page + (n - 2) * sz]
  }

  lemma {:induction false} FreshElems(sz: int, n: nat)
    requires sz > 0
    ensures |Fresh(sz, n)| == n && NoDup(Fresh(sz, n)) && Elems(Fresh(sz, n)) == Multiples(sz, n)
  {
    if n > 0 {
      FreshElems(sz, n - 1);
      assert Elems(Fresh(sz, n)) == Elems(Fresh(sz, n - 1)) + {(n - 1) * sz};
      NewMultiple(sz, n);
      assert (n - 1) * sz !in Elems(Fresh(sz, n - 1));
    }
  }

  lemma NewMultiple(sz: int, n: nat)
    requires sz > 0 && n > 0
    ensures (n - 1) * sz !in Multiples(sz, n - 1)
  {
    if (n - 1) * sz in Multiples(sz, n - 1) {
      var k := MultipleIndex(sz, n - 1, (n - 1) * sz);
      IndexesApart(k, n - 1, sz);
    }
  }

  lemma {:induction false} FreshThreaded(mem: Memory, page: int, sz: int, n: nat)
    requires sz > 0
    ensures var f := Fresh(sz, n);
            forall i :: 0 <= i < |f| ==> Threaded(FreshMem(mem, page, sz, n), page, f, i)
  {
    if n > 0 {
      FreshThreaded(mem, page, sz, n - 1);
      var m, m', f := FreshMem(mem, page, sz, n - 1), FreshMem(mem, page, sz, n), Fresh(sz, n - 1);
      FreshElems(sz, n - 1);
      NewMultiple(sz, n);
      forall i | 0 <= i < |f| ensures Threaded(m', page, f, i) {
        assert Threaded(m, page, f, i);
        assert f[i] in Elems(f);
      }
      PushThreaded(m', page, f, (n - 1) * sz);
    }
  }

  lemma {:induction false} FreshOutside(mem: Memory, page: int, sz: int, n: nat, len: int)
    requires sz > 0 && n * sz <= len
    ensures SameOutside(mem, FreshMem(mem, page, sz, n), page, page + len)
  {
    if n > 0 {
      IndexesApart(n - 1, n, sz);
      IndexesApart(-1, n - 1, sz);
      FreshOutside(mem, page, sz, n - 1, len);
    }
  }

  // The whole list of a fresh page, as the code leaves it.
  lemma FreshList(mem: Memory, page: int, blk: BlockType)
    ensures var m := FreshMem(mem, page, Size(blk), Count(blk));
            && FreeList(m, page, blk, Fresh(Size(blk), Count(blk)), (Count(blk) - 1) * Size(blk), Count(blk))
            && SameOutside(mem, m, page, page + PAGE)
    ensures Elems(Fresh(Size(blk), Count(blk))) == Blocks(blk)
  {
    BlockCount(0, blk);
    FreshThreaded(mem, page, Size(blk), Count(blk));
    FreshOutside(mem, page, Size(blk), Count(blk), PAGE);
    FreshElems(Size(blk), Count(blk));
    var f := Fresh(Size(blk), Count(blk));
    forall i | 0 <= i < |f| ensures f[i] in Blocks(blk) {
      assert f[i] in Elems(f);
    }
  }

  // ---------------------------------------------------------------- putting a page on the lists

  function Enlist(l: PageLists, p: int, b: int): PageLists
    requires |l.nextSame| == |l.nextAll| == NPAGEREFS && |l.sizebases| == NSIZES && 0 <= p < NPAGEREFS
      && 0 <= b < NSIZES
    requires |l.inuse| == 8 && (forall k :: 0 <= k < 8 ==> |l.inuse[k]| == 32)
  {
    PageLists(l.nextSame[p := l.sizebases[b]], l.nextAll[p := l.allbase], l.sizebases[b := p], p,
      SetBit(l.inuse, p, true))
  }

  lemma EnlistSizes(l: PageLists, all: seq<int>, same: seq<seq<int>>, blk: map<int, BlockType>, p: int, b: BlockType)
    requires Lists(l, all, same, blk) && 0 <= p < NPAGEREFS && p !in all
    ensures var l', same' := Enlist(l, p, b), same[b := [p] + same[b]];
            forall b' :: 0 <= b' < NSIZES ==> Chain(l'.nextSame, l'.sizebases[b'], same'[b']) && NoDup(same'[b'])
  {
    var l', same' := Enlist(l, p, b), same[b := [p] + same[b]];
    forall b' | 0 <= b' < NSIZES ensures Chain(l'.nextSame, l'.sizebases[b'], same'[b']) && NoDup(same'[b']) {
      assert p !in same[b'];
      if b' == b {
        ChainPush(l.nextSame, l.sizebases[b], same[b], p);
      } else {
        ChainFrame(l.nextSame, l'.nextSame, l.sizebases[b'], same[b']);
      }
    }
  }

  lemma EnlistLists(l: PageLists, all: seq<int>, same: seq<seq<int>>, blk: map<int, BlockType>, p: int, b: BlockType)
    requires Lists(l, all, same, blk) && 0 <= p < NPAGEREFS && p !in all
    ensures Lists(Enlist(l, p, b), [p] + all, same[b := [p] + same[b]], blk[p := b])
  {
    var l', all', same', blk' := Enlist(l, p, b), [p] + all, same[b := [p] + same[b]], blk[p := b];
    ChainPush(l.nextAll, l.allbase, all, p);
    EnlistSizes(l, all, same, blk, p, b);
    forall q | 0 <= q < NPAGEREFS ensures Bitmap(l'.inuse) && (InUse(l'.inuse, q) <==> q in all') {
      SetBitAt(l.inuse, p, true, q);
    }
    assert Bitmap(l'.inuse) by { SetBitAt(l.inuse, p, true, 0); }
    forall q | q in all' ensures q in blk' && q in same'[blk'[q]] {
      if q != p {
        assert q in all && q in same[blk[q]];
      }
    }
  }

  function RegisterHeap(h: Heap, p: int, page: int, b: BlockType): Heap
    requires |h.lists.nextSame| == |h.lists.nextAll| == NPAGEREFS && |h.lists.sizebases| == NSIZES && 0 <= p < NPAGEREFS
    requires |h.lists.inuse| == 8 && (forall k :: 0 <= k < 8 ==> |h.lists.inuse[k]| == 32)
    requires |h.pab| == |h.flo| == |h.nfree| == NPAGEREFS
  {
    Heap(FreshMem(h.mem, page, Size(b), Count(b)), Enlist(h.lists, p, b), h.pab[p := Mkpab(page, b)],
         h.flo[p := (Count(b) - 1) * Size(b)], h.nfree[p := Count(b)])
  }

  ghost function RegisterView(v: View, p: int, page: int, b: BlockType): View
    requires |v.same| == NSIZES
  {
    View([p] + v.all, v.same[b := [p] + v.same[b]], v.page[p := page], v.blk[p := b],
         v.free[p := Fresh(Size(b), Count(b))], v.live[p := map[]], v.transit - {page}, v.big)
  }

  // Writes inside a page that is not registered leave every free list as it was.
  lemma UnregisteredFrame(m: Memory, m': Memory, page: int, blk: BlockType, f: seq<int>, flo: int, nfree: int,
                          other: int)
    requires FreeList(m, page, blk, f, flo, nfree) && IsPage(page) && IsPage(other) && page != other
    requires SameOutside(m, m', other, other + PAGE)
    ensures FreeList(m', page, blk, f, flo, nfree)
  {
    hide Multiples;
    forall i | 0 <= i < |f| ensures Threaded(m', page, f, i) {
      assert Threaded(m, page, f, i);
      BlockEnds(f[i], blk);
      if other <= page + f[i] < other + PAGE {
        SamePage(page, other, f[i], page + f[i] - other);
      }
    }
  }

  lemma RegisterFreeLists(h: Heap, v: View, p: int, page: int, b: BlockType)
    requires |h.lists.nextSame| == |h.lists.nextAll| == NPAGEREFS && |h.lists.sizebases| == NSIZES
      && Bitmap(h.lists.inuse)
    requires |v.same| == NSIZES && Headers(h.pab, v.all, v.page, v.blk) && Ownership(v.all, v.page, v.transit, v.big)
    requires FreeLists(h.mem, h.flo, h.nfree, v.all, v.page, v.blk, v.free)
    requires 0 <= p < NPAGEREFS && p !in v.all && page in v.transit
    ensures var h', v' := RegisterHeap(h, p, page, b), RegisterView(v, p, page, b);
            FreeLists(h'.mem, h'.flo, h'.nfree, v'.all, v'.page, v'.blk, v'.free)
  {
    hide Multiples;
    var h', v' := RegisterHeap(h, p, page, b), RegisterView(v, p, page, b);
    FreshList(h.mem, page, b);
    forall q | q in v'.all ensures FreeList(h'.mem, v'.page[q], v'.blk[q], v'.free[q], h'.flo[q], h'.nfree[q]) {
      if q != p {
        assert q in v.all;
        UnregisteredFrame(h.mem, h'.mem, v.page[q], v.blk[q], v.free[q], h.flo[q], h.nfree[q], page);
      }
    }
  }

  lemma RegisterPartition(v: View, p: int, page: int, b: BlockType)
    requires Partition(v) && p !in v.all && |v.same| == NSIZES
    ensures Partition(RegisterView(v, p, page, b))
  {
    hide Multiples;
    var v' := RegisterView(v, p, page, b);
    FreshList(map[], page, b);
    forall q | q in v'.all ensures Parted(v'.blk[q], v'.free[q], v'.live[q]) {
      if q != p {
        assert q in v.all && Parted(v.blk[q], v.free[q], v.live[q]);
      }
    }
  }

  lemma RegisterHeaders(h: Heap, v: View, p: int, page: int, b: BlockType)
    requires Headers(h.pab, v.all, v.page, v.blk) && 0 <= p < NPAGEREFS && IsPage(page)
    ensures Headers(h.pab[p := Mkpab(page, b)], [p] + v.all, v.page[p := page], v.blk[p := b])
  {
    PabParts(page, b);
  }

  lemma RegisterOwnership(v: View, p: int, page: int)
    requires Ownership(v.all, v.page, v.transit, v.big) && p !in v.all && page in v.transit
    ensures Ownership([p] + v.all, v.page[p := page], v.transit - {page}, v.big)
  {
  }

  lemma RegisterUsed(h: Heap, v: View, p: int, b: BlockType)
    requires Used(h.nfree, v.all, v.blk, NIL) && NIL !in v.all && 0 <= p < NPAGEREFS
      && p !in v.all && |h.nfree| == NPAGEREFS
    ensures Used(h.nfree[p := Count(b)], [p] + v.all, v.blk[p := b], p)
  {
  }

  /**
   * Registering a fresh page under an unused pageref keeps the invariant, whatever the
   * page held before.
   */
  lemma RegisterInv(h: Heap, v: View, p: int, page: int, b: BlockType)
    requires Inv(h, v) && 0 <= p < NPAGEREFS && p !in v.all && page in v.transit
    ensures InvBut(RegisterHeap(h, p, page, b), RegisterView(v, p, page, b), p)
  {
    hide Multiples, FreeList, Parted, Chain, InUse, IsPage;
    EnlistLists(h.lists, v.all, v.same, v.blk, p, b);
    RegisterHeaders(h, v, p, page, b);
    RegisterFreeLists(h, v, p, page, b);
    RegisterPartition(v, p, page, b);
    RegisterOwnership(v, p, page);
    RegisterUsed(h, v, p, b);
  }
}

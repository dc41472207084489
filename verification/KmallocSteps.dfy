/**
 * The locked sections of `kmalloc.c` as functions on the state, each shown to keep the
 * invariant.
 */
module KmallocSteps {
  import opened Common
  import opened Seqs
  import opened KmallocModel

  // ---------------------------------------------------------------- writes inside a block

  // The two memories agree outside [lo, hi).
  ghost predicate SameOutside(m: Memory, m': Memory, lo: int, hi: int) {
    forall a :: !(lo <= a < hi) ==> Load(m', a) == Load(m, a)
  }

  /**
   * Writes inside one block leave a free list as it was, on its own page if the block is
   * not on the list, and on every other page.
   */
  lemma FreeListFrame(m: Memory, m': Memory, page: int, blk: BlockType, f: seq<int>, flo: int, nfree: int,
                      page': int, blk': BlockType, off: int)
    requires FreeList(m, page, blk, f, flo, nfree) && IsPage(page) && IsPage(page') && off in Blocks(blk')
    requires page == page' ==> blk == blk' && off !in f
    requires SameOutside(m, m', page' + off, page' + off + Size(blk'))
    ensures FreeList(m', page, blk, f, flo, nfree)
  {
    hide Multiples;
    forall i | 0 <= i < |f| ensures Threaded(m', page, f, i) {
      assert Threaded(m, page, f, i);
      LinkOutside(page, blk, f[i], page', blk', off);
    }
  }

  lemma LinkOutside(page: int, blk: BlockType, o: int, page': int, blk': BlockType, off: int)
    requires IsPage(page) && IsPage(page') && o in Blocks(blk) && off in Blocks(blk')
    requires page == page' ==> blk == blk' && off != o
    ensures !(page' + off <= page + o < page' + off + Size(blk'))
  {
    BlockEnds(off, blk');
    BlockEnds(o, blk);
    if page == page' {
      BlocksApart(o, off, blk);
    } else if page' + off <= page + o < page' + off + Size(blk') {
      SamePage(page, page', o, page + o - page');
    }
  }

  // All free lists survive writes to a block that is live.
  lemma FreeListsFrame(h: Heap, v: View, m: Memory, home: int, off: int)
    requires Headers(h.pab, v.all, v.page, v.blk) && FreeLists(h.mem, h.flo, h.nfree, v.all, v.page, v.blk, v.free)
      && home in v.all
    requires Ownership(v.all, v.page, v.transit, v.big) && off in Blocks(v.blk[home]) && off !in v.free[home]
    requires SameOutside(h.mem, m, v.page[home] + off, v.page[home] + off + Size(v.blk[home]))
    ensures FreeLists(m, h.flo, h.nfree, v.all, v.page, v.blk, v.free)
  {
    forall p | p in v.all ensures FreeList(m, v.page[p], v.blk[p], v.free[p], h.flo[p], h.nfree[p]) {
      FreeListFrame(h.mem, m, v.page[p], v.blk[p], v.free[p], h.flo[p], h.nfree[p], v.page[home], v.blk[home], off);
    }
  }

  /**
   * A client may write anything anywhere in a live block.
   */
  lemma ClientWriteInv(h: Heap, v: View, ptr: int, p: int, off: int, m: Memory)
    requires Inv(h, v) && IsLive(v, ptr, p, off) && SameOutside(h.mem, m, ptr, ptr + Size(v.blk[p]))
    ensures Inv(h.(mem := m), v)
  {
    assert Parted(v.blk[p], v.free[p], v.live[p]) && off !in Elems(v.free[p]);
    FreeListsFrame(h, v, m, p, off);
  }

  // ---------------------------------------------------------------- taking a block

  // The code at `doalloc`: unlink the first free block of page p.
  function TakeHeap(h: Heap, p: int, page: int): Heap
    requires |h.flo| == |h.nfree| == NPAGEREFS && 0 <= p < NPAGEREFS
  {
    var next := Load(h.mem, page + h.flo[p]);
    h.(nfree := h.nfree[p := h.nfree[p] - 1],
       flo := h.flo[p := if next != 0 then next - page else INVALID_OFFSET])
  }

  function TakeView(v: View, p: int, size: int): View
    requires p in v.live && p in v.free && v.free[p] != []
  {
    v.(free := v.free[p := v.free[p][1..]], live := v.live[p := v.live[p][v.free[p][0] := size]])
  }

  lemma TakeList(m: Memory, page: int, blk: BlockType, f: seq<int>, flo: int, nfree: int)
    requires 0 < page && FreeList(m, page, blk, f, flo, nfree) && nfree > 0
    ensures f != [] && flo == f[0] && f[0] in Blocks(blk) && 0 <= f[0] < PAGE
    ensures var next := Load(m, page + flo);
            && FreeList(m, page, blk, f[1..], if next != 0 then next - page else INVALID_OFFSET, nfree - 1)
            && (next != 0 <==> nfree > 1) && (next != 0 ==> 0 <= next - page < PAGE)
  {
    hide Multiples;
    FirstLinks(m, page, blk, f);
    TailThreaded(m, page, f);
    assert forall i :: 0 <= i < |f| - 1 ==> f[1..][i] == f[i + 1];
  }

  lemma TailThreaded(m: Memory, page: int, f: seq<int>)
    requires f != [] && forall i :: 0 <= i < |f| ==> Threaded(m, page, f, i)
    ensures forall i :: 0 <= i < |f[1..]| ==> Threaded(m, page, f[1..], i)
  {
    var t := f[1..];
    forall i | 0 <= i < |t| ensures Threaded(m, page, t, i) {
      assert Threaded(m, page, f, i + 1);
    }
  }

  lemma FirstLinks(m: Memory, page: int, blk: BlockType, f: seq<int>)
    requires 0 < page && f != [] && Threaded(m, page, f, 0) && forall i :: 0 <= i < |f| ==> f[i] in Blocks(blk)
    ensures 0 <= f[0] < PAGE
    ensures var next := Load(m, page + f[0]);
            && (next != 0 <==> |f| > 1) && (next != 0 ==> next - page == f[1] && 0 <= f[1] < PAGE)
  {
    BlockEnds(f[0], blk);
    if |f| > 1 {
      BlockEnds(f[1], blk);
    }
  }

  lemma TakeParted(blk: BlockType, f: seq<int>, live: map<int, int>, size: int)
    requires Parted(blk, f, live) && NoDup(f) && f != [] && 0 <= size <= Size(blk)
    ensures f[0] !in live && Parted(blk, f[1..], live[f[0] := size])
  {
    assert f == [f[0]] + f[1..];
    assert Elems(f) == Elems(f[1..]) + {f[0]};
  }

  // What the code reads at `doalloc`.
  lemma TakeFirst(h: Heap, v: View, p: int)
    requires FreeLists(h.mem, h.flo, h.nfree, v.all, v.page, v.blk, v.free) && p in v.all && h.nfree[p] > 0
      && 0 < v.page[p]
    ensures NoDup(v.free[p]) && v.free[p] != [] && h.flo[p] == v.free[p][0] && 0 <= h.flo[p] < PAGE
    ensures var next := Load(h.mem, v.page[p] + h.flo[p]);
            (next != 0 <==> h.nfree[p] > 1) && (next != 0 ==> 0 <= next - v.page[p] < PAGE)
  {
    hide Multiples;
    TakeList(h.mem, v.page[p], v.blk[p], v.free[p], h.flo[p], h.nfree[p]);
  }

  lemma TakeFreeLists(h: Heap, v: View, p: int)
    requires FreeLists(h.mem, h.flo, h.nfree, v.all, v.page, v.blk, v.free) && p in v.all && h.nfree[p] > 0
      && 0 < v.page[p]
    ensures v.free[p] != []
    ensures var h' := TakeHeap(h, p, v.page[p]);
            FreeLists(h.mem, h'.flo, h'.nfree, v.all, v.page, v.blk, v.free[p := v.free[p][1..]])
  {
    hide Multiples;
    var h', page, f := TakeHeap(h, p, v.page[p]), v.page[p], v.free[p];
    assert f != [] && FreeList(h.mem, page, v.blk[p], f[1..], h'.flo[p], h'.nfree[p]) by {
      TakeList(h.mem, page, v.blk[p], f, h.flo[p], h.nfree[p]);
    }
    FreeListsUpdate(h, v, p, f[1..], h'.flo[p], h'.nfree[p]);
  }

  // Changing the free list of one page.
  lemma FreeListsUpdate(h: Heap, v: View, p: int, f: seq<int>, flo: int, nfree: int)
    requires FreeLists(h.mem, h.flo, h.nfree, v.all, v.page, v.blk, v.free) && p in v.all
      && FreeList(h.mem, v.page[p], v.blk[p], f, flo, nfree)
    ensures FreeLists(h.mem, h.flo[p := flo], h.nfree[p := nfree], v.all, v.page, v.blk, v.free[p := f])
  {
    var flo', nfree', free' := h.flo[p := flo], h.nfree[p := nfree], v.free[p := f];
    forall q | q in v.all ensures FreeList(h.mem, v.page[q], v.blk[q], free'[q], flo'[q], nfree'[q]) {
      assert FreeList(h.mem, v.page[q], v.blk[q], v.free[q], h.flo[q], h.nfree[q]);
    }
  }

  lemma TakePartition(v: View, p: int, size: int)
    requires Partition(v) && p in v.all && NoDup(v.free[p]) && v.free[p] != [] && 0 <= size <= Size(v.blk[p])
    ensures v.free[p][0] !in v.live[p] && Partition(TakeView(v, p, size))
  {
    TakeParted(v.blk[p], v.free[p], v.live[p], size);
    var v' := TakeView(v, p, size);
    forall q | q in v.all ensures Parted(v'.blk[q], v'.free[q], v'.live[q]) {
      assert Parted(v.blk[q], v.free[q], v.live[q]);
    }
  }

  lemma TakeUsed(h: Heap, v: View, p: int)
    requires FreeLists(h.mem, h.flo, h.nfree, v.all, v.page, v.blk, v.free) && Used(h.nfree, v.all, v.blk, p)
      && p in v.all && |h.pab| == NPAGEREFS
    ensures Used(TakeHeap(h, p, v.page[p]).nfree, v.all, v.blk, NIL)
  {
    assert FreeList(h.mem, v.page[p], v.blk[p], v.free[p], h.flo[p], h.nfree[p]);
    FreeListLength(v.free[p], v.blk[p]);
  }

  /**
   * Handing out a block keeps the invariant; the block was not live, and the KASSERTs of
   * the code hold.
   */
  lemma TakeInv(h: Heap, v: View, p: int, size: int)
    requires InvBut(h, v, p) && p in v.all && h.nfree[p] > 0 && 0 <= size <= Size(v.blk[p])
    ensures v.free[p] != [] && h.flo[p] == v.free[p][0] && 0 <= h.flo[p] < PAGE && h.flo[p] !in v.live[p]
    ensures Inv(TakeHeap(h, p, v.page[p]), TakeView(v, p, size))
    ensures var next := Load(h.mem, v.page[p] + h.flo[p]);
            (next != 0 <==> h.nfree[p] > 1) && (next != 0 ==> 0 <= next - v.page[p] < PAGE)
  {
    hide Lists, Ownership, FreeList;
    TakeFirst(h, v, p);
    TakeFreeLists(h, v, p);
    TakePartition(v, p, size);
    TakeUsed(h, v, p);
  }

  // ---------------------------------------------------------------- giving a block back

  function GiveHeap(h: Heap, p: int, page: int, off: int, m: Memory): Heap
    requires |h.flo| == |h.nfree| == NPAGEREFS && 0 <= p < NPAGEREFS
  {
    var link := if h.flo[p] == INVALID_OFFSET then 0 else page + h.flo[p];
    h.(mem := m[page + off := link], flo := h.flo[p := off], nfree := h.nfree[p := h.nfree[p] + 1])
  }

  function GiveView(v: View, p: int, off: int): View
    requires p in v.live && p in v.free
  {
    v.(free := v.free[p := [off] + v.free[p]], live := v.live[p := v.live[p] - {off}])
  }

  lemma PushThreaded(m: Memory, page: int, f: seq<int>, off: int)
    requires forall i :: 0 <= i < |f| ==> Threaded(m, page, f, i)
    requires Load(m, page + off) == if f == [] then 0 else page + f[0]
    ensures forall i :: 0 <= i < |[off] + f| ==> Threaded(m, page, [off] + f, i)
  {
    var g := [off] + f;
    forall i | 0 <= i < |g| ensures Threaded(m, page, g, i) {
      if i > 0 {
        assert Threaded(m, page, f, i - 1);
      }
    }
  }

  lemma GiveList(m: Memory, page: int, blk: BlockType, f: seq<int>, flo: int, nfree: int, off: int)
    requires FreeList(m, page, blk, f, flo, nfree) && off in Blocks(blk) && off !in f
    requires Load(m, page + off) == if flo == INVALID_OFFSET then 0 else page + flo
    ensures FreeList(m, page, blk, [off] + f, off, nfree + 1)
  {
    hide Multiples;
    if f != [] {
      BlockEnds(f[0], blk);
    }
    PushThreaded(m, page, f, off);
  }

  lemma GiveParted(blk: BlockType, f: seq<int>, live: map<int, int>, off: int)
    requires Parted(blk, f, live) && off in live
    ensures Parted(blk, [off] + f, live - {off})
  {
    assert Elems([off] + f) == Elems(f) + {off};
  }

  lemma GivePartition(v: View, p: int, off: int)
    requires Partition(v) && p in v.all && off in v.live[p]
    ensures Partition(GiveView(v, p, off))
  {
    GiveParted(v.blk[p], v.free[p], v.live[p], off);
    var v' := GiveView(v, p, off);
    forall q | q in v.all ensures Parted(v'.blk[q], v'.free[q], v'.live[q]) {
      assert Parted(v.blk[q], v.free[q], v.live[q]);
    }
  }

  lemma GiveOne(h: Heap, v: View, p: int, off: int)
    requires FreeLists(h.mem, h.flo, h.nfree, v.all, v.page, v.blk, v.free)
    requires p in v.all && off in Blocks(v.blk[p]) && off !in v.free[p]
    requires Load(h.mem, v.page[p] + off) == if h.flo[p] == INVALID_OFFSET then 0 else v.page[p] + h.flo[p]
    ensures FreeList(h.mem, v.page[p], v.blk[p], [off] + v.free[p], off, h.nfree[p] + 1)
  {
    hide Multiples;
    GiveList(h.mem, v.page[p], v.blk[p], v.free[p], h.flo[p], h.nfree[p], off);
  }

  lemma GiveFreeLists(h: Heap, v: View, p: int, off: int, m: Memory)
    requires Headers(h.pab, v.all, v.page, v.blk) && FreeLists(h.mem, h.flo, h.nfree, v.all, v.page, v.blk, v.free)
    requires Ownership(v.all, v.page, v.transit, v.big) && p in v.all && off in Blocks(v.blk[p]) && off !in v.free[p]
    requires SameOutside(h.mem, m, v.page[p] + off, v.page[p] + off + Size(v.blk[p]))
    ensures var h' := GiveHeap(h, p, v.page[p], off, m);
            FreeLists(h'.mem, h'.flo, h'.nfree, v.all, v.page, v.blk, v.free[p := [off] + v.free[p]])
  {
    var h' := GiveHeap(h, p, v.page[p], off, m);
    FreeListsFrame(h, v, h'.mem, p, off);
    GiveOne(h.(mem := h'.mem), v, p, off);
    FreeListsUpdate(h.(mem := h'.mem), v, p, [off] + v.free[p], off, h.nfree[p] + 1);
  }

  /**
   * Freeing a live block, after any writes inside it, puts exactly that block back on the
   * free list of its page.  Neither `fill_deadbeef` nor the link damages another list.
   */
  lemma GiveInv(h: Heap, v: View, ptr: int, p: int, off: int, m: Memory)
    requires Inv(h, v) && IsLive(v, ptr, p, off) && SameOutside(h.mem, m, ptr, ptr + Size(v.blk[p]))
    ensures InvBut(GiveHeap(h, p, v.page[p], off, m), GiveView(v, p, off), p)
    ensures h.nfree[p] + 1 <= Count(v.blk[p])
  {
    hide Lists;
    assert Parted(v.blk[p], v.free[p], v.live[p]) && off !in Elems(v.free[p]);
    GiveFreeLists(h, v, p, off, m);
    GivePartition(v, p, off);
  }

  // ---------------------------------------------------------------- list surgery

  lemma ChainFrame(next: seq<int>, next': seq<int>, head: int, l: seq<int>)
    requires Chain(next, head, l) && |next| == |next'|
    requires forall i :: 0 <= i < |l| ==> next'[l[i]] == next[l[i]]
    ensures Chain(next', head, l)
  {
    forall i | 0 <= i < |l| ensures Linked(next', l, i) {
      assert Linked(next, l, i);
    }
  }

  lemma ChainPush(next: seq<int>, head: int, l: seq<int>, p: int)
    requires Chain(next, head, l) && 0 <= p < |next| && p !in l
    ensures Chain(next[p := head], p, [p] + l)
  {
    var next', l' := next[p := head], [p] + l;
    forall i | 0 <= i < |l'| ensures 0 <= l'[i] < |next'| && Linked(next', l', i) {
      if i > 0 {
        assert Linked(next, l, i - 1);
      }
    }
  }

  // Unlinking the i-th element: its predecessor, or the head, takes over its link.
  function UnlinkNext(next: seq<int>, l: seq<int>, i: nat): seq<int>
    requires i < |l| && forall k :: 0 <= k < |l| ==> 0 <= l[k] < |next|
  {
    if i == 0 then next else next[l[i - 1] := next[l[i]]]
  }

  function UnlinkHead(next: seq<int>, head: int, l: seq<int>, i: nat): int
    requires i < |l| && forall k :: 0 <= k < |l| ==> 0 <= l[k] < |next|
  {
    if i == 0 then next[l[0]] else head
  }

  lemma ChainRemove(next: seq<int>, head: int, l: seq<int>, i: nat)
    requires Chain(next, head, l) && NoDup(l) && i < |l|
    ensures Chain(UnlinkNext(next, l, i), UnlinkHead(next, head, l, i), Remove(l, i))
  {
    var next', r := UnlinkNext(next, l, i), Remove(l, i);
    assert Linked(next, l, i);
    forall k | 0 <= k < |r| ensures 0 <= r[k] < |next'| && Linked(next', r, k) {
      var j := if k < i then k else k + 1;
      assert r[k] == l[j] && Linked(next, l, j);
    }
  }
}

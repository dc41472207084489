/**
 * The subpage allocator of `kmalloc.c` as code: each method is one locked section, or a
 * function called inside one, and is proved to be a step of `KmallocRuns`.
 */
module Kmalloc {
  import opened Common
  import Words
  import opened Seqs
  import opened KmallocModel
  import opened KmallocSteps
  import opened KmallocPages
  import opened KmallocRuns
  import opened KmallocThreads

  // The smallest block type that fits.
  function TypeFor(sz: nat): (b: BlockType)
    requires sz <= 2048
    ensures sz <= Size(b) && forall a: BlockType :: a < b ==> Size(a) < sz
  {
    if sz <= 16 then 0 else if sz <= 32 then 1 else if sz <= 64 then 2 else if sz <= 128 then 3
    else if sz <= 256 then 4 else if sz <= 512 then 5 else if sz <= 1024 then 6 else 7
  }

  /**
   * The smallest block type that fits; None is the panic for sizes above 2048.
   */
  method FindBlockType(sz: nat) returns (r: Option<BlockType>)
    ensures r.None? <==> sz > 2048
    ensures r.Some? ==> r.value == TypeFor(sz)
  {
    var i := 0;
    while i < NSIZES
      invariant 0 <= i <= NSIZES
      invariant i > 0 ==> Size(i - 1) < sz
    {
      if sz <= SIZES[i] {
        return Some(i);
      }
      i := i + 1;
    }
    return None;
  }

  // What subpage_kfree reports; `PageFreed` carries the page to give to free_kpages.
  datatype FreeResult = NotOurs | Panic | Freed | PageFreed(page: int)

  // The pointer is a block that is free already.
  ghost predicate IsFree(v: View, ptr: int) {
    exists q :: q in v.all && q in v.page && q in v.free && ptr - v.page[q] in v.free[q]
  }

  // p is on the size list, and no page before it has a free block.
  ghost predicate FirstWith(s: State, b: BlockType, p: int) {
    && |s.v.same| == NSIZES
    && exists k :: 0 <= k < |s.v.same[b]| && s.v.same[b][k] == p && NoneBefore(s, b, k)
  }

  ghost predicate NoneBefore(s: State, b: BlockType, k: int)
    requires |s.v.same| == NSIZES && 0 <= k <= |s.v.same[b]|
  {
    forall i :: 0 <= i < k ==> 0 <= s.v.same[b][i] < |s.h.nfree| && s.h.nfree[s.v.same[b][i]] == 0
  }

  // The pointer is on the page of q and not at the start of a block.
  ghost predicate Misplaced(v: View, ptr: int, q: int) {
    q in v.page && q in v.blk && OnPage(ptr, v.page[q]) && (ptr - v.page[q]) % Size(v.blk[q]) != 0
  }

  // A free block of page q was freed once more: the page is without a proper free list, or
  // it has left the lists with a live block on it.
  ghost predicate FreedTwice(s: State, ptr: int, q: int, r: FreeResult, h: Heap) {
    && q in s.v.all && q in s.v.page && q in s.v.blk && q in s.v.free && q in s.v.live && 0 <= q < |s.h.nfree|
    && ptr - s.v.page[q] in s.v.free[q] && |h.flo| == |h.nfree| == NPAGEREFS && q < NPAGEREFS
    && if s.h.nfree[q] + 1 == Count(s.v.blk[q]) then r == PageFreed(s.v.page[q]) && s.v.live[q] != map[]
       else r.Freed? && !HasFreeList(h.mem, s.v.page[q], s.v.blk[q], h.flo[q], h.nfree[q])
  }

  class Allocator {
    var mem: Memory
    var nextSame: seq<int>
    var nextAll: seq<int>
    var sizebases: seq<int>
    var allbase: int
    var inuse: seq<seq<bool>>
    var pab: seq<int>
    var flo: seq<int>
    var nfree: seq<int>
    ghost var v: View

    ghost function Links(): PageLists
      reads this
    {
      PageLists(nextSame, nextAll, sizebases, allbase, inuse)
    }

    ghost function Now(): State
      reads this
    {
      State(Heap(mem, Links(), pab, flo, nfree), v)
    }

    // The invariant of every moment when kmalloc_spinlock is free.
    ghost predicate Valid()
      reads this
    {
      Inv(Now().h, v)
    }

    constructor (m: Memory)
      ensures Valid() && Initial(Now()) && mem == m
    {
      mem := m;
      nextSame := seq(NPAGEREFS, i => NIL);
      nextAll := seq(NPAGEREFS, i => NIL);
      sizebases := seq(NSIZES, i => NIL);
      allbase := NIL;
      inuse := seq(8, i => seq(32, j => false));
      pab := seq(NPAGEREFS, i => 0);
      flo := seq(NPAGEREFS, i => 0);
      nfree := seq(NPAGEREFS, i => 0);
      v := View([], seq(NSIZES, i => []), map[], map[], map[], map[], {}, map[]);
      new;
      InitialInv(Now());
    }

    // The code at `doalloc`.
    method DoAlloc(p: int, size: int) returns (ptr: int)
      requires InvBut(Now().h, v, p) && p in v.all && nfree[p] > 0 && 0 <= size <= Size(v.blk[p])
      modifies `flo, `nfree, `v
      ensures Valid()
      ensures Now() == State(TakeHeap(old(Now().h), p, old(v.page[p])), TakeView(old(v), p, size))
      ensures ptr == old(v.page[p]) + old(v.free[p][0]) && IsLive(v, ptr, p, old(v.free[p][0]))
    {
      hide Chain, InUse, FreeList, Parted;
      TakeInv(Now().h, v, p, size);
      PabParts(v.page[p], v.blk[p]);
      assert flo[p] < PAGE;
      var prpage := PageOf(pab[p]);
      var fla := prpage + flo[p];
      ptr := fla;
      var next := Load(mem, fla);
      nfree := nfree[p := nfree[p] - 1];
      if next != 0 {
        assert nfree[p] > 0 && 0 <= next - prpage < PAGE;
        flo := flo[p := next - prpage];
      } else {
        assert nfree[p] == 0;
        flo := flo[p := INVALID_OFFSET];
      }
      v := TakeView(v, p, size);
    }

    /**
     * The first unused pageref, marked as used; NIL when all 256 are.
     */
    method AllocPageRef() returns (p: int)
      requires Bitmap(inuse)
      modifies `inuse
      ensures p == NIL ==> inuse == old(inuse) && forall q :: 0 <= q < NPAGEREFS ==> InUse(old(inuse), q)
      ensures p != NIL ==> 0 <= p < NPAGEREFS && !InUse(old(inuse), p) && inuse == SetBit(old(inuse), p, true)
      ensures p != NIL ==> forall q :: 0 <= q < p ==> InUse(old(inuse), q)
    {
      var i := 0;
      while i < 8
        invariant 0 <= i <= 8 && inuse == old(inuse)
        invariant forall q :: 0 <= q < 32 * i ==> InUse(inuse, q)
      {
        if inuse[i] != seq(32, k => true) {
          ghost var w :| 0 <= w < 32 && !inuse[i][w];
          var j := 0;
          while j < 32
            invariant 0 <= j <= w && inuse == old(inuse)
            invariant forall k :: 0 <= k < j ==> inuse[i][k]
          {
            if !inuse[i][j] {
              inuse := inuse[i := inuse[i][j := true]];
              return i * 32 + j;
            }
            j := j + 1;
          }
          assert false;
        }
        i := i + 1;
      }
      return NIL;
    }

    method FreePageRef(p: int)
      requires Bitmap(inuse) && 0 <= p < NPAGEREFS && InUse(inuse, p)
      modifies `inuse
      ensures inuse == SetBit(old(inuse), p, false)
    {
      var i, j := p / 32, p % 32;
      assert inuse[i][j];
      inuse := inuse[i := inuse[i][j := false]];
    }

    /**
     * Both lists lose the page, wherever on them it is.  `guy` is the pageref whose link is
     * about to be read, NIL for the head of the list.
     */
    method RemoveLists(p: int, b: BlockType, ghost i: nat, ghost j: nat)
      requires KmallocModel.Lists(Links(), v.all, v.same, v.blk) && p in v.all && b == v.blk[p]
      requires i < |v.all| && v.all[i] == p && j < |v.same[b]| && v.same[b][j] == p
      modifies `nextSame, `nextAll, `sizebases, `allbase
      ensures nextSame == UnlinkNext(old(nextSame), v.same[b], j) && nextAll == UnlinkNext(old(nextAll), v.all, i)
      ensures sizebases == old(sizebases)[b := UnlinkHead(old(nextSame), old(sizebases[b]), v.same[b], j)]
      ensures allbase == UnlinkHead(old(nextAll), old(allbase), v.all, i)
    {
      RemoveSame(p, b, j);
      RemoveAll(p, i);
    }

    method RemoveSame(p: int, b: BlockType, ghost j: nat)
      requires |sizebases| == |v.same| == NSIZES && Chain(nextSame, sizebases[b], v.same[b]) && NoDup(v.same[b])
      requires j < |v.same[b]| && v.same[b][j] == p
      modifies `nextSame, `sizebases
      ensures nextSame == UnlinkNext(old(nextSame), v.same[b], j)
      ensures sizebases == old(sizebases)[b := UnlinkHead(old(nextSame), old(sizebases[b]), v.same[b], j)]
    {
      var guy, cur := NIL, sizebases[b];
      ghost var k := 0;
      while cur != NIL
        invariant 0 <= k <= j && cur == v.same[b][k] && guy == (if k == 0 then NIL else v.same[b][k - 1])
        invariant nextSame == old(nextSame) && sizebases == old(sizebases)
        decreases j - k
      {
        assert Linked(nextSame, v.same[b], k);
        if cur == p {
          assert k == j;
          if guy == NIL {
            sizebases := sizebases[b := nextSame[p]];
          } else {
            nextSame := nextSame[guy := nextSame[p]];
          }
          return;
        }
        guy, cur := cur, nextSame[cur];
        k := k + 1;
      }
    }

    method RemoveAll(p: int, ghost i: nat)
      requires Chain(nextAll, allbase, v.all) && NoDup(v.all) && i < |v.all| && v.all[i] == p
      modifies `nextAll, `allbase
      ensures nextAll == UnlinkNext(old(nextAll), v.all, i)
        && allbase == UnlinkHead(old(nextAll), old(allbase), v.all, i)
    {
      var guy, cur := NIL, allbase;
      ghost var k := 0;
      while cur != NIL
        invariant 0 <= k <= i && cur == v.all[k] && guy == (if k == 0 then NIL else v.all[k - 1])
        invariant nextAll == old(nextAll) && allbase == old(allbase)
        decreases i - k
      {
        assert Linked(nextAll, v.all, k);
        if cur == p {
          assert k == i;
          if guy == NIL {
            allbase := nextAll[p];
          } else {
            nextAll := nextAll[guy := nextAll[p]];
          }
          return;
        }
        guy, cur := cur, nextAll[cur];
        k := k + 1;
      }
    }

    /**
     * Fills the words of a block and writes nothing outside it.
     */
    method FillDeadbeef(ptr: int, len: nat)
      modifies `mem
      ensures SameOutside(old(mem), mem, ptr, ptr + len)
      ensures forall i :: 0 <= i < len / 4 ==> Load(mem, ptr + 4 * i) == 0xdeadbeef
    {
      var i := 0;
      while i < len / 4
        invariant 0 <= i <= len / 4 && SameOutside(old(mem), mem, ptr, ptr + len)
        invariant forall k :: 0 <= k < i ==> Load(mem, ptr + 4 * k) == 0xdeadbeef
      {
        mem := mem[ptr + 4 * i := 0xdeadbeef];
        i := i + 1;
      }
    }

    /**
     * The first locked section of subpage_kmalloc: a block of the first page of the size
     * list that has one; 0 if none has.
     */
    method AllocFromLists(b: BlockType, size: int) returns (ptr: int, ghost p: int)
      requires Valid() && 0 <= size <= Size(b)
      modifies `flo, `nfree, `v
      ensures Valid()
      ensures ptr == 0 ==> Now() == old(Now()) && forall q :: q in v.same[b] ==> nfree[q] == 0
      ensures ptr != 0 ==>
        && Enabled(old(Now()), Take(p, size)) && Now() == Step(old(Now()), Take(p, size))
        && p in old(v.same[b]) && FirstWith(old(Now()), b, p) && ptr == old(v.page[p]) + old(v.free[p][0])
        && IsLive(v, ptr, p, old(v.free[p][0])) && !IsLive(old(v), ptr, p, old(v.free[p][0]))
    {
      hide KmallocModel.Lists, Headers, FreeLists, Partition, Ownership, Used;
      Shapes(Now().h, v);
      var pr := sizebases[b];
      ghost var k := 0;
      p := NIL;
      while pr != NIL
        invariant Now() == old(Now())
        invariant 0 <= k <= |v.same[b]| && pr == At(v.same[b], k)
        invariant forall i :: 0 <= i < k ==> v.same[b][i] in v.all && nfree[v.same[b][i]] == 0
        decreases |v.same[b]| - k
      {
        OnSizeList(Now().h, v, b, k);
        assert BlkOf(pab[pr]) == b;
        if nfree[pr] > 0 {
          p := pr;
          TakeFresh(Now(), p, size);
          assert FirstWith(Now(), b, p);
          ptr := DoAlloc(pr, size);
          return;
        }
        pr := nextSame[pr];
        k := k + 1;
      }
      SizeListEnds(Now().h, v, b, k);
      ptr := 0;
    }

    // Threads a fresh page: its free list is the blocks from the last to the first.
    method ThreadPage(page: int, b: BlockType) returns (offset: int)
      modifies `mem
      ensures mem == FreshMem(old(mem), page, Size(b), Count(b)) && offset == (Count(b) - 1) * Size(b)
    {
      var fl := page;
      mem := mem[fl := 0];
      var i := 1;
      assert page + (1 - 1) * Size(b) == page;
      while i < Count(b)
        invariant 1 <= i <= Count(b) && fl == page + (i - 1) * Size(b)
        invariant mem == FreshMem(old(mem), page, Size(b), i)
      {
        fl := page + i * Size(b);
        mem := mem[fl := page + (i - 1) * Size(b)];
        i := i + 1;
      }
      offset := fl - page;
    }

    // The header of the fresh page, its free list and its place on both lists.
    method RegisterPage(p: int, page: int, b: BlockType)
      requires |nextSame| == |nextAll| == |pab| == |flo| == |nfree| == NPAGEREFS && |sizebases| == |v.same| == NSIZES
      requires 0 <= p < NPAGEREFS
      modifies `mem, `pab, `flo, `nfree, `nextSame, `nextAll, `sizebases, `allbase, `v
      ensures mem == FreshMem(old(mem), page, Size(b), Count(b)) && pab == old(pab)[p := Mkpab(page, b)]
      ensures flo == old(flo)[p := (Count(b) - 1) * Size(b)] && nfree == old(nfree)[p := Count(b)]
      ensures nextSame == old(nextSame)[p := old(sizebases[b])] && nextAll == old(nextAll)[p := old(allbase)]
      ensures sizebases == old(sizebases)[b := p] && allbase == p && v == RegisterView(old(v), p, page, b)
    {
      pab := pab[p := Mkpab(page, b)];
      BlockCount(0, b);
      nfree := nfree[p := PAGE / SIZES[b]];
      var offset := ThreadPage(page, b);
      flo := flo[p := offset];
      nextSame := nextSame[p := sizebases[b]];
      sizebases := sizebases[b := p];
      nextAll := nextAll[p := allbase];
      allbase := p;
      v := RegisterView(v, p, page, b);
    }

    /**
     * The second locked section of subpage_kmalloc: the fresh page gets the first unused
     * pageref and its first block is handed out.  With no pageref left nothing changes.
     */
    method InstallPage(page: int, b: BlockType, size: int) returns (ptr: int, ghost p: int)
      requires Valid() && page in v.transit && 0 <= size <= Size(b)
      modifies this
      ensures Valid()
      ensures ptr == 0 ==> Now() == old(Now()) && forall q :: 0 <= q < NPAGEREFS ==> q in v.all
      ensures ptr != 0 ==>
        && Enabled(old(Now()), Install(p, page, b, size)) && Now() == Step(old(Now()), Install(p, page, b, size))
        && ptr == page + (Count(b) - 1) * Size(b) && IsLive(v, ptr, p, ptr - page)
        && forall q :: 0 <= q < p ==> q in old(v.all)
    {
      hide KmallocModel.Lists, Headers, FreeLists, Partition, Ownership, Used, FreshMem, Fresh, Multiples, InUse;
      Shapes(Now().h, v);
      var pr := AllocPageRef();
      p := pr;
      if pr == NIL {
        AllInUse(old(Now().h), v);
        return 0, p;
      }
      UnusedRef(old(Now().h), v, pr);
      RegisterInv(old(Now().h), v, pr, page, b);
      FreshFirst(old(Now()), pr, page, b);
      RegisterPage(pr, page, b);
      assert Now() == State(RegisterHeap(old(Now().h), pr, page, b), v);
      ptr := DoAlloc(pr, size);
    }

    // The search loop of subpage_kfree: the registered page the pointer is on, if any.
    method FindPage(ptr: int) returns (pr: int)
      requires Valid()
      ensures pr == NIL ==> forall q :: q in v.all ==> !OnPage(ptr, v.page[q])
      ensures pr != NIL ==> pr in v.all && OnPage(ptr, v.page[pr])
    {
      hide KmallocModel.Lists, Headers, FreeLists, Partition, Ownership, Used;
      Shapes(Now().h, v);
      pr := allbase;
      ghost var k := 0;
      while pr != NIL
        invariant 0 <= k <= |v.all| && pr == At(v.all, k)
        invariant forall i :: 0 <= i < k ==> v.all[i] in v.page && !OnPage(ptr, v.page[v.all[i]])
        decreases |v.all| - k
      {
        OnAllList(Now().h, v, k);
        var prpage, blktype := PageOf(pab[pr]), BlkOf(pab[pr]);
        assert 0 <= blktype < NSIZES;
        if prpage <= ptr < prpage + PAGE {
          return;
        }
        pr := nextAll[pr];
        k := k + 1;
      }
      AllListEnds(Now().h, v, k);
    }

    // Fills the block and links it in front of the free list of its page.
    method GiveBlock(p: int, page: int, off: int, b: BlockType) returns (ghost m: Memory)
      requires |flo| == |nfree| == NPAGEREFS && 0 <= p < NPAGEREFS && p in v.live && p in v.free
      modifies `mem, `flo, `nfree, `v
      ensures SameOutside(old(mem), m, page + off, page + off + Size(b))
      ensures Now() == State(GiveHeap(old(Now().h), p, page, off, m), GiveView(old(v), p, off))
    {
      FillDeadbeef(page + off, SIZES[b]);
      m := mem;
      if flo[p] == INVALID_OFFSET {
        mem := mem[page + off := 0];
      } else {
        mem := mem[page + off := page + flo[p]];
      }
      flo := flo[p := off];
      nfree := nfree[p := nfree[p] + 1];
      v := GiveView(v, p, off);
    }

    // Takes a page off the lists.
    method RetirePage(p: int, b: BlockType) returns (ghost i: nat, ghost j: nat)
      requires KmallocModel.Lists(Links(), v.all, v.same, v.blk) && p in v.all && b == v.blk[p] && p in v.page
      modifies `nextSame, `nextAll, `sizebases, `allbase, `inuse, `v
      ensures i < |old(v).all| && old(v).all[i] == p && j < |old(v).same[b]| && old(v).same[b][j] == p
      ensures Now().h == old(Now().h).(lists := Unlist(old(Links()), old(v).all, old(v).same[b], b, i, j))
      ensures v == ReleaseView(old(v), p, i, j)
    {
      hide Chain;
      i, j := Positions(Links(), v, p);
      RemoveLists(p, b, i, j);
      FreePageRef(p);
      v := ReleaseView(v, p, i, j);
    }

    /**
     * The locked section of subpage_kfree.  A pointer on no registered page is reported as
     * not ours, one that is not at the start of a block panics, and a live block goes back
     * to its page, which leaves the lists exactly when that was its last live block.  A block
     * that is free already is not noticed: its page is left without a proper free list, or
     * is given back with a live block on it.
     */
    method SubpageKfree(ptr: int) returns (r: FreeResult, ghost e: Event)
      requires Valid()
      modifies this
      ensures r.NotOurs? <==> forall q :: q in old(v.all) ==> !OnPage(ptr, old(v).page[q])
      ensures r.Panic? <==> exists q :: q in old(v.all) && Misplaced(old(v), ptr, q)
      ensures r.NotOurs? || r.Panic? ==> Now() == old(Now())
      ensures !IsFree(old(v), ptr) ==> Valid()
      ensures !IsFree(old(v), ptr) && r.Freed? ==>
        e.Give? && Enabled(old(Now()), e) && IsLive(old(v), ptr, e.p, e.off) && Now() == Step(old(Now()), e)
      ensures !IsFree(old(v), ptr) && r.PageFreed? ==>
        && e.GiveLast? && Enabled(old(Now()), e) && IsLive(old(v), ptr, e.p, e.off) && Now() == Step(old(Now()), e)
        && r.page == old(v).page[e.p]
      ensures IsFree(old(v), ptr) ==> exists q :: FreedTwice(old(Now()), ptr, q, r, Now().h)
    {
      hide KmallocModel.Lists, Headers, FreeLists, Partition, Ownership, Used, IsFree, FreedTwice;
      Shapes(Now().h, v);
      e := Foreign(mem);
      var pr := FindPage(ptr);
      FreeIsPlaced(Now().h, v, ptr);
      if pr == NIL {
        return NotOurs, e;
      }
      HeaderParts(Now().h, v, pr);
      OnOnePage(Now().h, v, ptr, pr);
      var prpage, blktype := PageOf(pab[pr]), BlkOf(pab[pr]);
      var offset := ptr - prpage;
      if offset >= PAGE || offset % SIZES[blktype] != 0 {
        assert Misplaced(v, ptr, pr);
        return Panic, e;
      }
      ghost var s := Now();
      ghost var m := GiveBlock(pr, prpage, offset, blktype);
      ghost var mid := Now();
      Given(s, ptr, pr, m);
      BlockCount(0, blktype);
      assert nfree[pr] <= PAGE / SIZES[blktype];
      if nfree[pr] == PAGE / SIZES[blktype] {
        ghost var i, j := RetirePage(pr, blktype);
        e := GiveLast(pr, offset, m, i, j);
        r := PageFreed(prpage);
        if !IsFree(s.v, ptr) {
          ReleaseInv(mid.h, mid.v, pr, i, j);
        }
      } else {
        e := Give(pr, offset, m);
        r := Freed;
        if !IsFree(s.v, ptr) {
          StillUsed(mid.h, mid.v, pr);
        }
      }
      if IsFree(s.v, ptr) {
        GivenTwice(s, ptr, pr, m, r, Now().h);
      }
    }

    // Any number of steps of other threads, while this one does not hold kmalloc_spinlock.
    // The body is the run without any; callers know no more than the contract.
    method OthersRun(ghost held: Held) returns (ghost acts: seq<Act>)
      requires Valid() && Holds(v, held)
      modifies this
      ensures Valid() && Ran(old(Now()), acts, Now()) && Others(acts, held)
      ensures SameHeld(old(v), v, held) && OwnSteps(acts) == []
    {
      hide InvBut;
      acts := [];
      HeldKept(Now(), acts, Now(), held);
    }

    // The doings of other threads, as given, while this one does not hold kmalloc_spinlock.
    method Elapse(s: State, ghost acts: seq<Act>, ghost held: Held)
      requires Valid() && Holds(v, held) && Ran(Now(), acts, s) && Others(acts, held)
      modifies this
      ensures Valid() && Now() == s && SameHeld(old(v), v, held) && OwnSteps(acts) == []
    {
      hide InvBut, Ran, OwnSteps;
      HeldKept(Now(), acts, s, held);
      OthersOwnNothing(acts, held);
      mem, pab, flo, nfree := s.h.mem, s.h.pab, s.h.flo, s.h.nfree;
      nextSame, nextAll, sizebases := s.h.lists.nextSame, s.h.lists.nextAll, s.h.lists.sizebases;
      allbase, inuse := s.h.lists.allbase, s.h.lists.inuse;
      v := s.v;
    }

    // The page source hands pages over or takes them back.
    ghost method Mark(e: Event)
      requires Valid() && (e.GetPage? || e.ReturnPage? || e.BigAlloc? || e.BigFree?) && Enabled(Now(), e)
      modifies `v
      ensures Valid() && Now() == Step(old(Now()), e)
    {
      hide InvBut;
      SourceInv(Now(), e);
      v := Step(Now(), e).v;
    }

    /**
     * kmalloc among other threads and with any answer of the page source, both given by `w`.
     * `acts` is what happens from the call to the return, and `s` the state in which the last
     * locked section starts.  A small request fails exactly if no page of the smallest fitting
     * type has a free block and, besides, the page source has no page or all pagerefs are in
     * use, and then the page goes back.  Otherwise it takes a new block that holds sz bytes
     * from a page of that type, on the lists or fresh, and that is the last thing to happen.
     * A large request takes the pages that the page source answers.
     */
    method Kmalloc(sz: Words.uint32, w: World) returns (ptr: int, ghost acts: seq<Act>, ghost s: State)
      requires Valid() && Plausible(Now(), w, sz)
      modifies this
      ensures Valid() && Ran(old(Now()), acts, Now())
      ensures sz >= 2048 ==>
        && ptr == w.got
        && OwnSteps(acts) == if ptr == 0 || Npages(sz) == 0 then [] else [BigAlloc(ptr, Npages(sz))]
      ensures sz < 2048 ==> (ptr == 0 <==> NoBlock(w.s0, sz) && (w.got == 0 || NoPageref(w.s2)))
      ensures sz < 2048 && ptr != 0 ==>
        s == (if NoBlock(w.s0, sz) then w.s2 else w.s0) && Allocated(old(Now()), acts, s, Now(), ptr, sz, w.got)
      ensures sz < 2048 && ptr == 0 ==> OwnSteps(acts) == if w.got == 0 then [] else [GetPage(w.got), ReturnPage(w.got)]
    {
      hide InvBut, Step, Ran, OwnSteps, Unheld;
      Elapse(w.s0, w.acts0, Nothing);
      acts, s := w.acts0, w.s0;
      if sz >= 2048 {
        var npages := Words.U32(sz + PAGE - 1) / PAGE;
        ptr := w.got;
        if ptr != 0 && npages != 0 {
          Mark(BigAlloc(ptr, npages));
          acts := Extend(old(Now()), acts, s, BigAlloc(ptr, npages));
        }
        return;
      }
      var b := FindBlockType(sz);
      Shapes(s.h, s.v);
      ghost var p;
      ptr, p := AllocFromLists(b.value, sz);
      if ptr != 0 {
        TakeAppears(s, p, sz);
        acts := Extend(old(Now()), acts, s, Take(p, sz));
        return;
      }
      assert NoBlock(s, sz) by {
        forall q | q in s.v.same[b.value] ensures 0 <= q < NPAGEREFS && s.h.nfree[q] == 0 {
          assert q in s.v.all;
        }
      }
      ptr, acts, s := KmallocFresh(b.value, sz, w, old(Now()));
    }

    // subpage_kmalloc from the call of alloc_kpages on, with kmalloc_spinlock released.
    method KmallocFresh(b: BlockType, sz: nat, w: World, ghost s0: State)
      returns (ptr: int, ghost acts: seq<Act>, ghost s: State)
      requires Valid() && sz < 2048 && b == TypeFor(sz) && Plausible(s0, w, sz) && NoBlock(w.s0, sz) && Now() == w.s0
      modifies this
      ensures Valid() && Ran(s0, acts, Now())
      ensures ptr == 0 <==> w.got == 0 || NoPageref(w.s2)
      ensures ptr != 0 ==> s == w.s2 && Allocated(s0, acts, s, Now(), ptr, sz, w.got)
      ensures ptr == 0 ==> OwnSteps(acts) == if w.got == 0 then [] else [GetPage(w.got), ReturnPage(w.got)]
    {
      hide InvBut, Step, Ran, OwnSteps, Unheld;
      OthersOwnNothing(w.acts0, Nothing);
      Elapse(w.s1, w.acts1, Nothing);
      RanConcat(s0, w.acts0, w.s0, w.acts1, w.s1);
      acts, s := w.acts0 + w.acts1, w.s1;
      var page := w.got;
      if page == 0 {
        return 0, acts, s;
      }
      Mark(GetPage(page));
      acts := Extend(s0, acts, w.s1, GetPage(page));
      GotPage(w.s1, page);
      RanConcat(s0, acts, Now(), w.acts2, w.s2);
      Elapse(w.s2, w.acts2, HeldPage(page));
      acts, s := acts + w.acts2, w.s2;
      Shapes(s.h, s.v);
      ghost var p;
      ptr, p := InstallPage(page, b, sz);
      if ptr != 0 {
        InstallAppears(s, p, page, b, sz);
        acts := Extend(s0, acts, s, Install(p, page, b, sz));
        return;
      }
      RanConcat(s0, acts, w.s2, w.acts3, w.s3);
      Elapse(w.s3, w.acts3, HeldPage(page));
      acts := acts + w.acts3;
      Mark(ReturnPage(page));
      acts := Extend(s0, acts, w.s3, ReturnPage(page));
    }

    /**
     * kfree, among other threads, of a pointer that kmalloc returned and that nobody else
     * frees or writes through.  It takes the path the pointer was allocated by, panics
     * nowhere, and its own steps end the life of that block alone; a page that became free
     * goes back to the page source.  `s` is the state in which the locked section starts.
     */
    method Kfree(ptr: int) returns (ghost acts: seq<Act>, ghost s: State, ghost e: Event)
      requires Valid() && Freeable(v, ptr)
      modifies this
      ensures Valid() && Ran(old(Now()), acts, Now())
      ensures ptr == 0 ==> acts == []
      ensures ptr != 0 && ptr in old(v.big) ==> OwnSteps(acts) == [BigFree(ptr)]
      ensures ptr != 0 && ptr !in old(v.big) ==> Released(old(Now()), acts, s, ptr, e)
    {
      hide InvBut, Step, Ran, OwnSteps;
      s, e := Now(), BigFree(ptr);
      if ptr == 0 {
        acts := [];
        NoneRan(s);
        return;
      }
      ghost var held := Holding(s.h, v, ptr);
      acts := OthersRun(held);
      StillHeld(s.v, Now().h, v, ptr, held);
      s := Now();
      FreeableNotFree(Now().h, v, ptr);
      FreeRoutes(Now().h, v, ptr);
      FreeAligned(Now().h, v, ptr);
      var r;
      r, e := SubpageKfree(ptr);
      assert !r.Panic?;
      if r.NotOurs? {
        assert ptr in v.big && ptr % PAGE == 0;
        Mark(BigFree(ptr));
        acts := Extend(old(Now()), acts, s, BigFree(ptr));
        return;
      }
      GiveDisappears(s, e);
      ghost var k, before := |acts|, acts;
      acts := Extend(old(Now()), acts, s, e);
      assert acts[k] == Own(e) && acts[..k] == before;
      if r.PageFreed? {
        ghost var s1 := Now();
        ghost var more := OthersRun(HeldPage(r.page));
        RanConcat(old(Now()), acts, s1, more, Now());
        acts, s1 := acts + more, Now();
        Mark(ReturnPage(r.page));
        acts := Extend(old(Now()), acts, s1, ReturnPage(r.page));
        assert acts[k] == Own(e) && acts[..k] == before;
      }
    }
  }

  /**
   * What happens around a call of kmalloc: the doings of other threads before its first locked
   * section, before the page source is asked, before the second locked section and before a
   * page is given back, each with the state it leads to; and the page source's answer.
   */
  datatype World = World(
    acts0: seq<Act>, s0: State, acts1: seq<Act>, s1: State, got: int, acts2: seq<Act>, s2: State, acts3: seq<Act>,
    s3: State)

  // No page of the smallest type that fits has a free block.
  ghost predicate NoBlock(s: State, sz: nat)
    requires sz <= 2048
  {
    && |s.v.same| == NSIZES && |s.h.nfree| == NPAGEREFS
    && forall q :: q in s.v.same[TypeFor(sz)] ==> 0 <= q < NPAGEREFS && s.h.nfree[q] == 0
  }

  ghost predicate NoPageref(s: State) {
    forall q :: 0 <= q < NPAGEREFS ==> q in s.v.all
  }

  // The others' doings are runs that leave this thread's page alone, and the page source
  // answers 0 or pages that nobody holds; for 0 pages it may answer anything.
  ghost predicate Plausible(s: State, w: World, sz: Words.uint32) {
    && Ran(s, w.acts0, w.s0) && Others(w.acts0, Nothing)
    && if sz >= 2048 then w.got != 0 && Npages(sz) > 0 ==> Unheld(w.s0.v, w.got, Npages(sz))
       else NoBlock(w.s0, sz) ==> PlausibleSource(w)
  }

  ghost predicate PlausibleSource(w: World) {
    && Ran(w.s0, w.acts1, w.s1) && Others(w.acts1, Nothing)
    && (w.got != 0 ==>
          && Inv(w.s1.h, w.s1.v) && Unheld(w.s1.v, w.got, 1)
          && Ran(Step(w.s1, GetPage(w.got)), w.acts2, w.s2) && Others(w.acts2, HeldPage(w.got))
          && (NoPageref(w.s2) ==> Ran(w.s2, w.acts3, w.s3) && Others(w.acts3, HeldPage(w.got))))
  }

  /**
   * A call that nobody disturbs is one such case, whatever the page source answers.
   */
  lemma QuietIsPlausible(s: State, got: int, sz: Words.uint32)
    requires Inv(s.h, s.v) && (got != 0 && sz < 2048 ==> Unheld(s.v, got, 1))
    requires got != 0 && sz >= 2048 && Npages(sz) > 0 ==> Unheld(s.v, got, Npages(sz))
    ensures sz < 2048 ==>
              var s' := if got == 0 then s else Step(s, GetPage(got));
              Plausible(s, World([], s, [], s, got, [], s', [], s'), sz)
    ensures sz >= 2048 ==> Plausible(s, World([], s, [], s, got, [], s, [], s), sz)
  {
    hide InvBut, NoBlock, NoPageref;
    NoneRan(s);
    if got != 0 && sz < 2048 {
      NoneRan(Step(s, GetPage(got)));
    }
  }

  // The last act, in state s, made exactly one new block live, of the smallest type that fits,
  // and it is at ptr.
  ghost predicate Allocated(s0: State, acts: seq<Act>, s: State, s': State, ptr: int, sz: nat, got: int)
    requires sz <= 2048
  {
    && acts != [] && Ran(s0, acts[..|acts| - 1], s) && Inv(s.h, s.v)
    && var e := acts[|acts| - 1].e;
    && acts[|acts| - 1].Own? && Enabled(s, e) && s' == Step(s, e)
    && ((e.Take? && OwnSteps(acts) == [e] && e.p in s.v.same[TypeFor(sz)])
        || (e.Install? && OwnSteps(acts) == [GetPage(got), e] && e.page == got && e.b == TypeFor(sz)))
    && exists off :: IsLive(s'.v, ptr, e.p, off) && Appears(s.v, s'.v, e.p, off, sz)
  }

  // The locked section, in state s, ended the life of the block at ptr and of no other.
  ghost predicate Released(s0: State, acts: seq<Act>, s: State, ptr: int, e: Event) {
    && (exists k :: 0 <= k < |acts| && acts[k] == Own(e) && Ran(s0, acts[..k], s))
    && (e.Give? || e.GiveLast?) && IsLive(s0.v, ptr, e.p, e.off) && IsLive(s.v, ptr, e.p, e.off)
    && Inv(s.h, s.v) && Enabled(s, e) && Disappears(s.v, Step(s, e).v, e.p, e.off)
    && OwnSteps(acts) == if e.Give? then [e] else [e, ReturnPage(s0.v.page[e.p])]
  }

  // One more step of the thread's own.
  lemma Extend(s0: State, acts: seq<Act>, s: State, e: Event) returns (acts': seq<Act>)
    requires Ran(s0, acts, s) && Inv(s.h, s.v) && Enabled(s, e)
    ensures acts' == acts + [Own(e)] && Ran(s0, acts', Step(s, e)) && OwnSteps(acts') == OwnSteps(acts) + [e]
    ensures acts'[..|acts|] == acts
  {
    hide InvBut, Step, Ran, OwnSteps, Enabled;
    RanOne(s, e);
    RanConcat(s0, acts, s, [Own(e)], Step(s, e));
    acts' := acts + [Own(e)];
  }

  lemma NoneRan(s: State)
    ensures Ran(s, [], s) && OwnSteps([]) == []
  {
  }

  lemma GotPage(s: State, page: int)
    requires Inv(s.h, s.v) && Enabled(s, GetPage(page))
    ensures page in Step(s, GetPage(page)).v.transit
  {
  }

  // What the caller of kfree holds.
  lemma Holding(h: Heap, v: View, ptr: int) returns (held: Held)
    requires Inv(h, v) && Freeable(v, ptr) && ptr != 0
    ensures Holds(v, held) && HeldAt(v, ptr, held) && (held.HeldBig? <==> ptr in v.big)
  {
    hide Multiples, Chain, InUse, FreeLists, Parted, Ownership, Used;
    if ptr in v.big {
      held := HeldBig(ptr);
    } else {
      var p, off :| IsLive(v, ptr, p, off);
      held := HeldBlock(p, off);
    }
  }

  ghost predicate HeldAt(v: View, ptr: int, held: Held) {
    held == HeldBig(ptr) || (held.HeldBlock? && IsLive(v, ptr, held.p, held.off))
  }

  lemma StillHeld(v: View, h': Heap, v': View, ptr: int, held: Held)
    requires Inv(h', v') && Holds(v, held) && HeldAt(v, ptr, held) && SameHeld(v, v', held)
    ensures Freeable(v', ptr) && HeldAt(v', ptr, held) && (held.HeldBig? <==> ptr in v'.big)
    ensures forall p, off :: IsLive(v', ptr, p, off) ==> IsLive(v, ptr, p, off) && held == HeldBlock(p, off)
  {
    hide InvBut;
    FreeRoutes(h', v', ptr);
    if held.HeldBlock? {
      LivePlaced(h', v', ptr, held.p, held.off);
    }
    forall p, off | IsLive(v', ptr, p, off) ensures IsLive(v, ptr, p, off) && held == HeldBlock(p, off) {
      LivePlaced(h', v', ptr, p, off);
    }
  }

  // A live block is at the start of a block of its page; a large allocation starts a page.
  lemma FreeAligned(h: Heap, v: View, ptr: int)
    requires Inv(h, v) && Freeable(v, ptr) && ptr != 0
    ensures ptr in v.big ==> ptr % PAGE == 0
    ensures ptr !in v.big ==> exists q :: q in v.all && OnPage(ptr, v.page[q])
    ensures forall q :: q in v.all && OnPage(ptr, v.page[q]) ==> (ptr - v.page[q]) % Size(v.blk[q]) == 0
  {
    hide Multiples, Chain, InUse;
    FreeRoutes(h, v, ptr);
    if ptr !in v.big {
      var p, off :| IsLive(v, ptr, p, off);
      LivePlaced(h, v, ptr, p, off);
      assert OnPage(ptr, v.page[p]) && Parted(v.blk[p], v.free[p], v.live[p]) && off in v.live[p].Keys;
      assert off in Blocks(v.blk[p]);
      BlockAligned(off, v.blk[p]);
    }
  }

  // Exactly one block becomes live: the one at offset off of page p, for a request of sz.
  ghost predicate Appears(v: View, v': View, p: int, off: int, sz: int) {
    && p in v'.live && off in v'.live[p] && v'.live[p][off] == sz && !(p in v.all && p in v.live && off in v.live[p])
    && forall q, o, n :: !(q == p && o == off) ==> (LiveAt(v, q, o, n) <==> LiveAt(v', q, o, n))
  }

  // Exactly one block stops being live.
  ghost predicate Disappears(v: View, v': View, p: int, off: int) {
    && (forall n :: !LiveAt(v', p, off, n))
    && forall q, o, n :: !(q == p && o == off) ==> (LiveAt(v, q, o, n) <==> LiveAt(v', q, o, n))
  }

  // Offset o of pageref q is a live block, handed out for n bytes.
  ghost predicate LiveAt(v: View, q: int, o: int, n: int) {
    q in v.all && q in v.live && o in v.live[q] && v.live[q][o] == n
  }

  lemma TakeAppears(s: State, p: int, size: int)
    requires Inv(s.h, s.v) && Enabled(s, Take(p, size))
    ensures var v' := Step(s, Take(p, size)).v; Appears(s.v, v', p, s.v.free[p][0], size)
  {
    TakeFresh(s, p, size);
  }

  lemma InstallAppears(s: State, p: int, page: int, b: BlockType, size: int)
    requires Inv(s.h, s.v) && Enabled(s, Install(p, page, b, size))
    ensures var v' := Step(s, Install(p, page, b, size)).v; Appears(s.v, v', p, (Count(b) - 1) * Size(b), size)
  {
    hide InvBut;
    Shapes(s.h, s.v);
    FreshFirst(s, p, page, b);
    var w, v' := RegisterView(s.v, p, page, b), Step(s, Install(p, page, b, size)).v;
    assert v' == TakeView(w, p, size);
    forall q, o, n | !(q == p && o == w.free[p][0]) ensures LiveAt(s.v, q, o, n) <==> LiveAt(v', q, o, n) {
      assert q in v'.all <==> q == p || q in s.v.all;
    }
  }

  lemma GiveDisappears(s: State, e: Event)
    requires Inv(s.h, s.v) && (e.Give? || e.GiveLast?) && Enabled(s, e)
    ensures Disappears(s.v, Step(s, e).v, e.p, e.off) && Step(s, e).v.big == s.v.big
    ensures e.Give? ==> Step(s, e).v.transit == s.v.transit
    ensures e.GiveLast? ==> Step(s, e).v.transit == s.v.transit + {s.v.page[e.p]} && s.v.page[e.p] !in s.v.transit
  {
    hide Chain, InUse, FreeLists, Parted, Ownership, Used;
    if e.GiveLast? {
      LastLive(s, e);
      assert forall o :: o in s.v.live[e.p] ==> o in s.v.live[e.p].Keys;
    }
  }

  // The pointers a caller may free.
  ghost predicate Freeable(v: View, ptr: int) {
    ptr == 0 || ptr in v.big || exists p, off :: IsLive(v, ptr, p, off)
  }

  lemma FreeableNotFree(h: Heap, v: View, ptr: int)
    requires Inv(h, v) && ptr != 0 && Freeable(v, ptr)
    ensures !IsFree(v, ptr)
  {
    hide Multiples, Chain, InUse, FreeList;
    FreeRoutes(h, v, ptr);
    forall q | q in v.all ensures ptr - v.page[q] !in v.free[q] {
      FreeOffsets(h, v, q);
      if OnPage(ptr, v.page[q]) {
        var p, off :| IsLive(v, ptr, p, off);
        assert p == q && Parted(v.blk[p], v.free[p], v.live[p]) && off in v.live[p].Keys;
        assert off !in Elems(v.free[p]);
      }
    }
  }

  lemma FreeOffsets(h: Heap, v: View, q: int)
    requires Inv(h, v) && q in v.all
    ensures forall off :: off in v.free[q] ==> 0 <= off < PAGE
  {
    hide Multiples, Chain, InUse;
    var f := v.free[q];
    assert FreeList(h.mem, v.page[q], v.blk[q], f, h.flo[q], h.nfree[q]);
    forall i | 0 <= i < |f| ensures 0 <= f[i] < PAGE {
      BlockEnds(f[i], v.blk[q]);
    }
  }

  // Where a page is on its two lists.
  lemma Positions(l: PageLists, v: View, p: int) returns (i: nat, j: nat)
    requires KmallocModel.Lists(l, v.all, v.same, v.blk) && p in v.all
    ensures p in v.blk && i < |v.all| && v.all[i] == p && j < |v.same[v.blk[p]]| && v.same[v.blk[p]][j] == p
    ensures Bitmap(l.inuse) && 0 <= p < NPAGEREFS && InUse(l.inuse, p)
  {
    hide Linked;
    i :| i < |v.all| && v.all[i] == p;
    j :| j < |v.same[v.blk[p]]| && v.same[v.blk[p]][j] == p;
  }

  // What the walk down allbase finds at its k-th page.
  lemma OnAllList(h: Heap, v: View, k: nat)
    requires Inv(h, v) && k < |v.all|
    ensures var p := v.all[k];
            && p in v.all && PageOf(h.pab[p]) == v.page[p] && BlkOf(h.pab[p]) == v.blk[p]
            && h.lists.nextAll[p] == At(v.all, k + 1)
  {
    hide Multiples, InUse, Parted;
    var p := v.all[k];
    assert p in v.all && Linked(h.lists.nextAll, v.all, k);
    PabParts(v.page[p], v.blk[p]);
  }

  lemma AllListEnds(h: Heap, v: View, k: nat)
    requires Inv(h, v) && k <= |v.all| && At(v.all, k) == NIL
    ensures k == |v.all|
  {
    hide Multiples, InUse, Parted;
  }

  lemma HeaderParts(h: Heap, v: View, p: int)
    requires Inv(h, v) && p in v.all
    ensures PageOf(h.pab[p]) == v.page[p] && BlkOf(h.pab[p]) == v.blk[p]
  {
    hide Multiples, InUse, Parted, Chain;
    PabParts(v.page[p], v.blk[p]);
  }

  lemma OnOnePage(h: Heap, v: View, ptr: int, p: int)
    requires Inv(h, v) && p in v.all && OnPage(ptr, v.page[p])
    ensures forall q :: q in v.all && OnPage(ptr, v.page[q]) ==> q == p
  {
    hide Multiples, InUse, Parted, Chain;
    forall q | q in v.all && q != p ensures !OnPage(ptr, v.page[q]) {
      PagesApart(v.page[p], v.page[q]);
    }
  }

  // A pointer to the start of a block that is not free is live.
  lemma FoundLive(h: Heap, v: View, ptr: int, p: int)
    requires Inv(h, v) && p in v.all && OnPage(ptr, v.page[p]) && (ptr - v.page[p]) % Size(v.blk[p]) == 0
      && !IsFree(v, ptr)
    ensures IsLive(v, ptr, p, ptr - v.page[p])
  {
    hide Multiples, InUse, Chain;
    var off, blk := ptr - v.page[p], v.blk[p];
    AlignedBlock(off, blk);
    assert Parted(blk, v.free[p], v.live[p]);
    assert off in Elems(v.free[p]) + v.live[p].Keys;
  }

  // A free block is at the start of a block of a registered page.
  lemma FreeIsPlaced(h: Heap, v: View, ptr: int)
    requires Inv(h, v)
    ensures IsFree(v, ptr) ==> exists q :: q in v.all && OnPage(ptr, v.page[q])
    ensures IsFree(v, ptr) ==> forall q :: q in v.all ==> !Misplaced(v, ptr, q)
  {
    hide Multiples, InUse, Chain, Parted;
    if IsFree(v, ptr) {
      var q :| q in v.all && q in v.page && q in v.free && ptr - v.page[q] in v.free[q];
      FreeOffsets(h, v, q);
      OnOnePage(h, v, ptr, q);
      assert FreeList(h.mem, v.page[q], v.blk[q], v.free[q], h.flo[q], h.nfree[q]);
      BlockAligned(ptr - v.page[q], v.blk[q]);
    }
  }

  // The link step, for a block that was live and for one that was free.
  lemma Given(s: State, ptr: int, p: int, m: Memory)
    requires Inv(s.h, s.v) && p in s.v.all && OnPage(ptr, s.v.page[p]) && !Misplaced(s.v, ptr, p)
    requires SameOutside(s.h.mem, m, ptr, ptr + Size(s.v.blk[p]))
    ensures var h', v' := GiveHeap(s.h, p, s.v.page[p], ptr - s.v.page[p], m), GiveView(s.v, p, ptr - s.v.page[p]);
            && h'.nfree[p] <= Count(s.v.blk[p]) && KmallocModel.Lists(h'.lists, v'.all, v'.same, v'.blk)
            && (!IsFree(s.v, ptr) ==> InvBut(h', v', p) && IsLive(s.v, ptr, p, ptr - s.v.page[p]))
  {
    hide KmallocModel.Lists, Headers, FreeList, Partition, Ownership, IsFree;
    if !IsFree(s.v, ptr) {
      FoundLive(s.h, s.v, ptr, p);
      GiveInv(s.h, s.v, ptr, p, ptr - s.v.page[p], m);
    }
  }

  lemma GivenTwice(s: State, ptr: int, p: int, m: Memory, r: FreeResult, h: Heap)
    requires Inv(s.h, s.v) && IsFree(s.v, ptr) && p in s.v.all && OnPage(ptr, s.v.page[p]) && !Misplaced(s.v, ptr, p)
    requires SameOutside(s.h.mem, m, ptr, ptr + Size(s.v.blk[p]))
    requires var h' := GiveHeap(s.h, p, s.v.page[p], ptr - s.v.page[p], m);
             && h.mem == h'.mem && h.flo == h'.flo && h.nfree == h'.nfree
             && r == if h'.nfree[p] == Count(s.v.blk[p]) then PageFreed(s.v.page[p]) else Freed
    ensures FreedTwice(s, ptr, p, r, h)
  {
    hide KmallocModel.Lists, Headers, FreeLists, Partition, Ownership, Used, Multiples, HasFreeList;
    Shapes(s.h, s.v);
    var off, v := ptr - s.v.page[p], s.v;
    var q :| q in v.all && q in v.page && q in v.free && ptr - v.page[q] in v.free[q];
    FreeOffsets(s.h, v, q);
    OnOnePage(s.h, v, ptr, p);
    AlignedBlock(off, v.blk[p]);
    GivenOnce(s.h, v, p, off, m);
    PageParts(s.h, v, p);
    if v.live[p] == map[] {
      OnlyFree(v.free[p], v.blk[p]);
    }
  }

  lemma PageParts(h: Heap, v: View, p: int)
    requires Inv(h, v) && p in v.all
    ensures NoDup(v.free[p]) && h.nfree[p] == |v.free[p]| && Elems(v.free[p]) + v.live[p].Keys == Blocks(v.blk[p])
  {
    hide KmallocModel.Lists, Headers, Ownership, Used, Multiples;
    assert FreeList(h.mem, v.page[p], v.blk[p], v.free[p], h.flo[p], h.nfree[p]);
    assert Parted(v.blk[p], v.free[p], v.live[p]);
  }

  lemma OnlyFree(f: seq<int>, blk: BlockType)
    requires NoDup(f) && Elems(f) == Blocks(blk)
    ensures |f| == Count(blk)
  {
    NoDupCard(f);
    MultiplesCard(Size(blk), Count(blk));
  }

  lemma AlignedBlock(off: int, blk: BlockType)
    requires 0 <= off < PAGE && off % Size(blk) == 0
    ensures off in Blocks(blk)
  {
    var sz, n, k := Size(blk), Count(blk), off / Size(blk);
    BlockCount(0, blk);
    Words.DivMod(off, sz);
    if k >= n {
      Words.MulMono(n, k, sz);
      assert false;
    }
    IndexMultiple(sz, n, k);
  }

  lemma AllInUse(h: Heap, v: View)
    requires Inv(h, v) && forall q :: 0 <= q < NPAGEREFS ==> InUse(h.lists.inuse, q)
    ensures forall q :: 0 <= q < NPAGEREFS ==> q in v.all
  {
    hide Multiples, FreeList, Parted;
  }

  lemma UnusedRef(h: Heap, v: View, p: int)
    requires Inv(h, v) && 0 <= p < NPAGEREFS && !InUse(h.lists.inuse, p) && forall q :: 0 <= q < p ==>
      InUse(h.lists.inuse, q)
    ensures p !in v.all && forall q :: 0 <= q < p ==> q in v.all
  {
    hide Multiples, FreeList, Parted;
  }

  lemma FreshFirst(s: State, p: int, page: int, b: BlockType)
    requires Inv(s.h, s.v) && page in s.v.transit
    ensures var f := RegisterView(s.v, p, page, b).free[p];
            f != [] && f[0] == (Count(b) - 1) * Size(b) && 0 < page + f[0]
  {
    hide FreeList, Parted, Chain, InUse;
    BlockCount(Count(b) - 1, b);
  }

  lemma Shapes(h: Heap, v: View)
    requires Inv(h, v)
    ensures |h.lists.nextSame| == |h.lists.nextAll| == |h.pab| == |h.flo| == |h.nfree| == NPAGEREFS
    ensures |h.lists.sizebases| == |v.same| == NSIZES && Bitmap(h.lists.inuse)
    ensures h.lists.allbase == At(v.all, 0) && forall b :: 0 <= b < NSIZES ==> h.lists.sizebases[b] == At(v.same[b], 0)
    ensures forall p :: p in v.all ==> 0 <= p < NPAGEREFS && p in v.page && p in v.blk && p in v.free && p in v.live
    ensures forall b, p :: 0 <= b < NSIZES && p in v.same[b] ==> p in v.all && v.blk[p] == b
  {
    hide Multiples, InUse, Linked, FreeList, Parted;
  }

  // What the walk down a size list finds at its k-th page.
  lemma OnSizeList(h: Heap, v: View, b: BlockType, k: nat)
    requires Inv(h, v) && k < |v.same[b]|
    ensures var p := v.same[b][k];
            && p in v.all && v.blk[p] == b && BlkOf(h.pab[p]) == b && h.nfree[p] >= 0
            && h.lists.nextSame[p] == At(v.same[b], k + 1)
  {
    hide Multiples, InUse, Parted;
    var p := v.same[b][k];
    assert p in v.same[b] && p in v.all && Linked(h.lists.nextSame, v.same[b], k);
    PabParts(v.page[p], v.blk[p]);
    assert FreeList(h.mem, v.page[p], v.blk[p], v.free[p], h.flo[p], h.nfree[p]);
  }

  lemma SizeListEnds(h: Heap, v: View, b: BlockType, k: nat)
    requires Inv(h, v) && k <= |v.same[b]| && At(v.same[b], k) == NIL
    ensures k == |v.same[b]|
  {
    hide Multiples, InUse, Parted;
  }
}

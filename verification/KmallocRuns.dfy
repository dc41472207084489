/**
 * Every run of the allocator of `kmalloc.c`: any interleaving of its locked sections with
 * calls of the page source, client writes and writes elsewhere.
 */
module KmallocRuns {
  import opened Common
  import Words
  import Seqs
  import opened KmallocModel
  import opened KmallocSteps
  import opened KmallocPages

  /**
   * A step of a run.  `Take` is subpage_kmalloc finding a page with a free block; `GetPage`
   * is alloc_kpages(1) answering page; `Install` is the locked section that registers a
   * fresh page and takes a block of it; `Give` is subpage_kfree, `GiveLast` the same when
   * the whole page becomes free; `ReturnPage` is free_kpages on a single page.  `BigAlloc`
   * and `BigFree` are the multi-page path.  A client writes inside a live block (`Write`);
   * anyone else writes anywhere outside the registered pages (`Foreign`).
   */
  datatype Event =
    | Take(p: int, size: int)
    | GetPage(page: int)
    | Install(p: int, page: int, b: BlockType, size: int)
    | ReturnPage(page: int)
    | Give(p: int, off: int, m: Memory)
    | GiveLast(p: int, off: int, m: Memory, i: nat, j: nat)
    | Write(p: int, off: int, m: Memory)
    | Foreign(m: Memory)
    | BigAlloc(a: int, n: int)
    | BigFree(a: int)

  datatype State = State(h: Heap, v: View)

  ghost predicate Owned(v: View, page: int) {
    page in v.transit || exists p :: p in v.all && p in v.page && v.page[p] == page
  }

  // The page source hands out n pages that nobody holds.
  ghost predicate Unheld(v: View, a: int, n: int) {
    && IsPage(a) && n >= 1
    && forall page :: IsPage(page) && a <= page < a + PAGE * n ==> !Owned(v, page) && !InBig(v.big, page)
  }

  ghost predicate SameOnPages(v: View, m: Memory, m': Memory) {
    forall p, a :: p in v.all && p in v.page && v.page[p] <= a < v.page[p] + PAGE ==> Load(m', a) == Load(m, a)
  }

  ghost predicate Writable(s: State, p: int, off: int, m: Memory) {
    && p in s.v.page && p in s.v.blk && IsLive(s.v, s.v.page[p] + off, p, off)
    && SameOutside(s.h.mem, m, s.v.page[p] + off, s.v.page[p] + off + Size(s.v.blk[p]))
  }

  ghost predicate Enabled(s: State, e: Event)
    requires Inv(s.h, s.v)
  {
    match e
    case Take(p, size) => p in s.v.all && s.h.nfree[p] > 0 && 0 <= size <= Size(s.v.blk[p])
    case GetPage(page) => Unheld(s.v, page, 1)
    case Install(p, page, b, size) =>
      0 <= p < NPAGEREFS && p !in s.v.all && page in s.v.transit && 0 <= size <= Size(b)
    case ReturnPage(page) => page in s.v.transit
    case Give(p, off, m) => Writable(s, p, off, m) && s.h.nfree[p] + 1 < Count(s.v.blk[p])
    case GiveLast(p, off, m, i, j) =>
      && Writable(s, p, off, m) && s.h.nfree[p] + 1 == Count(s.v.blk[p])
      && i < |s.v.all| && s.v.all[i] == p && j < |s.v.same[s.v.blk[p]]| && s.v.same[s.v.blk[p]][j] == p
    case Write(p, off, m) => Writable(s, p, off, m)
    case Foreign(m) => SameOnPages(s.v, s.h.mem, m)
    case BigAlloc(a, n) => Unheld(s.v, a, n)
    case BigFree(a) => a in s.v.big
  }

  ghost function Step(s: State, e: Event): State
    requires Inv(s.h, s.v) && Enabled(s, e)
  {
    var h, v := s.h, s.v;
    match e
    case Take(p, size) => State(TakeHeap(h, p, v.page[p]), TakeView(v, p, size))
    case GetPage(page) => State(h, v.(transit := v.transit + {page}))
    case Install(p, page, b, size) =>
      var h', v' := RegisterHeap(h, p, page, b), RegisterView(v, p, page, b);
      State(TakeHeap(h', p, page), TakeView(v', p, size))
    case ReturnPage(page) => State(h, v.(transit := v.transit - {page}))
    case Give(p, off, m) => State(GiveHeap(h, p, v.page[p], off, m), GiveView(v, p, off))
    case GiveLast(p, off, m, i, j) =>
      var h', v' := GiveHeap(h, p, v.page[p], off, m), GiveView(v, p, off);
      State(h'.(lists := Unlist(h'.lists, v.all, v.same[v.blk[p]], v.blk[p], i, j)), ReleaseView(v', p, i, j))
    case Write(_, _, m) => State(h.(mem := m), v)
    case Foreign(m) => State(h.(mem := m), v)
    case BigAlloc(a, n) => State(h, v.(big := v.big[a := n]))
    case BigFree(a) => State(h, v.(big := v.big - {a}))
  }

  // ---------------------------------------------------------------- every step keeps the invariant

  lemma InstallInv(s: State, p: int, page: int, b: BlockType, size: int)
    requires Inv(s.h, s.v) && Enabled(s, Install(p, page, b, size))
    ensures var s' := Step(s, Install(p, page, b, size)); Inv(s'.h, s'.v)
  {
    RegisterInv(s.h, s.v, p, page, b);
    TakeInv(RegisterHeap(s.h, p, page, b), RegisterView(s.v, p, page, b), p, size);
  }

  lemma GiveLastInv(s: State, p: int, off: int, m: Memory, i: nat, j: nat)
    requires Inv(s.h, s.v) && Enabled(s, GiveLast(p, off, m, i, j))
    ensures var s' := Step(s, GiveLast(p, off, m, i, j)); Inv(s'.h, s'.v)
  {
    GiveInv(s.h, s.v, s.v.page[p] + off, p, off, m);
    ReleaseInv(GiveHeap(s.h, p, s.v.page[p], off, m), GiveView(s.v, p, off), p, i, j);
  }

  lemma StillUsed(h: Heap, v: View, p: int)
    requires InvBut(h, v, p) && p in v.all && h.nfree[p] < Count(v.blk[p])
    ensures Inv(h, v)
  {
    hide Lists, Headers, FreeList, Parted, Ownership;
  }

  lemma ForeignInv(s: State, m: Memory)
    requires Inv(s.h, s.v) && Enabled(s, Foreign(m))
    ensures Inv(s.h.(mem := m), s.v)
  {
    hide Multiples;
    var h, v := s.h, s.v;
    forall p | p in v.all ensures FreeList(m, v.page[p], v.blk[p], v.free[p], h.flo[p], h.nfree[p]) {
      OwnPageFrame(h.mem, m, v.page[p], v.blk[p], v.free[p], h.flo[p], h.nfree[p]);
    }
  }

  lemma OwnPageFrame(m: Memory, m': Memory, page: int, blk: BlockType, f: seq<int>, flo: int, nfree: int)
    requires FreeList(m, page, blk, f, flo, nfree)
    requires forall a :: page <= a < page + PAGE ==> Load(m', a) == Load(m, a)
    ensures FreeList(m', page, blk, f, flo, nfree)
  {
    hide Multiples;
    forall i | 0 <= i < |f| ensures Threaded(m', page, f, i) {
      assert Threaded(m, page, f, i);
      BlockEnds(f[i], blk);
    }
  }

  lemma BigAllocOwnership(pab: seq<int>, v: View, a: int, n: int)
    requires Headers(pab, v.all, v.page, v.blk) && Ownership(v.all, v.page, v.transit, v.big) && Unheld(v, a, n)
    ensures Ownership(v.all, v.page, v.transit, v.big[a := n])
  {
    forall page | IsPage(page) && InBig(v.big[a := n], page) ensures InBig(v.big, page) || !Owned(v, page) {
      assert a <= page < a + PAGE * n || InBig(v.big, page);
    }
    forall b | b in v.big ensures b + PAGE * v.big[b] <= a || a + PAGE * n <= b {
      assert IsPage(b) && b <= b < b + PAGE * v.big[b];
      assert InBig(v.big, b);
    }
  }

  lemma BigFreeOwnership(v: View, a: int)
    requires Ownership(v.all, v.page, v.transit, v.big)
    ensures Ownership(v.all, v.page, v.transit, v.big - {a})
  {
    forall page | InBig(v.big - {a}, page) ensures InBig(v.big, page) {
    }
  }

  lemma SourceInv(s: State, e: Event)
    requires Inv(s.h, s.v) && Enabled(s, e) && (e.GetPage? || e.ReturnPage? || e.BigAlloc? || e.BigFree?)
    ensures var s' := Step(s, e); Inv(s'.h, s'.v)
  {
    hide Lists, FreeLists, Parted, InBig;
    if e.GetPage? {
      assert Unheld(s.v, e.page, 1) && IsPage(e.page) && e.page <= e.page < e.page + PAGE * 1;
    } else if e.BigAlloc? {
      BigAllocOwnership(s.h.pab, s.v, e.a, e.n);
    } else if e.BigFree? {
      BigFreeOwnership(s.v, e.a);
    }
  }

  lemma StepInv(s: State, e: Event)
    requires Inv(s.h, s.v) && Enabled(s, e)
    ensures var s' := Step(s, e); Inv(s'.h, s'.v)
  {
    hide InvBut;
    match e
    case Take(p, size) => TakeStep(s, p, size);
    case Install(p, page, b, size) => InstallInv(s, p, page, b, size);
    case Give(p, off, m) => GiveStep(s, p, off, m);
    case GiveLast(p, off, m, i, j) => GiveLastInv(s, p, off, m, i, j);
    case Write(p, off, m) => ClientWriteInv(s.h, s.v, s.v.page[p] + off, p, off, m);
    case Foreign(m) => ForeignInv(s, m);
    case _ => SourceInv(s, e);
  }

  lemma TakeStep(s: State, p: int, size: int)
    requires Inv(s.h, s.v) && Enabled(s, Take(p, size))
    ensures var s' := Step(s, Take(p, size)); Inv(s'.h, s'.v)
  {
    hide Lists, Headers, FreeList, Parted, Ownership;
    assert InvBut(s.h, s.v, p);
    TakeInv(s.h, s.v, p, size);
  }

  lemma GiveStep(s: State, p: int, off: int, m: Memory)
    requires Inv(s.h, s.v) && Enabled(s, Give(p, off, m))
    ensures var s' := Step(s, Give(p, off, m)); Inv(s'.h, s'.v)
  {
    GiveInv(s.h, s.v, s.v.page[p] + off, p, off, m);
    StillUsed(GiveHeap(s.h, p, s.v.page[p], off, m), GiveView(s.v, p, off), p);
  }

  // ---------------------------------------------------------------- whole runs

  // Nothing allocated, the static data zeroed; memory holds anything.
  ghost predicate Initial(s: State) {
    && s.h.lists == PageLists(seq(NPAGEREFS, i => NIL), seq(NPAGEREFS, i => NIL), seq(NSIZES, i => NIL), NIL,
                              seq(8, i => seq(32, j => false)))
    && |s.h.pab| == |s.h.flo| == |s.h.nfree| == NPAGEREFS
    && s.v == View([], seq(NSIZES, i => []), map[], map[], map[], map[], {}, map[])
  }

  lemma InitialInv(s: State)
    requires Initial(s)
    ensures Inv(s.h, s.v)
  {
    forall p | 0 <= p < NPAGEREFS ensures Bitmap(s.h.lists.inuse) && !InUse(s.h.lists.inuse, p) {
    }
  }

  ghost predicate Next(s: State, e: Event, s': State) {
    Inv(s.h, s.v) ==> Enabled(s, e) && s' == Step(s, e)
  }

  ghost predicate Run(ss: seq<State>, es: seq<Event>) {
    && |ss| == |es| + 1 && Initial(ss[0])
    && forall i :: 0 <= i < |es| ==> Next(ss[i], es[i], ss[i + 1])
  }

  /**
   * The invariant holds after every step of every run.
   */
  lemma {:induction false} RunInv(ss: seq<State>, es: seq<Event>, n: nat)
    requires Run(ss, es) && n <= |es|
    ensures Inv(ss[n].h, ss[n].v)
  {
    if n == 0 {
      InitialInv(ss[0]);
    } else {
      RunInv(ss, es, n - 1);
      assert Next(ss[n - 1], es[n - 1], ss[n]);
      StepInv(ss[n - 1], es[n - 1]);
    }
  }

  // How often the page source handed the page out, less how often it got it back.
  function Outstanding(es: seq<Event>, page: int): int {
    if es == [] then 0
    else var e := es[|es| - 1];
      Outstanding(es[..|es| - 1], page) + (if e == GetPage(page) then 1 else if e == ReturnPage(page) then -1 else 0)
  }

  lemma StepOwned(s: State, e: Event, page: int)
    requires Inv(s.h, s.v) && Enabled(s, e)
    ensures e == GetPage(page) ==> !Owned(s.v, page) && Owned(Step(s, e).v, page)
    ensures e == ReturnPage(page) ==> Owned(s.v, page) && !Owned(Step(s, e).v, page)
    ensures e != GetPage(page) && e != ReturnPage(page) ==> (Owned(s.v, page) <==> Owned(Step(s, e).v, page))
  {
    hide Chain, InUse, FreeLists, Parted, InBig;
    match e
    case GetPage(q) => assert Unheld(s.v, q, 1) && IsPage(q) && q <= q < q + PAGE * 1;
    case Install(p, q, b, size) => InstallOwned(s, p, q, b, page);
    case GiveLast(p, off, m, i, j) => ReleaseOwned(s.v, p, i, j, page);
    case _ =>
  }

  lemma InstallOwned(s: State, p: int, q: int, b: BlockType, page: int)
    requires |s.v.same| == NSIZES && q in s.v.transit && p !in s.v.all
    ensures Owned(s.v, page) <==> Owned(RegisterView(s.v, p, q, b), page)
  {
    var v, v' := s.v, RegisterView(s.v, p, q, b);
    if page == q {
      assert p in v'.all && v'.page[p] == page;
    } else if exists r :: r in v.all && r in v.page && v.page[r] == page {
      var r :| r in v.all && r in v.page && v.page[r] == page;
      assert r in v'.all && v'.page[r] == page;
    }
  }

  lemma ReleaseOwned(v: View, p: int, i: nat, j: nat, page: int)
    requires i < |v.all| && v.all[i] == p && Seqs.NoDup(v.all) && p in v.page && p in v.blk && |v.same| == NSIZES
      && j < |v.same[v.blk[p]]|
    ensures Owned(v, page) <==> Owned(ReleaseView(v, p, i, j), page)
  {
    Seqs.RemoveNoDup(v.all, i);
    assert p in v.all;
    var v' := ReleaseView(v, p, i, j);
    if page != v.page[p] && exists r :: r in v.all && r in v.page && v.page[r] == page {
      var r :| r in v.all && r in v.page && v.page[r] == page;
      assert r in v'.all;
    }
  }

  /**
   * Pages are conserved: in every run the allocator holds a page exactly when the page
   * source handed it out once more than it got it back, so a page is returned exactly
   * once for each time it was handed out and never while it is on the lists.
   */
  lemma {:induction false} PagesConserved(ss: seq<State>, es: seq<Event>, n: nat, page: int)
    requires Run(ss, es) && n <= |es|
    ensures Outstanding(es[..n], page) == if Owned(ss[n].v, page) then 1 else 0
  {
    if n > 0 {
      PagesConserved(ss, es, n - 1, page);
      RunInv(ss, es, n - 1);
      assert Next(ss[n - 1], es[n - 1], ss[n]);
      StepOwned(ss[n - 1], es[n - 1], page);
      assert es[..n][..n - 1] == es[..n - 1];
    }
  }

  // ---------------------------------------------------------------- what the invariant promises

  /**
   * A live block lies inside its registered page, is aligned to its size and is at least
   * as large as was asked for.
   */
  lemma LivePlaced(h: Heap, v: View, ptr: int, p: int, off: int)
    requires Inv(h, v) && IsLive(v, ptr, p, off)
    ensures 0 < v.page[p] <= ptr && ptr + Size(v.blk[p]) <= v.page[p] + PAGE
    ensures ptr % Size(v.blk[p]) == 0 && v.live[p][off] <= Size(v.blk[p])
  {
    hide Multiples;
    var blk := v.blk[p];
    assert Parted(blk, v.free[p], v.live[p]) && off in v.live[p].Keys;
    assert off in Blocks(blk);
    BlockEnds(off, blk);
    BlockAligned(off, blk);
    PageAligned(v.page[p], off, blk);
  }

  lemma PageAligned(page: int, off: int, blk: BlockType)
    requires page % PAGE == 0 && off % Size(blk) == 0
    ensures (page + off) % Size(blk) == 0
  {
    BlockCount(0, blk);
    var sz, n, a, k := Size(blk), Count(blk), page / PAGE, off / Size(blk);
    Words.MulAssoc(a, n, sz);
    Words.MulDist(a * n, k, sz);
    Words.DivModUnique(page + off, sz, a * n + k, 0);
  }

  /**
   * Two live blocks never overlap.
   */
  lemma LiveDisjoint(h: Heap, v: View, ptr: int, p: int, off: int, ptr': int, p': int, off': int)
    requires Inv(h, v) && IsLive(v, ptr, p, off) && IsLive(v, ptr', p', off') && (p != p' || off != off')
    ensures ptr + Size(v.blk[p]) <= ptr' || ptr' + Size(v.blk[p']) <= ptr
  {
    hide Multiples;
    assert Parted(v.blk[p], v.free[p], v.live[p]) && off in v.live[p].Keys;
    assert Parted(v.blk[p'], v.free[p'], v.live[p']) && off' in v.live[p'].Keys;
    if p == p' {
      BlocksApart(off, off', v.blk[p]);
    } else {
      BlockEnds(off, v.blk[p]);
      BlockEnds(off', v.blk[p']);
      PagesApart(v.page[p], v.page[p']);
    }
  }

  /**
   * Large allocations overlap neither a live block nor one another.
   */
  lemma BigDisjoint(h: Heap, v: View, a: int, ptr: int, p: int, off: int, b: int)
    requires Inv(h, v) && a in v.big
    ensures IsLive(v, ptr, p, off) ==> ptr + Size(v.blk[p]) <= a || a + PAGE * v.big[a] <= ptr
    ensures b in v.big && a != b ==> a + PAGE * v.big[a] <= b || b + PAGE * v.big[b] <= a
  {
    hide Multiples, Chain, InUse, FreeLists, Parted;
    if IsLive(v, ptr, p, off) {
      LivePlaced(h, v, ptr, p, off);
      assert !(a <= v.page[p] < a + PAGE * v.big[a]);
      PagesApart(v.page[p], a);
    }
  }

  lemma PagesApart(a: int, b: int)
    requires a % PAGE == 0 && b % PAGE == 0 && a != b
    ensures a + PAGE <= b || b + PAGE <= a
  {
  }

  // The test of the search loop in subpage_kfree.
  predicate OnPage(ptr: int, page: int) {
    page <= ptr < page + PAGE
  }

  /**
   * kfree sends each pointer to the path that allocated it: a live block is on its own
   * page and on no other registered page, and a multi-page allocation is on none.
   */
  lemma FreeRoutes(h: Heap, v: View, ptr: int)
    requires Inv(h, v)
    ensures forall p, off, q :: IsLive(v, ptr, p, off) && q in v.all ==> (OnPage(ptr, v.page[q]) <==> q == p)
    ensures ptr in v.big ==> forall q :: q in v.all ==> !OnPage(ptr, v.page[q])
  {
    hide Multiples;
    forall p, off, q | IsLive(v, ptr, p, off) && q in v.all ensures OnPage(ptr, v.page[q]) <==> q == p {
      LivePlaced(h, v, ptr, p, off);
      if q != p {
        PagesApart(v.page[p], v.page[q]);
      }
    }
    if ptr in v.big {
      assert ptr <= ptr < ptr + PAGE * v.big[ptr];
      forall q | q in v.all ensures !OnPage(ptr, v.page[q]) {
        PagesApart(ptr, v.page[q]);
      }
    }
  }

  // The page count of kmalloc's large path, in 32-bit arithmetic.
  function Npages(sz: Words.uint32): (n: int)
    ensures 0 <= n <= 0xfffff
  {
    Words.U32(sz + PAGE - 1) / PAGE
  }

  /**
   * The pages cover the request exactly when the rounding does not wrap; otherwise the
   * count is 0.
   */
  lemma NpagesCovers(sz: Words.uint32)
    ensures PAGE * Npages(sz) >= sz <==> sz <= 0x1_0000_0000 - PAGE
    ensures sz <= 0x1_0000_0000 - PAGE ==> PAGE * Npages(sz) < sz + PAGE
    ensures sz > 0x1_0000_0000 - PAGE ==> Npages(sz) == 0
  {
  }

  // ---------------------------------------------------------------- a block freed twice

  // The links of a list that starts at off and reaches the old list g, in which off is.
  lemma {:induction false} Circles(m: Memory, page: int, g: seq<int>, k: nat, off: int, f: seq<int>, i: nat)
    requires k < |g| && g[k] == off && |f| == |g| + 1 && f[0] == off && i <= k
    requires Load(m, page + off) == page + g[0] && forall l :: 0 <= l < k ==> Threaded(m, page, g, l)
    requires forall l :: 0 <= l < |f| ==> Threaded(m, page, f, l)
    ensures f[i + 1] == g[i]
  {
    if i == 0 {
      assert Threaded(m, page, f, 0);
    } else {
      Circles(m, page, g, k, off, f, i - 1);
      assert Threaded(m, page, f, i) && Threaded(m, page, g, i - 1);
    }
  }

  // The other blocks of the list keep their links.
  lemma LinksKept(m: Memory, m': Memory, page: int, blk: BlockType, g: seq<int>, flo: int, nfree: int, k: nat)
    requires FreeList(m, page, blk, g, flo, nfree) && IsPage(page) && k < |g|
    requires SameOutside(m, m', page + g[k], page + g[k] + Size(blk))
    ensures forall l :: 0 <= l < k ==> Threaded(m', page, g, l)
  {
    hide Multiples;
    forall l | 0 <= l < k ensures Threaded(m', page, g, l) {
      assert Threaded(m, page, g, l);
      LinkOutside(page, blk, g[l], page, blk, g[k]);
    }
  }

  ghost predicate HasFreeList(mem: Memory, page: int, blk: BlockType, flo: int, nfree: int) {
    exists f :: FreeList(mem, page, blk, f, flo, nfree)
  }

  /**
   * After the link step of subpage_kfree the page has a proper free list exactly if the block
   * was not on it already: a block freed twice closes a circle.
   */
  lemma GivenOnce(h: Heap, v: View, p: int, off: int, m: Memory)
    requires Inv(h, v) && p in v.all && off in Blocks(v.blk[p])
    requires SameOutside(h.mem, m, v.page[p] + off, v.page[p] + off + Size(v.blk[p]))
    ensures var h' := GiveHeap(h, p, v.page[p], off, m);
            off !in v.free[p] <==> HasFreeList(h'.mem, v.page[p], v.blk[p], h'.flo[p], h'.nfree[p])
  {
    hide Multiples, Chain, InUse, Parted;
    var h', page, blk, g := GiveHeap(h, p, v.page[p], off, m), v.page[p], v.blk[p], v.free[p];
    assert FreeList(h.mem, page, blk, g, h.flo[p], h.nfree[p]);
    assert SameOutside(h.mem, h'.mem, page + off, page + off + Size(blk));
    if off !in g {
      FreeListFrame(h.mem, h'.mem, page, blk, g, h.flo[p], h.nfree[p], page, blk, off);
      GiveList(h'.mem, page, blk, g, h.flo[p], h.nfree[p], off);
      assert FreeList(h'.mem, page, blk, [off] + g, h'.flo[p], h'.nfree[p]);
    } else {
      var k :| 0 <= k < |g| && g[k] == off;
      BlockEnds(g[0], blk);
      LinksKept(h.mem, h'.mem, page, blk, g, h.flo[p], h.nfree[p], k);
      if HasFreeList(h'.mem, page, blk, off, |g| + 1) {
        var f :| FreeList(h'.mem, page, blk, f, off, |g| + 1);
        Circles(h'.mem, page, g, k, off, f, k);
      }
    }
  }
}

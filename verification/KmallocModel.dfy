/**
 * The state of the subpage allocator of `kmalloc.c` and the invariant that holds
 * whenever kmalloc_spinlock is free.
 *
 * A pageref pointer is an index into `pagerefs`, NIL for NULL.  Field f of pageref i is
 * f[i].  Memory is a map from addresses to words; an absent address reads as 0.
 */
module KmallocModel {
  import opened Common
  import opened Seqs
  import Words

  const PAGE: int := 4096
  const NSIZES: int := 8
  const NPAGEREFS: int := 256
  const INVALID_OFFSET: int := 0xffff
  const NIL: int := -1

  const SIZES: seq<int> := [16, 32, 64, 128, 256, 512, 1024, 2048]

  type BlockType = b: int | 0 <= b < 8

  function Size(blk: BlockType): (sz: int)
    ensures 16 <= sz <= 2048
  {
    SIZES[blk]
  }

  // How many blocks of the type a page holds.
  function Count(blk: BlockType): (n: int)
    ensures 2 <= n <= 256
  {
    [256, 128, 64, 32, 16, 8, 4, 2][blk]
  }

  // The list fields of the pagerefs, the list heads and the bitmap (8 words of 32 bits).
  datatype PageLists = PageLists(
    nextSame: seq<int>, nextAll: seq<int>, sizebases: seq<int>, allbase: int, inuse: seq<seq<bool>>)

  datatype Heap = Heap(mem: Memory, lists: PageLists, pab: seq<int>, flo: seq<int>, nfree: seq<int>)

  /**
   * What the concrete state stands for: the two kinds of pageref list; for each listed
   * pageref its page, its block type, its free list as offsets and its live blocks, by
   * offset, with the size each client asked for; the pages that a thread holds between
   * the page source and the lists; and the live multi-page allocations with their
   * lengths in pages.
   */
  datatype View = View(
    all: seq<int>, same: seq<seq<int>>,
    page: map<int, int>, blk: map<int, BlockType>, free: map<int, seq<int>>, live: map<int, map<int, int>>,
    transit: set<int>, big: map<int, int>)

  // pageaddr_and_blocktype: the page address in the high bits, the block type in the low.
  function PageOf(pab: int): int {
    pab - pab % PAGE
  }

  function BlkOf(pab: int): int {
    pab % PAGE
  }

  function Mkpab(page: int, blk: int): int {
    PageOf(page) + BlkOf(blk)
  }

  ghost predicate IsPage(a: int) {
    0 < a && a % PAGE == 0 && a + PAGE <= 0x1_0000_0000
  }

  lemma PabParts(page: int, blk: BlockType)
    requires IsPage(page)
    ensures Mkpab(page, blk) == page + blk && PageOf(page + blk) == page && BlkOf(page + blk) == blk
  {
  }

  lemma SamePage(a: int, b: int, x: int, y: int)
    requires IsPage(a) && IsPage(b) && 0 <= x < PAGE && 0 <= y < PAGE && a + x == b + y
    ensures a == b && x == y
  {
  }

  // ---------------------------------------------------------------- blocks of a page

  // The first n multiples of sz.
  ghost function Multiples(sz: int, n: nat): set<int> {
    if n == 0 then {} else Multiples(sz, n - 1) + {(n - 1) * sz}
  }

  // The offsets of the blocks of a page.
  ghost function Blocks(blk: BlockType): set<int> {
    Multiples(Size(blk), Count(blk))
  }

  lemma {:induction false} MultipleIndex(sz: int, n: nat, off: int) returns (k: nat)
    requires off in Multiples(sz, n)
    ensures k < n && off == k * sz
  {
    if off == (n - 1) * sz {
      k := n - 1;
    } else {
      k := MultipleIndex(sz, n - 1, off);
    }
  }

  lemma {:induction false} IndexMultiple(sz: int, n: nat, k: nat)
    requires k < n
    ensures k * sz in Multiples(sz, n)
  {
    if k < n - 1 {
      IndexMultiple(sz, n - 1, k);
    }
  }

  lemma {:induction false} MultiplesCard(sz: int, n: nat)
    requires sz > 0
    ensures |Multiples(sz, n)| == n
  {
    if n > 0 {
      MultiplesCard(sz, n - 1);
      if (n - 1) * sz in Multiples(sz, n - 1) {
        var k := MultipleIndex(sz, n - 1, (n - 1) * sz);
        IndexesApart(k, n - 1, sz);
      }
    }
  }

  lemma IndexesApart(a: int, b: int, sz: int)
    requires sz > 0
    ensures a < b ==> a * sz + sz <= b * sz
    ensures b < a ==> b * sz + sz <= a * sz
  {
    Words.MulDist(a, 1, sz);
    Words.MulDist(b, 1, sz);
    if a < b {
      Words.MulMono(a + 1, b, sz);
    } else if b < a {
      Words.MulMono(b + 1, a, sz);
    }
  }

  lemma BlockCount(k: int, blk: BlockType)
    ensures Count(blk) * Size(blk) == PAGE && PAGE / Size(blk) == Count(blk)
    ensures 0 <= k < Count(blk) ==> 0 <= k * Size(blk) && k * Size(blk) + Size(blk) <= PAGE
  {
    if blk == 0 {} else if blk == 1 {} else if blk == 2 {} else if blk == 3 {}
    else if blk == 4 {} else if blk == 5 {} else if blk == 6 {}
  }

  // A block ends inside its page.
  lemma BlockEnds(off: int, blk: BlockType)
    requires off in Blocks(blk)
    ensures 0 <= off && off + Size(blk) <= PAGE
  {
    var k := MultipleIndex(Size(blk), Count(blk), off);
    BlockCount(k, blk);
  }

  // Two blocks of one page are disjoint.
  lemma BlocksApart(o1: int, o2: int, blk: BlockType)
    requires o1 in Blocks(blk) && o2 in Blocks(blk) && o1 != o2
    ensures o1 + Size(blk) <= o2 || o2 + Size(blk) <= o1
  {
    var k1 := MultipleIndex(Size(blk), Count(blk), o1);
    var k2 := MultipleIndex(Size(blk), Count(blk), o2);
    IndexesApart(k1, k2, Size(blk));
  }

  // The test the code makes, offset % sizes[blktype] == 0, holds of every block.
  lemma BlockAligned(off: int, blk: BlockType)
    requires off in Blocks(blk)
    ensures off % Size(blk) == 0
  {
    var k := MultipleIndex(Size(blk), Count(blk), off);
    Words.DivModUnique(off, Size(blk), k, 0);
  }

  // A free list is no longer than its page, and as long only if every block is on it.
  lemma FreeListLength(f: seq<int>, blk: BlockType)
    requires NoDup(f) && forall i :: 0 <= i < |f| ==> f[i] in Blocks(blk)
    ensures |f| <= Count(blk)
    ensures |f| == Count(blk) ==> Elems(f) == Blocks(blk)
  {
    NoDupCard(f);
    MultiplesCard(Size(blk), Count(blk));
    assert Elems(f) <= Blocks(blk);
    SubsetCard(Elems(f), Blocks(blk));
  }

  // ---------------------------------------------------------------- the invariant

  function At(l: seq<int>, i: nat): int {
    if i < |l| then l[i] else NIL
  }

  // `l` is the list that starts at head and follows next.
  ghost predicate Chain(next: seq<int>, head: int, l: seq<int>) {
    && head == At(l, 0)
    && (forall i :: 0 <= i < |l| ==> 0 <= l[i] < |next|)
    && (forall i :: 0 <= i < |l| ==> Linked(next, l, i))
  }

  ghost predicate Linked(next: seq<int>, l: seq<int>, i: int)
    requires 0 <= i < |l| && 0 <= l[i] < |next|
  {
    next[l[i]] == At(l, i + 1)
  }

  ghost predicate Bitmap(inuse: seq<seq<bool>>) {
    |inuse| == 8 && forall i :: 0 <= i < 8 ==> |inuse[i]| == 32
  }

  ghost predicate InUse(inuse: seq<seq<bool>>, p: int)
    requires Bitmap(inuse) && 0 <= p < NPAGEREFS
  {
    inuse[p / 32][p % 32]
  }

  // allbase is the disjoint union of the size lists, and the set of pagerefs in use.
  ghost predicate Lists(l: PageLists, all: seq<int>, same: seq<seq<int>>, blk: map<int, BlockType>) {
    && |l.nextSame| == |l.nextAll| == NPAGEREFS && |l.sizebases| == |same| == NSIZES && Bitmap(l.inuse)
    && Chain(l.nextAll, l.allbase, all) && NoDup(all)
    && (forall b :: 0 <= b < NSIZES ==> Chain(l.nextSame, l.sizebases[b], same[b]) && NoDup(same[b]))
    && (forall b, p :: 0 <= b < NSIZES && p in same[b] ==> p in all && p in blk && blk[p] == b)
    && (forall p :: p in all ==> p in blk && p in same[blk[p]])
    && (forall p :: 0 <= p < NPAGEREFS ==> (InUse(l.inuse, p) <==> p in all))
  }

  // The header of a listed pageref names its page and block type.
  ghost predicate Headers(pab: seq<int>, all: seq<int>, page: map<int, int>, blk: map<int, BlockType>) {
    && |pab| == NPAGEREFS
    && forall p :: p in all ==>
      && 0 <= p < NPAGEREFS && p in page && p in blk && IsPage(page[p])
      && pab[p] == page[p] + blk[p]
  }

  // `f` lists the free offsets of a page in the order of the list threaded through them.
  ghost predicate FreeList(mem: Memory, page: int, blk: BlockType, f: seq<int>, flo: int, nfree: int) {
    && NoDup(f) && nfree == |f|
    && flo == (if f == [] then INVALID_OFFSET else f[0])
    && (forall i :: 0 <= i < |f| ==> f[i] in Blocks(blk))
    && (forall i :: 0 <= i < |f| ==> Threaded(mem, page, f, i))
  }

  // The first word of the i-th free block points to the next, or is NULL in the last.
  ghost predicate Threaded(mem: Memory, page: int, f: seq<int>, i: int)
    requires 0 <= i < |f|
  {
    Load(mem, page + f[i]) == if i + 1 < |f| then page + f[i + 1] else 0
  }

  ghost predicate FreeLists(mem: Memory, flo: seq<int>, nfree: seq<int>, all: seq<int>,
                            page: map<int, int>, blk: map<int, BlockType>, free: map<int, seq<int>>)
  {
    && |flo| == |nfree| == NPAGEREFS
    && (forall p :: p in all ==> 0 <= p < NPAGEREFS && p in page && p in blk && p in free)
    && (forall p :: p in all ==> FreeList(mem, page[p], blk[p], free[p], flo[p], nfree[p]))
  }

  // The blocks of a page are the free ones and the live ones, and a live one is big enough.
  ghost predicate Parted(blk: BlockType, f: seq<int>, live: map<int, int>) {
    && Elems(f) !! live.Keys && Elems(f) + live.Keys == Blocks(blk)
    && forall off :: off in live ==> 0 <= live[off] <= Size(blk)
  }

  ghost predicate Partition(v: View) {
    && (forall p :: p in v.all ==> p in v.blk && p in v.free && p in v.live)
    && (forall p :: p in v.all ==> Parted(v.blk[p], v.free[p], v.live[p]))
  }

  // ptr is the live block at offset off of page p.
  ghost predicate IsLive(v: View, ptr: int, p: int, off: int) {
    p in v.all && p in v.page && p in v.live && off in v.live[p] && ptr == v.page[p] + off
  }

  // The page is part of a multi-page allocation.
  ghost predicate InBig(big: map<int, int>, page: int) {
    exists a :: a in big && a <= page < a + PAGE * big[a]
  }

  // No page is held twice: registered pages, pages in transit and multi-page allocations.
  ghost predicate Ownership(all: seq<int>, page: map<int, int>, transit: set<int>, big: map<int, int>) {
    && (forall p :: p in all ==> p in page && page[p] !in transit && !InBig(big, page[p]))
    && (forall p, q :: p in all && q in all && p != q ==> page[p] != page[q])
    && (forall t :: t in transit ==> IsPage(t) && !InBig(big, t))
    && (forall a :: a in big ==> IsPage(a) && big[a] >= 1)
    && (forall a, b :: a in big && b in big && a < b ==> a + PAGE * big[a] <= b)
  }

  // Every listed page but x has a live block.
  ghost predicate Used(nfree: seq<int>, all: seq<int>, blk: map<int, BlockType>, x: int) {
    forall p :: p in all && p != x ==> 0 <= p < |nfree| && p in blk && nfree[p] < Count(blk[p])
  }

  // The invariant inside a locked section that is filling or draining page x.
  ghost predicate InvBut(h: Heap, v: View, x: int) {
    && Lists(h.lists, v.all, v.same, v.blk)
    && Headers(h.pab, v.all, v.page, v.blk)
    && FreeLists(h.mem, h.flo, h.nfree, v.all, v.page, v.blk, v.free)
    && Partition(v)
    && Ownership(v.all, v.page, v.transit, v.big)
    && Used(h.nfree, v.all, v.blk, x)
  }

  /**
   * Whenever kmalloc_spinlock is free: each listed page's free list is acyclic and as long
   * as nfree says, free and live blocks partition the page, every listed page has a live
   * block, the size lists partition allbase, which is the set of pagerefs in use, and no
   * page is owned twice.
   */
  ghost predicate Inv(h: Heap, v: View) {
    InvBut(h, v, NIL)
  }
}

/**
 * uiomove and uiomovezeros of `uio.c`: scatter and gather between a kernel buffer and the
 * buffers of a list of iovecs.
 */
module Uio {
  import opened Common
  import opened Words

  datatype Iovec = Iovec(base: int, len: nat)

  // UIO_READ moves from the kernel buffer to the iovecs, UIO_WRITE the other way.
  datatype Direction = Read | Write

  datatype Segment = SysSpace | UserSpace

  datatype Result = Ok | Fault(code: int) | Panic

  // ---------------------------------------------------------------- copying

  // The addresses of a buffer, in order.
  function Range(base: int, len: nat): (r: seq<int>)
    ensures |r| == len
  {
    seq(len, i => base + i)
  }

  // The addresses the iovecs cover, in order.
  function Targets(iovs: seq<Iovec>): seq<int> {
    if iovs == [] then [] else Range(iovs[0].base, iovs[0].len) + Targets(iovs[1..])
  }

  function Fetched(mem: Memory, src: seq<int>): seq<int> {
    seq(|src|, i requires 0 <= i < |src| => Load(mem, src[i]))
  }

  // Byte after byte, so that the last one stored at an address stays.
  function Stored(mem: Memory, dst: seq<int>, bytes: seq<int>): Memory
    requires |dst| == |bytes|
  {
    if dst == [] then mem
    else
      var n := |dst| - 1;
      Stored(mem, dst[..n], bytes[..n])[dst[n] := bytes[n]]
  }

  // memmove: as if all bytes were fetched before any is stored.
  function Copied(mem: Memory, dst: seq<int>, src: seq<int>): Memory
    requires |dst| == |src|
  {
    Stored(mem, dst, Fetched(mem, src))
  }

  // No byte of one is a byte of the other.
  ghost predicate Apart(a: seq<int>, b: seq<int>) {
    forall i, j :: 0 <= i < |a| && 0 <= j < |b| ==> a[i] != b[j]
  }

  ghost predicate Distinct(a: seq<int>) {
    forall i, j :: 0 <= i < j < |a| ==> a[i] != a[j]
  }

  lemma {:induction false} StoredBytes(mem: Memory, dst: seq<int>, bytes: seq<int>)
    requires |dst| == |bytes|
    ensures forall a :: a !in dst ==> Load(Stored(mem, dst, bytes), a) == Load(mem, a)
    ensures forall a :: a in dst ==> Load(Stored(mem, dst, bytes), a) in bytes
    ensures Distinct(dst) ==> forall i :: 0 <= i < |dst| ==> Load(Stored(mem, dst, bytes), dst[i]) == bytes[i]
  {
    if dst != [] {
      var n := |dst| - 1;
      StoredBytes(mem, dst[..n], bytes[..n]);
      assert dst == dst[..n] + [dst[n]] && bytes == bytes[..n] + [bytes[n]];
    }
  }

  lemma {:induction false} StoredConcat(mem: Memory, d: seq<int>, b: seq<int>, d': seq<int>, b': seq<int>)
    requires |d| == |b| && |d'| == |b'|
    ensures Stored(Stored(mem, d, b), d', b') == Stored(mem, d + d', b + b')
  {
    if d' == [] {
      assert d + d' == d && b + b' == b;
    } else {
      var n := |d'| - 1;
      StoredConcat(mem, d, b, d'[..n], b'[..n]);
      assert (d + d')[..|d| + n] == d + d'[..n] && (b + b')[..|b| + n] == b + b'[..n];
    }
  }

  /**
   * Two memmoves are one if the first leaves the source of the second alone.
   */
  lemma CopiedConcat(mem: Memory, d: seq<int>, s: seq<int>, d': seq<int>, s': seq<int>)
    requires |d| == |s| && |d'| == |s'| && Apart(d, s')
    ensures Copied(Copied(mem, d, s), d', s') == Copied(mem, d + d', s + s')
  {
    var b := Fetched(mem, s);
    StoredBytes(mem, d, b);
    assert Fetched(Stored(mem, d, b), s') == Fetched(mem, s') by {
      assert forall i :: 0 <= i < |s'| ==> s'[i] !in d;
    }
    assert Fetched(mem, s + s') == b + Fetched(mem, s');
    StoredConcat(mem, d, b, d', Fetched(mem, s'));
  }

  // ---------------------------------------------------------------- what a move does

  // A uio and the memory: the bytes still to transfer, and how far it has come.
  datatype Transfer = Transfer(mem: Memory, targets: seq<int>, resid: uint32, offset: int)

  // k bytes on, with this memory; uio_resid is unsigned and wraps.
  function Past(u: Transfer, k: nat, mem: Memory): Transfer
    requires k <= |u.targets|
  {
    Transfer(mem, u.targets[k..], U32(u.resid - k), u.offset + k)
  }

  function CopiedTo(mem: Memory, rw: Direction, targets: seq<int>, ptr: int): Memory {
    var buffer := Range(ptr, |targets|);
    if rw.Read? then Copied(mem, targets, buffer) else Copied(mem, buffer, targets)
  }

  // k bytes moved, all at once.
  function Moved(u: Transfer, rw: Direction, ptr: int, k: nat): Transfer
    requires k <= |u.targets|
  {
    Past(u, k, CopiedTo(u.mem, rw, u.targets[..k], ptr))
  }

  // k bytes moved, one memmove for each iovec.
  function Gathered(mem: Memory, iovs: seq<Iovec>, rw: Direction, ptr: int, k: nat): Memory
    requires k <= |Targets(iovs)|
    decreases |iovs|
  {
    if k == 0 then mem
    else
      var size := Min(iovs[0].len, k);
      Gathered(CopiedTo(mem, rw, Range(iovs[0].base, size), ptr), iovs[1..], rw, ptr + size, k - size)
  }

  lemma RangeConcat(base: int, a: nat, b: nat)
    ensures Range(base, a) + Range(base + a, b) == Range(base, a + b)
  {
  }

  lemma WrapTwice(x: int, a: int)
    ensures U32(U32(x) - a) == U32(x - a)
  {
  }

  lemma CopiedToConcat(mem: Memory, rw: Direction, t: seq<int>, t': seq<int>, ptr: int)
    requires Apart(t + t', Range(ptr, |t| + |t'|))
    ensures CopiedTo(CopiedTo(mem, rw, t, ptr), rw, t', ptr + |t|) == CopiedTo(mem, rw, t + t', ptr)
  {
    hide Copied;
    var b, b' := Range(ptr, |t|), Range(ptr + |t|, |t'|);
    RangeConcat(ptr, |t|, |t'|);
    assert Apart(t, b') by {
      assert forall i :: 0 <= i < |t| ==> (t + t')[i] == t[i];
      assert forall j :: 0 <= j < |t'| ==> (b + b')[|t| + j] == b'[j];
    }
    assert Apart(b, t') by {
      assert forall i :: 0 <= i < |t'| ==> (t + t')[|t| + i] == t'[i];
      assert forall j :: 0 <= j < |t| ==> (b + b')[j] == b[j];
    }
    CopiedConcat(mem, t, b, t', b');
    CopiedConcat(mem, b, t, b', t');
  }

  /**
   * Two successive moves are one move of both lengths, if the buffer is no target.
   */
  lemma MovesCompose(u: Transfer, rw: Direction, ptr: int, k: nat, k': nat)
    requires k + k' <= |u.targets| && Apart(u.targets[..k + k'], Range(ptr, k + k'))
    ensures Moved(Moved(u, rw, ptr, k), rw, ptr + k, k') == Moved(u, rw, ptr, k + k')
  {
    hide CopiedTo, U32, Apart;
    var v := Moved(u, rw, ptr, k);
    var d, d' := u.targets[..k], v.targets[..k'];
    assert u.targets[..k + k'] == d + d' && u.targets[k + k'..] == v.targets[k'..];
    CopiedToConcat(u.mem, rw, d, d', ptr);
    WrapTwice(u.resid - k, k');
  }

  lemma CopiedToFrame(mem: Memory, rw: Direction, targets: seq<int>, ptr: int, a: int)
    requires if rw.Read? then a !in targets else !(ptr <= a < ptr + |targets|)
    ensures Load(CopiedTo(mem, rw, targets, ptr), a) == Load(mem, a)
  {
    var b := Range(ptr, |targets|);
    StoredBytes(mem, targets, Fetched(mem, b));
    StoredBytes(mem, b, Fetched(mem, targets));
  }

  lemma CopiedToByte(mem: Memory, rw: Direction, targets: seq<int>, ptr: int, i: nat)
    requires i < |targets| && (rw.Read? ==> Distinct(targets))
    ensures var m := CopiedTo(mem, rw, targets, ptr);
            if rw.Read? then Load(m, targets[i]) == Load(mem, ptr + i) else Load(m, ptr + i) == Load(mem, targets[i])
  {
    var b := Range(ptr, |targets|);
    if rw.Read? {
      StoredBytes(mem, targets, Fetched(mem, b));
    } else {
      StoredBytes(mem, b, Fetched(mem, targets));
      assert b[i] == ptr + i;
    }
  }

  /**
   * Byte for byte: a read puts the buffer into the iovecs, a write collects them in the
   * buffer, and no other byte changes.
   */
  lemma MovedBytes(u: Transfer, rw: Direction, ptr: int, k: nat, i: nat, a: int)
    requires k <= |u.targets| && (rw.Read? ==> Distinct(u.targets[..k]))
    ensures var m := Moved(u, rw, ptr, k).mem;
            i < k ==>
              if rw.Read? then Load(m, u.targets[i]) == Load(u.mem, ptr + i)
              else Load(m, ptr + i) == Load(u.mem, u.targets[i])
    ensures (if rw.Read? then a !in u.targets[..k] else !(ptr <= a < ptr + k)) ==>
              Load(Moved(u, rw, ptr, k).mem, a) == Load(u.mem, a)
  {
    hide CopiedTo, Distinct;
    if i < k {
      CopiedToByte(u.mem, rw, u.targets[..k], ptr, i);
    }
    if if rw.Read? then a !in u.targets[..k] else !(ptr <= a < ptr + k) {
      CopiedToFrame(u.mem, rw, u.targets[..k], ptr, a);
    }
  }

  lemma ApartTail(t: seq<int>, t': seq<int>, ptr: int)
    requires Apart(t + t', Range(ptr, |t| + |t'|))
    ensures Apart(t', Range(ptr + |t|, |t'|))
  {
    var b, b' := Range(ptr, |t| + |t'|), Range(ptr + |t|, |t'|);
    forall i, j | 0 <= i < |t'| && 0 <= j < |t'| ensures t'[i] != b'[j] {
      assert (t + t')[|t| + i] == t'[i] && b[|t| + j] == b'[j];
    }
  }

  /**
   * One memmove for each iovec is one move of all, if the buffer is no target.
   */
  lemma {:induction false} GatheredAtOnce(mem: Memory, iovs: seq<Iovec>, rw: Direction, ptr: int, k: nat)
    requires k <= |Targets(iovs)| && Apart(Targets(iovs)[..k], Range(ptr, k))
    ensures Gathered(mem, iovs, rw, ptr, k) == CopiedTo(mem, rw, Targets(iovs)[..k], ptr)
    decreases |iovs|
  {
    if k != 0 {
      hide Copied, Apart;
      var size := Min(iovs[0].len, k);
      var t, t' := Range(iovs[0].base, size), Targets(iovs[1..])[..k - size];
      assert Targets(iovs)[..k] == t + t';
      ApartTail(t, t', ptr);
      GatheredAtOnce(CopiedTo(mem, rw, t, ptr), iovs[1..], rw, ptr + size, k - size);
      CopiedToConcat(mem, rw, t, t', ptr);
    }
  }

  /**
   * Whatever overlaps, only the bytes of the destination change.
   */
  lemma {:induction false} GatheredFrame(mem: Memory, iovs: seq<Iovec>, rw: Direction, ptr: int, k: nat, a: int)
    requires k <= |Targets(iovs)|
    requires if rw.Read? then a !in Targets(iovs)[..k] else !(ptr <= a < ptr + k)
    ensures Load(Gathered(mem, iovs, rw, ptr, k), a) == Load(mem, a)
    decreases |iovs|
  {
    if k != 0 {
      hide CopiedTo, Load;
      var size := Min(iovs[0].len, k);
      var t := Range(iovs[0].base, size);
      assert Targets(iovs)[..k] == t + Targets(iovs[1..])[..k - size];
      CopiedToFrame(mem, rw, t, ptr, a);
      GatheredFrame(CopiedTo(mem, rw, t, ptr), iovs[1..], rw, ptr + size, k - size, a);
    }
  }

  // ---------------------------------------------------------------- how much is moved

  // The first x bytes are a whole number of iovecs.
  predicate Boundary(iovs: seq<Iovec>, x: int) {
    x == 0 || (iovs != [] && x >= iovs[0].len && Boundary(iovs[1..], x - iovs[0].len))
  }

  /**
   * uiomove asks only between iovecs whether uio_resid is used up: it stops there if
   * uio_resid ends at a boundary, and otherwise goes on to n.
   */
  function Amount(iovs: seq<Iovec>, resid: nat, n: nat): nat {
    if resid < n && Boundary(iovs, resid) then resid else n
  }

  /**
   * uiomovezeros asks every 16 bytes as well.
   */
  function ZerosAmount(iovs: seq<Iovec>, resid: nat, n: nat): nat {
    if resid < n && (Boundary(iovs, resid) || resid % 16 == 0) then resid else n
  }

  // The boundaries of iovs, which is k bytes on, are those of iovs0, from there.
  ghost predicate SameBoundaries(iovs0: seq<Iovec>, k: int, iovs: seq<Iovec>, from: int) {
    forall z :: z >= from ==> (Boundary(iovs0, z) <==> Boundary(iovs, z - k))
  }

  lemma {:induction false} TotalIsBoundary(iovs: seq<Iovec>)
    ensures Boundary(iovs, |Targets(iovs)|)
  {
    if iovs != [] {
      TotalIsBoundary(iovs[1..]);
    }
  }

  lemma {:induction false} BoundaryWithin(iovs: seq<Iovec>, x: int)
    requires Boundary(iovs, x)
    ensures 0 <= x <= |Targets(iovs)|
  {
    if x != 0 {
      BoundaryWithin(iovs[1..], x - iovs[0].len);
    }
  }

  /**
   * What uiomove is asked to move is the documented amount, the smaller of n and uio_resid,
   * exactly when n fits in uio_resid or uio_resid ends at a boundary; and the buffers hold it
   * exactly when, besides, an n that fits in uio_resid fits in them.  For uiomovezeros a
   * multiple of 16 does as well.  A uio_resid equal to the total length is a boundary.
   */
  lemma AmountIsSmaller(iovs: seq<Iovec>, resid: nat, n: nat)
    ensures Amount(iovs, resid, n) == Min(n, resid) <==> n <= resid || Boundary(iovs, resid)
    ensures ZerosAmount(iovs, resid, n) == Min(n, resid) <==> n <= resid || Boundary(iovs, resid) || resid % 16 == 0
    ensures Amount(iovs, resid, n) == Min(n, resid) <= |Targets(iovs)| <==>
              if n <= resid then n <= |Targets(iovs)| else Boundary(iovs, resid)
    ensures ZerosAmount(iovs, resid, n) == Min(n, resid) <= |Targets(iovs)| <==>
              if n <= resid then n <= |Targets(iovs)|
              else Boundary(iovs, resid) || (resid % 16 == 0 && resid <= |Targets(iovs)|)
    ensures resid == |Targets(iovs)| ==> Amount(iovs, resid, n) == ZerosAmount(iovs, resid, n) == Min(n, resid)
  {
    TotalIsBoundary(iovs);
    if Boundary(iovs, resid) {
      BoundaryWithin(iovs, resid);
    }
  }

  // The list with the first iovec advanced.
  function Advanced(iovs: seq<Iovec>, size: nat): (r: seq<Iovec>)
    requires iovs != [] && size <= iovs[0].len
    ensures r != [] && r[1..] == iovs[1..]
  {
    [Iovec(iovs[0].base + size, iovs[0].len - size)] + iovs[1..]
  }

  lemma AdvancedBoundary(iovs: seq<Iovec>, size: nat, x: int)
    requires iovs != [] && 0 < size <= iovs[0].len && (x > size || x == size == iovs[0].len)
    ensures Boundary(Advanced(iovs, size), x - size) <==> Boundary(iovs, x)
  {
    var len, iovs' := iovs[0].len, Advanced(iovs, size);
    assert x - size - (len - size) == x - len;
    assert Boundary(iovs[1..], 0);
  }

  // Advancing through the first iovec moves the boundaries along.
  lemma AdvancedBoundaries(iovs0: seq<Iovec>, k: nat, iovs: seq<Iovec>, size: nat)
    requires SameBoundaries(iovs0, k, iovs, k) && iovs != [] && 0 < size <= iovs[0].len
    ensures SameBoundaries(iovs0, k + size, Advanced(iovs, size), k + size + 1)
    ensures size == iovs[0].len ==> SameBoundaries(iovs0, k + size, Advanced(iovs, size), k + size)
    ensures forall z :: k < z < k + size ==> !Boundary(iovs0, z)
  {
    var iovs' := Advanced(iovs, size);
    forall z | z >= k + size && (z > k + size || size == iovs[0].len)
      ensures Boundary(iovs0, z) <==> Boundary(iovs', z - (k + size))
    {
      assert Boundary(iovs0, z) <==> Boundary(iovs, z - k);
      AdvancedBoundary(iovs, size, z - k);
      assert z - k - size == z - (k + size);
    }
    forall z | k < z < k + size ensures !Boundary(iovs0, z) {
      assert Boundary(iovs0, z) <==> Boundary(iovs, z - k);
    }
  }

  lemma EmptyBoundaries(iovs0: seq<Iovec>, k: nat, iovs: seq<Iovec>)
    requires SameBoundaries(iovs0, k, iovs, k) && iovs != [] && iovs[0].len == 0
    ensures SameBoundaries(iovs0, k, iovs[1..], k) && Targets(iovs[1..]) == Targets(iovs)
  {
    forall z | z >= k ensures Boundary(iovs0, z) <==> Boundary(iovs[1..], z - k) {
      assert Boundary(iovs0, z) <==> Boundary(iovs, z - k);
    }
  }

  // ---------------------------------------------------------------- how many copies

  // The boundaries strictly between a and b.
  function Cuts(iovs: seq<Iovec>, a: nat, b: nat): nat {
    if b <= a + 1 then 0 else Cuts(iovs, a, b - 1) + if Boundary(iovs, b - 1) then 1 else 0
  }

  // How many copies uiomove makes for the bytes from a to b: one for each iovec they are in.
  function Copies(iovs: seq<Iovec>, a: nat, b: nat): nat {
    if b <= a then 0 else 1 + Cuts(iovs, a, b)
  }

  // How many uiomovezeros makes for the first a bytes: it starts afresh every 16 bytes.
  function ZerosCopies(iovs: seq<Iovec>, a: nat): nat {
    if a == 0 then 0
    else var p := (a - 1) / 16 * 16; ZerosCopies(iovs, p) + Copies(iovs, p, a)
  }

  lemma {:induction false} NoCuts(iovs: seq<Iovec>, a: nat, b: nat)
    requires forall z :: a < z < b ==> !Boundary(iovs, z)
    ensures Cuts(iovs, a, b) == 0
    decreases b
  {
    if b > a + 1 {
      NoCuts(iovs, a, b - 1);
    }
  }

  lemma {:induction false} CutsSplit(iovs: seq<Iovec>, a: nat, m: nat, b: nat)
    requires a < m < b
    ensures Cuts(iovs, a, b) == Cuts(iovs, a, m) + (if Boundary(iovs, m) then 1 else 0) + Cuts(iovs, m, b)
    decreases b
  {
    hide Boundary;
    if m < b - 1 {
      CutsSplit(iovs, a, m, b - 1);
    }
  }

  lemma {:induction false} CutsGrow(iovs: seq<Iovec>, a: nat, b: nat, b': nat)
    requires b <= b'
    ensures Cuts(iovs, a, b) <= Cuts(iovs, a, b') && Copies(iovs, a, b) <= Copies(iovs, a, b')
    decreases b'
  {
    hide Boundary;
    if b < b' {
      CutsGrow(iovs, a, b, b' - 1);
    }
  }

  // Seen from k bytes on, the cuts are the same.
  lemma {:induction false} CutsShift(iovs0: seq<Iovec>, k: nat, iovs: seq<Iovec>, x: nat)
    requires SameBoundaries(iovs0, k, iovs, k + 1)
    ensures Cuts(iovs, 0, x) == Cuts(iovs0, k, k + x) && Copies(iovs, 0, x) == Copies(iovs0, k, k + x)
  {
    hide Boundary;
    if x > 1 {
      CutsShift(iovs0, k, iovs, x - 1);
      assert Boundary(iovs0, k + x - 1) <==> Boundary(iovs, k + x - 1 - k);
      assert k + x - 1 - k == x - 1;
    }
  }

  // The next chunk, from a boundary on, is one copy more.
  lemma CopiesChunk(iovs: seq<Iovec>, k: nat, size: nat)
    requires size > 0 && Boundary(iovs, k) && forall z :: k < z < k + size ==> !Boundary(iovs, z)
    ensures Copies(iovs, 0, k + size) == Copies(iovs, 0, k) + 1
  {
    NoCuts(iovs, k, k + size);
    if k > 0 {
      CutsSplit(iovs, 0, k, k + size);
    }
  }

  lemma SixteenStart(k: nat, a: nat)
    requires k % 16 == 0 && 0 < a <= 16
    ensures (k + a - 1) / 16 * 16 == k
  {
  }

  lemma {:induction false} ZerosCopiesGrow(iovs: seq<Iovec>, a: nat, b: nat)
    requires a <= b
    ensures ZerosCopies(iovs, a) <= ZerosCopies(iovs, b)
    decreases b
  {
    hide Boundary, Cuts;
    if a < b {
      ZerosCopiesGrow(iovs, a, b - 1);
      var p := (b - 1) / 16 * 16;
      if p == b - 1 {
      } else {
        assert (b - 2) / 16 * 16 == p;
        CutsGrow(iovs, p, b - 1, b);
      }
    }
  }

  // ---------------------------------------------------------------- the code

  // Whatever is moved next from here, in one memmove for each iovec, is what is moved after
  // the first k bytes from the start.
  ghost predicate Onward(mem0: Memory, iovs0: seq<Iovec>, rw: Direction, ptr: int, k: nat, mem: Memory,
                         iovs: seq<Iovec>)
  {
    && k <= |Targets(iovs0)| && Targets(iovs) == Targets(iovs0)[k..]
    && forall z: nat :: k <= z <= |Targets(iovs0)| ==>
         Gathered(mem0, iovs0, rw, ptr, z) == Gathered(mem, iovs, rw, ptr + k, z - k)
  }

  lemma OnwardEmpty(mem0: Memory, iovs0: seq<Iovec>, rw: Direction, ptr: int, k: nat, mem: Memory, iovs: seq<Iovec>)
    requires Onward(mem0, iovs0, rw, ptr, k, mem, iovs) && iovs != [] && iovs[0].len == 0
    ensures Onward(mem0, iovs0, rw, ptr, k, mem, iovs[1..])
  {
    assert Targets(iovs) == Targets(iovs[1..]);
    forall z: nat | k <= z <= |Targets(iovs0)|
      ensures Gathered(mem0, iovs0, rw, ptr, z) == Gathered(mem, iovs[1..], rw, ptr + k, z - k)
    {
      assert Gathered(mem0, iovs0, rw, ptr, z) == Gathered(mem, iovs, rw, ptr + k, z - k);
    }
  }

  lemma CopiedNone(mem: Memory, rw: Direction, base: int, ptr: int)
    ensures CopiedTo(mem, rw, Range(base, 0), ptr) == mem
  {
  }

  lemma GatheredPart(mem: Memory, iovs: seq<Iovec>, rw: Direction, ptr: int, size: nat)
    requires iovs != [] && size <= iovs[0].len
    ensures size <= |Targets(iovs)|
    ensures Gathered(mem, iovs, rw, ptr, size) == CopiedTo(mem, rw, Range(iovs[0].base, size), ptr)
  {
    hide CopiedTo;
    CopiedNone(mem, rw, iovs[0].base, ptr);
  }

  lemma GatheredWhole(mem: Memory, iovs: seq<Iovec>, rw: Direction, ptr: int, z: nat)
    requires iovs != [] && iovs[0].len <= z <= |Targets(iovs)|
    ensures var size := iovs[0].len;
            && Targets(Advanced(iovs, size)) == Targets(iovs[1..])
            && Gathered(mem, iovs, rw, ptr, z)
               == Gathered(CopiedTo(mem, rw, Range(iovs[0].base, size), ptr), Advanced(iovs, size), rw, ptr + size,
                 z - size)
  {
    hide CopiedTo;
    var size := iovs[0].len;
    var mem', iovs' := CopiedTo(mem, rw, Range(iovs[0].base, size), ptr), Advanced(iovs, size);
    CopiedNone(mem, rw, iovs[0].base, ptr);
    CopiedNone(mem', rw, iovs'[0].base, ptr + size);
    assert Targets(iovs') == Targets(iovs[1..]);
    assert Gathered(mem', iovs', rw, ptr + size, z - size) == Gathered(mem', iovs[1..], rw, ptr + size, z - size);
  }

  lemma OnwardPart(mem0: Memory, iovs0: seq<Iovec>, rw: Direction, ptr: int, k: nat, mem: Memory, iovs: seq<Iovec>,
                   size: nat)
    requires Onward(mem0, iovs0, rw, ptr, k, mem, iovs) && iovs != [] && size <= iovs[0].len
    ensures k + size <= |Targets(iovs0)|
    ensures Gathered(mem0, iovs0, rw, ptr, k + size) == CopiedTo(mem, rw, Range(iovs[0].base, size), ptr + k)
    ensures Targets(Advanced(iovs, size)) == Targets(iovs0)[k + size..]
  {
    hide CopiedTo, Gathered, Targets;
    AdvancedTargets(iovs, size);
    assert Targets(iovs0)[k..][size..] == Targets(iovs0)[k + size..];
    assert Gathered(mem0, iovs0, rw, ptr, k + size) == Gathered(mem, iovs, rw, ptr + k, k + size - k);
    hide Onward;
    GatheredPart(mem, iovs, rw, ptr + k, size);
  }

  lemma AdvancedTargets(iovs: seq<Iovec>, size: nat)
    requires iovs != [] && size <= iovs[0].len
    ensures size <= |Targets(iovs)| && Targets(Advanced(iovs, size)) == Targets(iovs)[size..]
  {
    hide Range, Targets;
    var iov, iov', tail := iovs[0], Advanced(iovs, size)[0], Targets(iovs[1..]);
    RangeConcat(iov.base, size, iov.len - size);
    DropFront(Range(iov.base, size), Range(iov'.base, iov'.len), tail);
    TargetsCons(iovs);
    TargetsCons(Advanced(iovs, size));
  }

  lemma TargetsCons(iovs: seq<Iovec>)
    requires iovs != []
    ensures Targets(iovs) == Range(iovs[0].base, iovs[0].len) + Targets(iovs[1..])
  {
  }

  lemma DropFront(a: seq<int>, b: seq<int>, c: seq<int>)
    ensures (a + b + c)[..|a|] == a && (a + b + c)[|a|..] == b + c
  {
  }

  lemma OnwardWhole(mem0: Memory, iovs0: seq<Iovec>, rw: Direction, ptr: int, k: nat, mem: Memory, iovs: seq<Iovec>)
    requires Onward(mem0, iovs0, rw, ptr, k, mem, iovs) && iovs != []
    ensures var size := iovs[0].len;
            Onward(mem0, iovs0, rw, ptr, k + size, CopiedTo(mem, rw, Range(iovs[0].base, size), ptr + k),
                   Advanced(iovs, size))
  {
    var size := iovs[0].len;
    var mem', iovs' := CopiedTo(mem, rw, Range(iovs[0].base, size), ptr + k), Advanced(iovs, size);
    OnwardPart(mem0, iovs0, rw, ptr, k, mem, iovs, size);
    forall z: nat | k + size <= z <= |Targets(iovs0)|
      ensures Gathered(mem0, iovs0, rw, ptr, z) == Gathered(mem', iovs', rw, ptr + (k + size), z - (k + size))
    {
      OnwardAt(mem0, iovs0, rw, ptr, k, mem, iovs, z);
    }
    hide CopiedTo, Gathered, Targets;
  }

  lemma OnwardAt(mem0: Memory, iovs0: seq<Iovec>, rw: Direction, ptr: int, k: nat, mem: Memory, iovs: seq<Iovec>,
                 z: nat)
    requires Onward(mem0, iovs0, rw, ptr, k, mem, iovs) && iovs != [] && k + iovs[0].len <= z <= |Targets(iovs0)|
    ensures var size := iovs[0].len;
            && z - (k + size) <= |Targets(Advanced(iovs, size))|
            && Gathered(mem0, iovs0, rw, ptr, z)
               == Gathered(CopiedTo(mem, rw, Range(iovs[0].base, size), ptr + k), Advanced(iovs, size), rw,
                           ptr + (k + size), z - (k + size))
  {
    hide CopiedTo, Gathered, Targets;
    assert Gathered(mem0, iovs0, rw, ptr, z) == Gathered(mem, iovs, rw, ptr + k, z - k);
    hide Onward;
    AdvancedTargets(iovs, iovs[0].len);
    GatheredWhole(mem, iovs, rw, ptr + k, z - k);
    assert ptr + k + iovs[0].len == ptr + (k + iovs[0].len);
    assert z - k - iovs[0].len == z - (k + iovs[0].len);
  }

  // A copy failed after k bytes were accounted for and d more had been copied.
  ghost predicate Faulted(u: Transfer, iovs: seq<Iovec>, rw: Direction, ptr: int, k: nat, d: nat, u': Transfer) {
    && u.targets == Targets(iovs) && k + d <= |u.targets|
    && u' == Past(u, k, Gathered(u.mem, iovs, rw, ptr, k + d))
  }

  // uiomove has moved k of n bytes.
  ghost predicate Going(u: Transfer, iovs0: seq<Iovec>, rw: Direction, ptr: int, n: nat, k: nat, u': Transfer,
                        iovs: seq<Iovec>)
  {
    && u.targets == Targets(iovs0) && u'.targets == Targets(iovs)
    && k <= n && k <= |u.targets| && k <= Amount(iovs0, u.resid, n)
    && u' == Past(u, k, Gathered(u.mem, iovs0, rw, ptr, k))
    && SameBoundaries(iovs0, k, iovs, k + 1)
    && (k < n ==> SameBoundaries(iovs0, k, iovs, k) && Onward(u.mem, iovs0, rw, ptr, k, u'.mem, iovs))
  }

  lemma ResidZero(resid: uint32, k: nat)
    requires k < W32
    ensures U32(resid - k) == 0 <==> k == resid
    ensures U32(resid - 0) == resid
  {
  }

  lemma PastTwice(u: Transfer, k: nat, mem: Memory, k': nat, mem': Memory)
    requires k + k' <= |u.targets|
    ensures Past(Past(u, k, mem), k', mem') == Past(u, k + k', mem')
    ensures k < W32 ==> (Past(u, k, mem).resid == 0 <==> k == u.resid)
    ensures Past(u, k, mem).mem == mem && Past(u, k, mem).targets == u.targets[k..]
    ensures Past(u, k + k', mem').mem == mem' && Past(u, k + k', mem').targets == u.targets[k + k'..]
  {
    WrapTwice(u.resid - k, k');
    assert u.targets[k..][k'..] == u.targets[k + k'..];
  }

  lemma GoingStart(u: Transfer, iovs: seq<Iovec>, rw: Direction, ptr: int, n: nat)
    requires u.targets == Targets(iovs)
    ensures Going(u, iovs, rw, ptr, n, 0, u, iovs)
  {
    ResidZero(u.resid, 0);
    hide Boundary, U32;
  }

  lemma GoingEmpty(u: Transfer, iovs0: seq<Iovec>, rw: Direction, ptr: int, n: nat, k: nat, u': Transfer,
                   iovs: seq<Iovec>)
    requires Going(u, iovs0, rw, ptr, n, k, u', iovs) && k < n && iovs != [] && iovs[0].len == 0
    ensures Going(u, iovs0, rw, ptr, n, k, u', iovs[1..])
  {
    EmptyBoundaries(iovs0, k, iovs);
    OnwardEmpty(u.mem, iovs0, rw, ptr, k, u'.mem, iovs);
    assert SameBoundaries(iovs0, k, iovs[1..], k + 1);
    hide Boundary, U32, Gathered, Onward, SameBoundaries, Past, Targets;
  }

  // With buffers left but no iovec, what was to be moved is more than there was.
  lemma GoingRanOut(u: Transfer, iovs0: seq<Iovec>, rw: Direction, ptr: int, n: nat, k: nat, u': Transfer)
    requires Going(u, iovs0, rw, ptr, n, k, u', []) && k < n < W32 && u'.resid > 0
    ensures Amount(iovs0, u.resid, n) > |u.targets| == k
  {
    ResidZero(u.resid, k);
    hide U32, Gathered, Onward, SameBoundaries;
    assert |u.targets| == k;
    if Boundary(iovs0, u.resid) {
      BoundaryWithin(iovs0, u.resid);
    }
  }

  lemma GoingChunk(u: Transfer, iovs0: seq<Iovec>, rw: Direction, ptr: int, n: nat, k: nat, u': Transfer,
                   iovs: seq<Iovec>, size: nat)
    requires Going(u, iovs0, rw, ptr, n, k, u', iovs) && k < n < W32 && u'.resid > 0
    requires iovs != [] && 0 < size == Min(iovs[0].len, n - k)
    ensures size <= |u'.targets|
    ensures Going(u, iovs0, rw, ptr, n, k + size,
                  Past(u', size, CopiedTo(u'.mem, rw, Range(iovs[0].base, size), ptr + k)), Advanced(iovs, size))
  {
    hide Boundary, Gathered, Onward, SameBoundaries, Targets, CopiedTo, U32, Past;
    AdvancedBoundaries(iovs0, k, iovs, size);
    OnwardPart(u.mem, iovs0, rw, ptr, k, u'.mem, iovs, size);
    if k + size < n {
      OnwardWhole(u.mem, iovs0, rw, ptr, k, u'.mem, iovs);
    }
    AdvancedTargets(iovs, size);
    PastTwice(u, k, Gathered(u.mem, iovs0, rw, ptr, k), size, CopiedTo(u'.mem, rw, Range(iovs[0].base, size), ptr + k));
  }

  // The chunk is one copy more, and still within what there is to move.
  lemma GoingCopies(u: Transfer, iovs0: seq<Iovec>, rw: Direction, ptr: int, n: nat, k: nat, u': Transfer,
                    iovs: seq<Iovec>, size: nat)
    requires Going(u, iovs0, rw, ptr, n, k, u', iovs) && k < n < W32 && u'.resid > 0
    requires iovs != [] && 0 < size == Min(iovs[0].len, n - k)
    ensures Copies(iovs0, 0, k + size) == Copies(iovs0, 0, k) + 1
    ensures Copies(iovs0, 0, k + size) <= Copies(iovs0, 0, Min(Amount(iovs0, u.resid, n), |u.targets|))
  {
    GoingChunk(u, iovs0, rw, ptr, n, k, u', iovs, size);
    AdvancedBoundaries(iovs0, k, iovs, size);
    assert Boundary(iovs0, k) by {
      assert Boundary(iovs0, k) <==> Boundary(iovs, k - k);
    }
    hide Boundary, Gathered, Onward, SameBoundaries, Targets, CopiedTo, U32, Past, Copies, Amount;
    CopiesChunk(iovs0, k, size);
    CutsGrow(iovs0, 0, k + size, Min(Amount(iovs0, u.resid, n), |u.targets|));
  }

  lemma GoingDone(u: Transfer, iovs0: seq<Iovec>, rw: Direction, ptr: int, n: nat, k: nat, u': Transfer,
                  iovs: seq<Iovec>)
    requires Going(u, iovs0, rw, ptr, n, k, u', iovs) && n < W32 && (k == n || u'.resid == 0)
    ensures k == Amount(iovs0, u.resid, n)
  {
    ResidZero(u.resid, k);
    hide U32, Gathered, Onward;
    if k < n {
      assert Boundary(iovs0, k) <==> Boundary(iovs, k - k);
    }
  }

  lemma GoingTargets(u: Transfer, iovs0: seq<Iovec>, rw: Direction, ptr: int, n: nat, k: nat, u': Transfer,
                     iovs: seq<Iovec>)
    requires Going(u, iovs0, rw, ptr, n, k, u', iovs)
    ensures u.targets == Targets(iovs0) && u'.targets == Targets(iovs) && k <= |u.targets|
    ensures u' == Past(u, k, Gathered(u.mem, iovs0, rw, ptr, k)) && SameBoundaries(iovs0, k, iovs, k + 1)
  {
  }

  lemma GoingFault(u: Transfer, iovs0: seq<Iovec>, rw: Direction, ptr: int, n: nat, k: nat, u': Transfer,
                   iovs: seq<Iovec>, d: nat)
    requires Going(u, iovs0, rw, ptr, n, k, u', iovs) && k < n && iovs != [] && d <= iovs[0].len
    ensures Faulted(u, iovs0, rw, ptr, k, d, u'.(mem := CopiedTo(u'.mem, rw, Range(iovs[0].base, d), ptr + k)))
  {
    OnwardPart(u.mem, iovs0, rw, ptr, k, u'.mem, iovs, d);
    hide Boundary, Gathered, Onward, SameBoundaries, Targets, CopiedTo, U32;
  }

  // ---------------------------------------------------------------- zeros

  ghost predicate AllZero(mem: Memory, base: int, len: int) {
    forall a :: base <= a < base + len ==> Load(mem, a) == 0
  }

  // mem is mem0 with these bytes zero.
  ghost predicate Cleared(mem0: Memory, targets: seq<int>, mem: Memory) {
    forall a :: Load(mem, a) == if a in targets then 0 else Load(mem0, a)
  }

  // u' is u with its first k + d target bytes zero and the first k behind it.
  ghost predicate Zeroed(u: Transfer, k: nat, d: nat, u': Transfer) {
    k + d <= |u.targets| && u' == Past(u, k, u'.mem) && Cleared(u.mem, u.targets[..k + d], u'.mem)
  }

  lemma CopiedZeros(mem: Memory, targets: seq<int>, ptr: int)
    requires AllZero(mem, ptr, |targets|)
    ensures Cleared(mem, targets, CopiedTo(mem, Read, targets, ptr))
  {
    var bytes := Fetched(mem, Range(ptr, |targets|));
    assert forall i :: 0 <= i < |bytes| ==> bytes[i] == 0;
    StoredBytes(mem, targets, bytes);
  }

  lemma ClearedTwice(mem0: Memory, t: seq<int>, mem1: Memory, t': seq<int>, mem2: Memory)
    requires Cleared(mem0, t, mem1) && Cleared(mem1, t', mem2)
    ensures Cleared(mem0, t + t', mem2)
  {
  }

  lemma ClearedStaysZero(mem0: Memory, t: seq<int>, mem: Memory, base: int, len: int)
    requires Cleared(mem0, t, mem) && AllZero(mem0, base, len)
    ensures AllZero(mem, base, len)
  {
  }

  /**
   * Moved from zeros, the target bytes become zero and nothing else changes, even if they
   * overlap one another or the zeros.
   */
  lemma {:induction false} GatheredZeros(mem: Memory, iovs: seq<Iovec>, ptr: int, k: nat)
    requires k <= |Targets(iovs)| && AllZero(mem, ptr, k)
    ensures Cleared(mem, Targets(iovs)[..k], Gathered(mem, iovs, Read, ptr, k))
    decreases |iovs|
  {
    if k != 0 {
      var size := Min(iovs[0].len, k);
      var t, t' := Range(iovs[0].base, size), Targets(iovs[1..])[..k - size];
      assert Targets(iovs)[..k] == t + t';
      var mem' := CopiedTo(mem, Read, t, ptr);
      assert AllZero(mem, ptr, size) && AllZero(mem, ptr + size, k - size);
      CopiedZeros(mem, t, ptr);
      ClearedStaysZero(mem, t, mem', ptr + size, k - size);
      GatheredZeros(mem', iovs[1..], ptr + size, k - size);
      hide AllZero, Cleared, CopiedTo;
      ClearedTwice(mem, t, mem', t', Gathered(mem', iovs[1..], Read, ptr + size, k - size));
    }
  }

  predicate Sixteens(x: int) {
    x % 16 == 0
  }

  lemma SixteenMore(x: int)
    ensures Sixteens(0) && (Sixteens(x) ==> Sixteens(x + 16))
  {
  }

  // How far uiomovezeros gets with its next call of uiomove.
  lemma ZerosAmountStep(iovs0: seq<Iovec>, resid: uint32, done: nat, amt: nat, iovs: seq<Iovec>)
    requires Sixteens(done) && 0 < amt <= 16 && done + amt < W32
    requires var k := ZerosAmount(iovs0, resid, done); SameBoundaries(iovs0, k, iovs, k + 1)
    ensures var k := ZerosAmount(iovs0, resid, done);
            k + Amount(iovs, U32(resid - k), amt) == ZerosAmount(iovs0, resid, done + amt)
  {
    var k := ZerosAmount(iovs0, resid, done);
    assert resid > k ==> (Boundary(iovs0, resid) <==> Boundary(iovs, resid - k));
    assert Boundary(iovs, 0);
    hide Boundary;
  }

  lemma ZerosAmountGrows(iovs: seq<Iovec>, resid: nat, n: nat, n': nat)
    requires n <= n'
    ensures ZerosAmount(iovs, resid, n) <= ZerosAmount(iovs, resid, n')
  {
    hide Boundary;
  }

  // The zeros written so far and those of the next call.
  lemma ZeroedMore(u: Transfer, k: nat, u': Transfer, k': nat, d: nat, u'': Transfer)
    requires Zeroed(u, k, 0, u') && Zeroed(u', k', d, u'')
    ensures Zeroed(u, k + k', d, u'')
  {
    hide Cleared;
    PastTwice(u, k, u'.mem, k', u''.mem);
    assert u.targets[..k + k' + d] == u.targets[..k + 0] + u.targets[k..][..k' + d];
    ClearedTwice(u.mem, u.targets[..k + 0], u'.mem, u'.targets[..k' + d], u''.mem);
  }

  // A call of uiomove from the zeros leaves zeros.
  lemma MovedZeros(u: Transfer, iovs: seq<Iovec>, zeros: int, k: nat, d: nat)
    requires u.targets == Targets(iovs) && k + d <= |u.targets| && k + d <= 16 && AllZero(u.mem, zeros, 16)
    ensures var u' := Past(u, k, Gathered(u.mem, iovs, Read, zeros, k + d));
            Zeroed(u, k, d, u') && AllZero(u'.mem, zeros, 16)
  {
    assert AllZero(u.mem, zeros, k + d);
    GatheredZeros(u.mem, iovs, zeros, k + d);
    hide Gathered, Cleared, AllZero;
    ClearedStaysZero(u.mem, u.targets[..k + d], Gathered(u.mem, iovs, Read, zeros, k + d), zeros, 16);
  }

  lemma BoundariesTwice(iovs0: seq<Iovec>, k: nat, iovs: seq<Iovec>, k': nat, iovs': seq<Iovec>)
    requires SameBoundaries(iovs0, k, iovs, k + 1) && SameBoundaries(iovs, k', iovs', k' + 1)
    ensures SameBoundaries(iovs0, k + k', iovs', k + k' + 1)
  {
    hide Boundary;
    forall z | z >= k + k' + 1 ensures Boundary(iovs0, z) <==> Boundary(iovs', z - (k + k')) {
      assert Boundary(iovs0, z) <==> Boundary(iovs, z - k);
      assert Boundary(iovs, z - k) <==> Boundary(iovs', z - k - k');
      assert z - k - k' == z - (k + k');
    }
  }

  // uiomovezeros has asked uiomove for `done` bytes, and k were moved.
  ghost predicate Zeroing(u: Transfer, iovs0: seq<Iovec>, done: nat, k: nat, u': Transfer, iovs: seq<Iovec>, zeros: int)
  {
    && u.targets == Targets(iovs0) && u'.targets == Targets(iovs)
    && k == ZerosAmount(iovs0, u.resid, done) && Zeroed(u, k, 0, u') && AllZero(u'.mem, zeros, 16)
    && SameBoundaries(iovs0, k, iovs, k + 1)
  }

  lemma ZeroingStart(u: Transfer, iovs: seq<Iovec>, zeros: int)
    requires u.targets == Targets(iovs) && AllZero(u.mem, zeros, 16)
    ensures Zeroing(u, iovs, 0, 0, u, iovs, zeros)
  {
    hide Boundary, AllZero, Targets;
    ResidZero(u.resid, 0);
  }

  // The next call has exactly as much to move as is left of the whole amount.
  lemma ZeroingNext(u: Transfer, iovs0: seq<Iovec>, done: nat, k: nat, u': Transfer, iovs: seq<Iovec>, zeros: int,
                    amt: nat)
    requires Zeroing(u, iovs0, done, k, u', iovs, zeros) && Sixteens(done) && 0 < amt <= 16 && done + amt < W32
    ensures var a := Amount(iovs, u'.resid, amt);
            && k + a == ZerosAmount(iovs0, u.resid, done + amt)
            && (a > |u'.targets| <==> k + a > |u.targets|)
  {
    hide Boundary, AllZero, Targets, Cleared, ZerosAmount, Amount, SameBoundaries, U32;
    ZerosAmountStep(iovs0, u.resid, done, amt, iovs);
  }

  lemma ZeroingMore(u: Transfer, iovs0: seq<Iovec>, done: nat, k: nat, u': Transfer, iovs: seq<Iovec>, zeros: int,
                    amt: nat, iovs': seq<Iovec>)
    requires Zeroing(u, iovs0, done, k, u', iovs, zeros) && Sixteens(done) && 0 < amt <= 16 && done + amt < W32
    requires var a := Amount(iovs, u'.resid, amt);
             && a <= |u'.targets| && SameBoundaries(iovs, a, iovs', a + 1)
             && Past(u', a, Gathered(u'.mem, iovs, Read, zeros, a)).targets == Targets(iovs')
    ensures var a := Amount(iovs, u'.resid, amt);
            Zeroing(u, iovs0, done + amt, k + a, Past(u', a, Gathered(u'.mem, iovs, Read, zeros, a)), iovs', zeros)
  {
    hide Boundary, AllZero, Targets, Zeroed, ZerosAmount, Amount, SameBoundaries, Gathered, Past, Sixteens;
    var a := Amount(iovs, u'.resid, amt);
    AmountAtMost(iovs, u'.resid, amt);
    ZeroingNext(u, iovs0, done, k, u', iovs, zeros, amt);
    MovedZeros(u', iovs, zeros, a, 0);
    ZeroedMore(u, k, u', a, 0, Past(u', a, Gathered(u'.mem, iovs, Read, zeros, a)));
    BoundariesTwice(iovs0, k, iovs, a, iovs');
  }

  lemma NoneCopied(iovs: seq<Iovec>)
    ensures ZerosCopies(iovs, 0) == 0
  {
  }

  // The copies of the next call are those that come next, also if the iovecs run out in it.
  lemma ZeroingCopies(u: Transfer, iovs0: seq<Iovec>, done: nat, k: nat, u': Transfer, iovs: seq<Iovec>, zeros: int,
                      amt: nat, n: nat)
    requires Zeroing(u, iovs0, done, k, u', iovs, zeros) && Sixteens(done) && 0 < amt <= 16 && done + amt <= n < W32
    ensures var a := Amount(iovs, u'.resid, amt);
            && (a <= |u'.targets| ==> ZerosCopies(iovs0, k + a) == ZerosCopies(iovs0, k) + Copies(iovs, 0, a))
            && ZerosCopies(iovs0, k) + Copies(iovs, 0, Min(a, |u'.targets|))
               <= ZerosCopies(iovs0, Min(ZerosAmount(iovs0, u.resid, n), |u.targets|))
            && (a > |u'.targets| ==>
                  ZerosCopies(iovs0, k) + Copies(iovs, 0, Min(a, |u'.targets|))
                  == ZerosCopies(iovs0, Min(ZerosAmount(iovs0, u.resid, n), |u.targets|)))
  {
    hide Zeroing, ZerosCopies, Copies, Amount, ZerosAmount, SameBoundaries, Zeroed, Sixteens;
    var a := Amount(iovs, u'.resid, amt);
    var b := Min(a, |u'.targets|);
    AmountAtMost(iovs, u'.resid, amt);
    ZeroingNext(u, iovs0, done, k, u', iovs, zeros, amt);
    ZerosAmountGrows(iovs0, u.resid, done + amt, n);
    ZeroingEnd(u, iovs0, done, k, u', iovs, zeros);
    ZeroingAt(u, iovs0, done, k, u', iovs, zeros, amt);
    NextCopies(iovs0, k, iovs, b);
    ZerosCopiesGrow(iovs0, k + b, Min(ZerosAmount(iovs0, u.resid, n), |u.targets|));
  }

  // If the next call moves anything, it starts at a multiple of 16.
  lemma ZeroingAt(u: Transfer, iovs0: seq<Iovec>, done: nat, k: nat, u': Transfer, iovs: seq<Iovec>, zeros: int,
                  amt: nat)
    requires Zeroing(u, iovs0, done, k, u', iovs, zeros) && Sixteens(done) && 0 < amt <= 16 && done + amt < W32
    ensures SameBoundaries(iovs0, k, iovs, k + 1) && |u'.targets| == |u.targets| - k
    ensures Amount(iovs, u'.resid, amt) > 0 ==> k % 16 == 0
  {
    hide AllZero, Cleared, Targets, SameBoundaries, Boundary;
    ResidZero(u.resid, k);
    if k != done {
      assert k == u.resid && u'.resid == 0;
      BoundaryZero(iovs);
    }
  }

  lemma BoundaryZero(iovs: seq<Iovec>)
    ensures Boundary(iovs, 0)
  {
  }

  lemma NextCopies(iovs0: seq<Iovec>, k: nat, iovs: seq<Iovec>, b: nat)
    requires SameBoundaries(iovs0, k, iovs, k + 1) && b <= 16 && (b > 0 ==> k % 16 == 0)
    ensures ZerosCopies(iovs0, k + b) == ZerosCopies(iovs0, k) + Copies(iovs, 0, b)
  {
    hide Boundary, SameBoundaries, Cuts;
    CutsShift(iovs0, k, iovs, b);
    if b > 0 {
      SixteenStart(k, b);
    }
  }

  lemma AmountAtMost(iovs: seq<Iovec>, resid: nat, n: nat)
    ensures Amount(iovs, resid, n) <= n
  {
    hide Boundary;
  }

  lemma ZeroingEnd(u: Transfer, iovs0: seq<Iovec>, done: nat, k: nat, u': Transfer, iovs: seq<Iovec>, zeros: int)
    requires Zeroing(u, iovs0, done, k, u', iovs, zeros)
    ensures k == ZerosAmount(iovs0, u.resid, done) <= |u.targets| && Zeroed(u, k, 0, u')
  {
  }

  lemma ZeroingFault(u: Transfer, iovs0: seq<Iovec>, done: nat, k: nat, u': Transfer, iovs: seq<Iovec>, zeros: int,
                     k': nat, d: nat, u'': Transfer)
    requires Zeroing(u, iovs0, done, k, u', iovs, zeros) && k' + d <= 16
    requires Faulted(u', iovs, Read, zeros, k', d, u'')
    ensures Zeroed(u, k + k', d, u'')
  {
    hide Boundary, AllZero, Targets, Zeroed, ZerosAmount, SameBoundaries, Gathered, Past;
    MovedZeros(u', iovs, zeros, k', d);
    ZeroedMore(u, k, u', k', d, u'');
  }

  class Uio {
    var mem: Memory
    var iovs: seq<Iovec>
    var resid: uint32
    var offset: int
    var rw: Direction
    var seg: Segment

    ghost function Now(): Transfer
      reads this
    {
      Transfer(mem, Targets(iovs), resid, offset)
    }

    // memmove, or a copy to or from user space, between the buffer and the first iovec,
    // which advances.
    method MoveChunk(ptr: int, size: nat)
      requires iovs != [] && size <= iovs[0].len
      modifies `mem, `iovs, `resid, `offset
      ensures mem == CopiedTo(old(mem), rw, Range(old(iovs[0]).base, size), ptr)
      ensures size <= |old(Now()).targets| && Now() == Past(old(Now()), size, mem) && iovs == Advanced(old(iovs), size)
    {
      AdvancedTargets(iovs, size);
      hide Targets, CopiedTo, Range;
      mem := CopiedTo(mem, rw, Range(iovs[0].base, size), ptr);
      iovs := Advanced(iovs, size);
      resid := U32(resid - size);
      offset := offset + size;
    }

    // A copy to or from user space that fails; it goes upwards, so it has copied some prefix.
    method FailChunk(ptr: int, size: nat) returns (ghost d: nat)
      requires iovs != [] && 0 < size <= iovs[0].len
      modifies `mem
      ensures d < size && mem == CopiedTo(old(mem), rw, Range(iovs[0].base, d), ptr)
    {
      var done: nat := *;
      if done >= size {
        done := 0;
      }
      mem := CopiedTo(mem, rw, Range(iovs[0].base, done), ptr);
      d := done;
    }

    /**
     * uiomove.  It moves the amount above, in order, and panics exactly when the iovecs hold
     * less.  In user space a copy may fail: `good` of them do not, and the next answers `err`.
     * It fails exactly if more are needed, and the bytes before that one are moved.  `copies`
     * is how many were made.
     */
    method Move(ptr: int, n: uint32, good: nat, err: int) returns (r: Result, copies: nat)
      requires iovs != [] || n == 0 || resid == 0
      modifies `mem, `iovs, `resid, `offset
      ensures r.Fault? <==>
        && seg.UserSpace?
        && good < Copies(old(iovs), 0, Min(Amount(old(iovs), old(resid), n), |old(Now()).targets|))
      ensures r.Fault? ==> r == Fault(err) && exists k: nat, d: nat ::
        && k + d < n
        && Faulted(old(Now()), old(iovs), rw, ptr, k, d, Now()) && Copies(old(iovs), 0, k) == good
      ensures !r.Fault? ==> (r.Panic? <==> Amount(old(iovs), old(resid), n) > |old(Now()).targets|)
      ensures r.Ok? ==> var u, k := old(Now()), Amount(old(iovs), old(resid), n);
                && Now() == Past(u, k, Gathered(u.mem, old(iovs), rw, ptr, k))
                && SameBoundaries(old(iovs), k, iovs, k + 1) && copies == Copies(old(iovs), 0, k)
                && if old(iovs) == [] then resid == old(resid) else iovs != []
    {
      hide Past, Boundary, Gathered, Targets, CopiedTo, Going, SameBoundaries, Faulted, Cuts, Amount;
      copies := 0;
      var p, m := ptr, n;
      ghost var k, was, iovs0 := 0, Now(), iovs;
      GoingStart(was, iovs, rw, ptr, n);
      while m > 0 && resid > 0
        invariant if iovs0 == [] then (m == 0 || resid == 0) && resid == was.resid else iovs != []
        invariant k <= n && m == n - k && p == ptr + k
        invariant Going(was, iovs0, rw, ptr, n, k, Now(), iovs)
        invariant copies == Copies(iovs0, 0, k) && (seg.UserSpace? ==> copies <= good)
        decreases m, |iovs|
      {
        var size := iovs[0].len;
        if size > m {
          size := m;
        }
        if size == 0 {
          GoingEmpty(was, iovs0, rw, ptr, n, k, Now(), iovs);
          ghost var now := Now();
          iovs := iovs[1..];
          assert Now() == now by { GoingTargets(was, iovs0, rw, ptr, n, k, now, iovs); }
          if iovs == [] {
            GoingRanOut(was, iovs0, rw, ptr, n, k, Now());
            return Panic, copies;
          }
          continue;
        }
        GoingCopies(was, iovs0, rw, ptr, n, k, Now(), iovs, size);
        if seg.UserSpace? && copies == good {
          ghost var now := Now();
          ghost var d := FailChunk(p, size);
          GoingFault(was, iovs0, rw, ptr, n, k, now, iovs, d);
          assert Faulted(was, iovs0, rw, ptr, k, d, Now());
          return Fault(err), copies;
        }
        copies := copies + 1;
        GoingChunk(was, iovs0, rw, ptr, n, k, Now(), iovs, size);
        MoveChunk(p, size);
        p, m := p + size, m - size;
        k := k + size;
      }
      GoingDone(was, iovs0, rw, ptr, n, k, Now(), iovs);
      GoingTargets(was, iovs0, rw, ptr, n, k, Now(), iovs);
      r := Ok;
    }

    /**
     * uiomovezeros, from the 16 zero bytes at `zeros`: the amount above becomes zero and
     * nothing else changes; it panics exactly when it is a write or the iovecs hold less, and
     * fails exactly if more copies are needed than the `good` ones.
     */
    method MoveZeros(zeros: int, n: uint32, good: nat, err: int) returns (r: Result)
      requires (iovs != [] || n == 0 || resid == 0) && AllZero(mem, zeros, 16)
      modifies `mem, `iovs, `resid, `offset
      ensures r.Fault? <==>
        && rw.Read? && seg.UserSpace?
        && good < ZerosCopies(old(iovs), Min(ZerosAmount(old(iovs), old(resid), n), |old(Now()).targets|))
      ensures !r.Fault? ==>
                (r.Panic? <==> rw.Write? || ZerosAmount(old(iovs), old(resid), n) > |old(Now()).targets|)
      ensures r.Ok? ==> Zeroed(old(Now()), ZerosAmount(old(iovs), old(resid), n), 0, Now())
      ensures r.Fault? ==> r == Fault(err) && exists k: nat, d: nat :: Zeroed(old(Now()), k, d, Now())
    {
      hide Gathered, Targets, SameBoundaries, AllZero, Zeroed, Zeroing, Faulted, Amount, ZerosAmount, Past, Sixteens,
           Copies, ZerosCopies;
      if rw.Write? {
        return Panic;
      }
      ghost var was, iovs0, k := Now(), iovs, 0;
      var left, used := n, 0;
      SixteenMore(0);
      ZeroingStart(was, iovs, zeros);
      NoneCopied(iovs0);
      while left > 0
        invariant 0 <= left <= n && (left > 0 ==> Sixteens(n - left))
        invariant iovs != [] || (iovs0 == [] && resid == was.resid)
        invariant Zeroing(was, iovs0, n - left, k, Now(), iovs, zeros)
        invariant used == ZerosCopies(iovs0, k) && (seg.UserSpace? ==> used <= good)
        decreases left
      {
        var amt := if left < 16 then left else 16;
        ghost var u, iovs1, a := Now(), iovs, Amount(iovs, resid, amt);
        ZeroingNext(was, iovs0, n - left, k, u, iovs, zeros, amt);
        ZerosAmountGrows(iovs0, was.resid, n - left + amt, n);
        ZeroingCopies(was, iovs0, n - left, k, u, iovs, zeros, amt, n);
        var copies;
        r, copies := Move(zeros, amt, if good < used then 0 else good - used, err);
        if r.Fault? {
          ghost var k': nat, d: nat :| k' + d < amt && Faulted(u, iovs1, rw, zeros, k', d, Now());
          ZeroingFault(was, iovs0, n - left, k, u, iovs1, zeros, k', d, Now());
          return;
        }
        if r.Panic? {
          return;
        }
        ZeroingMore(was, iovs0, n - left, k, u, iovs1, zeros, amt, iovs);
        SixteenMore(n - left);
        k := k + a;
        left, used := left - amt, used + copies;
      }
      ZeroingEnd(was, iovs0, n, k, Now(), iovs, zeros);
      r := Ok;
    }

    /**
     * With uio_resid the total length and the buffer no target, uiomove moves the smaller of
     * n and uio_resid all at once and cannot panic.
     */
    method MoveFit(ptr: int, n: uint32, good: nat, err: int) returns (r: Result)
      requires iovs != [] && resid == |Targets(iovs)|
      requires var k := Min(n, resid); Apart(Targets(iovs)[..k], Range(ptr, k))
      modifies `mem, `iovs, `resid, `offset
      ensures !r.Panic? && (r.Fault? <==> seg.UserSpace? && good < Copies(old(iovs), 0, Min(n, old(resid))))
      ensures r.Ok? ==>
        && iovs != [] && resid == |Targets(iovs)|
        && Now() == Moved(old(Now()), rw, ptr, Min(n, old(resid)))
    {
      hide Apart, CopiedTo, Gathered, Boundary, SameBoundaries, Targets, Faulted, Amount, U32;
      ghost var k := Min(n, resid);
      AmountIsSmaller(iovs, resid, n);
      GatheredAtOnce(mem, iovs, rw, ptr, k);
      Unwrapped(resid, k);
      var copies;
      r, copies := Move(ptr, n, good, err);
    }

    /**
     * Two calls, the second going on where the first stopped, do what one call of both
     * lengths does.
     */
    method MoveTwice(ptr: int, n: uint32, good: nat, n': uint32, good': nat, err: int) returns (r: Result)
      requires iovs != [] && resid == |Targets(iovs)|
      requires var k := Min(n + n', resid); Apart(Targets(iovs)[..k], Range(ptr, k))
      modifies `mem, `iovs, `resid, `offset
      ensures !r.Panic? && (r.Fault? ==> seg.UserSpace?)
      ensures r.Ok? ==> Now() == Moved(old(Now()), rw, ptr, Min(n + n', old(resid)))
    {
      hide Apart, Targets, Moved, Range;
      ghost var was, k := Now(), Min(n, resid);
      ghost var k' := Min(n', resid - k);
      ApartParts(was.targets[..k + k'], ptr, k);
      assert was.targets[..k + k'][..k] == was.targets[..k];
      assert was.targets[..k + k'][k..] == was.targets[k..][..k'];
      MovedParts(was, rw, ptr, k);
      r := MoveFit(ptr, n, good, err);
      if !r.Ok? {
        return;
      }
      MovesCompose(was, rw, ptr, k, k');
      if k' == 0 {
        MovedParts(Now(), rw, ptr + n, 0);
        MovedParts(Now(), rw, ptr + k, 0);
        assert Apart([], Range(ptr + n, 0)) by { NoneApart(ptr + n); }
        assert Targets(iovs)[..0] == [];
      }
      r := MoveFit(ptr + n, n', good', err);
    }
  }

  lemma Unwrapped(resid: uint32, k: nat)
    requires k <= resid
    ensures U32(resid - k) == resid - k
  {
  }

  lemma MovedParts(u: Transfer, rw: Direction, ptr: int, k: nat)
    requires k <= |u.targets|
    ensures Moved(u, rw, ptr, k).targets == u.targets[k..]
    ensures Moved(u, rw, ptr, 0) == u
  {
  }

  lemma NoneApart(ptr: int)
    ensures Apart([], Range(ptr, 0))
  {
  }

  lemma ApartParts(t: seq<int>, ptr: int, k: nat)
    requires k <= |t| && Apart(t, Range(ptr, |t|))
    ensures Apart(t[..k], Range(ptr, k)) && Apart(t[k..], Range(ptr + k, |t| - k))
  {
    var b, b' := Range(ptr, |t|), Range(ptr, k);
    forall i, j | 0 <= i < k && 0 <= j < k ensures t[..k][i] != b'[j] {
      assert t[i] != b[j];
    }
    assert t == t[..k] + t[k..];
    ApartTail(t[..k], t[k..], ptr);
  }

  /**
   * A uio whose uio_resid ends inside its one iovec: the call moves ten bytes where five
   * were left, and uio_resid wraps.
   */
  method MovesTooMuch(u: Uio, ptr: int) returns (r: Result)
    requires u.iovs == [Iovec(0x1000, 10)] && u.resid == 5 && u.seg.SysSpace?
    modifies u
    ensures r.Ok? && u.Now().targets == [] && u.resid == 0xffff_fffb && u.offset == old(u.offset) + 10
    ensures u.mem == CopiedTo(old(u.mem), old(u.rw), Range(0x1000, 10), ptr)
  {
    hide Gathered, CopiedTo, SameBoundaries, Faulted;
    GatheredPart(u.mem, u.iovs, u.rw, ptr, 10);
    assert u.iovs[1..] == [];
    var copies;
    r, copies := u.Move(ptr, 10, 0, 0);
  }
}

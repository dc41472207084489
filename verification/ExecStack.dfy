/**
 * The argument stack that `execv` builds: the marshalling loops of `proc_syscalls.c` over
 * copyoutstr and copyout of `copyinout.c`, and how a program reads its argv back.
 */
module ExecStack {
  import opened Common
  import opened Words

  const TOP: int := 0x8000_0000

  datatype Result = Ok | EFault | ENameTooLong

  // The bytes go to consecutive addresses.
  function Written(mem: Memory, a: int, bs: seq<int>): Memory {
    if bs == [] then mem else Written(mem, a, bs[..|bs| - 1])[a + |bs| - 1 := bs[|bs| - 1]]
  }

  lemma {:induction false} WrittenByte(mem: Memory, a: int, bs: seq<int>, x: int)
    ensures Load(Written(mem, a, bs), x) == if a <= x < a + |bs| then bs[x - a] else Load(mem, x)
  {
    if bs != [] {
      WrittenByte(mem, a, bs[..|bs| - 1], x);
    }
  }

  // ---------------------------------------------------------------- what a program reads

  // A C string has no NUL inside.
  predicate IsString(s: seq<int>) {
    forall i :: 0 <= i < |s| ==> s[i] != 0
  }

  ghost predicate StringAt(mem: Memory, a: int, s: seq<int>) {
    (forall x :: a <= x < a + |s| ==> Load(mem, x) == s[x - a]) && Load(mem, a + |s|) == 0
  }

  // A big-endian word.
  function WordAt(mem: Memory, a: int): int {
    ((Load(mem, a) * 256 + Load(mem, a + 1)) * 256 + Load(mem, a + 2)) * 256 + Load(mem, a + 3)
  }

  function WordBytes(w: uint32): (bs: seq<int>)
    ensures |bs| == 4
  {
    var q := w / 256;
    [q / 256 / 256, q / 256 % 256, q % 256, w % 256]
  }

  // argv[i], for argv at a.
  function Arg(mem: Memory, a: int, i: int): int {
    WordAt(mem, a + 4 * i)
  }

  // argv at a: the pointers to the strings, then NULL.
  ghost predicate ArgvAt(mem: Memory, a: int, args: seq<seq<int>>) {
    && (forall i :: 0 <= i < |args| ==> Arg(mem, a, i) != 0 && StringAt(mem, Arg(mem, a, i), args[i]))
    && Arg(mem, a, |args|) == 0
  }

  lemma StringUnique(mem: Memory, a: int, s: seq<int>, t: seq<int>)
    requires StringAt(mem, a, s) && StringAt(mem, a, t) && IsString(s) && IsString(t)
    ensures s == t
  {
    assert |s| == |t|;
    forall i | 0 <= i < |s| ensures s[i] == t[i] {
      assert Load(mem, a + i) == s[i];
    }
  }

  /**
   * Memory determines argv: a program that reads it back can find only these strings.
   */
  lemma ArgvUnique(mem: Memory, a: int, args: seq<seq<int>>, args': seq<seq<int>>)
    requires ArgvAt(mem, a, args) && ArgvAt(mem, a, args')
    requires forall i :: 0 <= i < |args| ==> IsString(args[i])
    requires forall i :: 0 <= i < |args'| ==> IsString(args'[i])
    ensures args == args'
  {
    assert |args| == |args'|;
    forall i | 0 <= i < |args| ensures args[i] == args'[i] {
      StringUnique(mem, Arg(mem, a, i), args[i], args'[i]);
    }
  }

  lemma WordRoundTrip(mem: Memory, a: int, w: uint32)
    ensures WordAt(Written(mem, a, WordBytes(w)), a) == w
  {
    hide Written;
    var bs := WordBytes(w);
    WrittenByte(mem, a, bs, a);
    WrittenByte(mem, a, bs, a + 1);
    WrittenByte(mem, a, bs, a + 2);
    WrittenByte(mem, a, bs, a + 3);
  }

  // ---------------------------------------------------------------- copying to user space

  // The region check: what is refused, and how far a string may run.
  method CopyCheck(bot: uint32, len: uint32) returns (fault: bool, stoplen: int)
    ensures fault <==> (len == 0 && bot > 0) || bot + len > W32 || bot >= TOP
    ensures !fault ==> stoplen == if len > 0 && bot + len <= TOP then len else TOP - bot
  {
    stoplen := len;
    var top := U32(bot + len - 1);
    if top < bot {
      return true, stoplen;
    }
    if bot >= TOP {
      return true, stoplen;
    }
    if top >= TOP {
      stoplen := TOP - bot;
    }
    return false, stoplen;
  }

  // The bytes copied up to and including position i of a string and its NUL.
  lemma PrefixGrows(s: seq<int>, i: nat)
    requires IsString(s) && i <= |s|
    ensures var src := s + [0];
            && src[..i + 1] == s[..i] + [src[i]] && (src[i] == 0 <==> i == |s|)
            && (i == |s| ==> s[..i] + [src[i]] == s + [0]) && (i < |s| ==> s[..i] + [src[i]] == s[..i + 1])
    ensures forall mem, a :: Written(mem, a, s[..i] + [(s + [0])[i]]) == Written(mem, a, s[..i])[a + i := (s + [0])[i]]
  {
    var p, x := s[..i], (s + [0])[i];
    assert (p + [x])[..i] == p;
    assert i == |s| ==> p == s;
  }

  class Process {
    var mem: Memory
    var sp: int

    /**
     * copystr: the string with its NUL if that fits, else as much as fits and the error
     * that says which limit was hit.
     */
    method CopyStr(dest: int, s: seq<int>, maxlen: nat, stoplen: nat) returns (r: Result, gotlen: int)
      requires IsString(s)
      modifies `mem
      ensures |s| < Min(maxlen, stoplen) ==> r == Ok && gotlen == |s| + 1 && mem == Written(old(mem), dest, s + [0])
      ensures |s| >= Min(maxlen, stoplen) ==>
        r == (if stoplen < maxlen then EFault else ENameTooLong)
          && mem == Written(old(mem), dest, s[..Min(maxlen, stoplen)])
    {
      gotlen := 0;
      var src := s + [0];
      var i := 0;
      while i < maxlen && i < stoplen
        invariant 0 <= i <= |s| && i <= Min(maxlen, stoplen) && mem == Written(old(mem), dest, s[..i])
      {
        PrefixGrows(s, i);
        mem := mem[dest + i := src[i]];
        if src[i] == 0 {
          gotlen := i + 1;
          return Ok, gotlen;
        }
        i := i + 1;
      }
      if stoplen < maxlen {
        return EFault, gotlen;
      }
      return ENameTooLong, gotlen;
    }

    // copyoutstr; `hit` is a page fault, which stops it.
    method CopyOutStr(s: seq<int>, dest: uint32, len: uint32, hit: bool) returns (r: Result)
      requires IsString(s)
      modifies `mem
      ensures r == Ok <==> !hit && |s| < len && dest + |s| < TOP && dest + len <= W32
      ensures r == Ok ==> mem == Written(old(mem), dest, s + [0])
      ensures r == ENameTooLong ==> |s| >= len
    {
      var fault, stoplen := CopyCheck(dest, len);
      if fault {
        return EFault;
      }
      if hit {
        return EFault;
      }
      var gotlen;
      r, gotlen := CopyStr(dest, s, len, stoplen);
    }

    // copyout of one pointer.
    method CopyOutWord(w: uint32, dest: uint32, hit: bool) returns (r: Result)
      modifies `mem
      ensures r == if !hit && dest + 4 <= TOP then Ok else EFault
      ensures mem == if r == Ok then Written(old(mem), dest, WordBytes(w)) else old(mem)
    {
      var fault, stoplen := CopyCheck(dest, 4);
      if fault {
        return EFault;
      }
      if stoplen != 4 {
        return EFault;
      }
      if hit {
        return EFault;
      }
      mem := Written(mem, dest, WordBytes(w));
      r := Ok;
    }

    /**
     * The two loops of execv; `good` is how many copies meet no page fault.  They succeed
     * exactly if no copy meets one and everything fits below the top of the stack, and fail
     * with EFAULT otherwise.  If they succeed, argv at the final stack pointer holds
     * exactly the strings and a NULL; the strings lie between it and the top of the stack,
     * one after another, in regions that start and end at multiples of 4; and nothing below
     * the stack pointer or above the stack has changed.
     */
    method Marshal(args: seq<seq<int>>, good: nat) returns (r: Result)
      requires sp == TOP && forall i :: 0 <= i < |args| ==> IsString(args[i]) && |args[i]| + 4 < W32
      modifies this
      ensures r == Ok || r == EFault
      ensures r == Ok <==> good > 2 * |args| && Stacked(args, 0) + 4 * (|args| + 1) <= TOP
      ensures r == Ok ==> ArgvAt(mem, sp, args) && 0 <= sp && sp % 4 == 0 && SameBut(old(mem), mem, sp)
      ensures r == Ok ==> forall i :: 0 <= i < |args| ==>
        Slot(args, i, sp + 4 * (|args| + 1), Arg(mem, sp, i), if i + 1 < |args| then Arg(mem, sp, i + 1) else TOP)
    {
      var ptrs;
      r, ptrs := PushStrings(args, good);
      if r != Ok {
        return;
      }
      ghost var lo := sp;
      r := PushPointers(args, ptrs, good - |args|, old(mem));
      if r == Ok {
        forall i | 0 <= i < |args|
          ensures Slot(args, i, lo, Arg(mem, sp, i), if i + 1 < |args| then Arg(mem, sp, i + 1) else TOP) {
          assert PlacedAt(mem, args, ptrs, i, lo);
        }
      }
    }

    // The strings, from the last to the first.
    method PushStrings(args: seq<seq<int>>, good: nat) returns (r: Result, ptrs: seq<int>)
      requires sp == TOP && forall i :: 0 <= i < |args| ==> IsString(args[i]) && |args[i]| + 4 < W32
      modifies this
      ensures r == Ok || r == EFault
      ensures r == Ok <==> good >= |args| && Stacked(args, 0) <= TOP
      ensures r == Ok ==> sp == TOP - Stacked(args, 0)
      ensures r == Ok ==> 0 <= sp <= TOP && sp % 4 == 0 && Placed(mem, args, ptrs, 0, sp) && SameBut(old(mem), mem, sp)
      ensures r == Ok ==> sp == if args == [] then TOP else ptrs[0]
    {
      ptrs := seq(|args|, i => 0);
      NonePlaced(mem, args, ptrs);
      hide Written, StringAt, SameBut, Placed, U32, Rounded;
      var i := |args|;
      while i > 0
        invariant 0 <= i <= |args| && |ptrs| == |args| && 0 <= sp <= TOP && sp % 4 == 0
        invariant sp == (if i == |args| then TOP else ptrs[i]) && Placed(mem, args, ptrs, i, sp)
          && SameBut(old(mem), mem, sp)
        invariant |args| - i <= good && sp == TOP - Stacked(args, i)
      {
        i := i - 1;
        var size := Rounded(args[i]);
        ghost var above, before := sp, mem;
        StackedGrows(args, i);
        WrapsUp(above, size);
        sp := U32(sp - size);
        r := CopyOutStr(args[i], sp, size, |args| - i > good);
        if r != Ok {
          return;
        }
        assert sp == above - size;
        PlacedMore(before, args, ptrs, i, above, sp);
        WrittenSame(old(mem), before, above, sp, args[i] + [0]);
        ptrs := ptrs[i := sp];
      }
      r := Ok;
    }

    // The pointers, from the terminating NULL to the first.
    method PushPointers(args: seq<seq<int>>, ptrs: seq<int>, good: nat, ghost was: Memory) returns (r: Result)
      requires 0 <= sp <= TOP && sp % 4 == 0 && Placed(mem, args, ptrs, 0, sp) && SameBut(was, mem, sp)
      requires sp == if args == [] then TOP else ptrs[0]
      modifies this
      ensures r == if good > |args| && old(sp) >= 4 * (|args| + 1) then Ok else EFault
      ensures r == Ok ==> ArgvAt(mem, sp, args) && 0 <= sp && sp % 4 == 0 && SameBut(was, mem, sp)
      ensures r == Ok ==> sp == old(sp) - 4 * (|args| + 1) && Placed(mem, args, ptrs, 0, old(sp))
      ensures r == Ok ==> forall i :: 0 <= i < |args| ==> Arg(mem, sp, i) == ptrs[i]
    {
      hide Written, WordAt, WordBytes, StringAt, SameBut;
      var words := ptrs + [0];
      ghost var base := sp - 4 * |words|;
      var i := |words|;
      while i > 0
        invariant 0 <= i <= |words| && 0 <= sp == base + 4 * i && SameBut(was, mem, sp) && |words| - i <= good
        invariant Placed(mem, args, ptrs, 0, old(sp))
        invariant forall j :: i <= j < |words| ==> Arg(mem, base, j) == words[j]
      {
        i := i - 1;
        ghost var before := mem;
        PlacedRange(mem, args, ptrs, 0, old(sp), i);
        sp := U32(sp - 4);
        r := CopyOutWord(words[i], sp, |words| - i > good);
        if r != Ok {
          return;
        }
        assert sp == base + 4 * i;
        WordRoundTrip(before, sp, words[i]);
        forall j | i < j < |words| ensures Arg(mem, base, j) == words[j] {
          ArgFrame(before, base, i, j, WordBytes(words[i]));
        }
        PlacedFrame(before, args, ptrs, 0, old(sp), sp, WordBytes(words[i]));
        WrittenSame(was, before, sp + 4, sp, WordBytes(words[i]));
      }
      forall j | 0 <= j < |args| ensures Arg(mem, sp, j) != 0 && StringAt(mem, Arg(mem, sp, j), args[j]) {
        assert PlacedAt(mem, args, ptrs, j, old(sp));
      }
      r := Ok;
    }
  }

  // ROUNDUP(strlen + 1, 4).
  function Rounded(s: seq<int>): (n: int)
    ensures |s| < n <= |s| + 4 && n % 4 == 0
  {
    (|s| + 1 + 4 - 1) / 4 * 4
  }

  lemma NonePlaced(mem: Memory, args: seq<seq<int>>, ptrs: seq<int>)
    requires |ptrs| == |args|
    ensures Placed(mem, args, ptrs, |args|, TOP) && SameBut(mem, mem, TOP)
  {
  }

  // What the strings from the i-th on take.
  function Stacked(args: seq<seq<int>>, i: nat): (n: int)
    requires i <= |args|
    ensures n >= 0
    decreases |args| - i
  {
    if i == |args| then 0 else Rounded(args[i]) + Stacked(args, i + 1)
  }

  lemma {:induction false} StackedGrows(args: seq<seq<int>>, i: nat)
    requires i <= |args|
    ensures Stacked(args, i) <= Stacked(args, 0)
  {
    if i > 0 {
      StackedGrows(args, i - 1);
    }
  }

  // A stack pointer that would go below 0 wraps to where no string of that size may go.
  lemma WrapsUp(sp: int, size: int)
    requires 0 <= sp <= TOP && 0 < size < W32
    ensures U32(sp - size) == if sp >= size then sp - size else sp - size + W32
    ensures sp < size ==> U32(sp - size) + size >= W32
  {
  }

  // Memory below lo and from TOP on is as it was.
  ghost predicate SameBut(was: Memory, mem: Memory, lo: int) {
    forall x :: !(lo <= x < TOP) ==> Load(mem, x) == Load(was, x)
  }

  // The region of the i-th string: from p up to its neighbour, aligned, not below lo.
  ghost predicate Slot(args: seq<seq<int>>, i: int, lo: int, p: int, next: int)
    requires 0 <= i < |args|
  {
    lo <= p && p % 4 == 0 && p + Rounded(args[i]) == next <= TOP
  }

  ghost predicate PlacedAt(mem: Memory, args: seq<seq<int>>, ptrs: seq<int>, j: int, lo: int)
    requires |ptrs| == |args| && 0 <= j < |args|
  {
    StringAt(mem, ptrs[j], args[j]) && Slot(args, j, lo, ptrs[j], if j + 1 < |args| then ptrs[j + 1] else TOP)
  }

  // The strings from the i-th on are in place.
  ghost predicate Placed(mem: Memory, args: seq<seq<int>>, ptrs: seq<int>, i: int, lo: int) {
    |ptrs| == |args| && 0 <= i && forall j :: i <= j < |args| ==> PlacedAt(mem, args, ptrs, j, lo)
  }

  // Writes below lo leave the strings alone.
  lemma PlacedFrame(mem: Memory, args: seq<seq<int>>, ptrs: seq<int>, i: int, lo: int, a: int, bs: seq<int>)
    requires Placed(mem, args, ptrs, i, lo) && a + |bs| <= lo
    ensures Placed(Written(mem, a, bs), args, ptrs, i, lo)
  {
    forall j | i <= j < |args| ensures PlacedAt(Written(mem, a, bs), args, ptrs, j, lo) {
      assert PlacedAt(mem, args, ptrs, j, lo);
      StringFrame(mem, ptrs[j], args[j], a, bs);
    }
  }

  lemma StringFrame(mem: Memory, p: int, s: seq<int>, a: int, bs: seq<int>)
    requires StringAt(mem, p, s) && a + |bs| <= p
    ensures StringAt(Written(mem, a, bs), p, s)
  {
    forall x | p <= x <= p + |s| ensures Load(Written(mem, a, bs), x) == Load(mem, x) {
      WrittenByte(mem, a, bs, x);
    }
  }

  lemma StringWritten(mem: Memory, p: int, s: seq<int>)
    ensures StringAt(Written(mem, p, s + [0]), p, s)
  {
    forall x | p <= x <= p + |s| ensures Load(Written(mem, p, s + [0]), x) == (s + [0])[x - p] {
      WrittenByte(mem, p, s + [0], x);
    }
  }

  lemma PlacedMore(mem: Memory, args: seq<seq<int>>, ptrs: seq<int>, i: int, lo: int, p: int)
    requires 0 <= i < |args| && Placed(mem, args, ptrs, i + 1, lo)
      && lo == (if i + 1 == |args| then TOP else ptrs[i + 1])
    requires p == lo - Rounded(args[i]) && p % 4 == 0 && lo <= TOP
    ensures Placed(Written(mem, p, args[i] + [0]), args, ptrs[i := p], i, p)
  {
    var m, ptrs' := Written(mem, p, args[i] + [0]), ptrs[i := p];
    PlacedFrame(mem, args, ptrs, i + 1, lo, p, args[i] + [0]);
    StringWritten(mem, p, args[i]);
    forall j | i <= j < |args| ensures PlacedAt(m, args, ptrs', j, p) {
      if j > i {
        assert PlacedAt(m, args, ptrs, j, lo);
      }
    }
  }

  lemma PlacedRange(mem: Memory, args: seq<seq<int>>, ptrs: seq<int>, i: int, lo: int, j: int)
    requires Placed(mem, args, ptrs, i, lo) && i <= j <= |args|
    ensures j < |args| ==> lo <= ptrs[j] < TOP
  {
    if j < |args| {
      assert PlacedAt(mem, args, ptrs, j, lo);
    }
  }

  lemma WrittenSame(was: Memory, mem: Memory, lo: int, a: int, bs: seq<int>)
    requires SameBut(was, mem, lo) && a + |bs| <= lo <= TOP
    ensures SameBut(was, Written(mem, a, bs), a)
  {
    forall x | !(a <= x < TOP) ensures Load(Written(mem, a, bs), x) == Load(was, x) {
      WrittenByte(mem, a, bs, x);
    }
  }

  lemma ArgFrame(mem: Memory, base: int, i: int, j: int, bs: seq<int>)
    requires |bs| == 4 && i < j
    ensures Arg(Written(mem, base + 4 * i, bs), base, j) == Arg(mem, base, j)
  {
    var a := base + 4 * j;
    WrittenByte(mem, base + 4 * i, bs, a);
    WrittenByte(mem, base + 4 * i, bs, a + 1);
    WrittenByte(mem, base + 4 * i, bs, a + 2);
    WrittenByte(mem, base + 4 * i, bs, a + 3);
  }
}

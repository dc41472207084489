/**
 * The growable ring buffer of `queue.c`: a FIFO sequence in an array that wraps around.
 */
module RingQueue {
  import opened Common
  import Words

  const INT_MAX: int := 0x7fff_ffff

  // A C int.
  type Int = x: int | -0x8000_0000 <= x <= 0x7fff_ffff

  datatype Result = Ok | NoMem | Panic

  // A position in the ring, at most once around.
  function Wrap(x: int, size: int): int {
    if x < size then x else x - size
  }

  lemma ModWrap(x: int, size: int)
    requires size > 0 && 0 <= x < 2 * size
    ensures x % size == Wrap(x, size) && 0 <= Wrap(x, size) < size
  {
    if x < size {
      Words.DivModUnique(x, size, 0, x);
    } else {
      Words.DivModUnique(x, size, 1, x - size);
    }
  }

  // The first doubling of a size that reaches the target.
  function Doubled(size: nat, target: int): (n: nat)
    requires size > 0
    ensures size <= n && target <= n && (n == size || n < 2 * target)
    decreases target - size
  {
    if size >= target then size else Doubled(2 * size, target)
  }

  class Queue {
    var size: Int
    var nextwrite: int
    var nextread: int
    var data: array<int>
    ghost var contents: seq<int>

    ghost predicate Valid()
      reads this, data
    {
      && 0 < size == data.Length && 0 <= nextread < size && |contents| < size
      && nextwrite == Wrap(nextread + |contents|, size)
      && forall i :: 0 <= i < |contents| ==> data[Wrap(nextread + i, size)] == contents[i]
    }

    ghost predicate Full()
      reads this
    {
      |contents| + 1 == size
    }

    // q_create, with memory to be had.
    constructor (n: Int)
      requires n >= 0
      ensures size == n && (n > 0 ==> Valid() && contents == []) && fresh(data)
    {
      size, nextread, nextwrite, contents := n, 0, 0, [];
      data := new int[n];
    }

    method Empty() returns (b: bool)
      requires Valid()
      ensures b <==> contents == []
    {
      b := nextwrite == nextread;
    }

    // The first loop of q_grow; 0 is the failed assertion that the doubled size is positive.
    method NewSize(target: int) returns (nsize: Int)
      requires size > 0
      ensures nsize == if Doubled(size, target) > INT_MAX then 0 else Doubled(size, target)
    {
      nsize := size;
      while nsize < target
        invariant size <= nsize && Doubled(nsize, target) == Doubled(size, target)
        decreases target - nsize
      {
        if nsize * 2 > INT_MAX {
          return 0;
        }
        nsize := nsize * 2;
      }
    }

    /**
     * Doubles the size until it reaches the target.  The order survives, wherever the old
     * ring wrapped; it panics exactly if the doubling leaves the range of int, and fails
     * exactly if it does not and there is no memory, and then nothing changes.
     */
    method Grow(target: int, alloc: bool) returns (r: Result)
      requires Valid() && target > size
      modifies this, data
      ensures Valid() && contents == old(contents)
      ensures r.Panic? <==> Doubled(old(size), target) > INT_MAX
      ensures r.NoMem? <==> Doubled(old(size), target) <= INT_MAX && !alloc
      ensures r.Ok? ==> size == Doubled(old(size), target) && fresh(data) && !Full()
      ensures !r.Ok? ==>
        && size == old(size) && nextread == old(nextread) && nextwrite == old(nextwrite)
        && data == old(data) && data[..] == old(data[..])
      decreases 1
    {
      var olddata, onr, onw, osize := data, nextread, nextwrite, size;
      hide Doubled;
      var nsize := NewSize(target);
      if nsize == 0 {
        return Panic;
      }
      if !alloc {
        return NoMem;
      }
      ghost var was := contents;
      size := nsize;
      data := new int[nsize];
      nextread, nextwrite, contents := 0, 0, [];
      var i := onr;
      ghost var k := 0;
      while i != onw
        invariant Valid() && size == nsize && fresh(data) && olddata[..] == old(olddata[..])
        invariant 0 <= k <= |was| && i == Wrap(onr + k, osize) && contents == was[..k]
        decreases |was| - k
      {
        assert olddata[i] == was[k];
        r := AddTail(olddata[i], true);
        assert r == Ok;
        ModWrap(i + 1, osize);
        i := (i + 1) % osize;
        k := k + 1;
      }
      assert k == |was| && was[..k] == was;
      r := Ok;
    }

    /**
     * Appends, growing first if the ring is full; a queue that is not full is never grown,
     * so the calls from Grow do not come back to it.
     */
    method AddTail(ptr: int, alloc: bool) returns (r: Result)
      requires Valid()
      modifies this, data
      ensures Valid()
      ensures r.Ok? ==> contents == old(contents) + [ptr]
      ensures !r.Ok? ==>
        && contents == old(contents) && size == old(size) && nextread == old(nextread)
        && data == old(data) && data[..] == old(data[..])
      ensures !old(Full()) ==> r.Ok? && size == old(size) && data == old(data) && nextread == old(nextread)
      ensures r.Ok? ==> data == old(data) || fresh(data)
      ensures r.Panic? <==> old(Full()) && 2 * old(size) > INT_MAX
      ensures r.NoMem? <==> old(Full()) && 2 * old(size) <= INT_MAX && !alloc
      ensures r.Ok? ==> size == if old(Full()) then 2 * old(size) else old(size)
      decreases if Full() then 2 else 0
    {
      ModWrap(nextwrite + 1, size);
      var nextnext := (nextwrite + 1) % size;
      if nextnext == nextread {
        r := Grow(size + 1, alloc);
        if !r.Ok? {
          return;
        }
        ModWrap(nextwrite + 1, size);
        nextnext := (nextwrite + 1) % size;
      }
      Store(ptr, nextnext);
      r := Ok;
    }

    // The element goes into the free slot behind the last.
    method Store(ptr: int, nextnext: int)
      requires Valid() && !Full() && nextnext == Wrap(nextwrite + 1, size)
      modifies this`nextwrite, this`contents, data
      ensures Valid() && contents == old(contents) + [ptr]
    {
      data[nextwrite] := ptr;
      nextwrite := nextnext;
      contents := contents + [ptr];
    }

    // The head; None is the failed assertion on an empty queue.
    method RemHead() returns (r: Option<int>)
      requires Valid()
      modifies this
      ensures Valid() && size == old(size) && data == old(data)
      ensures old(contents) == [] ==> r == None && contents == []
      ensures old(contents) != [] ==> r == Some(old(contents)[0]) && contents == old(contents)[1..]
    {
      if nextwrite == nextread {
        return None;
      }
      r := Some(data[nextread]);
      ModWrap(nextread + 1, size);
      nextread := (nextread + 1) % size;
      contents := contents[1..];
    }

    method Peek() returns (r: Option<int>)
      requires Valid()
      ensures r == if contents == [] then None else Some(contents[0])
    {
      if nextwrite == nextread {
        return None;
      }
      r := Some(data[nextread]);
    }

    method Preallocate(n: int, alloc: bool) returns (r: Result)
      requires Valid()
      modifies this, data
      ensures Valid() && contents == old(contents)
      ensures r.Panic? <==> n > old(size) && Doubled(old(size), n) > INT_MAX
      ensures r.NoMem? <==> n > old(size) && Doubled(old(size), n) <= INT_MAX && !alloc
      ensures r.Ok? ==> size == Doubled(old(size), n) >= n
      ensures !r.Ok? ==>
        && size == old(size) && nextread == old(nextread) && data == old(data)
        && data[..] == old(data[..])
    {
      r := Ok;
      if n > size {
        r := Grow(n, alloc);
      }
    }

    // The walk of q_len counts the contents.
    method Len() returns (count: int)
      requires Valid()
      ensures count == |contents|
    {
      count := 0;
      var tmp := nextread;
      while tmp != nextwrite
        invariant 0 <= count <= |contents| && tmp == Wrap(nextread + count, size)
        decreases |contents| - count
      {
        ModWrap(tmp + 1, size);
        tmp := (tmp + 1) % size;
        count := count + 1;
      }
    }
  }
}

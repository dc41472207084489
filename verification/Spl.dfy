/**
 * The interrupt priority level of `spl.c` and the spinlocks of `spinlock.c`, as the code of
 * one CPU, proved against the level functions of the dispatcher.
 */
module Spl {
  import opened Dispatcher

  const IPL_NONE: int := 0
  const IPL_HIGH: int := 1
  const NO_CPU: int := -1

  // The lock word and the CPU recorded as its holder.
  class Spinlock {
    var word: int
    var holder: int

    ghost predicate Valid()
      reads this
    {
      (word == 0 && holder == NO_CPU) || (word == 1 && holder != NO_CPU)
    }

    constructor ()
      ensures Valid() && word == 0
    {
      word, holder := 0, NO_CPU;
    }
  }

  datatype Outcome = Acquired | Spinning | Deadlock

  // Who holds the lock when a round of the spin loop reads it, and when it tests and sets it.
  datatype Seen = Seen(atRead: int, atSet: int)

  predicate Free(x: Seen) {
    x.atRead == NO_CPU && x.atSet == NO_CPU
  }

  /**
   * A CPU and the interrupt fields of its current thread; `held` is the number of
   * spinlocks charged to the thread.
   */
  class Processor {
    const self: int
    var iplhighCount: int
    var curspl: int
    var irq: bool
    ghost var held: int
    ghost const rest: Thread

    constructor (c: int)
      requires c != NO_CPU
      ensures self == c && Valid() && curspl == IPL_HIGH && held == 0
    {
      self := c;
      iplhighCount, curspl, irq, held := 1, IPL_HIGH, false, 0;
      rest := Thread(c, false, Run, Nowhere, 0, false, 0, false, false);
    }

    ghost function Now(): Level
      reads this
    {
      Level(rest.(count := iplhighCount, high := curspl == IPL_HIGH, held := held), irq)
    }

    ghost predicate Valid()
      reads this
    {
      self != NO_CPU && (curspl == IPL_NONE || curspl == IPL_HIGH) && InStep(Now())
    }

    method Raise(oldspl: int, newspl: int)
      requires oldspl == IPL_NONE && newspl == IPL_HIGH
      modifies `iplhighCount, `irq
      ensures Now() == SplRaise(old(Now()))
      ensures old(InStep(Now())) ==> !irq && iplhighCount > 0
    {
      if iplhighCount == 0 {
        irq := false;
      }
      iplhighCount := iplhighCount + 1;
    }

    method Lower(oldspl: int, newspl: int)
      requires oldspl == IPL_HIGH && newspl == IPL_NONE
      modifies `iplhighCount, `irq
      ensures Now() == SplLower(old(Now()))
      ensures old(!irq && iplhighCount > 0) ==> (irq <==> iplhighCount == 0)
    {
      iplhighCount := iplhighCount - 1;
      if iplhighCount == 0 {
        irq := true;
      }
    }

    // splx; the result is the previous level.
    method Splx(spl: int) returns (ret: int)
      requires Valid() && (spl == IPL_NONE || spl == IPL_HIGH)
      modifies `iplhighCount, `irq, `curspl
      ensures Valid() && curspl == spl && ret == old(curspl) && Now() == SplX(old(Now()), spl == IPL_HIGH)
    {
      LevelsKept(Now(), spl == IPL_HIGH);
      if curspl < spl {
        Raise(curspl, spl);
        ret := curspl;
        curspl := spl;
      } else if curspl > spl {
        ret := curspl;
        curspl := spl;
        Lower(ret, spl);
      } else {
        ret := spl;
      }
    }

    /**
     * spinlock_acquire, against any doings of the other CPUs: `world` says what each round of
     * the loop finds.  Interrupts go off first and stay off.  Taking a lock that this CPU
     * holds is the deadlock panic; otherwise the lock is taken, and charged, in the first
     * round that finds it free twice, and the CPU spins until then.
     */
    method Acquire(lk: Spinlock, world: seq<Seen>) returns (r: Outcome, rounds: nat)
      requires Valid() && lk.Valid() && forall i :: 0 <= i < |world| ==>
        && world[i].atRead != self
        && world[i].atSet != self
      modifies this, lk
      ensures lk.Valid() && !irq
      ensures r.Deadlock? <==> old(lk.holder) == self
      ensures !r.Deadlock? ==>
        && rounds <= |world| && (forall i :: 0 <= i < rounds ==> !Free(world[i]))
        && (r.Acquired? <==> rounds < |world| && Free(world[rounds])) && (r.Spinning? <==> rounds == |world|)
      ensures r.Acquired? ==> Valid() && lk.holder == self && Now() == SpinAcquire(old(Now()))
      ensures !r.Acquired? ==>
        && Now() == SplRaise(old(Now()))
        && lk.holder == (if world == [] || r.Deadlock? then old(lk.holder) else world[|world| - 1].atSet)
    {
      Raise(IPL_NONE, IPL_HIGH);
      rounds := 0;
      if lk.holder == self {
        return Deadlock, rounds;
      }
      while rounds < |world|
        invariant 0 <= rounds <= |world| && lk.Valid() && lk.holder != self && curspl == old(curspl)
        invariant (forall i :: 0 <= i < rounds ==> !Free(world[i])) && Now() == SplRaise(old(Now()))
        invariant lk.holder == if rounds == 0 then old(lk.holder) else world[rounds - 1].atSet
      {
        var read := world[rounds].atRead;
        lk.holder := world[rounds].atSet;
        lk.word := if lk.holder == NO_CPU then 0 else 1;
        if read == NO_CPU && lk.word == 0 {
          lk.word := 1;
          lk.holder := self;
          held := held + 1;
          return Acquired, rounds;
        }
        rounds := rounds + 1;
      }
      return Spinning, rounds;
    }

    method Release(lk: Spinlock)
      requires Valid() && lk.Valid() && lk.holder == self && held > 0
      modifies this, lk
      ensures Valid() && lk.Valid() && lk.word == 0 && Now() == SpinRelease(old(Now()))
    {
      LevelsKept(Now(), true);
      assert lk.holder == self;
      lk.holder := NO_CPU;
      lk.word := 0;
      Lower(IPL_HIGH, IPL_NONE);
      held := held - 1;
    }
  }

  /**
   * The example in the comment of splraise: two locks and an spl call that do not nest
   * leave the level as it was, and interrupts come back only at the end.
   */
  method Unnested(cpu: Processor, red: Spinlock, blue: Spinlock)
    requires cpu.Valid() && red.Valid() && blue.Valid() && red != blue && red.word == 0 && blue.word == 0
    modifies cpu, red, blue
    ensures cpu.Valid() && red.word == 0 && blue.word == 0 && cpu.Now() == old(cpu.Now())
  {
    var r1, n1 := cpu.Acquire(red, [Seen(NO_CPU, NO_CPU)]);
    var s := cpu.Splx(IPL_HIGH);
    var r2, n2 := cpu.Acquire(blue, [Seen(NO_CPU, NO_CPU)]);
    s := cpu.Splx(s);
    cpu.Release(red);
    assert !cpu.irq;
    cpu.Release(blue);
  }
}

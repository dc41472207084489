# OS/161: a Dafny model of its hard parts

OS/161 is a teaching kernel. This project models the parts of it whose correctness is not
visible from any single function, and proves what they are for:

- **64-bit arithmetic** (`QDivRem`, `SignedDivide`, `Multiply`, over `Words` and `Digits`).
  The millicode library divides by Algorithm D of Knuth, volume 2, section 4.3.1, on 16-bit
  digits in small arrays, and multiplies by the three-product split of section 4.3.3. Every C
  operation on unsigned words is written with its wrap-around (`U32`, `U64`). The main results
  are that `__qdivrem` returns quotient and remainder for every pair of 64-bit operands, that
  the product is exact modulo 2^64, and that signed division truncates as section 6.5.5 of ISO
  C99 says, with the one wrapped case.
- **The subpage allocator** (`KmallocModel`, `KmallocSteps`, `KmallocPages`, `KmallocRuns`,
  `KmallocThreads`, `Kmalloc`). Free lists are threaded through free blocks in a memory of
  words. `Kmalloc` holds the code as a class; each locked section is proved to be one step of
  the run system of `KmallocRuns`, whose invariant holds in every interleaving of those sections
  with the page source, client writes inside live blocks and writes elsewhere. Where the code
  lets kmalloc_spinlock go, `kmalloc` and `kfree` meet any steps of other threads
  (`KmallocThreads`).
- **The dispatcher** (`Dispatcher`, `DispatcherProof`, `DispatcherRuns`, `DispatcherPlaces`,
  `DispatcherLevels`, `DispatcherMigration`, `Spl`, `Migration`, `Threadlist`). The dispatcher
  is a step system over any number of CPUs; `Spl` holds the interrupt-level and
  spinlock code, `Threadlist` the linked lists with bookend nodes, `Migration` the balancing
  code with the other CPUs quiet.
- **Semaphores, locks and condition variables** (`Semaphore`, `Locks`, `LocksRuns`). Step systems in which
  a step ends wherever a spinlock is taken or let go, so that a wakeup could be lost.
- **The traffic intersection** (`Traffic`, `TrafficRuns`). The code of the monitor as a class,
  and every interleaving of vehicle threads through it and through the driver that checks it.
- **Layouts** (`RingQueue`, `Uio`, `ExecStack`): the growable ring buffer, scatter/gather
  transfers, and the argument stack of `execv`.

`Seqs` holds facts about sequences without repetition and about set sizes, `Common` what several
models share.

Where the code does not do what its documentation says, the model follows the code.
`uiomove` looks at `uio_resid` only between iovecs, so a `uio_resid` that ends inside an iovec
does not stop it: `Uio.AmountIsSmaller` gives the exact condition under which the documented
amount is moved and the buffers hold it, and `Uio.MovesTooMuch` an input that breaks it. The page count of a large
`kmalloc` wraps for requests within a page of 2^32: `KmallocRuns.NpagesCovers` gives the exact
range. A block freed twice is not detected: `KmallocRuns.GivenOnce` gives the exact condition.
`copycheck` refuses a region of length 0 that does not start at address 0.

The concurrent parts are modelled on values, as states and steps, because their content is
the interleaving; sequential code that works in place is modelled as classes with fields,
arrays and loops. A bitwise OR of disjoint bits is written as a sum. A `struct pageref` array
is kept as one sequence per field, and a bitmap word as 32 flags.

## Model

| member | source | states |
|---|---|---|
| QDivRem.QDivRem | common/gcc-millicode/qdivrem.c:67-263 | For all 64-bit operands: divide by zero traps; otherwise the result is the quotient, and the remainder if the caller asks for it |
| QDivRem.AlgorithmD | common/gcc-millicode/qdivrem.c:152-263 | For a divisor of two to four digits: quotient and remainder of the four-digit values, through normalisation, all m+1 digits and the shift back |
| QDivRem.EstimateDigit | common/gcc-millicode/qdivrem.c:185-210 | The corrected qhat is exactly the quotient of the leading three digits by the leading two, clipped to B-1 |
| QDivRem.TrialDigitOffByOne | common/gcc-millicode/qdivrem.c:185-228 | For divisors of any length, that qhat is the true digit or exactly one more |
| Words.NoOverflow | common/gcc-millicode/qdivrem.c:205-218 | The product of two digits is never wrapped |
| QDivRem.MultiplySubtract | common/gcc-millicode/qdivrem.c:211-230 | The partial remainder loses qhat times the divisor; HHALF(t) is nonzero exactly if it went negative; other digits are untouched |
| QDivRem.BorrowDigit | common/gcc-millicode/qdivrem.c:217-221 | The wrapped word of each digit splits into the new digit and the exact borrow |
| QDivRem.SubtractDigits | common/gcc-millicode/qdivrem.c:217-221 | The borrow chain over all digits is exact |
| QDivRem.AddBack | common/gcc-millicode/qdivrem.c:230-238 | Adding the divisor back is addition modulo B^(n+1) |
| QDivRem.DivideStep | common/gcc-millicode/qdivrem.c:182-240 | One turn of D3 to D6 leaves the true digit and a remainder below the divisor |
| QDivRem.DivideLoop | common/gcc-millicode/qdivrem.c:176-240 | All m+1 turns divide the whole dividend; the digits passed become 0 |
| QDivRem.NextQuotientDigit | common/gcc-millicode/qdivrem.c:182-240 | Each turn extends the division by one digit brought down |
| QDivRem.Shl | common/gcc-millicode/qdivrem.c:265-279 | Shifting in place multiplies by 2^sh modulo B^(len+1), exactly if the top bits are free |
| QDivRem.ShiftBack | common/gcc-millicode/qdivrem.c:242-254 | The remainder's digits are divided by 2^d in place |
| QDivRem.Normalise | common/gcc-millicode/qdivrem.c:167-175 | Both operands are scaled without loss, the divisor's leading digit reaches B/2, and the leading part of the dividend stays below the divisor |
| QDivRem.Normalisation | common/gcc-millicode/qdivrem.c:167-171 | d is the shift that brings the leading digit into the upper half |
| QDivRem.OneDigit | common/gcc-millicode/qdivrem.c:123-149 | The unrolled one-digit division gives quotient and remainder |
| QDivRem.SkipZeros | common/gcc-millicode/qdivrem.c:152-161 | The leading zeros of the dividend are skipped, and m never drops below 0 |
| SignedDivide.DivDi3 | common/gcc-millicode/divdi3.c:44-62 | The truncating quotient for all signed operands; the minimum divided by -1 wraps to the minimum |
| SignedDivide.ModDi3 | common/gcc-millicode/moddi3.c:45-62 | The remainder with the sign of the dividend for all signed operands; 0 for the minimum by -1 |
| SignedDivide.TruncSpec | common/gcc-millicode/divdi3.c:44-62 | Truncating quotient and remainder satisfy a = q*b + r with r smaller than b and of the sign of a |
| SignedDivide.TruncUnique | common/gcc-millicode/moddi3.c:45-62 | No other pair satisfies it |
| Multiply.MulDi3 | common/gcc-millicode/muldi3.c:99-164 | For all signed operands, the minimum included: the product modulo 2^64 |
| Multiply.LMulQ | common/gcc-millicode/muldi3.c:183-241 | The exact 64-bit product of any two 32-bit words, through its wrapped carries and borrows |
| Multiply.UnsignedProduct | common/gcc-millicode/muldi3.c:124-158 | The unsigned product modulo 2^64, from the three partial products |
| Multiply.CarryExact | common/gcc-millicode/muldi3.c:223-235 | The comparison after a wrapped addition is its carry |
| Multiply.BorrowExact | common/gcc-millicode/muldi3.c:219-222 | The comparison after a wrapped subtraction is its borrow |
| KmallocRuns.RunInv | kern/vm/kmalloc.c:396-633 | In every run and after every step: free lists acyclic and as long as nfree, free and live blocks partition each page, every listed page has a live block, allbase is the disjoint union of the size lists and the set of bits in use, no page held twice |
| KmallocRuns.StepInv | kern/vm/kmalloc.c:396-596 | Every locked section, page-source call and write keeps that invariant |
| KmallocRuns.PagesConserved | kern/vm/kmalloc.c:450-470 | In every run the allocator holds a page exactly if it was handed out once more than returned, so a freed page is returned exactly once |
| KmallocRuns.StepOwned | kern/vm/kmalloc.c:576-585 | Which steps take a page into the allocator's hands and which give it up |
| KmallocRuns.LiveDisjoint | kern/vm/kmalloc.c:396-509 | Two live blocks never overlap |
| KmallocRuns.BigDisjoint | kern/vm/kmalloc.c:601-619 | A large allocation overlaps neither a live block nor another large allocation |
| KmallocRuns.LivePlaced | kern/vm/kmalloc.c:396-509 | A live block is inside its registered page, aligned to its size and at least as large as requested |
| KmallocRuns.FreeRoutes | kern/vm/kmalloc.c:530-548 | The search of kfree finds a live block on its own page and on no other, and a large allocation on none |
| KmallocRuns.NpagesCovers | kern/vm/kmalloc.c:604-613 | The page count covers the request if and only if the rounding does not wrap |
| KmallocRuns.ForeignInv | kern/vm/kmalloc.c:447-456 | Writes outside the registered pages leave the allocator intact |
| KmallocSteps.ClientWriteInv | kern/vm/kmalloc.c:396-509 | Anything a client writes inside a live block leaves every free list intact |
| KmallocSteps.TakeInv | kern/vm/kmalloc.c:424-455 | Handing out the first free block keeps the invariant; the block was not live and the assertions of the code hold |
| KmallocSteps.GiveInv | kern/vm/kmalloc.c:555-576 | fill_deadbeef and the link write damage no list; exactly that block becomes free |
| KmallocPages.ReleaseInv | kern/vm/kmalloc.c:576-584 | A page whose blocks are all free has no live block, and leaving both lists and the bitmap keeps the invariant |
| KmallocPages.RegisterInv | kern/vm/kmalloc.c:470-505 | Registering a fresh page under an unused pageref keeps the invariant, whatever the page held |
| KmallocPages.FreshList | kern/vm/kmalloc.c:484-499 | The threading loop builds the free list of the whole page, last block first, and writes nothing outside it |
| KmallocPages.UnlistLists | kern/vm/kmalloc.c:352-375 | Unlinking from both lists removes exactly that page from each and disturbs no other list |
| KmallocPages.EnlistLists | kern/vm/kmalloc.c:500-505 | Pushing on both lists adds exactly that page |
| KmallocModel.FreeListLength | kern/vm/kmalloc.c:575-577 | A free list is at most as long as the page has blocks, and as long only if it holds every block |
| Kmalloc.FindBlockType | kern/vm/kmalloc.c:377-393 | The smallest block type that fits; the panic exactly above 2048 |
| Kmalloc.Allocator.constructor | kern/vm/kmalloc.c:139-190 | The static data start as the empty allocator |
| Kmalloc.Allocator.AllocPageRef | kern/vm/kmalloc.c:144-167 | The first unused pageref is marked; NULL exactly if all are used; the inner assertion is never reached |
| Kmalloc.Allocator.FreePageRef | kern/vm/kmalloc.c:169-182 | Exactly that bit is cleared |
| Kmalloc.Allocator.RemoveLists | kern/vm/kmalloc.c:352-375 | The pointer-to-pointer walks unlink the page wherever it is on the two lists |
| Kmalloc.Allocator.FillDeadbeef | kern/vm/kmalloc.c:40-50 | The words of the block are filled and nothing outside it changes |
| Kmalloc.Allocator.DoAlloc | kern/vm/kmalloc.c:424-455 | The code at doalloc takes the first free block and re-establishes the invariant |
| Kmalloc.Allocator.AllocFromLists | kern/vm/kmalloc.c:396-457 | The first locked section is the step that takes a block from the first page of the size list that has one, or changes nothing if none has |
| Kmalloc.Allocator.ThreadPage | kern/vm/kmalloc.c:484-499 | The loop writes the links of a fresh free list and ends at the last block |
| Kmalloc.Allocator.InstallPage | kern/vm/kmalloc.c:468-508 | The second locked section is the step that registers the page and takes its first block, or changes nothing if no pageref is left |
| Kmalloc.Allocator.FindPage | kern/vm/kmalloc.c:530-548 | The registered page a pointer is on, if there is one |
| Kmalloc.Allocator.RetirePage | kern/vm/kmalloc.c:576-584 | A fully free page leaves both lists and the bitmap |
| Kmalloc.Allocator.SubpageKfree | kern/vm/kmalloc.c:511-596 | Not ours exactly if on no registered page; the panic exactly if misaligned; a live block is freed by the step of the run system, and the page with it if it was the last; a block that is free already goes unnoticed and leaves the page without a proper free list or given back with a live block on it |
| KmallocRuns.GivenOnce | kern/vm/kmalloc.c:561-576 | After the link step the page has a proper free list if and only if the block was not on it already |
| Kmalloc.Allocator.Kmalloc | kern/vm/kmalloc.c:601-619 | Among any steps of other threads and for any answer of the page source: a small request fails if and only if no page of the smallest fitting type has a free block and the page source has no page or all pagerefs are in use, and then the page is given back; otherwise its last step makes exactly one new live block, of that type and at least that size; a large one answers what the page source does |
| Kmalloc.QuietIsPlausible | kern/vm/kmalloc.c:601-619 | A call that nobody disturbs is covered, whatever the page source answers |
| Kmalloc.Allocator.KmallocFresh | kern/vm/kmalloc.c:453-509 | The part without the spinlock: it fails if and only if the page source has no page or all pagerefs are in use; whatever changes behind its back, the fetched page stays its own until it is installed or given back |
| Kmalloc.Allocator.Kfree | kern/vm/kmalloc.c:621-633 | Among any steps of other threads that leave the block to its owner: kfree takes the path that allocated the pointer, panics nowhere, and ends exactly that block; a page that became free is given back |
| KmallocThreads.BlockKept | kern/vm/kmalloc.c:396-596 | In every run a live block stays live, in place and word for word as it was until a step writes to it or frees it |
| KmallocThreads.HeldKept | kern/vm/kmalloc.c:453-470 | Whatever the others do, a thread keeps the page in transit, the block or the large allocation that it holds |
| DispatcherProof.RunSafe | kern/thread/thread.c:547-719 | In every reachable state: no thread is current on two CPUs, current and queued threads have t_cpu equal to their CPU, interrupts are on outside cpu_idle exactly if the count is 0, switched-out threads have exactly the run-queue lock and spl charged, an idle CPU with work has been signalled |
| DispatcherProof.RunInv | kern/thread/thread.c:435-769 | The dispatcher's invariant holds after every step of every run |
| DispatcherProof.StepInv | kern/thread/thread.c:435-958 | Every step keeps the invariant |
| DispatcherProof.ResumesSaved | kern/thread/thread.c:636-656 | switchframe_switch resumes only a thread whose context is saved, that belongs to this CPU and is current on no other |
| DispatcherRuns.OnlyMigrationMoves | kern/thread/thread.c:897-940 | Only a migration changes t_cpu, and only of a saved thread that is current nowhere; it is then on the queue of its new CPU |
| DispatcherProof.MigSentInv | kern/thread/thread.c:897-940 | A victim other than curthread has its context saved, so moving it keeps the invariant |
| DispatcherProof.ShuffleInv | kern/thread/thread.c:924-928 | Shuffling curthread to the end of the victims keeps the invariant |
| DispatcherProof.NeverNull | kern/thread/thread.c:886-905 | Whatever other CPUs did since the counting, remtail and remhead never yield NULL in the transfer loops |
| DispatcherRuns.ThreadsConserved | kern/thread/thread.c:435-958 | In every run a thread exists from its fork until it is exorcised and not outside that time, and while it exists it is once on the list it knows of and on no other, or on none and running on its CPU alone or chosen to run next |
| DispatcherProof.ExorcisesZombie | kern/thread/thread.c:271-282 | exorcise destroys only exited threads that are saved and current on no CPU |
| DispatcherRuns.ListsAreQueues | kern/thread/thread.c:435-465 | Run queues and channels change only at the tail by additions and at the head by removals, except that a migration of the own CPU takes from the tail |
| DispatcherRuns.SplRestored | kern/thread/thread.c:556-719 | In every run, from a thread's entry into thread_switch to its next one, its spl at entry is kept for it; when it leaves, by the early return or at the end, that is its spl and no spinlock is charged |
| DispatcherRuns.FirstInFirstOut | kern/thread/thread.c:632-642 | In every run in which the CPU does not migrate threads away, a run queue moves up by one for each removal, so the thread at position k is dispatched by the (k+1)-th removal |
| DispatcherRuns.NeverStuck | kern/thread/thread.c:547-719 | Every CPU always has a next step, or its wakeup or migration waits for the run-queue lock of a CPU that has one; a CPU in the middle of a wakeup goes on with the wakeup |
| DispatcherRuns.WakeGoesOn | kern/thread/thread.c:435-465 | Each pending thread_make_runnable can be done at once, or its target's CPU holds its own run-queue lock and can go on |
| DispatcherRuns.TrapAssertions | kern/arch/mips/locore/trap.c:169-213 | The assertions around an interrupt hold: count 0 on entry at spl 0, spl high and count 1 at the end |
| DispatcherProof.ForkInv | kern/thread/thread.c:477-535 | Forking a thread, which starts with the run-queue lock and spl charged, keeps the invariant |
| DispatcherProof.SwitchInv | kern/thread/thread.c:644-656 | The context switch keeps the invariant |
| DispatcherProof.PlaceInv | kern/thread/thread.c:577-610 | Putting the current thread on its queue, channel or zombie list keeps the invariant |
| DispatcherPlaces.PlacedWhereTold | kern/thread/thread.c:556-612 | In every run a thread that enters thread_switch to sleep on a channel is put last on that very channel, one that yields on its own run queue, one that exits on its CPU's zombies, in the state that goes with it; exactly a yield with nobody ready returns at once |
| DispatcherPlaces.StaysOn | kern/thread/thread.c:577-642 | In every run a thread stays on its list until the step that may take it does: a sleeper until a wakeup of its channel finds it first, a ready thread until its CPU picks it or migrates it away, a zombie until it is exorcised |
| DispatcherPlaces.PlaceStep | kern/thread/thread.c:435-958 | A thread changes its place only when a step takes it off its list, and then goes where that step puts threads |
| DispatcherPlaces.IpiOnlyToIdle | kern/thread/thread.c:449-460 | IPI_UNIDLE goes only to an idle CPU and together with a thread for its run queue |
| DispatcherLevels.SpinlocksConserved | kern/thread/spinlock.c:72-127 | In every run a thread is charged with the spinlocks it had plus those it took less those it let go, whatever switches, interrupts and migrations come between |
| DispatcherLevels.SplIsOwn | kern/thread/spl.c:131-155 | In every run a thread runs at the spl it last set, whatever comes between |
| DispatcherLevels.StateMatches | kern/thread/thread.c:577-670 | In every reachable state a running thread is S_RUN, one on a channel S_SLEEP, an exited one S_ZOMBIE |
| DispatcherLevels.ForkedOn | kern/thread/thread.c:477-535 | A forked thread belongs to the CPU of its creator and is the last that the creator is about to make runnable |
| DispatcherMigration.MigrationAgrees | kern/thread/thread.c:855-958 | While the other CPUs go on, a migration counts each queue once and in order, computes the share from what it counted, takes exactly its surplus and sends no more than it took |
| DispatcherMigration.SentBelowShare | kern/thread/thread.c:892-935 | A thread is sent only to another CPU whose queue is then shorter than the share of those counts |
| DispatcherProof.PickInv | kern/thread/thread.c:632-642 | Taking the next thread keeps the invariant |
| DispatcherProof.WakePutInv | kern/thread/thread.c:435-465 | thread_make_runnable keeps the invariant and leaves no idle CPU unsignalled |
| Dispatcher.AnyNesting | kern/thread/spl.c:57-155 | Any sequence of spinlock and spl operations keeps the count equal to spinlocks plus spl and interrupts on exactly at 0, and where it ends depends only on the spinlocks held and the spl |
| Dispatcher.RaiseAndLower | kern/thread/spl.c:86-124 | Interrupts are off after a raise and on after a lower exactly if the count was 1; each undoes the other |
| Spl.Processor.Splx | kern/thread/spl.c:131-155 | The level becomes the argument, the previous one is returned, count and interrupts stay in step |
| Spl.Processor.Acquire | kern/thread/spinlock.c:72-111 | Whatever the other CPUs do: the panic exactly if this CPU holds the lock; otherwise it is taken in the first round that finds it free at the read and at the test-and-set, with interrupts off and charged, and the CPU spins until then |
| Spl.Processor.Release | kern/thread/spinlock.c:116-127 | The lock is free and its charge is gone |
| Spl.Unnested | kern/thread/spl.c:66-85 | Locks and an spl call that do not nest leave the level as it was |
| Migration.Queues.ConsiderMigration | kern/thread/thread.c:855-958 | No thread lost or duplicated, no receiver above one_share; a CPU holding a share or more ends with exactly one_share, plus curthread alone if that was a victim |
| Migration.ShareCovers | kern/thread/thread.c:865-881 | one_share rounds up, by less than one share |
| Migration.Queues.TakeVictims | kern/thread/thread.c:883-890 | The victims are the tail of the own queue, in order |
| Migration.Queues.FillQueue | kern/thread/thread.c:897-940 | One receiver is filled up to the share or the victims are used up |
| Migration.Queues.SendVictims | kern/thread/thread.c:892-942 | Victims are left over only if every other queue has reached the share |
| Migration.Queues.TakeBack | kern/thread/thread.c:944-955 | Leftovers return to the own queue |
| Migration.Queues.CountQueues | kern/thread/thread.c:865-876 | The counts are those of the queues |
| Migration.TooMany | kern/thread/thread.c:878-881 | Victims cannot be left over while every queue holds a share |
| Threadlist.InsertAfterNode | kern/thread/threadlist.c:105-120 | The node is linked behind its neighbour and prev and next stay inverse |
| Threadlist.InsertBeforeNode | kern/thread/threadlist.c:125-140 | The node is linked in front of its neighbour and prev and next stay inverse |
| Threadlist.RemoveNode | kern/thread/threadlist.c:145-157 | The node is loose and its neighbours are linked |
| Threadlist.ThreadList.constructor | kern/thread/threadlist.c:60-72 | The list is empty |
| Threadlist.ThreadList.IsEmpty | kern/thread/threadlist.c:91-97 | Exactly the empty list |
| Threadlist.ThreadList.AddHead | kern/thread/threadlist.c:162-170 | The sequence gains the thread in front |
| Threadlist.ThreadList.AddTail | kern/thread/threadlist.c:172-180 | The sequence gains the thread at the end |
| Threadlist.ThreadList.RemHead | kern/thread/threadlist.c:182-198 | The first thread, or NULL exactly if empty |
| Threadlist.ThreadList.RemTail | kern/thread/threadlist.c:200-216 | The last thread, or NULL exactly if empty |
| Threadlist.ThreadList.InsertAfter | kern/thread/threadlist.c:218-224 | The sequence gains the thread behind the given one |
| Threadlist.ThreadList.InsertBefore | kern/thread/threadlist.c:226-232 | The sequence gains the thread in front of the given one |
| Threadlist.ThreadList.RemoveThread | kern/thread/threadlist.c:234-240 | The sequence loses that thread |
| Threadlist.TakeAll | kern/thread/thread.c:1071-1074 | wakeall's private list gets all sleepers in their order |
| Threadlist.MakeAllRunnable | kern/thread/thread.c:1086-1088 | Each run queue gains the threads of its CPU, in their order |
| Threadlist.WakeAll | kern/thread/thread.c:1059-1091 | wakeall empties the channel, and each run queue gains the sleepers of its CPU in the order in which they went to sleep |
| Semaphore.RunInv | kern/thread/synch.c:88-142 | In every reachable state the count is the initial value plus increments less decrements and not negative, and while a thread sleeps or falls asleep it is covered by woken threads and Vs yet to wake |
| Semaphore.StepInv | kern/thread/synch.c:88-142 | Every step keeps that |
| Semaphore.WakeCovered | kern/thread/thread.c:1034-1054 | V's wakeup turns a pending V into a woken thread, or finds that nobody sleeps |
| Semaphore.NoLostWakeup | kern/thread/synch.c:98-128 | A positive count with sleepers has a woken thread or a V on its way |
| Semaphore.NeverStuck | kern/thread/synch.c:88-142 | The two spinlocks never deadlock |
| Semaphore.PanicsOnlyOnOverflow | kern/thread/synch.c:88-142 | With the increment wrapping as an int does: in every run the assertion of V fails exactly if increments outrun decrements by more than an int holds, and that of P never |
| Semaphore.UnitsPerCall | kern/thread/synch.c:88-142 | In every run the decrements are the Ps that returned and the increments the Vs that returned or are about to, so the count is the initial value plus completed Vs less completed Ps |
| Semaphore.TestsAgainWhenWoken | kern/thread/synch.c:102-124 | A P that found the count 0 tests it again, or returns, only after it slept and a V took it off the channel |
| Semaphore.ChannelIsQueue | kern/thread/thread.c:1034-1054 | Sleepers queue up at the end of the channel and a V's wakeup takes the first |
| Locks.RunSafe | kern/thread/synch.c:191-227 | In every reachable state at most one thread is inside, lock_do_i_hold is exact, and a free lock with sleepers has a woken thread or a pending wakeup |
| LocksRuns.CallEnds | kern/thread/synch.c:191-295 | In every run each call does its work and nothing else: past lock_acquire and past each cv operation the thread holds the lock, past lock_release it does not, and no call gives up halfway |
| LocksRuns.LockerWoken | kern/thread/synch.c:197-203 | A lock_acquire that found the lock held goes on only after it slept and a release took it off the channel |
| LocksRuns.WaitReturns | kern/thread/synch.c:269-279 | A cv_wait that has returned holds the lock again, and in between it slept on that cv without the lock until a signal or broadcast on it took it off |
| LocksRuns.ChannelsAreQueues | kern/thread/thread.c:1034-1080 | Sleepers queue up at the end of a channel, a wakeup takes the first and only a broadcast takes all |
| LocksRuns.SleepInOrder | kern/thread/synch.c:197-219 | In every run two sleepers on the lock's channel keep their order |
| Locks.StepInv | kern/thread/synch.c:191-295 | Every step of lock and condition-variable code keeps the invariant |
| Locks.HoldStable | kern/thread/synch.c:221-227 | What lock_do_i_hold says about a thread is changed by no step of another |
| Locks.SignalCannotMiss | kern/thread/synch.c:269-295 | A signal or broadcast that goes through finds every thread that released the lock in cv_wait; broadcast wakes all, signal the longest waiting |
| Locks.NeverStuck | kern/thread/synch.c:191-295 | If some thread is inside an operation or waits for the lock, some thread can go on or holds the lock |
| Locks.CoveredWake | kern/thread/synch.c:209-219 | lock_release's wakeup leaves no sleeper forgotten |
| Traffic.Intersection.FirstTry | kern/synchprobs/traffic_synch.c:150-181 | The car enters exactly if it fits with every car inside, else its direction's counter goes up |
| Traffic.Intersection.Retry | kern/synchprobs/traffic_synch.c:158-181 | After waiting the car enters exactly if the intersection is empty |
| Traffic.Intersection.AfterExit | kern/synchprobs/traffic_synch.c:194-209 | The first equal car leaves and the longest queue is broadcast |
| Traffic.Intersection.ChooseCv | kern/synchprobs/traffic_synch.c:71-89 | A direction with the most waiters, whose counter is reset |
| Traffic.Chosen | kern/synchprobs/traffic_synch.c:65-89 | No direction has more waiters than the chosen one |
| Traffic.RulesAgree | kern/synchprobs/traffic.c:259-306 | The monitor's rule and the driver's test, each with its own right_turn, agree on all pairs of cars, and the rule is symmetric and reflexive |
| Traffic.RightByCompass | kern/synchprobs/traffic_synch.c:42-63 | A right turn leaves by the exit on the driver's right, by the compass, and the rule does not change under a quarter turn |
| Traffic.CheckConstraints | kern/synchprobs/traffic.c:287-318 | The checker panics exactly if the vehicle conflicts with a recorded one |
| TrafficRuns.RunSafe | kern/synchprobs/traffic.c:465-494 | In every interleaving the checker passes, each wait counter is the number of sleepers of its direction, and an empty intersection with a sleeper has a woken vehicle on its way |
| TrafficRuns.CheckerNeverPanics | kern/synchprobs/traffic.c:465-480 | Recorded vehicles never conflict |
| TrafficRuns.SomeVehicleMoves | kern/synchprobs/traffic_synch.c:150-209 | While any vehicle has not left, some vehicle is not asleep |
| TrafficRuns.ArrivalRule | kern/synchprobs/traffic_synch.c:150-181 | On arrival a vehicle is let in if and only if the rule allows it beside every vehicle that is in |
| TrafficRuns.RetestRule | kern/synchprobs/traffic_synch.c:158-181 | A vehicle that was woken is let in if and only if no vehicle is in |
| TrafficRuns.ExitRule | kern/synchprobs/traffic_synch.c:194-209 | A vehicle that leaves wakes all sleepers of a direction with the most, and nobody else |
| TrafficRuns.Journey | kern/synchprobs/traffic.c:465-494 | In every run a vehicle keeps its origin and destination from its arrival until it leaves |
| TrafficRuns.StepInv | kern/synchprobs/traffic_synch.c:150-209 | Every step keeps the cars compatible, equal as a multiset to those let in, and the counters right |
| TrafficRuns.ExitInv | kern/synchprobs/traffic_synch.c:194-209 | The leaving car is always found, and the broadcast leaves nobody stranded |
| TrafficRuns.CarFound | kern/synchprobs/traffic_synch.c:199-206 | Every vehicle let in has its car in in_intersection |
| RingQueue.Queue.AddTail | kern/lib/queue.c:90-108 | The sequence gains the element; the panic and the failure exactly if the ring is full and cannot be doubled or allocated, and then nothing changes |
| RingQueue.Queue.Grow | kern/lib/queue.c:17-51 | The sequence keeps its order across the wrap-around; the panic exactly if the doubling leaves the range of int, the failure exactly if there is no memory, and then nothing changes; the recursion ends |
| RingQueue.Queue.RemHead | kern/lib/queue.c:110-121 | The first element; the assertion fails exactly on the empty queue |
| RingQueue.Queue.Preallocate | kern/lib/queue.c:70-81 | The size becomes the first doubling that reaches the target, or exactly in the cases of Grow nothing changes; the sequence stays |
| RingQueue.Queue.Len | kern/lib/queue.c:176-186 | The walk counts the sequence |
| RingQueue.Queue.Peek | kern/lib/queue.c:160-174 | The first element, or nothing |
| RingQueue.Queue.Empty | kern/lib/queue.c:83-88 | Exactly the empty sequence |
| Uio.Uio.Move | kern/lib/uio.c:41-120 | For every uio: the amount below is moved by one memmove for each iovec; the panic happens exactly if the iovecs hold less; it fails exactly if a user copy among those needed does, which leaves a shorter move with a prefix of the failed copy |
| Uio.Uio.MoveChunk | kern/lib/uio.c:60-116 | One chunk moves between the buffer and the first iovec, which advances |
| Uio.AmountIsSmaller | kern/lib/uio.c:58-146 | The amount asked for is min(n, resid) if and only if n fits in resid or resid ends between iovecs, and the iovecs hold it if and only if, besides, such an n fits in them; for uiomovezeros a multiple of 16 does as well; a resid equal to the total length always ends between iovecs |
| Uio.MovesTooMuch | kern/lib/uio.c:58-117 | A call on a uio with resid 5 inside an iovec of ten bytes moves all ten and wraps resid |
| Uio.Uio.MoveFit | kern/lib/uio.c:41-120 | With resid equal to the total length and the buffer no target, min(n, resid) bytes are moved all at once, without the panic |
| Uio.Uio.MoveTwice | kern/lib/uio.c:41-120 | Two calls, the second going on where the first stopped, do what one call of both lengths does |
| Uio.MovesCompose | kern/lib/uio.c:83-116 | Two successive moves equal one move of both lengths, if the buffer is no target |
| Uio.GatheredAtOnce | kern/lib/uio.c:58-117 | One memmove for each iovec is one move of all, if the buffer is no target |
| Uio.GatheredFrame | kern/lib/uio.c:58-117 | Whatever overlaps, only bytes of the destination change |
| Uio.MovedBytes | kern/lib/uio.c:83-92 | Byte for byte, what was moved where, and that nothing else changed |
| Uio.Uio.MoveZeros | kern/lib/uio.c:122-146 | For every uio: the amount above becomes zero and nothing else changes; the panic happens exactly if it is a write or the iovecs hold less, the failure exactly if a user copy among those needed fails |
| Uio.GatheredZeros | kern/lib/uio.c:122-146 | Bytes moved from zeros become zero, even if they overlap one another or the zeros |
| ExecStack.Process.Marshal | kern/syscall/proc_syscalls.c:301-328 | It succeeds exactly if no copy meets a page fault and everything fits below the top, and fails with EFAULT otherwise; then argv at the stack pointer holds exactly the strings and NULL, in disjoint regions aligned to 4 below the top, and nothing else changed |
| ExecStack.Process.PushStrings | kern/syscall/proc_syscalls.c:309-317 | The strings lie one above the other, each at the address recorded for it |
| ExecStack.Process.PushPointers | kern/syscall/proc_syscalls.c:319-328 | The table of pointers ends with NULL and leaves the strings alone |
| ExecStack.ArgvUnique | kern/syscall/proc_syscalls.c:301-328 | Memory determines argv: nothing but those strings can be read back |
| ExecStack.WordRoundTrip | kern/syscall/proc_syscalls.c:319-328 | A pointer stored as bytes reads back as itself |
| ExecStack.CopyCheck | kern/vm/copyinout.c:117-143 | Which regions are refused, and how far a string may run |
| ExecStack.Process.CopyStr | kern/vm/copyinout.c:233-255 | The string with its NUL if it fits, else the part that fits and the error of the limit that was hit |
| ExecStack.Process.CopyOutStr | kern/vm/copyinout.c:298-321 | Success exactly if there is no page fault and the string fits in len and below the top, and then it is in user space with its NUL; ENAMETOOLONG only if it did not fit in len |
| ExecStack.Process.CopyOutWord | kern/vm/copyinout.c:188-215 | On success the whole word is in user space; on failure nothing is written |

## Left out

- Process lifecycle (fork, _exit, waitpid and the destruction of processes): not part of this model.
- TLB shootdown, IPI_PANIC and IPI_OFFLINE: the handlers depend on the hardware; only IPI_UNIDLE is modelled.
- `cpu_idle`, `switchframe_switch`, trap entry and setjmp/longjmp fault recovery are abstract steps; a copy to or from user space may fail at any point.
- The page source: `alloc_kpages` is taken to answer 0 or the address of as many whole pages that nobody holds, and anything at all for 0 pages, which is what kern/arch/mips/vm/dumbvm.c:104-110 can do. That file's own `alloc_kpages` does not meet the rest: on failure it passes on ENOMEM as if it were an address (lines 113 and 129-132).
- Kmalloc.Allocator.OthersRun: its contract is what other threads may do around kfree, and its body the run in which they do nothing.
- The dispatcher's sections under another CPU's run-queue lock (thread_make_runnable and each round of the migration loop) are single steps; the loop keeps the lock over its rounds, and the threads woken by an interrupt handler and by the thread it interrupted are one list from which any may go next, so the model allows more interleavings than the code.
- The dispatcher's callers: thread_switch is taken to be called with no spinlock held, or with the lock of the wait channel only when going to sleep, and not from the middle of a wakeup when the thread sleeps or exits.
- thread_switch called by the timer in the idle loop returns at once and is not a step; t_wchan_name, the stack guard and as_activate are not modelled.
- Threadlist.WakeAll: is stated with the channel and the run queues left alone by other CPUs during the call; in the dispatcher's runs the threads it wakes are `WakePut` steps among those of others, in any order.
- Traffic: cv_wait is one step that releases the lock and sleeps, which `Locks.SignalCannotMiss` justifies; the allocations of cars and array slots are taken to succeed.
- Spl.Processor.Acquire: is given the doings of the other CPUs for a finite number of rounds, because the loop need not end.
- RingQueue.Queue.Grow: takes `nsize * sizeof(void *)` to fit in a size_t; the doubling of nsize past the range of int is the modelled panic.
- Uio.Uio.Move: the memory of user programs and of the kernel are one, and a failing user copy has copied a prefix of its bytes, as the ascending loop of memcpy does.
- ExecStack.Process.Marshal: takes each string to be shorter than the address space.
- checksubpage, checksubpages and kheap_printstats: compiled out or reporting only.
- Fairness of semaphores, locks and the intersection: the code lets late comers overtake and promises none.
- Byte swapping, the 64-bit add, shift and compare wrappers, bitmap and array, VFS, ELF loading, address spaces, the console, the other synchronisation problems: not part of this model.

# Verification of the patton thread squad and memory utilities

This project models, in Dafny, two parts of patton:

* the **thread squad**: a pool of threads in an 8-ary tree, woken, synchronized, merged and joined along the edges of that tree by
  four one-bit flags per thread (`src/thread_squad.cpp` and its headers);
* the **memory utilities**: alignment values with flag bits, the allocator adaptor that returns aligned memory with trap words, and
  the two-dimensional buffer with aligned rows.

## The thread squad

`Tree.dfy` has the tree code in its own form: a class over the array of subthread counts, whose `Init`, `ToSubthreads` and
`FromSubthreads` are proved against recursive specifications. `TreeCover.dfy` proves what these specifications mean: which threads
are visited, by whom, how often and in which order, and for which squad sizes the tree is a tree at all. `TreeIntervals.dfy`
proves that subtrees are intervals, `TreeDepth.dfy` bounds the depth, and `TreeOrder.dfy` describes counts, parents and walks in terms
of the strides alone.

`Squad.dfy` is the protocol as a transition system. Every squad thread has a program counter, its flags, its `syncData_`
pointer (a Boolean `published` and the value pointed to), its reduction slot and its OS thread handle; the main thread has a
program counter for `run`. Any thread may take the next step. The program points stand for:

* `Parked`: `task_wait` (src/thread_squad.cpp:557-566); `Notify`: `notify_subthreads` (536-541, 787-797, 757-762);
  `Execute`: `task_run` (568-577);
* `Collect`, `Take`, `Publish`, `Raise`, `Await`, `Retract`: `synchronize_collect` and `collect_from_thread` (689-697, 823-844);
  `Give`, `Lower`: `synchronize_broadcast` and `broadcast_to_thread` (681-687, 845-856);
* `AwaitKids`, `Merge`: `wait_for_subthreads` and `wait_for_thread` (764-778, 799-809); `Signal`: `task_signal_completion`
  (579-584) and the pass counter (897-901); `BeforeJoin`, `Join`, `Exited`: `join_subthreads` (550-555, 811-821, 903-907);
* `ForkWake`, `ForkStart`, `ForkRecord`: `fork_all_threads` (731-745), where a thread is first created and may run at once, and
  then its handle is stored (448-450); `NotifyRoot`, `AwaitRoot`, `JoinRoot`, `Release`: the rest of `run` (927-961).

A thread can be at three kinds of points: it waits (`Blocked`), it can step (`Enabled`), or neither, which means that an assertion,
a dereference or an access to an optional value fails in its next step (`Fails`).

`History.dfy` says what a sequence of calls ought to do. `Invariant.dfy` states the invariant: one clause per thread, one per
tree edge, one for the main thread. `ThreadSteps.dfy`, `ThreadSafety.dfy`, `MainSafety.dfy` and `CallSafety.dfy` prove that each
step keeps it if the strides of the tree are nested. `Bounded.dfy` bounds the number of steps of a call, `Ragged.dfy` follows
who joins whom, and `RunOrder.dfy` in which order threads deal with their targets, all for squads of any size. `Outcome.dfy`,
`Guarantees.dfy`, `Progress.dfy` and `Termination.dfy` hold the results, `Scenarios.dfy` the runs in which the protocol does not
do what its documentation promises.

Four conditions decide what the protocol does:

* `TreeCover.NestedStrides(n)`: below the root level, each stride is a multiple of the next. It holds for up to 64 threads.
  It fails for 65, where the strides are 65, 9, 2, 1: `init` records the stride without clipping it, so threads 0 and 8 both visit
  thread 9. The condition is exact in two ways. Every thread but the root has exactly one caller if and only if it holds
  (`TreeCover.NestedIsNecessaryAndSufficient`). And without it no joining call ever returns, so that a squad that has been
  used cannot be destroyed (`Ragged.RaggedNeverJoins`, `Termination.ReturnsExactly`). Results that need the condition have it
  among their premises.
* `Outcome.WakeSafe`: a call other than the first wakes a thread for the first time only if that thread has no target in this
  call. The reason is that a thread on its first pass does not notify its subthreads. With nested strides, each thread executes
  exactly the tasks it should if and only if the history of calls is wake-safe (`Outcome.ExactlyOnce`). The condition always holds
  when the first call uses the full squad, which is the default.
* `Progress.CallReturns`: if the call joins, synchronizes or reduces, it wakes all threads it is meant to wake; and a
  `transform_reduce` that joins uses all threads. A caller can check the first part by the source's own guard: all threads
  that have targets in this call have been woken before (`Progress.AllWokenExactly`). A joining call in a squad of any size, and
  any call in a squad with nested strides, returns from every execution if and only if the strides are nested and the condition
  holds; otherwise it returns from no execution (`Termination.ReturnsExactly`).
* A first call that also joins, on two threads or more: a thread may be through with the call, and its parent may join it,
  before the main thread has stored its handle. `join` then fails its precondition, and the program ends. All checks pass in all
  executions of a call, and the call returns, if and only if the strides are nested, `CallReturns` holds and the call is not of
  this kind (`Termination.FlawlessExactly`, again for joining calls in squads of any size).

In three places the code therefore disagrees with its documentation:

* A squad of a size without nested strides, such as 65 threads, can be created and used, but the call that its destructor makes
  never returns: a thread with two callers cannot be joined by both (`Scenarios.UsedOnce`, `Scenarios.SixtyFiveStay`).
* `run` is documented to wait until all tasks have run to completion (include/patton/thread_squad.hpp:218). On 16 threads, after a
  first call with concurrency 1, a call with concurrency 16 never wakes thread 3: its parent finds its flags equal and does not
  wait for it. If the action does not synchronize, the call returns and thread 3 has not executed it (`Scenarios.SkippedThread`).
  If it does, or if the second call is the one that the destructor makes, the call never returns
  (`Scenarios.SecondCallHangs`, `Scenarios.DestructorHangs`).
* A squad that is created and used for one call at once, as in `thread_squad(params).run(action)`, makes a first call that also
  joins.

## The memory utilities

`Alignment.dfy` covers alignment values and both alignment checks. `ObjectBytes.dfy` and `AlignedAllocator.dfy` are the trap words
and the allocator adaptor on a byte array whose indices are addresses. `RowBuffer.dfy` is the row buffer with the checked
arithmetic it uses. `size_t` has 64 bits, pointers have 8 bytes, and words are stored little-endian; where the source's unsigned
arithmetic may wrap around, so does the model's. `Basics.dfy` and `Rounding.dfy` hold definitions and facts that several modules
use.

## Model

| member | source | states |
|---|---|---|
| `Tree.NextSubstride` | src/thread_squad.cpp:621-625 | the next stride is positive, and smaller unless the stride is 1, so `init` and the walks end |
| `Tree.ThreadData.Init` | src/thread_squad.cpp:627-639 | a call writes exactly the entries of its interval, each with the stride of the outermost call that starts at that thread |
| `Tree.ThreadData.constructor` | src/thread_squad.cpp:700-723 | for any number of threads, every entry gets a subthread count |
| `Tree.ThreadData.ToSubthreads` | src/thread_squad.cpp:641-657 | the loop returns the down-walk, whose members and order `TreeOrder.TargetsByDistance` and `TreeOrder.DownOrder` state |
| `Tree.ThreadData.FromSubthreads` | src/thread_squad.cpp:673-679 | the recursion returns the up-walk, which has the same members in increasing order |
| `Tree.ThreadData.FromSubthreadsImpl` | src/thread_squad.cpp:659-672 | the same for one recursive call |
| `TreeCover.WalkOrder` | src/thread_squad.cpp:641-679 | both walks of a caller visit the same targets, none twice, all above the caller and below the concurrency; the up-walk in increasing order |
| `TreeOrder.CountAndParent` | src/thread_squad.cpp:627-639 | for any squad size, in terms of the strides alone: a thread is recorded with the first stride at which nothing is left of its index, and hangs below the thread where the stride before begins |
| `TreeOrder.TargetsByDistance` | src/thread_squad.cpp:641-657 | for any squad size: a thread is a target exactly if it is below the concurrency, within the caller's stride, and some level below that stride has its distance as a multiple |
| `TreeOrder.DownOrder` | src/thread_squad.cpp:641-657 | the down-walk takes the levels from coarse to fine, and in each level the targets in increasing order |
| `TreeCover.Reached` | src/thread_squad.cpp:627-679 | for every squad size and concurrency, every thread but the root is visited by the thread it hangs below |
| `TreeCover.ChildrenAreTargets` | src/thread_squad.cpp:641-679 | with nested strides, the targets of a thread are exactly the threads below the concurrency that hang below it |
| `TreeCover.TargetsTile` | src/thread_squad.cpp:621-679 | the subtrees of the targets are consecutive intervals, in up-walk order, that together make up the caller's interval |
| `TreeIntervals.SubtreeIsInterval` | src/thread_squad.cpp:621-679 | with nested strides, the threads that hang below a thread at some concurrency, directly or not, are exactly those of an interval that begins with it |
| `TreeCover.NestedIsNecessaryAndSufficient` | src/thread_squad.cpp:627-657 | each thread but the root has exactly one caller if and only if the strides are nested |
| `TreeCover.SmallSquadsAreNested` | src/thread_squad.cpp:602-639 | up to 64 threads the strides are nested; with 65 threads, thread 9 is visited by 0 and by 8 |
| `TreeDepth.StrideIsCeiling` | src/thread_squad.cpp:621-639 | the stride on level k is the number of threads divided by the k-th power of 8, rounded up |
| `TreeDepth.DepthIsLogarithmic` | src/thread_squad.cpp:602-639 | a thread is at most m edges from the root once 8 to the power m reaches the number of threads |
| `TreeDepth.AtMostSevenPerLevel` | src/thread_squad.cpp:641-657 | on one level a thread has at most seven targets |
| `History.FoldJoin` | include/patton/detail/thread_squad.hpp:115-129 | for an associative operator, the folds of two adjacent intervals combine to the fold of both |
| `ThreadSafety.ThreadStepSafe` | src/thread_squad.cpp:877-910 | every step of a squad thread keeps the invariant |
| `CallSafety.MainStepSafe` | src/thread_squad.cpp:927-961 | every step of the main thread keeps the invariant |
| `CallSafety.CallSafe` | src/thread_squad.cpp:927-951 | a new call on a squad at rest establishes the invariant of a call in progress, whatever the calls before |
| `Ragged.CallsWithWork` | src/thread_squad.cpp:927-951 | in a squad of any size: a call has work exactly if its concurrency is not 0, or it joins a squad that has been used; the first call forks; a squad that was never used is dropped without forking |
| `Ragged.ForksOnce` | src/thread_squad.cpp:425-454 | only the first call forks, and no thread that has a handle |
| `CallSafety.AllCompleted` | src/thread_squad.cpp:764-778 | when the main thread has seen thread 0 complete, every thread that the call woke has completed |
| `CallSafety.AllJoined` | src/thread_squad.cpp:780-821 | when the main thread has joined thread 0 in a joining call, every thread has exited |
| `CallSafety.ReleaseSafe` | src/thread_squad.cpp:858-869 | when a call ends, every thread is at rest again |
| `CallSafety.RunKeepsInvariant` | src/thread_squad.cpp:877-961 | the invariant holds throughout any sequence of calls under any interleaving |
| `Outcome.WakeSafeIsAllLive` | src/thread_squad.cpp:888-891 | a history is wake-safe if and only if each call wakes all the threads it waits for |
| `Outcome.ExactlyOnce` | src/thread_squad.cpp:877-961 | when no call is in progress: every thread has executed each task whose concurrency exceeds its index once, in order, and no other, if and only if the history is wake-safe; incoming and outgoing flags agree; between calls all threads are parked |
| `History.WantedMembers` | src/thread_squad.cpp:568-577 | the tasks a thread ought to execute are those whose concurrency exceeds its index, once each and in order |
| `Outcome.FullFirstCallIsSafe` | include/patton/thread_squad.hpp:217-239 | a first call on all threads, the default, makes any history wake-safe |
| `Outcome.SmallSquadIsSafe` | src/thread_squad.cpp:602-657 | squads of at most eight threads are always wake-safe |
| `Outcome.UnsafeHistory` | src/thread_squad.cpp:888-891 | 16 threads, wake count 1, then 16: not wake-safe, and thread 3 is woken by neither call |
| `Guarantees.SensesAreCounters` | src/thread_squad.cpp:363-375 | each flag is the parity of a counter, with completed <= woken <= completed + 1 and released <= arrived <= released + 1, so no toggle is missed |
| `Guarantees.PassIsClamped` | src/thread_squad.cpp:897-901 | the pass counter is the number of completed calls, clamped to the greatest `int` |
| `Guarantees.BarrierSafety` | src/thread_squad.cpp:823-856 | no thread leaves its r-th synchronization before all participating threads have entered their r-th, for any number of rounds and calls |
| `Guarantees.BarrierByResults` | src/thread_squad.cpp:823-856 | the same by what the calls have returned: no thread has more results than another one has, counting the call that the other one is in |
| `Guarantees.ReduceResult` | include/patton/thread_squad.hpp:163-171 | each `reduce` returns to every participating thread the contributions of all of them in index order, if its operator and those before it are associative; operators differ from round to round, and contributions may depend on earlier results |
| `Guarantees.SyncDataIsCurrent` | src/thread_squad.cpp:681-697 | whenever a thread dereferences a subordinate's `syncData_`, that thread has published it and waits in the same round |
| `Guarantees.FoldIsSequential` | include/patton/thread_squad.hpp:335 | combining the initial value with the fold is the sequential reduction |
| `Guarantees.SlotIsEmptyBefore` | include/patton/detail/thread_squad.hpp:115-122 | a thread that executes finds its slot empty |
| `Guarantees.TransformReduceRefinesFold` | include/patton/thread_squad.hpp:318-341 | if the call does not join or uses all threads: at the end slot 0 holds a value, all other slots are empty, and the result is the sequential reduction in index order, by associativity alone |
| `Guarantees.TaskLifetime` | src/thread_squad.cpp:858-907 | from waking up until it is parked again or has exited, a thread's task reference is the current task, and `task_` points to it |
| `Guarantees.WakeFindsTask` | src/thread_squad.cpp:557-566 | a thread that wakes up finds `task_` set to the task of the current call |
| `Guarantees.JoinsOnlyForkedThreads` | src/thread_squad.cpp:425-471 | a thread that is about to be joined has been created and not been joined; its handle has been stored, unless a first call that also joins is just forking it on a squad of two threads or more |
| `Guarantees.EverybodyIsJoined` | src/thread_squad.cpp:811-821 | thread 0 exits only after all others have been joined; once the squad is gone, either nothing was forked or every thread has exited and been joined |
| `Progress.FailedChecks` | src/thread_squad.cpp:557-566 | what a thread checks at each point: the stored task, the empty slot, the published data, the handle; without it the thread fails |
| `Progress.FailedMerge` | include/patton/detail/thread_squad.hpp:123-129 | a merge fails if one of its slots is empty or outside the array |
| `Progress.FailedMainChecks` | src/thread_squad.cpp:425-471 | forking fails if there is a handle already, joining if there is none |
| `Progress.ChecksHold` | src/thread_squad.cpp:557-910 | if whatever is merged exists, a thread that does not wait passes all checks of its next step: the stored task, the published data, the empty slot before and the full slots during a merge, their indices, and the handle of a joined thread, unless it is just being forked |
| `Progress.MainChecksHold` | src/thread_squad.cpp:425-471 | the checks of the main thread, in forking and in joining, never fail |
| `Progress.FindMover` | src/thread_squad.cpp:689-821 | if no thread waits for one that stays asleep, the waits end at a thread that does not wait |
| `Progress.SomeStepIsEnabled` | src/thread_squad.cpp:757-961 | during a call that meets `CallReturns` some thread of the squad or the main thread can step |
| `Bounded.ThreadStepCounts` | src/thread_squad.cpp:877-910 | in a squad of any size, every step of a squad thread decreases an explicit measure, in which a thread pays for the passes that its notifications cause |
| `Bounded.MainStepCounts` | src/thread_squad.cpp:927-961 | so does every step of the main thread |
| `Bounded.MaximalExecution` | src/thread_squad.cpp:877-961 | every execution can be continued to one that is stuck |
| `Ragged.ThreadStepInOrder` | src/thread_squad.cpp:780-821 | in a squad of any size, a thread that has been joined has exited, its handle is used up, and one thread has joined it: kept by every step of a thread |
| `Ragged.RunInOrder` | src/thread_squad.cpp:877-961 | and throughout any run |
| `RunOrder.TargetsInOrder` | src/thread_squad.cpp:787-853 | in every run of a squad of any size, threads are notified and released from coarse levels to fine ones, and awaited, collected from, merged and joined in increasing order |
| `Ragged.RaggedNeverJoins` | src/thread_squad.cpp:811-821 | once the main thread has joined thread 0, the strides are nested |
| `Progress.AllWokenExactly` | src/thread_squad.cpp:888-891 | a call wakes all threads it is meant to wake if and only if it is the first one, or all threads that have targets in it have been woken before |
| `Termination.ExecutionsAreBounded` | src/thread_squad.cpp:927-961 | no execution of any call, in a squad of any size, takes more than `Measure` steps |
| `Termination.ReleasingReturns` | src/thread_squad.cpp:858-869 | when the main thread is about to return, `CallReturns` holds |
| `Termination.ReturnsExactly` | src/thread_squad.cpp:927-961 | at any point of a joining call in a squad of any size, and of any call if the strides are nested: all maximal executions have returned, some execution has returned, and nested strides with `CallReturns` are equivalent |
| `Termination.NoDeadlock` | src/thread_squad.cpp:757-961 | while a call that meets `CallReturns` is in progress, some step is enabled |
| `Termination.WakeSafeCallsReturn` | src/thread_squad.cpp:888-891 | under a wake-safe history a call meets `CallReturns` if and only if it does not reduce, or uses all the threads that it wakes |
| `Termination.OnlyJoinsFail` | src/thread_squad.cpp:557-910 | during such a call, a check fails if and only if a thread joins one whose handle is not stored yet |
| `Termination.ForkingJoinFails` | src/thread_squad.cpp:425-454 | for every call that forks and joins two threads or more and would return, an execution in which `join` finds no handle |
| `Termination.JoinFailsExactly` | src/thread_squad.cpp:425-471 | in a squad of any size, a join can come before the handle is stored only in a first call that joins, on two threads or more; if the strides are nested and results are merged only by all threads, it can in each such call |
| `Termination.FlawlessExactly` | src/thread_squad.cpp:877-961 | every execution of a joining call in a squad of any size, and of any call if the strides are nested, returns and passes all checks on the way if and only if the strides are nested, `CallReturns` holds and the call does not both fork and join two threads or more |
| `Scenarios.OneOfSixteen` | src/thread_squad.cpp:927-961 | a first call on one of sixteen threads returns, whatever it does |
| `Scenarios.SkippedThread` | src/thread_squad.cpp:888-891 | a second call, on all sixteen threads, returns without thread 3 having executed it, if it neither synchronizes nor reduces nor joins |
| `Scenarios.SecondCallHangs` | src/thread_squad.cpp:764-856 | a second call that is meant to wake all sixteen threads, and synchronizes, reduces or joins, returns from no execution |
| `Scenarios.DestructorHangs` | src/thread_squad.cpp:1045-1054 | the destructor's call, made second, returns from no execution |
| `Scenarios.UsedOnce` | src/thread_squad.cpp:927-961 | a squad of any size can be used once, on one thread |
| `Scenarios.SixtyFiveStay` | src/thread_squad.cpp:1045-1054 | the destructor's call on a squad of 65 threads that has been used returns from no execution |
| `Alignment.TopBitIsGreatest` | include/patton/detail/memory.hpp:40-51 | `TopBit` is the greatest power of two that is not above its argument |
| `Alignment.TopBitOfOr` | include/patton/detail/memory.hpp:40-51 | the top bit of a bitwise or is the maximum of the top bits |
| `Alignment.OrBits` | include/patton/detail/memory.hpp:43-49 | a bit of a bitwise or is set if and only if it is set in one of the operands |
| `Alignment.ShrIsDivision` | include/patton/detail/memory.hpp:43-50 | shifting right divides by a power of two |
| `Alignment.Floor2pIsTopBit` | include/patton/detail/memory.hpp:40-51 | the shifting computation yields the greatest power of two not above the argument, or 0 exactly if the topmost bit is set |
| `Alignment.LookupIsOr` | src/memory.cpp:171-192 | sizes are added exactly for the flags that ask for them; large pages imply pages; the flags are masked out |
| `Alignment.DynamicIsMax` | src/memory.cpp:193-197 | the run-time alignment is the strictest one asked for |
| `Alignment.AlignmentByFlags` | src/memory.cpp:171-197 | for each of the eight combinations of flags and any plain part, which hardware sizes the run-time alignment takes into account |
| `Alignment.AlignmentIsBounded` | src/memory.cpp:193-197 | it is positive and less than half the address space |
| `Alignment.CombinedRequestSuitsBoth` | include/patton/detail/memory.hpp:197 | the alignment for `Alignment` combined with `alignof(T)` is a multiple of both alignments |
| `Alignment.StaticCheckIsSound` | include/patton/detail/memory.hpp:75-99 | whatever the static check accepts, the dynamic one accepts, and the alignment provided is a multiple of the one requested |
| `Alignment.StaticCheckExactly` | include/patton/detail/memory.hpp:75-89 | exactly when the static check accepts, by values: what is plainly provided, or the smallest cache line if any flag is provided, is no weaker than what is plainly requested, and the flags provided are no weaker |
| `Alignment.DynamicCheckExactly` | include/patton/detail/memory.hpp:95-99 | the dynamic check accepts if and only if the alignment provided is a multiple of the one requested |
| `ObjectBytes.ValueOfBytes` | src/memory.cpp:38 | a word survives being copied to memory and back |
| `ObjectBytes.BytesOfValue` | src/memory.cpp:49 | so do bytes read as a word |
| `ObjectBytes.ByteOfWord` | src/memory.cpp:38 | the i-th byte of a word in memory is its i-th digit to base 256, least significant first |
| `ObjectBytes.Store` | include/patton/detail/memory.hpp:211 | copying a word into memory changes these bytes and no other |
| `ObjectBytes.Load` | include/patton/detail/memory.hpp:226 | the word read determines the bytes and the other way round |
| `AlignedAllocator.SetTrap` | src/memory.cpp:29-40 | of the room behind the payload, every one of the first four words that fits reads 0xDEADBEEF afterwards, and no other byte changes |
| `AlignedAllocator.CheckTrap` | src/memory.cpp:41-57 | the check succeeds if and only if every one of the first four words that fits reads 0xDEADBEEF |
| `AlignedAllocator.OverflowChecksAreExact` | include/patton/detail/memory.hpp:198-201 | a request passes both checks if and only if the size of one element more and the size of the block are representable; then the size did not wrap |
| `Rounding.RoundUpIsLeast` | include/patton/detail/memory.hpp:207 | what `std::align` yields (section [ptr.align] of ISO C++20) is the least suitable address, less than one alignment further |
| `AlignedAllocator.AlignExactly` | include/patton/detail/memory.hpp:207 | aligning succeeds exactly if the bytes fit at some aligned address within the space, and yields the least one and what space is left |
| `AlignedAllocator.ChunkFits` | include/patton/detail/memory.hpp:200-211 | for every base address, the payload is aligned, and payload, trap words and hidden pointer are inside the block |
| `AlignedAllocator.BlockSizeIsLeast` | include/patton/detail/memory.hpp:200 | no smaller block would do for all base addresses |
| `AlignedAllocator.ElementsFillPayload` | include/patton/detail/memory.hpp:199 | the payload has room for exactly the elements asked for |
| `AlignedAllocator.ChunksAreDisjoint` | include/patton/detail/memory.hpp:194-216 | payload and trailer of an allocation share no byte with those of another |
| `AlignedAllocator.NewChunkIsConsistent` | include/patton/detail/memory.hpp:194-216 | a new allocation is distinct from all live ones and keeps the bookkeeping consistent |
| `AlignedAllocator.PlantingKeepsTrailers` | include/patton/detail/memory.hpp:210-213 | planting its trailer damages no other |
| `AlignedAllocator.PayloadWritesKeepTrailers` | include/patton/detail/memory.hpp:210-213 | whatever is written into payloads, all trailers stay intact |
| `AlignedAllocator.RoundTrip` | include/patton/detail/memory.hpp:194-236 | after any allocation and any payload writes, every trailer reads as it was planted, so every later deallocation passes the check and finds its block |
| `AlignedAllocator.TrailerParts` | include/patton/detail/memory.hpp:224-231 | a trailer is intact if and only if the trap words are and the hidden pointer reads as the address of the block |
| `AlignedAllocator.Adaptor.Allocate` | include/patton/detail/memory.hpp:194-216 | fails exactly if the sizes are not representable or the inner allocator fails; otherwise returns the aligned address, writes only the trailer, and keeps all trailers intact; the assertion after `std::align` cannot fail |
| `AlignedAllocator.Adaptor.Deallocate` | include/patton/detail/memory.hpp:217-236 | ends the program exactly if a trap word has changed; otherwise frees the block that the hidden pointer names; an intact trailer means that this is exactly the original block, with its original size, and the others stay as they are |
| `RowBuffer.MultiplyIsExact` | include/patton/detail/arithmetic.hpp:21-30 | the product, or an error exactly if it is not representable |
| `RowBuffer.CeiliIsExact` | include/patton/detail/arithmetic.hpp:32-55 | the least multiple, or an error exactly if it is not representable |
| `RowBuffer.LayoutIsExact` | include/patton/buffer.hpp:298-302 | the three computations report no error exactly if the padded size is representable; then rows have the least aligned size |
| `RowBuffer.AddressOfCell` | include/patton/buffer.hpp:435-447 | the k-th element in row-major order is where row and column address it |
| `RowBuffer.ElementsAreDisjoint` | include/patton/detail/buffer.hpp:94-102 | the byte ranges of different elements do not overlap |
| `RowBuffer.ElementIsInBlock` | include/patton/detail/buffer.hpp:94-102 | each is inside the block |
| `RowBuffer.RowsAreAligned` | include/patton/buffer.hpp:295-302 | in an aligned block every row is aligned |
| `RowBuffer.EventsAreInOrder` | include/patton/detail/buffer.hpp:94-134 | constructions and destructions go through the elements in row-major order |
| `RowBuffer.AlignedRowBuffer.ConstructElements` | include/patton/detail/buffer.hpp:87-103 | elements are constructed in row-major order up to the first constructor that throws, and the counter says how many |
| `RowBuffer.AlignedRowBuffer.DestroyElements` | include/patton/detail/buffer.hpp:105-118 | every element is destroyed once, in row-major order |
| `RowBuffer.AlignedRowBuffer.DestroyConstructed` | include/patton/detail/buffer.hpp:119-134 | the first elements, as many as were constructed, are destroyed once each |
| `RowBuffer.AlignedRowBuffer.Construct` | include/patton/buffer.hpp:294-326 | fails without effect exactly if a size is not representable or the allocator fails; if element k throws, elements 0 to k-1 are destroyed and the block is freed with its size; otherwise all elements exist |
| `RowBuffer.AlignedRowBuffer.DestroyAndFree` | include/patton/buffer.hpp:327-332 | every element is destroyed and the block is freed with its size |
| `RowBuffer.RollbackIsBalanced` | include/patton/buffer.hpp:311-319 | in a failed construction every address has as many destructions as constructions, one for each of the first k elements and none elsewhere, and the block is freed once with the size it was allocated with |
| `RowBuffer.LifetimeIsBalanced` | include/patton/buffer.hpp:294-332 | in the life of a buffer that was constructed, every element is constructed once and destroyed once at its own address, and the block is freed once with the size it was allocated with |

## Left out

- ExactlyOnce: and the other results with nested strides among their premises say nothing about squads such as one of 65 threads; there, of the calls that do not join, it is only proved that they come to an end or to a stop.
- ReturnsExactly: a failing check is a step that is not taken, so the executions of a call are those up to a failing check; which calls have none is said by `FlawlessExactly`. Tasks that throw and tasks whose threads disagree on the number of synchronizations are excluded by the documentation.
- JoinFailsExactly: without nested strides, or in a joining `transform_reduce` on fewer than all threads, only one direction is stated, since there a join of a thread that has been joined already, or a merge, fails as well; `FlawlessExactly` covers both.
- JoinsOnlyForkedThreads: storing a handle after the thread was created is what the code does for POSIX threads, and on Windows for threads that are not pinned; a pinned Windows thread is created suspended and its handle is stored before it runs.
- ReduceResult: `synchronize` is the same protocol with a reduction whose value is ignored; `reduce_transform` is not modelled because its body names a function `transform` that is not its parameter.
- TransformReduceRefinesFold: what the transform function returns is a function of the thread index, so its dependence on `reduce` results is not expressed; a call with concurrency 0, which returns the initial value without entering `run`, is not modelled, nor is `transform_reduce_first`.
- SensesAreCounters: waits and toggles are single steps under sequential consistency; back-off, spinning and the memory orders of the atomics are not modelled.
- ExecutionsAreBounded: the actions of a task count as one step between synchronizations, creating an operating system thread and joining an exited one as one step that succeeds; a failing fork ends the program in the source.
- TaskLifetime: flags, reduction slots, synchronizer data and the task are fields of values that a step replaces, not of objects updated in place; the interleaving of steps is what this form is for.
- Init: `int` overflow of `stride + 7` and `i + substride` for squads close to the greatest `int` is not modelled, and a squad has at least one thread.
- CallSafe: there is no call after a joining one, since a joining call takes the implementation out of the squad's handle and deletes it (src/thread_squad.cpp:1115-1118); a call on such an emptied squad is a misuse that is not modelled.
- Construct: `std::ptrdiff_t` loop variables are natural numbers; blocks above its range cannot be allocated. The variant for constructors that do not throw is the case that none does.
- Allocate: the inner allocator is a parameter that chooses where a block goes, if anywhere; it must not overlap its own live blocks.
- Deallocate: if a trap word is intact but the hidden pointer behind it was overwritten, the wrong address is freed, as in the source; nothing is promised about the bookkeeping then.
- StaticCheckIsSound: hardware sizes are parameters; what the library assumes about them (`Alignment.Plausible`) is checked by its queries at run time.
- The overloads of `construct_aligned_buffer` and `destroy_aligned_buffer`, whose throwing version increments a counter that nobody initializes.
- Thread affinity, thread names, processor sets, `mmap`, `VirtualAlloc`, parsing of `/proc` and lazy initialization: system calls.
- Iterators, move operations, `allocate_unique`, `allocate_array`, type traits and error wrappers: easy members.

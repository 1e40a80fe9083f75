# ConcurrentFW: the futex mutex and the ABA-safe lock-free stack

A Dafny model of the two concurrent protocols of the ConcurrentFW library, with proofs about all
their runs, for any number of threads.

**The three-state futex mutex** (`Futex*.dfy`). A futex word is 0 (free), 1 (locked) or 2 (locked,
maybe with waiters). `FutexModel` has one action per atomic operation on the word, per decision of
the kernel, and per local branch that a wait result decides; a scheduler picks the next thread.
The kernel is its documented contract: FUTEX_WAIT compares and enqueues in one step, or returns
EAGAIN; FUTEX_WAKE removes one waiter of its choice, whose wait then returns 0; a waiter still
queued may leave with 0 or EINTR at any time, and with ETIMEDOUT if its wait has a timeout. A thread
that holds the mutex may call `trylock`, `trylock_timeout` and even `lock` once more. Proved
on top: mutual exclusion through the release window (`unlock` goes 2, 1, 0 and others may write 2
in between), no lost wake-up, refinement of an atomic mutex, what each result says about its
caller, completion with an explicit step bound, handover of data under the C++17 and C++20 release-sequence rules, and the plain
counters of the test. `FutexSystem` has the same actions as methods of an object that update its fields in
place, and `lock`, `trylock`, `trylock_timeout`, `wait`, `wake` and `unlock` as programs over
these methods, with an arbitrary environment acting between any two of them.

**`ABA_Wrapper::modify`** (`Platforms`, `Modify*.dfy`, `AbaWrapper.dfy`). The retry loop in both
forms: double-word compare-and-swap with a w-bit counter that wraps, and load-linked/
store-conditional with a monitor per thread that any write clears and that may fail for no
reason. Both forms are one atomic step; the word is the fold of the calls that succeeded; the
compare-and-swap form is lock-free with a computed bound. `DoubleWord` is the slow double-word
store, which starts from two separate reads.

**The intrusive stack** (`Stack*.dfy`). Any number of stacks over one shared memory that maps each
block to its first word. A pop reads through a cached top that may have been popped, written over
and pushed elsewhere in the meantime; such a read may return any word at all. Clients may write into
blocks they hold and hand them to other threads. Proved: linearizability
with reuse of memory, the shape of all chains at every moment, validation of a pop's read, the
exact bound on counter wrap-around, and conservation of blocks in the client of the test.
`StackSystem` is the object with its operations as methods, and `push`, `pop` and the draining loop
as programs.

The files:

| file | content |
|---|---|
| `FutexModel`, `ModifyModel`, `StackModel` | states, actions, runs |
| `FutexSafety`, `FutexMutex`, `FutexCompletion`, `FutexHandover`, `FutexVisibility`, `FutexLaws`, `FutexCounter`, `FutexBench` | theorems on the mutex |
| `ModifyAtomic`, `ModifyProgress` | theorems on `modify` |
| `StackAtomic`, `StackRefinement`, `StackRuns`, `StackWrap`, `StackLaws`, `StackWorkers` | atomic stacks, simulation, theorems |
| `FutexSystem`, `AbaWrapper`, `StackSystem`, `DoubleWord` | objects with mutable fields, programs |
| `Common`, `Platforms`, `WordBits` | sums, powers and remainders; the two platforms; the counter as a word of bits |
| `Schedules` | what a call and its environment do, entry by entry |

Every object keeps a ghost record of its actions. Its `Valid()` says that this record is a run of
the model that ends in the object's present fields, so each theorem on runs applies to the object.
The programs return a log of what they did: their own actions, and rounds in which the environment
was given a batch of actions. What can be done of a batch is done (`Schedules.Tried`), so the log
determines the history and the state.

Three findings about the code:

* `unlock` with waiters publishes the data of the critical section with the `fetch_sub`, but the
  waiter reads the later relaxed `store(0)` of `wake`. That a waiter sees the data rests on a
  release sequence that continues over a later store by the same thread. ISO C++17 has that rule
  (section 4.7.1, [intro.races]); C++20, which `CMakeLists.txt:43` selects, has not.
  `FutexHandover.NextHolderSees` gives the exact condition for each handover of any run,
  `ContendedHandover` is the run that shows the difference.
* A pop by compare-and-swap is sound while its stack is modified less often than the counter has
  values. `StackWrap.UnsoundExactlyAtTurns` shows that, for a counter of w >= 1 bits, k > 0
  modifications can make it unsound if and only if 2^w divides k.

* `lock` called by the thread that holds the mutex never returns, and is the only way in which the
  mutex comes to a stop with a call unfinished (`FutexCompletion.DoneUnlessRelocked`).

## Model

| member | source | states |
|---|---|---|
| FutexSafety.StepInv | src/futex.cpp:32-92 | every action of every thread and of the kernel keeps: the word is 0, 1 or 2; one holder exactly when it is not 0; the queue is the set of sleepers, without repeats; sleepers are cared for |
| FutexSafety.MutualExclusion | src/concurrentfw/futex.hpp:222-230 | in every reachable state at most one thread is between taking the mutex and the write of 0, the word is 0 exactly when there is none, and the `fetch_sub` cannot go below 0 |
| FutexSafety.StepCare | src/futex.cpp:36-53 | one step keeps "no sleeper is forgotten", barging, EAGAIN, EINTR, spurious returns and timeouts included |
| FutexSafety.NoLostWakeup | src/futex.cpp:36-92 | in every reachable state with a non-empty queue the word is 2 and somebody holds the mutex, or some thread is bound to write 2 or to wake |
| FutexSafety.StartInv | src/concurrentfw/futex.hpp:166-172 | both constructors establish the invariant; a futex constructed locked belongs to its owner |
| FutexMutex.RunRefines | src/concurrentfw/futex.hpp:182-230 | every run with any mix of the calls, those of the holder itself included, is a lawful history of an atomic mutex with an optional owner |
| FutexMutex.FutexRefinesMutex | src/concurrentfw/futex.hpp:166-230 | the same from both constructors, and the abstract owner is the thread that really holds |
| FutexMutex.WokenWaiterExchanges | src/futex.cpp:67-79 | a waiter removed by a wake goes on to the exchange as its next operation on the word; it never reports a timeout from that wait, whatever the others do |
| FutexMutex.ResultsTellTheTruth | src/concurrentfw/futex.hpp:195-220 | true is returned only to a caller that did not hold and then is the only holder; false leaves the caller out of the kernel's queue, and inside the mutex exactly if it was inside at the call; `trylock` returns false only while the mutex is held; at a release nobody holds |
| FutexMutex.FalseMeansUnchanged | src/futex.cpp:56-82 | over a whole call amid any other actions: a result of false leaves the caller holding if and only if it held when it called; a result of true means it did not |
| FutexMutex.HolderIsTimedOut | src/tests/test_futex.cpp:433-440 | the run of the test: `trylock_timeout` returns true, then false to the holder, who unlocks; the futex is as constructed |
| FutexMutex.OwnActionsAreAll | src/futex.cpp:32-82 | the actions of a thread that the laws on next steps speak of are all of its actions in the run |
| FutexLaws.WordAndQueue | src/concurrentfw/futex.hpp:182-230 | the word changes only by a compare-exchange from 0 to 1, an exchange to 2, a `fetch_sub` by one and the store of 0; the queue only by the kernel's three operations |
| FutexLaws.FailureChangesNothing | src/concurrentfw/futex.hpp:195-202 | a refused or timed-out call, and a compare-exchange that goes on to the slow path, leave word, queue and all other threads as they are |
| FutexLaws.TwoWasExchanged | src/futex.cpp:40-52 | over every run: the word is 2, or a thread is in its release window, only if some thread has exchanged since the word was last 0 |
| FutexLaws.FastPathsSuffice | src/concurrentfw/futex.hpp:222-230 | a run from either constructor without an exchange, however many `trylock` calls fail in it, never waits, wakes, or releases by the second store |
| FutexLaws.SlowPathBegins | src/futex.cpp:36-46 | after a compare-exchange that found 2 a thread's next action is the wait, after one that found 1 the exchange |
| FutexLaws.EventsAreSeen | src/concurrentfw/futex.hpp:182-230 | the events of the refinement are exactly what the threads go through: a call begins, ends in the mutex, ends where it was, and the mutex is left |
| FutexLaws.OneOwnerAtATime | src/concurrentfw/futex.hpp:222-230 | in every lawful history of the atomic mutex the first of two owners has released in between |
| FutexLaws.RefusedWhileHeld | src/concurrentfw/futex.hpp:195-202 | in every lawful history a refusal falls between an acquisition and its release |
| FutexLaws.CareIsTaken | src/futex.cpp:36-92 | a thread that is bound to take care of the sleepers does: before it waits, returns or owns, it exchanges or wakes |
| FutexCompletion.StepCost | src/futex.cpp:43-53 | each step but a new call uses up potential, a write that is not 2 pays for sending all waiters round the loop |
| FutexCompletion.RunsAreShort | src/futex.cpp:32-92 | with n threads and c calls, by holders or not, without signals and spurious returns, a run has at most (6n + 10)c steps, 6n + 6 more if constructed locked |
| FutexCompletion.SignalsNeverEnd | src/futex.cpp:43-53 | the bound needs the quiet kernel: with EINTR a waiter can be kept going for as many steps as one likes without a new call |
| FutexCompletion.StuckIsDone | src/concurrentfw/futex.hpp:222-230 | under the invariant, nothing but a new call, a timeout or a signal can happen if and only if every thread is idle, the queue empty and the word 0, or the holder itself sleeps in a call and all others are idle or asleep |
| FutexCompletion.StopsOnlyWhenDone | src/concurrentfw/futex.hpp:182-230 | the same after every run; if timeouts count as progress, only a holder inside `lock` can be the exception |
| FutexCompletion.RelockNeverReturns | src/concurrentfw/futex.hpp:182-193 | at the end of a run some thread is inside a `lock` it called as the holder if and only if one was before or the run has such a call |
| FutexCompletion.DoneUnlessRelocked | src/concurrentfw/futex.hpp:182-230 | a run that has come to a stop has finished every call, with an empty queue and a free mutex, if and only if no holder called `lock` in it |
| FutexHandover.HolderSeesEverything | src/futex.cpp:84-87 | under the C++17 rule each holder sees all that earlier holders wrote; under the C++20 rule so in runs without a release through `wake` |
| FutexHandover.ReleasePublishes | src/concurrentfw/futex.hpp:222-230 | in any run, the exact condition under which a release by a holder that sees everything publishes it: the C++17 rule, or the `fetch_sub` found 1, or there is nothing to publish |
| FutexHandover.NextHolderSees | src/futex.cpp:84-87 | in any run and under either rule, after such a release the next thread to take the mutex sees everything if and only if the C++17 rule applies, or the `fetch_sub` found 1, or nothing was written, or it had seen everything before |
| FutexHandover.ContendedHandover | src/futex.cpp:84-87 | a concrete run with one waiter that ends with an owner who is guaranteed to see the write under the C++17 rule and not under the C++20 rule |
| FutexVisibility.VisibilityIsHappensBefore | src/concurrentfw/futex.hpp:186-225 | at the end of every run, under either rule, a thread has seen a write exactly if the write happens before in the history, by release sequences and acquiring reads as the memory model defines them; and the word carries it exactly if an acquiring read would synchronize |
| FutexVisibility.FailuresTeachNothing | src/concurrentfw/futex.hpp:186-202 | over every run a thread that writes no data, makes no exchange and no compare-exchange at word 0 has seen nothing new |
| FutexVisibility.LaterReadersSeeMore | src/futex.cpp:40-52 | what one acquiring read, successful or not in taking the mutex, teaches its thread every later one teaches its own, until somebody releases |
| FutexCounter.PlainCounterIsExact | src/tests/test_futex.cpp:236-243 | at one mutex, with the increment split into a read and a write: whenever no thread is between lock and unlock the plain counter equals the number of completed critical sections, wrap-around included; when all rounds are finished it equals the atomic counter |
| FutexCounter.UnlockedUpdateIsLost | src/tests/test_futex.cpp:239 | it is the lock that makes it exact: two workers inside at once who both read before either writes count once |
| FutexBench.RunAtMutex | src/tests/test_futex.cpp:235-243 | seen from any one of the mutexes, a run of workers that go round all of them is a run at that mutex |
| FutexBench.EveryCounterIsExact | src/tests/test_futex.cpp:154-165 | so for every mutex of the test its two counters are what they should be when the workers have been joined |
| FutexBench.WorkersGoRound | src/tests/test_futex.cpp:235-243 | after r rounds a worker is at mutex r modulo their number |
| FutexBench.OnlyThere | src/tests/test_futex.cpp:238-241 | it can act at that mutex exactly as its round allows, and at no other |
| FutexSystem.Futex.constructor | src/concurrentfw/futex.hpp:166-168 | a new object has word 0, an empty queue and all threads idle |
| FutexSystem.Futex.Locked | src/concurrentfw/futex.hpp:170-172 | `Futex(true)`: word 1, and the owner inside |
| FutexSystem.Futex.CompareExchange | src/concurrentfw/futex.hpp:186-192 | takes the word from 0 to 1, or reports what it found and leaves word and queue alone; where the call goes from there; never succeeds for a caller that holds |
| FutexSystem.Futex.Exchange | src/futex.cpp:52 | writes 2, returns what was there, and owns the mutex exactly if that was 0 |
| FutexSystem.Futex.FutexWait | src/concurrentfw/futex.hpp:98-102 | compares with 2 and enqueues in one step, or returns EAGAIN |
| FutexSystem.Futex.AfterWait | src/futex.cpp:69-75 | a timeout ends the call; 0, EAGAIN and EINTR lead to the exchange |
| FutexSystem.Futex.FetchSub | src/concurrentfw/futex.hpp:225 | the holder subtracts one; found is 1 or 2, never less |
| FutexSystem.Futex.StoreUnlocked | src/futex.cpp:87 | the second stage of a contended release |
| FutexSystem.Futex.FutexWake | src/concurrentfw/futex.hpp:104-107 | removes one waiter of the kernel's choice, if there is any |
| Schedules.TriedIsDone | src/futex.cpp:32-92 | a batch of actions of which each can be done after the ones before it is carried out, all of it and in order |
| FutexSystem.EnvironmentRuns | src/futex.cpp:32-92 | so a run of the model by other threads and the kernel is carried out as it is |
| FutexSystem.Futex.Interfere | src/futex.cpp:32-92 | carries out a schedule: what cannot be done when its turn comes is skipped, everything else is done, and state and history are exactly that; a thread that is not scheduled moves only by being woken or leaving its sleep |
| FutexSystem.Futex.Wait | src/futex.cpp:32-82 | the slow path ends as owner (never if the caller held before), or timed out (timed calls only) where it was before, or asleep after every batch of the environment has been carried out; it makes no other call |
| FutexSystem.Futex.Take | src/concurrentfw/futex.hpp:182-220 | the three locking calls, by a holder or not: its own actions are those of one call, the environment's batches are carried out between them in order, all of them if the call is still asleep; true makes a caller that did not hold the holder; after false it holds exactly if it did before |
| FutexSystem.Futex.Wake | src/futex.cpp:84-92 | the store, a batch of the environment, and the wake of the kernel's choice among those who wait then |
| FutexSystem.Futex.Unlock | src/concurrentfw/futex.hpp:222-230 | one `fetch_sub`, which frees the word if it found 1; if it found 2, exactly the store and the wake, with the environment's batches before each; the caller is out of the mutex |
| Platforms.CounterIsModulo | src/concurrentfw/aba_wrapper.hpp:148 | a counter started at 1 and incremented per modification is 1 plus their number modulo 2^w |
| Platforms.CounterInjective | src/concurrentfw/aba_wrapper.hpp:148-149 | within one turn, equal counters mean that no modification happened |
| Platforms.CounterRepeats | src/concurrentfw/aba_wrapper.hpp:148 | k modifications bring the counter back if and only if 2^w divides k |
| WordBits.CarryIsIncrement | src/concurrentfw/aba_wrapper.hpp:148 | adding one by carrying in a word of w bits is the increment of the model, from 2^w - 1 back to 0 |
| WordBits.EveryValue | src/concurrentfw/aba_wrapper.hpp:61 | the words of w bits are exactly the numbers below 2^w (with WordBits.ValueIsOwn) |
| WordBits.CounterIsWord | src/concurrentfw/aba_wrapper.hpp:84-148 | the counter of the model is the value of a w-bit word that was zero and has been incremented by carrying once, and once per modification |
| WordBits.WordRepeats | src/concurrentfw/aba_wrapper.hpp:148-149 | that word is the same again after k modifications if and only if 2^w divides k |
| WordBits.Counter64 | src/concurrentfw/aba_wrapper.hpp:148-149 | for the 64-bit counter: if and only if 2^64 divides k |
| ModifyAtomic.StepIsAtomic | src/concurrentfw/aba_wrapper.hpp:130-174 | each step of each form is a step of one atomic object, or invisible |
| ModifyAtomic.ModifyIsAtomic | src/concurrentfw/aba_wrapper.hpp:130-174 | on both platforms every run is a history of "apply f to the current value, or leave it when f refuses": each call takes effect once between its start and its return, with the same result, however often the lambda was run again and however often the counter wraps |
| ModifyAtomic.ReturnsTheAnswer | src/concurrentfw/aba_wrapper.hpp:144-173 | in every history of the atomic object a call applies its modifier once, to the value of that moment, and returns whether it was accepted |
| ModifyModel.SpuriousFails | src/concurrentfw/aba_wrapper.hpp:168-170 | a store-conditional that fails for no reason writes nothing, whatever its monitor says, and goes back to the load |
| ModifyAtomic.FoldOfModifiers | src/concurrentfw/aba_wrapper.hpp:135-151 | the word is the fold of the modifiers whose store succeeded, in the order of the stores |
| ModifyAtomic.CounterCounts | src/concurrentfw/aba_wrapper.hpp:148-149 | over any run the counter advances by exactly the number of successful calls |
| ModifyAtomic.WordIsFold | src/concurrentfw/aba_wrapper.hpp:78-85 | from the constructor on: word is the fold, counter is (1 + successes) mod 2^w |
| ModifyProgress.FailuresArePaidFor | src/concurrentfw/atomic_asm_x86.hpp:97-110 | over any run, failed swaps are at most (threads - 1) times the successful ones, plus those that were stale to begin with |
| ModifyProgress.EveryStoreCounts | src/concurrentfw/aba_wrapper.hpp:149-151 | successes and failures together are all the stores of a run, and the successes are the modifiers that were applied |
| ModifyProgress.LockFreedom | src/concurrentfw/aba_wrapper.hpp:140-151 | from a new wrapper with n threads and c calls: at most n - 1 failures per success, and at most (2n + 2)c steps |
| AbaWrapper.ABAWrapper.constructor | src/concurrentfw/aba_wrapper.hpp:78-93 | the given value, and counter 1 |
| AbaWrapper.ABAWrapper.LoadCell | src/concurrentfw/aba_wrapper.hpp:138 | fills the cache, and sets the monitor where there is one |
| AbaWrapper.ABAWrapper.RunModifier | src/concurrentfw/aba_wrapper.hpp:144-146 | a refusal ends the call with false and gives up the monitor |
| AbaWrapper.ABAWrapper.Store | src/concurrentfw/aba_wrapper.hpp:148-149 | stores exactly if the pair, or the monitor, is untouched and the store is not marked to fail; a failure writes nothing: the swap refills the cache, the store-conditional goes back to the load |
| AbaWrapper.ABAWrapper.ModifyDwcas | src/concurrentfw/aba_wrapper.hpp:135-152 | the compare-and-swap loop: one call, which returns what the atomic object returns; its own actions are one load and then lambda and swap of every attempt, and the environment's batches are carried out before each of these |
| AbaWrapper.ABAWrapper.ModifyLlSc | src/concurrentfw/aba_wrapper.hpp:153-171 | the same of the store-conditional loop, with a load in every attempt; the stores fail that are marked to, in order, and there are more attempts than marks used up |
| AbaWrapper.ABAWrapper.Interfere | src/concurrentfw/aba_wrapper.hpp:130-174 | carries out a schedule of the other threads, exactly |
| StackRefinement.StepSimulated | src/stack.cpp:17-53 | every step of every thread keeps the shape of the stacks and is a step of atomic push and pop, or invisible, whatever a stale pop reads |
| StackRefinement.Validated | src/concurrentfw/aba_wrapper.hpp:142-149 | within the bound a pop's store succeeds only on a stack that was not modified since its cache was filled |
| StackRefinement.WriteKeepsShape | src/stack.cpp:25 | writing a block that somebody holds, by push or by its owner, leaves every chain as it is |
| StackRefinement.GiveStep | src/stack.cpp:17-53 | a client may hand a block it holds to another thread, which may then push it: the refinement goes on |
| StackLaws.GivenIsHeld | src/stack.cpp:17-53 | a block handed over may be pushed by the receiver and by nobody else; nothing else changes |
| StackModel.StoreLaw | src/concurrentfw/aba_wrapper.hpp:148-170 | what a conditional store on a stack does in every case: when it succeeds, what it writes, and where a failure leaves its thread |
| StackModel.SpuriousFails | src/concurrentfw/aba_wrapper.hpp:168-170 | a store-conditional that fails for no reason writes nothing, whatever its monitor says |
| StackModel.ReadsOf | src/stack.cpp:49 | a pop may read any word once its stack has been modified, and before that exactly the one there |
| StackRuns.StacksAreLinearizable | src/stack.cpp:17-53 | any run of any number of threads on any number of stacks, blocks handed over between threads included, is a history of atomic push and pop on sequences: effect at the successful store, or at the load that saw null, between call and return, with the same result |
| StackLaws.ReturnsTheTop | src/stack.cpp:40-53 | in every history of the atomic stacks a pop returns what is on top where it takes effect, and takes it, or returns null from an empty stack; a push adds its block there |
| StackRuns.ShapeAlways | src/stack.cpp:25-26 | at every moment the chain from each top ends at null and is the abstract stack; no block is in a chain twice, in two chains, or both in a chain and in a thread's hands; none is lost |
| StackRuns.ValidatedRead | src/stack.cpp:46-50 | if the pair a pop has cached is still the pair of its stack, within the bound, the word it read is the current next word of the current top |
| StackWrap.PopIsSoundExactly | src/stack.cpp:46-50 | with no assumption on wrap-around: a pop's successful swap is an atomic pop if and only if the word it read is still the word in the top block |
| StackWrap.TurnsBreakTheStack | src/concurrentfw/aba_wrapper.hpp:137-151 | for every multiple k >= 4 of 2^w, a lawful run from empty stacks with exactly k modifications between a pop's load and its swap; the pop has read the true word, the swap succeeds and puts a block on top that another thread holds |
| StackWrap.UnsoundExactlyAtTurns | src/concurrentfw/aba_wrapper.hpp:137-151 | for w >= 1 and k > 0, an unsound successful swap after exactly k modifications is reachable if and only if 2^w divides k |
| StackSystem.Stacks.constructor | src/stack.cpp:17-53 | all stacks empty, all blocks in threads' hands |
| StackSystem.Stacks.LoadCell | src/concurrentfw/aba_wrapper.hpp:138 | fills the cache; a pop that loads null takes effect here |
| StackSystem.Stacks.RunLambda | src/stack.cpp:23-28 | push links its block to the cached top; pop takes the word read through its cached top, or refuses null |
| StackSystem.Stacks.Store | src/concurrentfw/aba_wrapper.hpp:148-149 | carries out that conditional store; if it succeeds the call takes effect and returns |
| StackSystem.Stacks.Interfere | src/stack.cpp:17-53 | carries out a schedule of the other threads, exactly: whatever they may do when its turn comes |
| StackSystem.Stacks.Modify | src/concurrentfw/aba_wrapper.hpp:130-174 | the retry loop of both platforms: its own actions are those of one call, with the marks of the stores in order and the environment's batches in order between them; it ends with the return of this call, or at the swap of a pop that the others have overtaken by a full turn of the counter; never the latter for a push, for the store-conditional form, or while fewer actions than a turn happen in an attempt |
| StackSystem.Stacks.PushAmid | src/stack.cpp:17-29 | push amid any schedule of other threads, whatever it does to the counter: a null block throws and changes nothing, any other is pushed by exactly one call |
| StackSystem.Stacks.PopAmid | src/stack.cpp:40-53 | pop amid any schedule: exactly one call, returning what the atomic pop returned, unless the others took the counter round while it tried, which is reported before the swap |
| StackSystem.Stacks.Push | src/stack.cpp:17-29 | undisturbed: the block is on top of its stack, all other stacks as before; null throws |
| StackSystem.Stacks.Pop | src/stack.cpp:40-53 | undisturbed: returns and removes the top block, which the caller then holds; null exactly if the stack is empty |
| StackSystem.Stacks.Drain | src/tests/test_stack.cpp:92-101 | the last loop of the test empties every stack and collects each from the top down |
| StackWorkers.WorkerStep | src/tests/test_stack.cpp:44-55 | each step of each worker keeps: its hand is what the atomic stacks say it holds |
| StackWorkers.PushesGoRound | src/tests/test_stack.cpp:51-52 | in every run the k-th push of a worker goes to stack k modulo their number |
| StackWorkers.FlagLaw | src/tests/test_stack.cpp:44-48 | where the two loops test the flag and where they lead |
| StackWorkers.FlagStopsWorkers | src/tests/test_stack.cpp:44-48 | over every run: nobody finishes before the flag is set, nobody calls pop afterwards |
| StackWorkers.NobodyIsStuck | src/tests/test_stack.cpp:44-55 | a worker that has not finished can always go on, unless its next step is a pop's swap beyond the bound |
| StackWorkers.BlocksAreConserved | src/tests/test_stack.cpp:39-60 | at every moment of the test every block is on exactly one stack, once, or in exactly one worker's hand; a finished worker holds none |
| StackWorkers.DrainReturnsEveryBlock | src/tests/test_stack.cpp:89-118 | when all workers have finished, draining returns each block exactly once, and as many as there were |
| StackWorkers.DrainAfterWorkers | src/tests/test_stack.cpp:89-101 | the draining loop, run on the stacks as the workers have left them, collects each of the blocks of the beginning exactly once |
| StackWorkers.Fill | src/tests/test_stack.cpp:70-78 | the filling loops leave the given number of blocks on every stack and nobody in a call: a start of the workers |
| StackWorkers.WholeTest | src/tests/test_stack.cpp:62-118 | fill, any schedule of the workers, drain: once all workers have finished, as many blocks are counted as were pushed at the beginning |
| DoubleWord.StoreIsAtomic | src/concurrentfw/atomic_asm_x86.hpp:83-93 | every run of stores and swaps is a history in which each store writes its whole pair exactly once between call and return |
| DoubleWord.LoadIsExact | src/concurrentfw/atomic_asm_x86.hpp:57-66 | the slow load, a swap of whatever is in the registers for itself, returns the memory and leaves it as it is, at any moment of a run |
| DoubleWord.RetriesAreBounded | src/concurrentfw/atomic_asm_x86.hpp:86-87 | failed swaps of a thread's stores are at most the writes of other threads |
| DoubleWord.RetriesAndWritesCounted | src/concurrentfw/atomic_asm_x86.hpp:86-87 | every swap of a store is a retry or ends it; the other threads' writes are their stores that end and their swaps that succeed |
| DoubleWord.Word2.DwCas | src/concurrentfw/atomic_asm_x86.hpp:97-110 | exchanges exactly if the pair is the expected one; the registers always end up with what was in memory |
| DoubleWord.Word2.DwLoad | src/concurrentfw/atomic_asm_x86.hpp:57-66 | the load on the object; it may write, but only the value that is there |
| DoubleWord.Word2.DwStore | src/concurrentfw/atomic_asm_x86.hpp:83-93 | with other threads writing between any two of its instructions: exactly one own write, the last one, of the whole pair; before it exactly what their batches amount to; at most one retry per write of theirs that takes effect |

## Left out

- System calls themselves, `errno` and the `std::system_error` exceptions: the kernel is the contract above; other error codes do not occur in it.
- Time: a timeout is the kernel's choice for a timed wait that is still queued.
- `futex_cmp_requeue`, `futex_wake_op` and the bitset calls: not used by `Futex`.
- Memory orders other than in `FutexHandover`: the rest of the mutex, `modify`, the stacks and `DoubleWord` are sequentially consistent.
- `concurrent_ptr.hpp`, `get` and `get_counter`: instances of `modify` and of the load.
- The register-level wrappers for ARM: only the contract of the monitor is used. One monitor is kept per thread and word; a new load of another word does not clear it.
- Fast (SSE) double-word load and store, alignment, and the 32-bit forms: atomic by the hardware's word.
- Return of a block's memory to the system while a stale pop may read it: blocks stay mapped, with any content.
- Fairness and order of acquisition: the mutex lets newcomers barge in, and no order is claimed.
- The benchmarks of the futex test that only count failed `trylock` calls, the cases with one worker per mutex, and all speed factors.
- The statistic `stack_operations` of the stack test; `malloc` and `free` are the given blocks and the drained ones.
- The workers of both tests are step systems on values (`StackWorkers`, `FutexCounter`, `FutexBench`): their loops, flags and hands are modelled, but not as methods of an object; `StackWorkers.WholeTest` executes a schedule of them.
- The bound on wrap-around is an assumption on runs (`WithinBound`), made only of a pop whose compare-and-swap succeeds; pushes and the store-conditional form need none. The field `versions` that it speaks of is not in the code.
- StackSystem.Stacks.Store: asks for that bound where the swap of a pop succeeds, because beyond it the step is no atomic pop (`StackWrap.UnsoundExactlyAtTurns`).
- StackSystem.Stacks.PopAmid: stops before the swap where the others have overtaken it by a full turn, where the code goes on, possibly unsoundly; `spec` and `versions` are bookkeeping of the model, not of the code.
- StackSystem.Stacks.Modify: stops there too.
- StackSystem.Stacks.Push: while no other thread acts; PushAmid and the theorems on runs cover interference.
- StackSystem.Stacks.Pop: while no other thread acts; PopAmid and the theorems on runs cover interference. The same holds of Drain; the test drains after all workers have been joined.
- FutexSystem.Futex.Wait: ends as `Blocked` when its finite environment stops with the caller asleep, because a call that nobody wakes does not return; FutexCompletion covers when that cannot last.
- FutexHandover.HolderSeesEverything: under the C++20 rule only for runs without a contended release, because it is false of others, as FutexHandover.ContendedHandover shows; FutexHandover.NextHolderSees is exact for all runs.
- `unlock` by a thread that does not hold the mutex, or that is itself in a call: the code asks its callers not to do so.

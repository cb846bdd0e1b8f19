# Verified models of the skip-list timer and the connection pool

Two parts of the repository are modelled and proved here: the skip-list timer (`SkipListTimer/`) and
the database connection pool with its mutex and condition variable (`线程池连接池/DBPool.cpp`,
`线程池连接池/ThreadNotify.cpp`).

## The timer

| file | contents |
|---|---|
| `TimerSpec.dfy` | the queue as a plain sequence; insertion and removal by linear scan; integer widths |
| `SkipListNode.dfy` | nodes and cells on the heap; the index structure that one chain of nodes determines |
| `SkipListSearch.dfy` | the search through the levels, its result and its work, for any list |
| `SkipList.dfy` | splice and unsplice through all levels; the list's methods |
| `SkipListLevels.dfy` | what the links of each level amount to |
| `TimerExpiry.dfy` | the expiry loop pass by pass, exactly when it ends, and firings against what was asked for |
| `TimerRuns.dfy` | whole runs: pending, fired, cancelled; what each event does to them |
| `TimerLoop.dfy` | the expiry loop and the driver on the heap, refining the two above |

A node owns a tower of cells, one per level, and a cell holds one forward link. The list invariant
says of every link where it has to lead: to the next node of level 0 whose tower reaches the level.
The methods keep it whatever the keys are, in a list that is in order or not. `Landing` says where the
search ends in any list; where the key parts the list in two, which every key up to 2^32 does in every
list built by additions and removals (`BandedSplits`, `InsertBanded`), that is where a linear scan of
level 0 ends, and the methods are insertion and removal by linear scan. `LevelsAreSubsequences` then
shows that walking any level from the header visits exactly the taller nodes of level 0.

Scores go from an unsigned 32-bit key through a signed 32-bit parameter to an unsigned 64-bit field, as
in the source, and deadlines wrap at 32 bits. The random source and the clock are inputs. A handler is
represented by the calls of `Add_timer` it makes, which may differ from one firing to the next without
end; it runs before the head is deleted.

These things hold only under a condition, which is proved to be exact:

- Insertion keeps the list in order for every key below 2^31. For a key in the upper half it does so
  only if the stored score happens to fit where the search stopped (`InsertOrderedIff`), and such a
  timer never becomes due (`DueSometimeIff`).
- The stored score is delay plus clock exactly when that sum is below 2^31 (`DueTimeIff`).
- A timer that fires, in any run and even in a loop that does not end, fires no earlier than was asked
  for exactly when its delay and clock did not add up to 2^32 or more (`NothingFiresEarly`,
  `PassesTimely`, with an instance of the other case in `WrapFiresEarly`).
- `expire_timer` deletes the node it fired, if handlers only add timers, exactly when the node's handler
  adds nothing due at or before that node's own score (`HeadKeptIff`). With a clock that does not run
  backwards a handler fails to keep to this exactly if it re-arms with delay 0 while the clock still shows
  the reading the expiry began with, and that is the score (`EarlyIff`, `LooksAheadIff`). Readings change
  once a second only (`SkipListTimer/common.h:21-22`). A handler that cancels its own timer has the next
  one deleted in its stead (`SelfCancelDropsNext`).
- With such a clock the loop ends exactly when some number of passes catches up with the timers due at
  the start and those asked for, meanwhile, with delay 0 at the reading `now` (`EndsIff`). For handlers
  that do the same every time: unless handlers of timers with the score `now` re-arm so, and there is such
  a timer or an earlier one re-arms so too (`SteadyEndsIff`). Whatever the clock and the keys, a due timer
  anywhere in the queue whose handler always asks for something due no later than itself keeps the loop
  from ending (`EarlyNeverHalts`, `RearmAtOnce`); handlers that never do that let it end, even if they
  never stop adding timers and some of these are due in the same expiry (`LooksAheadHalts`).
- `Del_timer` removes the node it is given exactly when that node is the newest one with its score
  (`RemoveTakesNewest`, `CancelTakesNewest`).

## The pool

| file | contents |
|---|---|
| `PoolMachine.dfy` | the threads' program points and steps; runs; first in, first out |
| `PoolSafety.dfy` | conservation, exclusivity, bound, no lost wakeup; the discipline callers owe |
| `PoolProgress.dfy` | freedom from deadlock; a bound on how long the pool's code can run by itself |
| `PoolSections.dfy` | critical sections as indivisible operations, also under interference |
| `PoolLimits.dfy` | where service ends: who can still be served, pools that serve nobody, releasing NULL |
| `PoolSchedule.dfy` | one call under a schedule: what the caller and, while it waits, the others do |
| `PoolClass.dfy` | the code of the pool, waits included, doing what the schedule says and realizing all runs |

Any number of threads take steps between lock, list test, limit test, wait, wakeup, re-acquisition,
push, signal and unlock. Wakeups may be spurious, as `pthread_cond_wait` of POSIX.1-2017 allows, and a
signal wakes at least one sleeper, maybe more. `DBConn::Init` succeeds or fails arbitrarily. The mutex
is recursive; that no thread ever holds it twice is part of what is proved. A connection is lent to the
thread it was handed out to, and threads may hand connections over to each other.

The methods of the pool object are single calls. Whenever the caller is kept from the mutex or asleep the
other threads take a turn, and what they do in each turn is an input: a list of actions, of which those are
carried out that can be taken as they come. `Play` says on values what happens then, and the methods do
exactly that.

These things hold only under a condition, which is proved to be exact:

- A release keeps the books in order exactly when the connection is lent to the releaser or is in the
  free list already (`PushSafeIff`). The code itself keeps no owner, so this is relative to the books:
  passing a connection on is a step that moves its lease, and releasing only what is lent to one is
  enough (`CarefulIsProper`).
- A caller that releases NULL after a failed `GetDBConn`, as the worker of
  `线程池连接池/ThreadPool.h:235-261` does, puts NULL into the free list and gets it back from the next
  call, although there is room for a connection (`NullReleaseBreaks`, with runs that get there in
  `NullReleaseRun`). As long as nobody releases NULL nobody is handed it from the list, whatever else
  callers release (`NeverHandedNull`). The release at `线程池连接池/main_ThreadPool.cpp:56` is not
  guarded either, but cannot be of NULL (`FirstUse`).
- The constructor counts one connection before there is one, so after a failed `Init` the count stays
  one too high for good (`ConnectionsConserved`, where `ok` is the outcome of `Init`). A pool can ever
  serve anybody exactly if `Init` succeeded or the maximum is 2 or more (`PoolServesIff`); otherwise the
  first caller sleeps for ever before a pool without a single connection (`FailedInitStarves`). The
  callers in the repository give a pool up when its `Init` fails.
- Once nobody is under way, a sleeper can still be served exactly if some connection is lent to a thread
  that is not itself asleep (`ServedIff`): callers that hold a connection while they wait for a second
  one can block each other for good.

The results also cover a maximum below 1: the count is then 1 and never grows.

## Model

| member | source | states |
|---|---|---|
| TimerSpec.StoredIs | SkipListTimer/skiplistnode.cpp:7-9 | A key below 2^31 is stored as it is; any other, sign-extended, as the key plus 2^64 less 2^32. |
| TimerSpec.DeadlineIs | SkipListTimer/skiplist.cpp:14 | The key is delay plus clock, less 2^32 if that is reached. |
| TimerSpec.InsertOrderedIff | SkipListTimer/skiplist.cpp:33-49 | Inserting keeps the queue ordered (by score, newest first among equals) if and only if the key is below 2^31 or the stored score fits where the search for the key stopped. |
| TimerSpec.UpperHalfBreaksOrder | SkipListTimer/skiplistnode.cpp:7-9 | Two keys at and above 2^31, added in ascending order, leave the queue out of order. |
| TimerSpec.InsertBanded | SkipListTimer/skiplist.cpp:33-71 | Whatever the key, insertion leaves the timers of the lower half in order and in front of those of the upper half. |
| TimerSpec.BandedSplits | SkipListTimer/skiplist.cpp:39-49 | In such a queue every key up to 2^32 parts the timers in two, so that a search by comparison finds one place for it. |
| TimerSpec.RemoveBanded | SkipListTimer/skiplist.cpp:97-117 | Removal by any score leaves such a queue behind as well. |
| TimerSpec.DueSometimeIff | SkipListTimer/main.cpp:13 | Some clock reading makes a timer due if and only if its key is below 2^31. |
| TimerSpec.RemoveTakesNewest | SkipListTimer/skiplist.cpp:97-121 | Removing by a timer's score takes out one timer, the newest with that score, and nothing else; so the timer itself goes exactly when it is the newest. |
| TimerSpec.AddThenCancel | SkipListTimer/skiplist.cpp:33-117 | Cancelling the timer just added restores the queue, in order or not, whatever the key and whatever else has the same score. |
| TimerSpec.RemoveHead | SkipListTimer/skiplist.cpp:123-128 | Removing by the score of the head removes the head, duplicates or not. |
| SkipListNodes.SkipListNode.constructor | SkipListTimer/skiplistnode.cpp:7-17 | A node gets a tower of exactly the given height of fresh unlinked cells, and the sign-extended score. |
| SkipLists.HeadsIff | SkipListTimer/skiplist.cpp:25 | The loop goes on exactly if the low word of the draw is at most 16383. |
| SkipLists.HeadsQuarter | SkipListTimer/skiplist.cpp:25 | That is one in four of the low words. |
| SkipLists.LevelOfIff | SkipListTimer/skiplist.cpp:21-28 | The level is one more than the number of leading draws with a low word at most 16383, draw by draw, and 32 if there are 31 or more. |
| SkipLists.RandomLevel | SkipListTimer/skiplist.cpp:21-28 | The loop computes that level. |
| SkipLists.LevelsPossible | SkipListTimer/skiplist.cpp:21-28 | The possible levels are exactly 1 to 32. |
| Search.Advance | SkipListTimer/skiplist.cpp:43-46 | The inner loop follows one link for each node of the level it passes, and stops in front of the first one whose score is not below the key. |
| Search.SearchDown | SkipListTimer/skiplist.cpp:39-49 | The top-down search leaves in every temp[i] the last node of level i before the place where it ends, in any list, and follows exactly the links of the nodes passed on each level. |
| Search.LandsAtCut | SkipListTimer/skiplist.cpp:39-49 | Where the key parts the list in two the search ends at the parting, whatever the towers: where a linear scan of level 0 ends. |
| Search.MovesBound | SkipListTimer/skiplist.cpp:41-49 | Over all levels the search follows no more links than it passes positions of level 0, so never more than the linear scan. |
| SkipLists.SkipList.FindPredecessors | SkipListTimer/skiplist.cpp:83-94 | Both for a whole valid list, with the position of the linear scan of the pending timers. |
| SkipLists.WeaveIn | SkipListTimer/skiplist.cpp:64-67 | Splicing at temp[i] on each level of the tower turns a correctly linked chain into the correctly linked chain with the new node. |
| SkipLists.WeaveOut | SkipListTimer/skiplist.cpp:101-107 | Unlinking behind temp[i] wherever the node is linked turns a correctly linked chain into the correctly linked chain without it. |
| SkipLists.SkipList.RaiseLevel | SkipListTimer/skiplist.cpp:53-60 | Filling temp with the header above the old level keeps it correct up to the raised level. |
| SkipLists.SkipList.ShrinkLevel | SkipListTimer/skiplist.cpp:109-110 | The shrink loop ends at the larger of 1 and the tallest live tower. |
| SkipLists.SkipList.constructor | SkipListTimer/skiplist.cpp:4-10 | A new list is valid and empty, at level 1. |
| SkipLists.SkipList.InsertNode | SkipListTimer/skiplist.cpp:33-71 | In any valid list the new node goes, on all its levels, where the search lands, whatever the drawn level; where the key parts the queue this is sorted insertion in front of the first score not below the key. |
| SkipLists.SkipList.DelNode | SkipListTimer/skiplist.cpp:81-117 | Removes the node the search lands at, from every level it is on, if its score is that of the given node, and otherwise changes nothing; where the score parts the queue this is the first node with that score. The rest keeps its order. |
| SkipLists.SkipList.DelHeadNode | SkipListTimer/skiplist.cpp:123-128 | Although it searches by score it removes exactly the head, where the head's score parts the queue. |
| SkipLists.SkipList.GetMinNode | SkipListTimer/skiplist.cpp:142-146 | Returns the first pending node, or null for the empty list. |
| SkipLists.SkipList.AddTimer | SkipListTimer/skiplist.cpp:11-19 | Inserts a timer under the wrapped sum of delay and clock, with a tower of the level drawn; a list in order in its lower half stays so, for any key, and is what sorted insertion makes of it. |
| SkipLists.SkipList.DelTimer | SkipListTimer/skiplist.cpp:118-122 | Removes the node the search lands at if it has the given node's score, and otherwise nothing; where that score parts the queue, the newest pending timer with it. |
| Levels.LevelsAreSubsequences | SkipListTimer/skiplist.cpp:33-117 | In a valid list, walking level i from the header visits exactly the nodes of level 0 taller than i and ends; levels at and above m_level are empty, level 0 is all nodes and m_length its length. |
| Levels.SpliceLevel | SkipListTimer/skiplist.cpp:62-67 | Each level the node reaches gets it between the scores below the key and the others; the other levels are untouched. Read backwards, the same for removal. |
| TimerExpiry.DueTimeIff | SkipListTimer/skiplist.cpp:11-14 | The stored score is delay plus clock if and only if that sum is below 2^31. |
| TimerExpiry.HeadKeptIff | SkipListTimer/main.cpp:16-17 | After a handler that only adds timers the fired timer is still the head, and so the one deleted, if and only if every request of the handler is due later than it. |
| TimerExpiry.EarlyIff | SkipListTimer/main.cpp:16-17 | With a clock that has not run backwards a request is due no later than the fired timer if and only if its delay is 0 and its clock reading, that of the expiry and the fired score are the same. |
| TimerExpiry.LooksAheadIff | SkipListTimer/main.cpp:8-17 | Handlers that read such a clock all keep the fired timer at the head if and only if none re-arms with delay 0 at the reading its timer was due at. |
| TimerExpiry.PassExact | SkipListTimer/main.cpp:10-19 | One pass whose handler asks for nothing due at `now` leaves one due timer less and all other timers in place, plus the handler's new ones. |
| TimerExpiry.PassShrinks | SkipListTimer/main.cpp:10-19 | One pass whose handler asks for nothing due at or before the fired timer brings the head nearer to `now` or leaves fewer timers with its score: the termination measure of the loop. |
| TimerExpiry.LooksAheadHalts | SkipListTimer/main.cpp:10-19 | With such handlers the loop ends, however many timers they keep adding, even if these are due in the same expiry. |
| TimerExpiry.ExpireExact | SkipListTimer/main.cpp:7-20 | With handlers that ask for nothing due at `now` the loop fires exactly the due prefix, in order and once each, in one pass for each; the rest is the remaining queue with all requests of the fired handlers inserted in the order made. |
| TimerExpiry.LooksPastIff | SkipListTimer/main.cpp:8-17 | Handlers that read the clock are of that kind if and only if each re-arms with a delay or at a later reading than `now`. |
| TimerExpiry.EndsIff | SkipListTimer/main.cpp:7-20 | With handlers that read a clock that does not run backwards, whatever they ask for and however that changes, the loop ends if and only if some number of passes catches up with the timers due at the start plus those asked for at the reading `now` itself; it then fires that many. |
| TimerExpiry.SteadyEndsIff | SkipListTimer/main.cpp:7-20 | If what a handler asks for depends on its timer's score alone, the loop ends if and only if not both: timers with the score `now` re-arm with delay 0 at the reading `now`, and one is pending or an earlier pending one re-arms so as well. |
| TimerExpiry.EarlyNeverHalts | SkipListTimer/main.cpp:10-17 | One due timer, anywhere in the queue, whose handler always has an early request among its requests, keeps the loop from ending, whatever the keys. |
| TimerExpiry.RearmOnceEnds | SkipListTimer/main.cpp:10-17 | An instance of the loop ending although a handler re-armed early, once. |
| TimerExpiry.SelfCancelDropsNext | SkipListTimer/main.cpp:16-17 | If a handler cancels the timer it is called for, the loop deletes the next one unfired. |
| TimerExpiry.RearmAtOnce | SkipListTimer/main.cpp:10-17 | An instance: a timer set for 5, expired at 5, whose handler re-arms with delay 0 at 5. |
| TimerRuns.RunsFireInOrder | SkipListTimer/main.cpp:22-43 | Over any fitting run of additions, cancellations and expiries the firing log is non-decreasing in score, every timer asked for within range fires with delay plus clock as its score and not before that time, and equal scores wait newest first. |
| TimerRuns.EveryTimerOnce | SkipListTimer/main.cpp:22-43 | Every timer ever added is exactly once, counted together, pending, fired or cancelled. |
| TimerRuns.NothingDueRemains | SkipListTimer/main.cpp:7-20 | After an expiry at `now` every pending timer is due later than `now`. |
| TimerRuns.CancelTakesNewest | SkipListTimer/skiplist.cpp:118-122 | In any fitting run, cancelling a pending timer cancels the newest pending one with its score, and it itself exactly when it is that one. |
| TimerRuns.NothingFiresEarly | SkipListTimer/main.cpp:13 | In any run whose expiries end, fitting or not, every firing is of a timer that was asked for, and comes no earlier than delay plus clock if and only if these add up to less than 2^32. |
| TimerExpiry.PassesTimely | SkipListTimer/main.cpp:10-17 | The same of a loop cut off after any number of passes, so also of one that never ends, with any handlers. |
| TimerExpiry.WrapFiresEarly | SkipListTimer/skiplist.cpp:11-14 | An instance of the other case: a timer asked for at 10 with a delay just below 2^32 fires at 10. |
| TimerRuns.AddTakesEffect | SkipListTimer/skiplist.cpp:11-19 | In any run an addition records the request and puts exactly one timer more into the queue: the one asked for, with its stored deadline and handler. |
| TimerRuns.ExpireTakesEffect | SkipListTimer/main.cpp:7-20 | An expiry only adds to the log, at its own clock reading, and adds exactly what the handlers of the timers fired ask for, in the order of firing. |
| TimerRuns.CancelTakesEffect | SkipListTimer/skiplist.cpp:118-122 | A cancellation takes out the newest pending timer with the score of the timer named, and nothing else; if none has it, or there is no such timer, it does nothing. |
| TimerRuns.TimersFire | SkipListTimer/main.cpp:7-20 | In a fitting run every timer added is, after an expiry at or after its score, in the log with a firing no later than that expiry, unless cancelled. |
| TimerRuns.AdditionsFire | SkipListTimer/main.cpp:22-43 | From call to firing: a timer asked for within range fires between the time asked for and the first expiry from then on, unless cancelled. |
| TimerRuns.FitsIff | SkipListTimer/main.cpp:22-43 | Runs fit exactly if additions are in range, handlers look ahead, and of two events that read the clock the later reads no less. |
| TimerLoop.RunHandler | SkipListTimer/main.cpp:16 | The timers a handler adds to the list are those the requests describe, in order. |
| TimerLoop.FireHead | SkipListTimer/main.cpp:16-17 | Running the handler and deleting the head afterwards is one pass of the specified loop. |
| TimerLoop.ExpireTimer | SkipListTimer/main.cpp:7-20 | On the skip list the loop ends whenever the specified loop does, of which `EndsIff` says when, and fires and leaves exactly the same. |
| TimerLoop.AddRequest | SkipListTimer/skiplist.cpp:11-19 | A request is added to the list with a tower of the level its own draws give. |
| TimerLoop.Drive | SkipListTimer/main.cpp:22-43 | Any sequence of events whose expiries end, run on a fresh skip list, ends with the pending timers, the added timers and the firing log of the specified run; every node ever added is as tall as drawn for it, and the level of the list is the larger of 1 and the greatest level drawn for a pending timer. |
| TimerLoop.FittingRunsRun | SkipListTimer/main.cpp:22-43 | Fitting runs are among those the driver can run, so the theorems about runs apply to the skip list. |
| PoolMachine.FirstInFirstOut | 线程池连接池/DBPool.cpp:76-100 | Over any run, disciplined or not, connections are handed out in the order they entered the free list. |
| PoolSafety.StartOk | 线程池连接池/DBPool.cpp:11-49 | After the constructor and Init, successful or not, the invariant holds. |
| PoolSafety.MutexStep | 线程池连接池/ThreadNotify.cpp:15-28 | Every step keeps mutual exclusion: a thread is at a holding point exactly when it owns the mutex, once. |
| PoolSafety.StepKeepsInv | 线程池连接池/DBPool.cpp:51-104 | Every disciplined step of every thread keeps mutual exclusion, conservation, exclusivity and the wakeup guarantee. |
| PoolSafety.ConnectionsConserved | 线程池连接池/DBPool.cpp:51-104 | In every reachable state free plus lent connections, plus one if Init failed, equal the count, which respects the maximum; no connection is lent twice, lent while free, free twice, or lost. |
| PoolSafety.NoLostWakeup | 线程池连接池/DBPool.cpp:53-104 | While a thread sleeps the count has reached the maximum given to the constructor, and there are at most as many free connections as waiters woken and not finished plus threads that have released and not yet signalled; callers that have just come in do not count. |
| PoolSafety.PushSafeIff | 线程池连接池/DBPool.cpp:84-100 | A release keeps the books in order if and only if the connection is lent to the releaser, by hand-out or hand-over, or already free. |
| PoolSafety.CarefulIsProper | 线程池连接池/DBPool.cpp:84-104 | Callers that release only what is lent to them when they call satisfy the discipline at the push, whatever others do in between. |
| PoolSafety.AllReturned | 线程池连接池/DBPool.cpp:106-116 | With nothing lent, the free list holds every connection ever made, once each. |
| PoolProgress.MovesIff | 线程池连接池/DBPool.cpp:51-104 | The pool's code can take a step exactly when some thread is neither outside nor asleep. |
| PoolProgress.DeadlockFree | 线程池连接池/DBPool.cpp:53-103 | In every reachable state either the pool's code can move, or all threads are outside or asleep; and if any sleeps, the list is empty, the count has reached the maximum given and every connection is lent, of which there are any if and only if Init succeeded or the maximum is 2 or more. |
| PoolProgress.EnergyDrops | 线程池连接池/DBPool.cpp:51-104 | Every step of the pool's code lowers a measure, although one signal may wake every sleeper. |
| PoolProgress.CallsSettle | 线程池连接池/DBPool.cpp:51-104 | Without new calls and spurious wakeups the pool's code stops within a bound known beforehand, with every call returned unless its thread sleeps before an exhausted pool, which has any connection under the same condition. |
| PoolLimits.ServedIff | 线程池连接池/DBPool.cpp:53-103 | Once all threads are outside or asleep, some disciplined continuation hands a given sleeper a connection if and only if a connection is lent to a thread that is not asleep. |
| PoolLimits.PoolServesIff | 线程池连接池/DBPool.cpp:20-45 | A new pool can ever hand a given thread a connection if and only if Init succeeded or the maximum is 2 or more. |
| PoolLimits.FailedInitStarves | 线程池连接池/DBPool.cpp:53-58 | After a failed Init with a maximum of at most 1 the first caller ends asleep before a pool with no connection, and a spurious wakeup can follow, but nothing else. |
| PoolLimits.ReachesMaximum | 线程池连接池/DBPool.cpp:56-78 | With enough callers the count does reach the maximum given to the constructor, with that many connections lent, one less after a failed Init. |
| PoolLimits.HandedOverReleased | 线程池连接池/DBPool.cpp:84-104 | A connection handed over is released by the thread it was handed to, which is disciplined. |
| PoolLimits.NullReleaseBreaks | 线程池连接池/DBPool.cpp:65-100 | From any state with a failed call, releasing its NULL puts NULL in the free list, and the next call is handed it although there is room and without an attempt. |
| PoolLimits.NullReleaseRun | 线程池连接池/DBPool.cpp:65-100 | Both after a successful and after a failed Init some run of a new pool gets there. |
| PoolLimits.NeverHandedNull | 线程池连接池/DBPool.cpp:76-100 | In any run, disciplined or not, in which nobody releases NULL, NULL is never in the free list and never taken from it. |
| PoolSections.GetStepsResult | 线程池连接池/DBPool.cpp:53-81 | The steps of GetDBConn between getting and giving up the mutex add up to one operation: take the front, or wait, or connect and take, or fail and change nothing. |
| PoolSections.GetResultIs | 线程池连接池/DBPool.cpp:53-81 | That operation in terms of the fields: the front is returned, or a new connection that is counted, or NULL with nothing changed. |
| PoolSections.RelStepsResult | 线程池连接池/DBPool.cpp:88-103 | The steps of RelConn add up to one operation: append unless present, wake. |
| PoolSections.RelResultIs | 线程池连接池/DBPool.cpp:88-103 | That operation in terms of the fields. |
| PoolSections.SectionsIndivisible | 线程池连接池/ThreadNotify.cpp:15-28 | Whatever other threads do meanwhile, a thread holding the mutex ends as if it had run alone, signals included, up to whom these wake and connections others hand over. |
| PoolSections.GetIsAtomic | 线程池连接池/DBPool.cpp:51-82 | In any interleaving, a thread that goes on from the test of the list until it gives the mutex up has taken one of the ways through GetDBConn, with exactly the effect of the indivisible operation. |
| PoolSections.RelIsAtomic | 线程池连接池/DBPool.cpp:84-104 | The same for RelConn from the push on. |
| PoolSchedule.WholeTurn | 线程池连接池/ThreadNotify.cpp:15-28 | Steps of others that can be taken one after the other are all taken while a caller waits. |
| PoolSchedule.PlaySteps | 线程池连接池/DBPool.cpp:51-104 | What happens in a call under a schedule, its own steps and those of the others while it waits, is a run of the step system. |
| PoolSchedule.PlayWaits | 线程池连接池/DBPool.cpp:51-104 | A call that has not returned when the schedule ends is asleep or kept from the mutex by another thread. |
| PoolSchedule.PlayMore | 线程池连接池/DBPool.cpp:51-104 | Waiting loses nothing: with more schedule the call goes on from where it is; one that has returned needs none. |
| PoolSchedule.GetIsServed | 线程池连接池/DBPool.cpp:54-81 | A call that waits, and is left awake by the next turn with the mutex free and a connection listed, takes the front and returns. |
| PoolSchedule.RelIsCarriedOut | 线程池连接池/DBPool.cpp:84-104 | A release that met the mutex taken is carried out after a turn that leaves it free. |
| PoolClass.DBPool.constructor | 线程池连接池/DBPool.cpp:11-26 | The new pool has the maximum given, count 1 and no connection: the start state of a failed Init. |
| PoolClass.DBPool.Init | 线程池连接池/DBPool.cpp:28-49 | Returns the result of the one connection attempt; the pool is then in the corresponding start state. |
| PoolClass.DBPool.Others | 线程池连接池/ThreadNotify.cpp:15-28 | While a caller waits, exactly those steps of the turn are carried out that others can take as they come. |
| PoolClass.DBPool.Acquire | 线程池连接池/ThreadNotify.cpp:15-18 | A caller that finds the mutex taken is blocked while the others take their turns, as scheduled, and gets the mutex once a turn leaves it free; if it is free it gets it at once. |
| PoolClass.DBPool.Wait | 线程池连接池/ThreadNotify.cpp:25-28 | Waiting releases the mutex, lasts through the scheduled turns until one of them wakes the caller, and takes the mutex back before it returns. |
| PoolClass.DBPool.GetDBConn | 线程池连接池/DBPool.cpp:51-82 | Everything that happens is what the schedule says. A call that returns has first only waited and then taken effect as the indivisible operation, with that operation's result; one that need not wait returns; one that has not returned is asleep or kept from the mutex. |
| PoolClass.DBPool.GetServed | 线程池连接池/DBPool.cpp:51-82 | A call that has to wait returns the front of the list once a turn leaves it awake with the mutex free and a connection listed. |
| PoolClass.DBPool.PutBack | 线程池连接池/DBPool.cpp:88-100 | The scan appends the connection exactly when it is not in the list. |
| PoolClass.DBPool.RelConn | 线程池连接池/DBPool.cpp:84-104 | Everything that happens is what the schedule says. A call that returns has taken effect as the indivisible operation: append unless present, wake, leave. |
| PoolClass.DBPool.RelServed | 线程池连接池/DBPool.cpp:84-104 | A release that meets the mutex taken is carried out once a turn leaves it free. |
| PoolClass.DBPool.Destroy | 线程池连接池/DBPool.cpp:106-116 | Deletes what is in the free list, in order; with nothing lent, every connection ever made exactly once. |
| PoolClass.ObjectsAreRuns | 线程池连接池/DBPool.cpp:11-104 | Every pool object whose callers kept the discipline has everything proved of runs. |
| PoolClass.Replay | 线程池连接池/DBPool.cpp:11-104 | Conversely, the statements of the code carry out every run of the step system, for any number of threads and any schedule. |
| PoolClass.FirstUse | 线程池连接池/main_ThreadPool.cpp:35-56 | A pool whose Init fails is given up; otherwise the first client gets the connection of Init, whatever the maximum, and leaves just that in the free list. |
| PoolClass.UseOnce | 线程池连接池/DBPool.cpp:51-104 | One call and one release on a new pool, after a failed Init as well if there is room: what was handed out, a connection or NULL, is what the free list then holds. |
| PoolClass.HandBack | 线程池连接池/DBPool.cpp:51-104 | Two callers of a pool of one connection: the second sleeps until the first releases it, and then gets it. |

## Left out

- SkipLists.RandomLevel: draws from a finite sequence and stops at its end; that flipping ends almost surely, and the expected cost, are not modelled.
- SkipLists.SkipList.DelNode: in a list holding several timers of the upper half the search for one of these may land elsewhere, by the heights of the towers; the contract then says where, but not that the node is removed, as it may not be.
- TimerLoop.RunHandler: handlers may add timers but not cancel any; `SelfCancelDropsNext` says what cancelling the timer being fired would do.
- TimerLoop.ExpireTimer: the keys handlers ask for are below 2^31, so that the list stays in order.
- TimerLoop.Drive: the events are a finite sequence; the endless loop of `main`, `sleep` and printing are not modelled.
- PoolClass.DBPool.GetDBConn: which steps the other threads take meanwhile is an input, a finite one, so a call may be left waiting when it ends; `PlayMore` says that it would go on from there.
- Reading the clock (`SkipListTimer/common.h`): clock readings are inputs.
- Memory reclamation: removed nodes become unreachable; the list destructor, which frees only the header, and cells beyond a node's height do not exist in the model. `SetScore` is never called on a listed node.
- `CThreadNotify::WaitTime`: not used by the pool. Unlocking a mutex one does not hold, which the pool is proved never to do, is not modelled.
- Unlocked reads of the counts (`GetCurConnCnt`) and the default constructor of the pool.
- Fairness between threads: a newcomer may take a connection before a woken waiter does.
- MySQL wrappers, the thread pool, `Reactor`, `HttpReactor`, `HttpClient`, `MakeGuid.c`, the allocator and the observer headers: foreign calls, kernel behaviour or straight-line code that would add only easy members.

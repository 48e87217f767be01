# local-sync, modelled and verified

This project models the single-threaded synchronisation primitives of the `local-sync` crate in Dafny and
proves what they promise over every order of calls: the fair semaphore with its intrusive wait list and
batched wake-ups, the block queue with recycling, the bounded mpsc channel, the once cell and the oneshot
channel. `dafny verify dfyconfig.toml` checks all of it.

Each primitive comes in up to four files.

* The class (`Semaphore.dfy`, `LinkedList.dfy`, `WakeList.dfy`, `BlockQueue.dfy`, `Channel.dfy`, `OnceCell.dfy`,
  `Oneshot.dfy`) updates its fields in place as the crate does: shifted permit word, prev/next links, 32-slot
  arrays, flag word, hand-managed waker memory.
* The specification (`SemaphoreSpec.dfy`, `ChannelSpec.dfy`, `OnceCellSpec.dfy`, `OneshotSpec.dfy`) says on plain
  values what one call does. Every method of the class is proved to do exactly that.
* The laws (`SemaphoreLaws.dfy`, `ChannelLaws.dfy`, `OnceCellLaws.dfy`) say what each call answers, changes and
  leaves alone without following how the specification computes it.
* The runs (`SemaphoreRuns.dfy`, `ChannelRuns.dfy`, `OnceCellRuns.dfy`, `OneshotRuns.dfy`) prove properties of the
  specification over any sequence of calls, with books kept beside it from the calls and their answers alone: sizes
  asked for, permits held, senders, values sent and received, who closed what, wake-ups in order, and which poll was
  last answered Pending. The answers of every call are stated in terms of these books.

A step is one synchronous call: a poll, a drop, a release, a close. The executor may pick any order. A waker is a
task id with a handle; waking appends the waker to a log. The futures of a semaphore are named: the class uses the
waiter object itself as the name, so a class and its specification speak of the same futures.

The central invariant, nowhere written down in the crate, is `SemaphoreSpec.Inv`: while anyone waits no permit is
available, only the oldest waiter is partly filled, and the wait list holds exactly the queued futures that still
lack permits. Permit conservation, first-come-first-served service, and the absence of lost wake-ups rest on it.

Findings about the code and its comments:

* `release` does not check the total it documents (src/semaphore.rs:169-171). The check in src/semaphore.rs:260-267
  only sees what is left over after serving the waiters. `SemaphoreRuns.LimitCheckMisses` gives the input,
  `SemaphoreRuns.LimitCheckMeans` the exact condition under which code and documentation agree. The excess shows later:
  in a semaphore that holds more than the limit, polling a future that has been granted everything panics, and the
  available permits are gone (`SemaphoreRuns.OverfullPollPanics`, a run of four calls that leads there;
  `Semaphores.Inner.Poll`, the exact condition). Callers that respect the limit never see any of this
  (`SemaphoreRuns.WithinLimitNeverPanics`).
* The branch marked "may never be here" (src/semaphore.rs:306-310) is reached, by exactly those futures that were
  granted everything while they were queued; the permits it hands back are the ones it has just cleared
  (`SemaphoreSpec.SlowPoll`).
* The second `None` return of `LinkedList::remove` (src/linked_list.rs:198-200), which would leave `head` changed, is
  unreachable (`LinkedLists.LinkedList.Splice`).
* No value is ever left in the queue when the channel itself is dropped, contrary to the comment at
  src/mpsc/chan.rs:70-72 (`Channels.Chan.Drop`).
* The comment at src/once_cell.rs:22-24 allows `value_set` without a closed semaphore; between two calls that state
  does not occur (`OnceCellRuns.EveryRun`).
* The re-checks of the flags after a waker slot was cleared or set (src/oneshot.rs:482-485, 501-503, 732-739,
  755-759) never succeed (`Oneshots.Inner.RegisterRx`, `Oneshots.Inner.RegisterTx`).

## Model

| member | source | states |
|---|---|---|
| SemaphoreRuns.EveryRunConserves | src/semaphore.rs:202-335 | After every run without a panic, within the documented limit or not: available permits, permits assigned to futures and permits held by callers add up to what was put in less what was forgotten; the shifted word fits a usize |
| SemaphoreRuns.WithinLimitNeverPanics | src/semaphore.rs:260-267 | While the total stays within the documented limit no call panics: no release, poll, drop of a future or drop of a permit |
| SemaphoreRuns.OverfullPollPanics | src/semaphore.rs:303-310 | A run of four calls without a panic after which polling a granted future panics, because more than the limit is available |
| SemaphoreRuns.WaitingMeansScarce | src/semaphore.rs:234-275 | After every run, if someone waits and every grant has been picked up, all permits not held by callers are with the oldest waiter, and it wants more than that |
| SemaphoreRuns.LedgerKept | src/semaphore.rs:396-421 | Each call, cancellation and permit drop or forget included, keeps that ledger balanced |
| SemaphoreRuns.EveryRunKeepsQueue | src/semaphore.rs:234-275 | After every run a non-empty wait list means no permit is available, only the oldest waiter is partly filled, and the list holds exactly the queued futures that lack permits while the semaphore is open |
| SemaphoreRuns.EveryRunWakes | src/semaphore.rs:303-334 | After every run a future last polled Pending is listed with a waker for the task of that poll, or that task has been woken since and the next poll gives it its permits, or the news that the semaphore was closed |
| SemaphoreRuns.EveryRunAnswers | src/semaphore.rs:202-335 | After every run: a poll answers Closed iff someone called `close`, Ok iff not and the future was granted everything or, on its first poll, the number asked for is available; `try_acquire` answers by the same facts for every number |
| SemaphoreRuns.BooksKept | src/semaphore.rs:183-335 | Every call keeps the futures those the callers made, each for the number of permits it was asked for, and the semaphore closed iff someone closed it |
| SemaphoreRuns.ReleaseWakes | src/semaphore.rs:234-272 | Handing out permits loses no wake-up: whoever leaves the list is woken and will be Ready |
| SemaphoreRuns.DropWakes | src/semaphore.rs:396-421 | Neither does cancelling a waiter that holds some or all of its permits |
| SemaphoreRuns.CloseWakes | src/semaphore.rs:183-195 | Neither does closing |
| SemaphoreRuns.PollWakes | src/semaphore.rs:277-335 | Neither does polling, whatever wakers are stored |
| SemaphoreRuns.NoOvertaking | src/semaphore.rs:290-334 | First come, first served over any run: until a queued future has all its permits or is dropped, no future behind it gets its own |
| SemaphoreRuns.ImmediateOnlyWithoutWaiters | src/semaphore.rs:202-223 | `try_acquire(n)` and a first poll for n >= 1 succeed at once iff the permits are there and the semaphore is open, and then nobody waits |
| SemaphoreRuns.ReleaseAdds | src/semaphore.rs:172-179 | Releasing a and then b ends in the same state, with the same wakers woken, as releasing a + b |
| SemaphoreRuns.OneWakeEach | src/semaphore.rs:234-272 | A release wakes as many wakers as waiters leave the list, each one stored by a waiter that was listed |
| SemaphoreRuns.LimitCheckMeans | src/semaphore.rs:260-267 | The limit check fires iff the release exceeds the limit plus the demand of all waiters; it agrees with its documentation iff that holds or the total stays within the limit |
| SemaphoreRuns.LimitCheckMisses | src/semaphore.rs:169-179 | A full semaphore accepts `release(1)` although that exceeds the documented limit |
| SemaphoreRuns.ClosedStays | src/semaphore.rs:183-200 | The CLOSED bit is never cleared in any run |
| SemaphoreRuns.ClosedMeans | src/semaphore.rs:293-295 | Once closed: `try_acquire` and polls fail and change nothing, nobody waits, and a dropped future returns exactly the permits it had been given |
| SemaphoreRuns.StartHolds | src/semaphore.rs:152-162 | A new semaphore, its count masked, satisfies the invariant of runs |
| SemaphoreRuns.StepKeeps | src/semaphore.rs:134-421 | Every call keeps the queue rule, the ledger and the wake-up invariant together |
| SemaphoreRuns.FairByRelease | src/semaphore.rs:234-275 | A release keeps the order of service between any two futures |
| SemaphoreRuns.FairByPoll | src/semaphore.rs:277-335 | A poll of any future keeps it too |
| SemaphoreLaws.PollAnswers | src/semaphore.rs:277-335 | When a poll answers Closed, Ok and Pending, for a request of any size |
| SemaphoreLaws.PollLeaves | src/semaphore.rs:277-335 | What each of the three answers does to the future, the counter and the queue, and that nothing else changes |
| SemaphoreLaws.CreateMeans | src/semaphore.rs:366-374 | A new future asks for exactly the number requested, has nothing and waits nowhere; if that number is available its first poll takes exactly that |
| SemaphoreLaws.TryAcquireMeans | src/semaphore.rs:202-223 | Closed iff closed, NoPermits iff open and too few, Ok otherwise, for every number; only the counter changes |
| SemaphoreLaws.CloseMeans | src/semaphore.rs:183-195 | Closing closes, empties the queue and wakes each waiter once, oldest first; no future is granted anything |
| SemaphoreLaws.DropServes | src/semaphore.rs:396-421 | Dropping a future is leaving the queue and handing out, in closed form, exactly what it had been assigned |
| SemaphoreLaws.InitMeans | src/semaphore.rs:152-162 | Open, nobody waiting, the count asked for, cut to 61 bits |
| SemaphoreLaws.PanicsMeans | src/semaphore.rs:234-275 | A hand-out panics iff what is left after the demand of all waiters exceeds the limit or overflows the 64-bit word |
| SemaphoreLaws.DropPanicsMeans | src/semaphore.rs:416-419 | The same for dropping a future |
| SemaphoreLaws.PanicLeaves | src/semaphore.rs:260-267 | A hand-out that panics has filled every waiter and lost only the leftover |
| SemaphoreLaws.OnePermitGoes | src/semaphore.rs:234-275 | Where everyone wants one permit, a released one goes to the oldest waiter, which is woken, or becomes available |
| SemaphoreLaws.DropOfOne | src/semaphore.rs:396-421 | There, a dropped future that was granted its permit hands it over in the same way, and any other just leaves |
| SemaphoreLaws.AwaitOfOne | src/semaphore.rs:346-363 | There, what polling an await of one permit leaves behind, answer by answer |
| SemaphoreLaws.WakeOrderAt | src/wake_list.rs:40-47 | Which waker is woken when: batches of 32, one after the other, each backwards |
| SemaphoreLaws.LimitsAre | src/semaphore.rs:142-142 | `MAX_PERMITS` is 2^61 - 1, the largest 64-bit number shifted right by three |
| SemaphoreSpec.DistributeServes | src/semaphore.rs:234-275 | What handing out n permits amounts to, in closed form: the longest prefix of waiters whose joint demand fits is filled and woken, the next gets the rest, or the counter does |
| SemaphoreSpec.DistributeKeeps | src/semaphore.rs:234-275 | Handing out n permits keeps the invariant and adds exactly n to what the semaphore owns |
| SemaphoreSpec.DistributeAdds | src/semaphore.rs:101-108 | Handing out in two parts, at whatever boundary, is the same as at once, wakers in the same order |
| SemaphoreSpec.WithinLimit | src/semaphore.rs:260-267 | A hand-out that keeps the total within the limit neither trips the check nor overflows |
| SemaphoreSpec.CallsWithinLimit | src/semaphore.rs:306-311 | Nor does a poll or a cancellation while the total is within the limit |
| SemaphoreSpec.SlowPollPanics | src/semaphore.rs:303-310 | Handing back what a poll has cleared panics iff it was more than the limit |
| SemaphoreSpec.DistributeFrame | src/semaphore.rs:101-108 | Handing out permits changes neither the size nor the progress of any future |
| SemaphoreSpec.ProgressByPop | src/semaphore.rs:239-258 | One filled waiter popped in the inner loop leaves the outcome of the whole hand-out unchanged |
| SemaphoreSpec.ProgressByTopUp | src/semaphore.rs:243-246 | So does a partly filled one |
| SemaphoreSpec.SlowPoll | src/semaphore.rs:303-311 | The slow path is satisfied iff the future was already granted everything, and then clearing and handing back the counter is the identity |
| SemaphoreSpec.PollKeeps | src/semaphore.rs:277-335 | A poll keeps the invariant and takes exactly the requested permits iff it is Ready(Ok) |
| SemaphoreSpec.DropKeeps | src/semaphore.rs:396-421 | Cancelling any future, partly or fully granted, keeps the invariant and every permit |
| SemaphoreSpec.UnlinkKeeps | src/semaphore.rs:403-413 | Taking a waiter off the list keeps the invariant and frees exactly its assigned permits |
| SemaphoreSpec.DropUnqueued | src/semaphore.rs:398-402 | Dropping a finished or never polled future changes nothing else and wakes nobody |
| SemaphoreSpec.CloseKeeps | src/semaphore.rs:183-195 | Closing keeps the invariant and moves no permits |
| SemaphoreSpec.TryAcquireKeeps | src/semaphore.rs:202-223 | `try_acquire` keeps the invariant and takes n permits iff it is granted |
| SemaphoreSpec.CreateKeeps | src/semaphore.rs:366-374 | A new future changes nothing for the others |
| SemaphoreSpec.InitKeeps | src/semaphore.rs:152-162 | A new semaphore satisfies the invariant and owns exactly the permits asked for, up to the limit |
| SemaphoreSpec.Refresh | src/semaphore.rs:313-322 | The stored waker wakes the polling task afterwards, and is replaced only if it did not before |
| Semaphores.Inner.constructor | src/semaphore.rs:152-162 | The shifted, masked permit word represents the initial state |
| Semaphores.Inner.AvailablePermits | src/semaphore.rs:165-167 | The word shifted back is the number of available permits |
| Semaphores.Inner.IsClosed | src/semaphore.rs:198-200 | The low bit says whether the semaphore is closed |
| Semaphores.Inner.AddPermits | src/semaphore.rs:234-275 | For any queue and any number of permits the nested, 32-batched loop does what serving one waiter at a time does, terminates with nothing left and wakes batch by batch; it panics iff the leftover exceeds the limit or overflows the word, and then everyone is served and the leftover lost |
| Semaphores.Inner.HandOutBatch | src/semaphore.rs:238-269 | One round of the outer loop, short of waking: a full batch of wakers, every permit placed, or a panic over a leftover that cannot be stored |
| Semaphores.Inner.HandOutRound | src/semaphore.rs:238-272 | The batch woken in one round is the next part of the wake-ups of the whole hand-out, and the rest of the hand-out is unchanged |
| Semaphores.Inner.FillBatch | src/semaphore.rs:239-258 | The inner loop stops with a full batch, no permits left or an empty queue, the hand-out half done accordingly |
| Semaphores.Inner.ServeOldest | src/semaphore.rs:241-257 | One waiter served: nobody there, partly filled, or filled, popped and its waker taken |
| Semaphores.Inner.StoreRest | src/semaphore.rs:260-268 | Leftover permits are added above the CLOSED bit; panics iff they exceed the limit or the word would overflow |
| Semaphores.Inner.Release | src/semaphore.rs:172-179 | `release(0)` does nothing; otherwise the permits are handed out, panicking as `add_permits` does |
| Semaphores.Inner.TryAcquire | src/semaphore.rs:202-223 | The comparison on the shifted word decides as the specification does |
| Semaphores.Inner.Acquire | src/semaphore.rs:225-227 | A fresh future that has not been queued |
| Semaphores.Inner.Poll | src/semaphore.rs:346-363 | Polling an `Acquire`: the future, queue, permit word and answer are those of the specification; it wakes nobody; after an error `queued` stays as it was; it panics iff the future was granted everything and more than the limit is available |
| Semaphores.Inner.PollSlowly | src/semaphore.rs:303-334 | The same for the path that clears the permit word, which wakes nobody |
| Semaphores.Inner.PutBack | src/semaphore.rs:306-311 | A future that finds itself satisfied puts the cleared permits back, waking nobody, and is finished, unless putting them back panics |
| Semaphores.Inner.StoreWaker | src/semaphore.rs:313-322 | The waker is replaced only if the stored one would not wake the task |
| Semaphores.Inner.Enqueue | src/semaphore.rs:324-332 | The waiter joins the young end of the queue unless it is in it |
| Semaphores.Inner.Drop | src/semaphore.rs:396-421 | Dropping an `Acquire`: unlinked, its permits passed on, and the subtraction never underflows; panics iff passing them on does |
| Semaphores.Inner.Detach | src/semaphore.rs:403-413 | The waiter is no longer linked, whether or not it was |
| Semaphores.Inner.Close | src/semaphore.rs:183-195 | Sets both flags, empties the queue and wakes everyone, oldest first |
| LinkedLists.Waiter.AssignPermits | src/semaphore.rs:101-108 | Moves permits until the waiter has all it needs or none are left; none get lost |
| LinkedLists.LinkedList.PushFront | src/linked_list.rs:120-139 | The deque gains the node at its young end; links stay mutually inverse |
| LinkedLists.LinkedList.PopBack | src/linked_list.rs:143-159 | The oldest node is returned unlinked, or None from an empty list |
| LinkedLists.LinkedList.Remove | src/linked_list.rs:177-209 | Any contained node is taken out and unlinked, the rest keep their order; an unlinked node changes nothing |
| LinkedLists.LinkedList.Splice | src/linked_list.rs:178-206 | The pointer surgery by-passes the node; both debug assertions hold and the second None return is unreachable |
| LinkedLists.LinkedList.BypassedIsLinked | src/linked_list.rs:178-206 | A list with one node by-passed is a well-linked list of the other nodes |
| LinkedLists.LinkedList.Last | src/linked_list.rs:222-224 | The oldest node, if there is one |
| LinkedLists.LinkedList.IsEmpty | src/linked_list.rs:162-169 | True iff nothing is linked; its assertion holds |
| WakeLists.WakeList.Push | src/wake_list.rs:33-38 | The waker is added behind those pushed before |
| WakeLists.WakeList.WakeAll | src/wake_list.rs:40-47 | Wakes every pushed waker once, last pushed first, reading only initialised slots |
| WakeLists.WakeOrderIsPermutation | src/wake_list.rs:40-47 | Batching changes the order of wake-ups, never who is woken or how often |
| WakeLists.FlushBatch | src/semaphore.rs:271-272 | Flushing a full batch and going on wakes in the same order as all batches at once |
| WakeLists.ReverseAt | src/wake_list.rs:42-46 | Position by position, a batch is woken backwards |
| BlockQueues.Block.Reset | src/mpsc/block.rs:44-48 | A reset block is empty, writable and unlinked |
| BlockQueues.Queue.constructor | src/mpsc/block.rs:61-69 | One empty block, nothing queued |
| BlockQueues.Queue.PushUnchecked | src/mpsc/block.rs:81-103 | The contents grow by the value at the end; every block stays in the chain, and a free one is reused before one is allocated |
| BlockQueues.Queue.PopUnchecked | src/mpsc/block.rs:107-128 | Returns the oldest value and removes it; the same blocks are all still in the chain |
| BlockQueues.Queue.AdvanceTail | src/mpsc/block.rs:90-102 | Behind a full tail the chain is extended only if no free block follows; no block leaves it |
| BlockQueues.Queue.Recycle | src/mpsc/block.rs:117-126 | The emptied head moves right behind the tail, all other blocks keep their place; there always is a next block |
| BlockQueues.Queue.MoveHeadBehindTail | src/mpsc/block.rs:118-126 | The pointer surgery of recycling keeps every block allocated in the chain exactly once |
| BlockQueues.Queue.WriteSlot | src/mpsc/block.rs:82-86 | The slot written is free and within the 32 slots of its block |
| BlockQueues.Queue.ReadSlot | src/mpsc/block.rs:108-113 | The slot read is initialised and holds the oldest value |
| BlockQueues.Queue.MemoryBound | src/mpsc/block.rs:81-128 | The number of blocks allocated is the most ever in use at once, at most one more than the fullest moment needed |
| BlockQueues.Queue.FreeBlocks | src/mpsc/block.rs:132-147 | Terminates having freed every block allocated exactly once |
| ChannelRuns.EveryRunDelivers | src/mpsc/chan.rs:111-126 | After every run: received then queued values are exactly the accepted ones, in order, while the receiver lives; afterwards the queue is empty |
| ChannelRuns.EveryRunWithinCapacity | src/mpsc/bounded.rs:10-26 | After every run available permits, permits granted to waiting senders and queued values add up to the masked capacity; while a sender waits no permit is available |
| ChannelRuns.AcquiredIsSent | src/mpsc/bounded.rs:17-26 | A `send` whose permit arrives queues its value, never failing with RxClosed; on a closed channel it fails and queues nothing |
| ChannelRuns.EveryRunReceives | src/mpsc/chan.rs:175-211 | After every run: `try_recv` and `recv` give the next accepted value if there is one, else Empty or Pending while a sender is left, else Disconnected or None |
| ChannelRuns.EveryRunSends | src/mpsc/bounded.rs:17-26 | After every run: a `send` is refused iff the receiver closed the channel or is gone, and otherwise queued, with its own value, iff its permit was granted or, on its first poll, a slot is free |
| ChannelRuns.EveryRunStaysOpen | src/mpsc/chan.rs:138-165 | The senders are counted right through any clones and drops; the channel is closed iff the receiver closed it or went, or no sender is left |
| ChannelRuns.BooksKept | src/mpsc/chan.rs:101-233 | Every call keeps the channel in agreement with what callers know of senders, sends and the receiver |
| ChannelRuns.SendersInOrder | src/mpsc/bounded.rs:17-26 | Senders are served in the order in which they began to wait, over any run |
| ChannelLaws.EveryCallSettles | src/mpsc/chan.rs:101-233 | What each call does to the semaphore and exactly whom it wakes |
| ChannelLaws.RxWakerMoves | src/mpsc/chan.rs:118-211 | The stored waker is refreshed by a receiver left pending, taken by a push or the last sender's drop, and touched by nothing else |
| ChannelRuns.EndMeansAllReceived | src/mpsc/chan.rs:175-211 | None and Disconnected are returned iff every sender ever made was dropped and every accepted value was received |
| ChannelRuns.EndIsFinal | src/mpsc/chan.rs:189-198 | After that nothing is ever accepted or queued again |
| ChannelRuns.EveryRunWakesReceiver | src/mpsc/chan.rs:118-165 | A stored receiver waker means an empty queue and a live sender; a receiver left pending is registered, or was woken by a push or by the last sender's drop |
| ChannelRuns.EveryRunWakesSenders | src/mpsc/bounded.rs:17-26 | A sender left pending is listed with its latest waker, or was woken and its next poll is Ready |
| ChannelRuns.SysKept | src/mpsc/chan.rs:101-233 | Every call keeps ledger, order and both wake-up invariants |
| ChannelSpec.StepKeeps | src/mpsc/chan.rs:101-233 | Every call keeps the channel's invariant for the same capacity |
| ChannelSpec.PollSendMeans | src/mpsc/bounded.rs:17-26 | A permit that arrives means the semaphore is still open when the value is pushed |
| Channels.Chan.constructor | src/mpsc/bounded.rs:10-14 | One sender, one receiver, the whole masked capacity free |
| Channels.Chan.CloneTx | src/mpsc/chan.rs:142-147 | One more sender |
| Channels.Chan.StartSend | src/mpsc/bounded.rs:17-22 | A `send` starts with a fresh request for one permit |
| Channels.Chan.PollSend | src/mpsc/bounded.rs:17-26 | Polling a `send` does what the specification says, the push after the permit included |
| Channels.Chan.PollAcquire | src/mpsc/bounded.rs:19-23 | Within the capacity the poll of the permit never panics and wakes nobody |
| Channels.Chan.Resume | src/mpsc/bounded.rs:23-26 | After the await the future is dropped; with a permit the value is queued without fail, with an error RxClosed is returned |
| Channels.Chan.CancelSend | src/mpsc/bounded.rs:17-26 | A dropped `send` passes its permit on |
| Channels.Chan.Send | src/mpsc/chan.rs:111-126 | Refused when closed; otherwise the value is queued and the receiver woken and unregistered |
| Channels.Chan.DropTx | src/mpsc/chan.rs:154-164 | Only the last sender closes the semaphore and wakes the receiver |
| Channels.Chan.TryRecv | src/mpsc/chan.rs:175-187 | The oldest value and a permit released, or Disconnected or Empty |
| Channels.Chan.Recv | src/mpsc/chan.rs:189-211 | The same, or the receiver registered with a waker for its task |
| Channels.Chan.CloseRx | src/mpsc/chan.rs:213-215 | Closing keeps what is queued |
| Channels.Chan.DropRx | src/mpsc/chan.rs:222-232 | Closes, discards all that is queued and returns exactly its permits |
| Channels.Chan.Drop | src/mpsc/chan.rs:69-79 | With all handles gone the queue is empty and every block allocated is freed once |
| OnceCellRuns.EveryRun | src/once_cell.rs:127-147 | After every run: closed iff set iff there is a value; the permit ledger is 1 while unset and 0 once set; at most one write; no waiting call is forgotten |
| OnceCellRuns.EveryRunAnswers | src/once_cell.rs:240-384 | After every run: `take` returns what was last written and leaves an empty cell; `set` and a new call are answered by what was written and by who has the permit |
| OnceCellRuns.EveryRunPolls | src/once_cell.rs:293-312 | After every run: a waiting call reads what was written iff something was, starts its initialiser iff it has or can take the permit, and waits otherwise |
| OnceCellRuns.BooksKept | src/once_cell.rs:188-384 | Every call keeps the cell in agreement with what callers know of its content, initialisers and waiting calls |
| OnceCellLaws.EveryCallSettles | src/once_cell.rs:188-384 | What each call does to the semaphore and exactly whom it wakes |
| OnceCellRuns.OneInitialiser | src/once_cell.rs:280-364 | At most one initialiser runs, never in a set cell, and nobody else has the permit then |
| OnceCellRuns.SetMeans | src/once_cell.rs:240-264 | `set` answers InitializingError iff unset and the permit is with an initialiser or a granted waiter, AlreadyInitializedError iff set; its Closed branch is unreachable; a refused `set` changes nothing |
| OnceCellRuns.PollMeans | src/once_cell.rs:293-312 | An initialiser starts only in an unset cell with nobody else running; a call sent to read finds a value |
| OnceCellRuns.AbortHandsOver | src/semaphore.rs:985-989 | A failed or cancelled initialiser's permit goes to the oldest waiter, which is woken, or becomes available if nobody waits |
| OnceCellRuns.CancelHandsOver | src/semaphore.rs:396-421 | So does the permit of a granted waiter that is dropped |
| OnceCellRuns.NoStall | src/once_cell.rs:280-316 | While calls wait for an unset cell somebody has the permit |
| OnceCellRuns.PermitAccount | src/once_cell.rs:139-147 | In an unset cell the permit is available iff nobody has it |
| OnceCellRuns.ValueStays | src/once_cell.rs:188-203 | Once set, the value never changes in any run until it is taken |
| OnceCellRuns.Start | src/once_cell.rs:154-160 | A cell made with or without a value starts in a state that satisfies the protocol |
| OnceCellSpec.StepKeeps | src/once_cell.rs:188-384 | Every call keeps the protocol |
| OnceCells.OnceCell.New | src/once_cell.rs:141-147 | Empty, one permit |
| OnceCells.OnceCell.From | src/once_cell.rs:127-137 | Holding its value, no permit, semaphore closed |
| OnceCells.OnceCell.Get | src/once_cell.rs:207-213 | Reads the value iff there is one, never uninitialised memory |
| OnceCells.OnceCell.SetValue | src/once_cell.rs:188-203 | Writes, raises the flag, closes and wakes all waiters |
| OnceCells.OnceCell.Set | src/once_cell.rs:240-264 | Does what the specification of `set` says; the debug assertion holds |
| OnceCells.OnceCell.Begin | src/once_cell.rs:280-293 | A call on a set cell reads at once; otherwise it asks for the permit |
| OnceCells.OnceCell.Poll | src/once_cell.rs:293-312 | Polling a waiting call; both debug assertions hold |
| OnceCells.OnceCell.Finish | src/once_cell.rs:297-303 | The initialiser's value is stored |
| OnceCells.OnceCell.Abort | src/once_cell.rs:349-354 | The initialiser's permit is given back, and the waiter it goes to is woken |
| OnceCells.OnceCell.Cancel | src/once_cell.rs:293-293 | Dropping a waiting call |
| OnceCells.OnceCell.IntoInner | src/once_cell.rs:368-378 | Moves the value out and leaves nothing for the destructor to drop |
| OnceCells.OnceCell.Take | src/once_cell.rs:382-384 | Returns what was there and leaves a new, empty cell |
| OnceCells.OnceCell.Drop | src/once_cell.rs:116-125 | The value is dropped iff it is still there |
| OneshotRuns.EveryRunBalances | src/oneshot.rs:304-318 | After every run at most one value was sent and it is in exactly one place; every clone of a waker is stored or was dropped once; with both handles gone nothing is left |
| OneshotRuns.EveryRunWakes | src/oneshot.rs:696-779 | After every run a pending receiver is registered with its latest waker until the sender ends, and then woken unless it had closed the channel itself; a pending `poll_closed` is registered until the channel closes, and then woken; either is answered by its next poll |
| OneshotRuns.EveryRunAnswers | src/oneshot.rs:304-693 | After every run: `send` returns Ok and `poll_closed` is Pending iff the receiver neither closed the channel nor was dropped; `try_recv` and polls receive the outstanding value if there is one, fail if there is no hope of one, and otherwise answer Empty or Pending |
| OneshotRuns.BooksKept | src/oneshot.rs:818-880 | VALUE_SENT is set iff the sender ended, CLOSED iff the receiver closed the channel or was dropped while it pointed at it, and each handle points at it as long as it should |
| OneshotRuns.CloseRefuses | src/oneshot.rs:578-582 | `close` on an open channel makes the next `send` return its value |
| OneshotRuns.StepWakes | src/oneshot.rs:696-778 | Exactly whom each call wakes |
| OneshotRuns.StepStores | src/oneshot.rs:467-507 | Which wakers are stored after each call |
| OneshotRuns.OkIsDelivered | src/oneshot.rs:647-691 | After `send` returned Ok, closing or not, the next `try_recv` or poll receives the value |
| OneshotRuns.RefusedIsNeverReceived | src/oneshot.rs:311-315 | A value handed back by `send` is never received or dropped by the channel, in any continuation |
| OneshotRuns.StepMoves | src/oneshot.rs:647-802 | In one call a value moves from one place to one other, or not at all |
| OneshotRuns.StepChurns | src/oneshot.rs:467-507 | In one call a slot keeps its waker, swaps it for a clone, or gives it up for good |
| OneshotRuns.SysKept | src/oneshot.rs:263-802 | Every call keeps values, wakers and wake-ups accounted for |
| OneshotSpec.SendMeans | src/oneshot.rs:304-318 | `send` returns Ok iff the channel was not closed before it |
| OneshotSpec.PollMeans | src/oneshot.rs:713-767 | When a poll of the receiver is Pending, receives, or fails |
| OneshotSpec.ValueSurvivesClose | src/oneshot.rs:770-785 | A sent value outlives `close` |
| OneshotSpec.StepKeeps | src/oneshot.rs:263-802 | Every call keeps the invariant on flags, slots and handles |
| Oneshots.WithRxTask | src/oneshot.rs:837-841 | Sets its flag and no other |
| Oneshots.WithoutRxTask | src/oneshot.rs:843-847 | Clears its flag and no other |
| Oneshots.WithTxTask | src/oneshot.rs:861-865 | Sets its flag and no other |
| Oneshots.WithoutTxTask | src/oneshot.rs:867-871 | Clears its flag and no other |
| Oneshots.WithComplete | src/oneshot.rs:827-831 | Sets its flag and no other; the new word keeps CLOSED visible to the caller |
| Oneshots.WithClosed | src/oneshot.rs:853-859 | Sets its flag and no other |
| Oneshots.Task.WillWake | src/oneshot.rs:190-192 | Reads the stored waker, which is initialised |
| Oneshots.Task.DropTask | src/oneshot.rs:203-206 | Drops an initialised waker and leaves the memory uninitialised |
| Oneshots.Task.SetTask | src/oneshot.rs:208-211 | Writes a clone where no waker would be overwritten |
| Oneshots.Inner.Complete | src/oneshot.rs:696-711 | Sets VALUE_SENT even when closed; wakes a registered receiver iff the channel is open |
| Oneshots.Inner.Close | src/oneshot.rs:770-778 | Sets CLOSED; wakes a registered sender that has not ended |
| Oneshots.Inner.ConsumeValue | src/oneshot.rs:781-784 | Takes the value out of its slot |
| Oneshots.Inner.RegisterRx | src/oneshot.rs:725-763 | Slot and flag agree throughout; the waker is swapped iff it would not wake the task; the re-checks never succeed |
| Oneshots.Inner.RegisterTx | src/oneshot.rs:476-504 | The same for the sender |
| Oneshots.Inner.LetGo | src/oneshot.rs:304-305 | Dropping a handle; the last one drops the stored wakers and an untaken value |
| Oneshots.Inner.Drop | src/oneshot.rs:787-802 | Drops exactly the wakers that are stored |
| Oneshots.Sender.Send | src/oneshot.rs:304-318 | `send` as specified, consuming the sender; the value handed back is there to unwrap |
| Oneshots.Sender.Drop | src/oneshot.rs:510-516 | A sender dropped without sending completes the channel |
| Oneshots.Sender.PollClosed | src/oneshot.rs:467-507 | `poll_closed` as specified |
| Oneshots.Receiver.Close | src/oneshot.rs:578-582 | `close` as specified, doing nothing once the channel was let go |
| Oneshots.Receiver.TryRecv | src/oneshot.rs:647-668 | `try_recv` as specified; only Empty keeps the channel |
| Oneshots.Receiver.Poll | src/oneshot.rs:679-692 | Polling the receiver as specified; an error keeps the channel |
| Oneshots.Receiver.Drop | src/oneshot.rs:671-677 | Dropping the receiver closes the channel unless it was let go before |
| Oneshots.Channel | src/oneshot.rs:247-261 | Both handles share one fresh, open channel |

## Left out

- Semaphores.Inner.StoreRest: an overflow of the permit word panics, as it does in a build with overflow checks; wrapping around in a build without them is not modelled.
- Runs end at a panic: what callers do with a semaphore after catching one is not modelled, only the state it is left in.
- Semaphores.Inner.TryAcquire: the assertion on the request size is not modelled, because a `u32` request never exceeds `MAX_PERMITS` on a 64-bit platform.
- Oneshots.Receiver.Poll: polling a receiver that has already got its value panics in the code; here it is excluded.
- Atomics, memory ordering and threads: the crate is single-threaded.
- Re-entrant wakers and element destructors that call back while a `RefCell` is borrowed: a wake-up only schedules.
- The executor, `Waker` internals, `Pin`, `Context`, `Rc` counting and `poll_fn`: futures are polled and dropped by explicit calls, and the oneshot channel counts its two handles.
- The time at which a waker is woken within a call: methods return the wakers they wake, in order.
- Raw pointers and `MaybeUninit`: pointers are object references, uninitialised memory is an absent option.
- Widths of counters other than the permit word (`len`, `tx_count`, block indices), and `usize` other than 64 bits.
- The generic `Link` of the linked list: it is specialised to `Waiter`, and an `Acquire` future and the waiter inside it are one object.
- `SemaphorePermit` objects: a permit is an entry in the books of a run; dropping it is a release of its size, forgetting it a loss of that many.
- An `async` call is split at its awaits: starting `send` or `get_or_init` is a step of its own before its first poll, which allows more orders of calls than the code does.
- `get_or_try_init` differs from `get_or_init` only in that its initialiser may fail; that is the step `Abort`. The value of a mutable or shared reference to the cell's content is the content.
- Sender handles of the mpsc channel are counted, not named; an operation of a sender needs one to exist.
- `src/mpsc/unbounded.rs` and `Unlimited`: the same channel over a semaphore that never refuses.
- The `*_owned` acquire variants, which repeat the borrowed ones, `acquire_many` on the public semaphore, which names its request size, and the read-only queries `is_closed`, `same_channel` and `initialized`.
- Display, Debug, Error, Clone and PartialEq implementations.

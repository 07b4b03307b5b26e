# rtw88 driver: verified model

The driver is a Wi-Fi station for Realtek chips that replaces the Linux mac80211 layer and its
kernel services by its own.  This project models the parts of it that carry state from step
to step, and proves what they keep over every run.

* **Receive reordering** (`ReorderSpec`, `Reorder`, `ReorderRuns`, `ReorderComplete`, `RxBa`).
  Eight TIDs, each with 64 slots, a 12-bit head and a counter, are shown equal to an unbounded
  window of absolute numbers.  On that window: frames are conserved, delivered in order,
  delivered completely, and flushed with progress.
* **Deferred work** (`ThreadCall`, `DelayedWork`, `DelayedWorkReturns`, `DelayedWorkQueues`, `Workqueue`,
  `WorkqueueWakeups`, `WorkqueueLocked`, `IntrusiveList`).  Cancellable calls over the native service, timers over those calls, delayed
  work and workqueues over the timers.  Each lock section is a step; the unlocked accesses of the
  timer flag and of the pointer to its call are steps of their own; a sleep releases the lock, and
  the sleeper tests again.  The queues are the intrusive rings of the source.  The machine of one
  delayed item with its timer is shown to be an implementation of the machine of the queues.
* **Cryptography** (`Sha1Spec`, `Sha1Vector`, `Sha1`, `Sha1Stream`, `KeyDerivation`, `AesTables`, `AesField`,
  `AesProduct`, `AesSbox`, `AesMix`, `AesSpec`, `AesVector`, `Aes`, `KeyWrap`).  The in-place SHA-1, the AES-128 block
  decryption and the key unwrapping against FIPS 180-4, FIPS 197 and RFC 3394; the specifications are
  fixed in turn by the examples of the standards, proved from the definitions.
* **Connection** (`ConnectionSpec`, `ConnectionPaths`, `Connection`).  The state machine of scan, connect,
  handshake, disconnect and timer, with its keys and packet numbers, and the ways through it.
* **Network list** (`BssCache`, `BssIpc`).  The cache of networks with its ageing, and its
  way to `rtw88ctl` as bytes.

Each protocol is a machine on values, on which the run theorems are proved, and next to it
classes, arrays and loops in the form of the source whose methods are proved to take exactly
the steps of that machine.

`dafny verify dfyconfig.toml` checks everything.

## Findings

* The header declares the reorder slots as indexed by the sequence number modulo the window
  size (src/kext/RTW88IEEE80211.hpp:377).  The code takes it modulo 64, and the model follows the
  code.  That 64 divides 4096 is what makes the slots right when numbers wrap (`Reorder.SlotOfSn`).
* `nout < 64` never cuts a slide or a release of a received frame short, because one number
  of the window is always missing between steps (`ReorderSpec.InputKeeps`, `Reorder.RunFits`).
  In the timer pass the batch is shared by all TIDs: it cuts a release short exactly if the first
  runs of all TIDs have more than 64 frames together (`ReorderRuns.PassIsWholeExactly`,
  `ReorderRuns.PassCanBeCut`), and the rest waits for the next pass (`ReorderRuns.PassesDrain`).
* Two threads in `cancel_wait` on one call: a second one that takes the pending instance back
  while the first sleeps wakes nobody (`ThreadCallRuns.TwoCancellersCanSleepForever`).  Such a
  cancellation is the only way to lose a wake-up (`ThreadCallRuns.WakeupLostExactly`), so with one
  canceller at a time it cannot happen (`NoLostWakeup`).  That nothing is left when a wait
  returns holds for any number (`CancelWaitMeansQuiet`).
* `cancel_delayed_work` during `cancel_delayed_work_sync` of the same item can use the call of the
  timer after it has been freed (`DelayedWork.CancellersCanMeetOnFreedCall`): exactly at its use of
  the pointer it has read (`DelayedWork.TouchesFreedExactly`).  Once it has read the pointer, the
  other one can free the call first exactly if no callback has passed its test of the timer flag
  (`DelayedWorkReturns.CancellersMeetExactly`).  If the two never overlap it cannot happen
  (`DelayedWork.NoOverlapIsDefined`).  What a run does after such a step is undefined, and
  the statements on delayed work are for runs without one.
* Two sync cancellers of one work item: `canceling` is a flag, not a count, so the first to
  leave allows new submissions while the second still waits
  (`Workqueue.SecondCancellerReturnsTooEarly`).  The second is safe exactly while the flag is set
  (`Workqueue.CancelIsSafeExactly`), and with one canceller at a time it always is
  (`Workqueue.CancelReturnsMeansIdle`).
* Flushing a queue does not wait for accepted work whose timer has not fired
  (`Workqueue.FlushMissesWaitingWork`); with none of it the flush leaves everything settled, and
  only then (`Workqueue.FlushMeansSettled`).  Work whose timer fires after its queue was stopped and
  before it is freed is dropped, and only that (`Workqueue.StoppedQueueDropsWork`,
  `Workqueue.DroppedExactly`).
* `destroy_workqueue` frees the queue even if items still wait for their timers to get on it, and a
  timer function then reads the freed record (`Workqueue.TimerCanMeetFreedQueue`).  A freed queue is
  touched exactly by its owner's further use and by such a timer function
  (`Workqueue.TouchesFreedExactly`); a destruction leads to that exactly if an item is waiting when
  it frees the queue (`Workqueue.DestroyIsSafeExactly`).  Owners that see to this, as the comment
  at src/compat/rtw88_compat.c:199-200 asks, are safe in every run (`Workqueue.CarefulOwnersAreSafe`).
  A run of `Workqueue` is one in which no section touches a freed queue.
* `kern_sha1_update` adds its place in the buffer to the length in 32 bits.  Its test for a full
  buffer is right exactly if that sum stays below 2^32 (`Sha1Stream.FullTest`), and then the
  whole function is (`Sha1Stream.Context.Update`); no caller in the driver comes near.
* When the scan counter wraps, all networks count as just heard.  The age of a network is the
  number of scans since its last beacon exactly if no wrap came in between
  (`BssCache.AgeIsExactIff`, `BssCache.WrapMakesOldNetworksYoung`).
* A third handshake message is accepted without a first one before it.  The installed key was
  derived in the handshake exactly if a first message came since the keys were last cleared
  (`ConnectionSpec.InstalledKeyIsDerivedExactly`, `ConnectionSpec.ThirdMessageAloneConnects`).
* `rtw88ctl` copies names into 33 bytes, does not test their length, and prints them as strings.  A
  reply is safe exactly if each name that it reaches has at most 32 bytes, or 33 with a zero among
  them (`BssIpc.ParseList`, `BssIpc.NameFitsExactly`, `BssIpc.LongNameDoesNotFit`); the driver keeps
  names to 32 bytes.

## Model

| member | source | states |
|---|---|---|
| ReorderRuns.FramesConserved | src/kext/RTW88IEEE80211.cpp:1632-1794 | Over any run of set-ups, re-set-ups, frames, timer passes and teardowns on all eight TIDs, the multiset of frames delivered, freed and still buffered is exactly the multiset of frames handed in: none lost, none twice |
| ReorderRuns.DeliveredInOrder | src/kext/RTW88IEEE80211.cpp:1686-1794 | Over any run in which a TID is not renegotiated, the absolute numbers delivered for it are strictly increasing, none lies below the head of its start or at or above its head of now, and each frame carries the 12 low bits of its number |
| ReorderRuns.PassesDrain | src/kext/RTW88IEEE80211.cpp:1758-1794 | Without new input, as many timer passes as frames are buffered empty every TID, and deliver each of those frames exactly once |
| ReorderRuns.PassProgress | src/kext/RTW88IEEE80211.cpp:1758-1794 | If anything is buffered the timer is armed, one pass delivers at least one frame although all TIDs share one 64-frame batch, and the timer is armed again if anything is left |
| ReorderRuns.PassIsWholeExactly | src/kext/RTW88IEEE80211.cpp:1758-1786 | A pass releases the whole first run of every TID exactly if the lengths of these runs sum to at most 64 |
| ReorderRuns.PassCanBeCut | src/kext/RTW88IEEE80211.cpp:1777-1784 | A run from eight idle TIDs, two set-ups and 63 frames on each of the two, after which the shared batch cuts the next pass short |
| ReorderRuns.PassBatch | src/kext/RTW88IEEE80211.cpp:1758-1786 | The batch of a pass has as many frames as these runs together, at most 64 |
| ReorderRuns.PassKeeps | src/kext/RTW88IEEE80211.cpp:1765-1786 | A pass over any number of TIDs keeps every window valid, never batches more than 64 frames, conserves frames, reports every TID that still buffers something, and has taken a frame if any of the TIDs had one |
| ReorderRuns.PassLabelled | src/kext/RTW88IEEE80211.cpp:1765-1786 | A pass leaves every frame filed under a number whose 12 low bits it carries |
| ReorderRuns.SetupKeeps | src/kext/RTW88IEEE80211.cpp:1632-1653 | A set-up keeps the invariant (every window valid, stored below its size, each frame filed under its number, timer armed where frames wait) and frees what an old agreement buffered |
| ReorderRuns.TeardownKeeps | src/kext/RTW88IEEE80211.cpp:1655-1675 | A teardown keeps the invariant and accounts for every frame |
| ReorderRuns.SetupGives | src/kext/RTW88IEEE80211.cpp:1632-1653 | A set-up that is not turned down starts an empty window at the 12-bit start number, of size bufSize if that is 1 to 64 and of 64 otherwise; nothing else changes but that the old frames are freed |
| ReorderRuns.UnorderedFrame | src/kext/RTW88IEEE80211.cpp:1693-1698 | Without an agreement a frame is delivered at once, and nothing else changes |
| ReorderRuns.OrderedFrame | src/kext/RTW88IEEE80211.cpp:1700-1747 | With one, a frame is freed exactly if its number is behind the head or there already, nothing else is freed, and the timer is armed anew exactly if frames are left after a frame that was not behind the head |
| ReorderRuns.TimerFreesNothing | src/kext/RTW88IEEE80211.cpp:1758-1794 | A timer pass frees nothing and arms the timer again exactly if something is left |
| ReorderRuns.FrameValid | src/kext/RTW88IEEE80211.cpp:1686-1748 | A received frame keeps the invariant, so stored stays below the window size between steps |
| ReorderRuns.FrameTotal | src/kext/RTW88IEEE80211.cpp:1686-1748 | A received frame is accounted for exactly once, whichever branch it takes |
| ReorderRuns.TimerKeeps | src/kext/RTW88IEEE80211.cpp:1758-1794 | A timer pass keeps the invariant and accounts for every frame |
| ReorderRuns.StepKeeps | src/kext/RTW88IEEE80211.cpp:1632-1794 | Every step keeps the invariant and accounts for every frame |
| ReorderRuns.StepAdvances | src/kext/RTW88IEEE80211.cpp:1686-1794 | Every step that does not renegotiate a TID moves its head only forward and delivers for it only numbers between its old and its new head, in increasing order |
| ReorderComplete.DeliversReceivedPrefix | src/kext/RTW88IEEE80211.cpp:1700-1739 | If each arrival is inside the window of its moment or at most 2048 behind the head, the frames delivered are SSN, SSN+1, ... up to the first number not received, each once, each the first arrival of its number |
| ReorderComplete.OrderDoesNotMatter | src/kext/RTW88IEEE80211.cpp:1700-1739 | Two arrival sequences with the same set of numbers, in any order and with any repetition, deliver the same numbers and leave the same head |
| ReorderComplete.ExtendPrefix | src/kext/RTW88IEEE80211.cpp:1723-1739 | One more arrival inside the window extends the delivered prefix exactly as far as the received numbers reach |
| ReorderComplete.HeadIsLeastMissing | src/kext/RTW88IEEE80211.cpp:1700-1739 | After any arrivals less than 2048 away from the head of their moment, in any order, repeated or far ahead, the head is the least number not received from max(SSN, newest + 1 - size) on; delivered is exactly what came in time below it, in order, and what came in time from it on is kept |
| ReorderComplete.RefusedExactly | src/kext/RTW88IEEE80211.cpp:1700-1729 | An arrival is refused exactly if it comes behind the head of its moment or its number was received before |
| ReorderSpec.ResolveExact | src/kext/RTW88IEEE80211.cpp:1700-1705 | The distance test on 12-bit numbers finds the unbounded number of every frame within 2048 of the head, on both sides |
| ReorderSpec.ResolveBack | src/kext/RTW88IEEE80211.cpp:1700 | The number found for a frame has the 12 bits that the frame carries |
| ReorderSpec.InOrderSorted | src/kext/RTW88IEEE80211.cpp:1711-1739 | What a slide or release lists is sorted and holds exactly the buffered entries of its range |
| ReorderSpec.InOrderCounts | src/kext/RTW88IEEE80211.cpp:1711-1739 | The listing of a range has as many frames as the range buffers, and the same multiset of frames |
| ReorderSpec.StoredZero | src/kext/RTW88IEEE80211.cpp:1732-1740 | The counter is zero exactly when nothing is buffered |
| ReorderSpec.InputParts | src/kext/RTW88IEEE80211.cpp:1707-1739 | An arrival ahead of or inside the window is a slide to the new head, an insertion, and the release of the run at the head, in this order |
| ReorderSpec.InputKeeps | src/kext/RTW88IEEE80211.cpp:1700-1739 | One arrival keeps the window valid (one number of the window is always missing), moves the head only forward, leaves a hole at the head unless it was stale, and conserves frames |
| ReorderSpec.InputSlidesNoFarther | src/kext/RTW88IEEE80211.cpp:1700-1739 | The window slides no farther than the new frame needs: the frame lies below its end, each number passed is out of reach of the window or was there, all others are kept, and a frame is refused exactly if it is stale or a duplicate |
| ReorderSpec.InputOrder | src/kext/RTW88IEEE80211.cpp:1700-1739 | An arrival releases strictly increasing numbers between the old and the new head |
| ReorderSpec.InputLabelled | src/kext/RTW88IEEE80211.cpp:1700-1739 | Frames stay filed under a number whose 12 low bits they carry, and leave with it |
| ReorderSpec.FlushKeeps | src/kext/RTW88IEEE80211.cpp:1769-1785 | A timer pass over a window keeps it valid, conserves its frames, takes at most the room left, and takes at least one frame if there is room |
| ReorderSpec.FlushOrder | src/kext/RTW88IEEE80211.cpp:1769-1785 | A timer pass releases strictly increasing numbers between the old and the new head |
| ReorderSpec.FlushLabelled | src/kext/RTW88IEEE80211.cpp:1769-1785 | Frames released by the timer carry the 12 low bits of their number |
| Reorder.SnDifference | src/kext/RTW88IEEE80211.cpp:1700-1712 | The 12-bit difference of two numbers less than 4096 apart is their true difference |
| Reorder.SlotAt | src/kext/RTW88IEEE80211.cpp:1713-1724 | A slot of the 64-slot array is full exactly when the one number of the window that maps to it is buffered |
| Reorder.SlotApart | src/kext/RTW88IEEE80211.cpp:1713-1723 | Two different numbers of one window never share a slot |
| Reorder.SlotOfSn | src/kext/RTW88IEEE80211.cpp:1713-1723 | The 12-bit number and the unbounded one have the same slot, because 64 divides 4096 |
| Reorder.HoldsTake | src/kext/RTW88IEEE80211.cpp:1713-1719 | Emptying the head slot and advancing is removing the head number from the unbounded window |
| Reorder.HoldsSkip | src/kext/RTW88IEEE80211.cpp:1771-1776 | Advancing past an empty slot is moving the head of the unbounded window over a hole |
| Reorder.HoldsPut | src/kext/RTW88IEEE80211.cpp:1723-1729 | Filling an empty slot is inserting the number into the unbounded window |
| Reorder.HoldsRemove | src/kext/RTW88IEEE80211.cpp:1643-1645 | Emptying any slot removes exactly its frame from what is buffered |
| Reorder.RunFits | src/kext/RTW88IEEE80211.cpp:1732-1739 | A release that has room for all stored frames is never cut short by the limit of the batch |
| Reorder.FlushParts | src/kext/RTW88IEEE80211.cpp:1769-1784 | A timer pass skips exactly the leading holes and then releases the run that follows, as far as there is room |
| Reorder.RxReorder.Zeroed | src/kext/RTW88IEEE80211.cpp:1640-1641 | A zeroed record is inactive, with all slots empty |
| Reorder.RxReorder.TakeHead | src/kext/RTW88IEEE80211.cpp:1735-1738 | The head frame goes to the batch and the record stands for the window without it |
| Reorder.RxReorder.SkipHead | src/kext/RTW88IEEE80211.cpp:1774-1775 | Passing a hole changes the head and nothing else |
| Reorder.RxReorder.TakeSlot | src/kext/RTW88IEEE80211.cpp:1643-1644 | Emptying a slot hands out its frame and keeps the others |
| Reorder.RxReorder.Activate | src/kext/RTW88IEEE80211.cpp:1646-1651 | An activated record stands for the empty window at the start number |
| Reorder.RxReorder.Slide | src/kext/RTW88IEEE80211.cpp:1707-1721 | The slide ends exactly at the new head, no guard cuts it short, and the batch holds what fell out, in order |
| Reorder.RxReorder.Put | src/kext/RTW88IEEE80211.cpp:1723-1729 | The frame is buffered under its number, or reported as duplicate exactly if that number is buffered |
| Reorder.RxReorder.Release | src/kext/RTW88IEEE80211.cpp:1732-1739 | The run at the head is released as far as the batch has room, appended in order |
| Reorder.RxReorder.Admit | src/kext/RTW88IEEE80211.cpp:1707-1739 | Slide, insertion and release together are the arrival on the unbounded window |
| Reorder.RxReorder.Input | src/kext/RTW88IEEE80211.cpp:1700-1740 | The record under its lock does what the unbounded window does: same batch, same refusal, and the timer is wanted exactly if frames are left after an arrival that was not stale |
| Reorder.RxReorder.FlushStale | src/kext/RTW88IEEE80211.cpp:1769-1785 | The pass over one record is the pass over its unbounded window; the hole limit of 4096 is never reached |
| RxBa.Receiver.RxReorderInput | src/kext/RTW88IEEE80211.cpp:1686-1748 | The method on the real slots and counters is exactly the frame step of the receiver, including the branch without an agreement |
| RxBa.Receiver.RxBaSetup | src/kext/RTW88IEEE80211.cpp:1632-1653 | Exactly the set-up step: a TID out of range or a failed allocation change nothing, size 0 or above 64 becomes 64 |
| RxBa.Receiver.RxBaTeardown | src/kext/RTW88IEEE80211.cpp:1655-1675 | Exactly the teardown step; every buffered frame is freed |
| RxBa.Receiver.RxBaTeardownAll | src/kext/RTW88IEEE80211.cpp:1677-1684 | No TID has an agreement any more, every buffered frame is accounted for, deliveries and the timer are untouched |
| RxBa.Receiver.RxReorderFlushStale | src/kext/RTW88IEEE80211.cpp:1758-1794 | Exactly the timer step, with one batch shared by all TIDs |
| RxBa.Receiver.ReorderFrame | src/kext/RTW88IEEE80211.cpp:1700-1747 | The part with an agreement: window, deliveries, freed frames and timer as the unbounded window says |
| RxBa.Receiver.Restart | src/kext/RTW88IEEE80211.cpp:1642-1651 | An old agreement is emptied and its frames freed before the new one starts |
| RxBa.Receiver.Drop | src/kext/RTW88IEEE80211.cpp:1661-1674 | The agreement is gone and exactly its frames are freed |
| RxBa.Receiver.FreeSlots | src/kext/RTW88IEEE80211.cpp:1643-1644 | All slots are empty and exactly the buffered frames are freed |
| RxBa.Receiver.FlushRecord | src/kext/RTW88IEEE80211.cpp:1765-1786 | One TID of the pass: record, shared batch and rearming as in the pass over windows |
| RxBa.Receiver.DeliverAll | src/kext/RTW88IEEE80211.cpp:1743-1744 | The batch is delivered completely and in order |
| RxBa.Receiver.constructor | src/kext/RTW88IEEE80211.hpp:372-381 | A new receiver has no agreement, no frames, and no timer armed |
| ThreadCall.RtwCall.constructor | src/compat/rtw88_thread_call.c:39-52 | A new call is idle |
| ThreadCall.RtwCall.CallSubmit | src/compat/rtw88_thread_call.c:54-72 | Whole effect and result of a submission, with coalescing and retiming; the record keeps one native instance for its pending mark and none without it |
| ThreadCall.RtwCall.ThreadCallCancel | src/compat/rtw88_thread_call.c:77-87 | Whole effect and result of a cancellation that does not wait; the record keeps one native instance for its pending mark and none without it |
| ThreadCall.RtwCall.ThreadCallCancelWaitBegin | src/compat/rtw88_thread_call.c:89-96 | Whole effect of a waiting cancellation up to its loop; the record keeps one native instance for its pending mark and none without it |
| ThreadCall.RtwCall.ThreadCallCancelWaitTest | src/compat/rtw88_thread_call.c:97-101 | One test of the wait loop, and what leaving it changes; the record keeps one native instance for its pending mark and none without it |
| ThreadCall.RtwCall.CallDispatchEnter | src/compat/rtw88_thread_call.c:24-31 | A dequeued instance enters, and runs the callback only if no canceller is at work; the record keeps one native instance for its pending mark and none without it |
| ThreadCall.SubmissionPends | src/compat/rtw88_thread_call.c:54-72 | A submission is turned down exactly while a canceller waits, and then changes nothing; otherwise one instance is pending after it, queued exactly if it was still queued or there was none |
| ThreadCall.CancellationTakesBack | src/compat/rtw88_thread_call.c:77-96 | Both cancellations take an instance back exactly if it is still queued, and report that; the waiting one also marks the call |
| ThreadCall.DispatchRunsUnlessCancelled | src/compat/rtw88_thread_call.c:24-31 | A dequeued instance runs its callback exactly if no canceller waits at that moment |
| ThreadCallRuns.PendingMeansOneInstance | src/compat/rtw88_thread_call.c:24-102 | For every interleaving of submitters, cancellers and dispatches: pending holds exactly if one native instance is queued or dequeued but not entered, running counts the entered dispatches, and submissions, removals, dispatches and what is under way balance |
| ThreadCallRuns.StepKeeps | src/compat/rtw88_thread_call.c:24-102 | Every lock section keeps that invariant |
| ThreadCallRuns.CancelWaitMeansQuiet | src/compat/rtw88_thread_call.c:89-102 | Whatever the number of cancellers, a wait that returns leaves nothing queued, dequeued or running, and every submission so far was removed or dispatched |
| ThreadCallRuns.StrandsExactly | src/compat/rtw88_thread_call.c:89-102 | A step leaves a sleeper with nothing to wait for exactly if it is a waiting cancellation that takes the queued instance back while another canceller sleeps and nothing runs |
| ThreadCallRuns.WakeupLostExactly | src/compat/rtw88_thread_call.c:89-102 | Over every run, a sleeper is at some point left with nothing to wait for exactly if such a cancellation occurs in it |
| ThreadCallRuns.NoLostWakeup | src/compat/rtw88_thread_call.c:89-102 | With one waiting canceller at a time, in no prefix of the run does a canceller sleep with nothing to wait for |
| ThreadCallRuns.TwoCancellersCanSleepForever | src/compat/rtw88_thread_call.c:89-102 | With two waiting cancellers the wake-up can be lost: a run in which one sleeps although nothing is pending or running |
| DelayedWork.Reachable | src/compat/rtw88_compat.c:228-403 | Over every interleaving of queueing, cancelling, native delivery and callbacks, split at every unlocked access of the timer flag and of the pointer to the call, in which no step touches a freed call, the invariant of lock, call, callbacks and pending work holds |
| DelayedWork.TouchesFreedExactly | src/compat/rtw88_compat.c:386-403 | A step touches a freed call exactly if it is the cancellation inside del_timer, after its read of the pointer, and the call has been freed since |
| DelayedWork.CancellersCanMeetOnFreedCall | src/compat/rtw88_compat.c:299-324 | A run with one sync canceller in which cancel_delayed_work uses the call after del_timer_sync has freed it |
| DelayedWork.NoOverlapIsDefined | src/compat/rtw88_compat.c:299-324 | If cancel_delayed_work is never called while a sync cancellation of the delayed work is under way, no step of the run touches a freed call |
| DelayedWorkReturns.CancellersMeetExactly | src/compat/rtw88_compat.c:386-403 | When cancel_delayed_work has read the pointer to a call that a sync cancellation has not freed yet: without a step of the first the call can be freed under its hands exactly if no callback has passed its test of the timer flag, since such a callback needs the lock that the first one holds |
| DelayedWorkReturns.ProtectedRun | src/compat/rtw88_compat.c:344-403 | Such a callback keeps the call from being freed in every run in which the lock stays held |
| DelayedWork.StepKeeps | src/compat/rtw88_compat.c:228-403 | Every such step that touches no freed call keeps that invariant |
| DelayedWork.AcceptedWorkIsWitnessed | src/compat/rtw88_compat.c:240-259 | In such runs, whenever the state lock is free, an item that waits for its timer has an active timer with a callback queued, dequeued or before its test, or a callback that has passed the test and not yet taken the lock |
| DelayedWork.SyncCancelMeansGone | src/compat/rtw88_compat.c:286-314 | In such runs a sync cancellation returns only with the item neither pending nor executing; the delayed one also with the call freed and no callback queued, dequeued or running |
| DelayedWork.SubmissionsTaken | src/compat/rtw88_compat.c:201-259 | A submission is accepted exactly if the queue runs and the item is not pending, not being cancelled and not executing on another queue |
| DelayedWork.SubmissionArms | src/compat/rtw88_compat.c:252-258 | An accepted delayed submission ends with the timer switched on and one callback pending, if there is a call |
| DelayedWork.CancelDisarms | src/compat/rtw88_compat.c:316-324 | cancel_delayed_work ends with the item not pending, the timer switched off and no callback queued |
| DelayedWorkReturns.CancelCanReturnExactly | src/compat/rtw88_compat.c:286-314 | A sync cancellation under way can always be brought to its return by the steps of lock owner, callbacks, worker and canceller alone, none of them deadlocked, exactly unless the owner of the lock is about to use a freed call |
| DelayedWorkReturns.CancellerFinishes | src/compat/rtw88_compat.c:299-314 | With the lock free the canceller gets to its end, its waits included, whatever is queued, dequeued or running |
| DelayedWorkReturns.LockIsLetGo | src/compat/rtw88_compat.c:316-324 | The owner of the lock gets to its release without touching a freed call, if it is not about to |
| DelayedWork.Nearer | src/compat/rtw88_compat.c:228-259 | While accepted work waits, some internal step is possible that brings it nearer to its queue or onto it |
| DelayedWork.NeverFarther | src/compat/rtw88_compat.c:228-259 | No step of any thread but a cancellation takes accepted work farther away, and if it no longer waits it was moved to its queue |
| DelayedWork.HelpBringsNearer | src/compat/rtw88_compat.c:228-259 | Each helpful step brings accepted work nearer to its queue or onto it |
| DelayedWork.HelpStays | src/compat/rtw88_compat.c:228-259 | A helpful step stays possible and helpful, whatever other threads do short of a cancellation, until the work is nearer |
| DelayedWork.FewHelpfulStepsSuffice | src/compat/rtw88_compat.c:228-259 | In every run without cancellations, accepted work that is still waiting has seen fewer than nine helpful steps, so a fair run moves it |
| DelayedWork.AcceptedWorkReachesItsQueue | src/compat/rtw88_compat.c:228-259 | Within nine internal steps accepted work can always be brought onto its queue if that queue runs; from no state of the invariant is it stuck |
| DelayedWorkQueues.StepIsSection | src/compat/rtw88_compat.c:228-324 | Each step of the delayed item with its timer, call and callbacks is one section of the machine of the queues, or none of its business |
| DelayedWorkQueues.RunsAreQueueRuns | src/compat/rtw88_compat.c:228-324 | Every run of the delayed item that touches no freed call is a run of the queues with this item, in matching states |
| DelayedWorkQueues.CancelSettlesDelayedWork | src/compat/rtw88_compat.c:299-314 | At the last test of a sync cancellation of the item with its real timer every submission, delayed ones included, is over, and the item is on no list and on no worker |
| DelayedWorkQueues.WaitingWorkHasTicket | src/compat/rtw88_compat.c:240-259 | While the item waits for its timer and is not executing, exactly one submission of it waits, and all others are over |
| Workqueue.NeverTwiceAtOnce | src/compat/rtw88_compat.c:127-156 | In every run over any number of queues, items and threads, two workers never run the same item at once |
| Workqueue.PendingMeansListedOnce | src/compat/rtw88_compat.c:201-212 | In every run, pending 1 holds exactly if the item is on a list, that list is the one of its queue, it is there once; executing holds exactly if the worker of its queue runs it |
| Workqueue.CancelReturnsMeansIdle | src/compat/rtw88_compat.c:286-314 | With one sync canceller of an item at a time, it returns only with the item on no list and on no worker, and with every accepted submission of it, delayed ones included, over: run, cancelled or dropped |
| Workqueue.CancelIsSafeExactly | src/compat/rtw88_compat.c:286-314 | The last test of a sync canceller among any number: while the cancelling flag is set the item is idle and no queue accepts it; once another canceller has cleared it, every running queue accepts the item, and this canceller returns with it queued |
| Workqueue.CancelLetsGo | src/compat/rtw88_compat.c:292-296 | After the last test of a sync canceller the item is accepted again wherever it is not pending |
| Workqueue.FlushMeansSettled | src/compat/rtw88_compat.c:266-273 | Flushing a queue returns with every submission it ever accepted over exactly if no item waits for its timer to get on it; those accepted without a delay have run or been cancelled in any case, and on a queue that is not stopped nothing was dropped |
| Workqueue.FlushMissesWaitingWork | src/compat/rtw88_compat.c:266-273 | A run after which a flush returns at once while accepted delayed work for the queue still waits |
| Workqueue.SubmissionIsQueued | src/compat/rtw88_compat.c:201-222 | A submission is accepted exactly if the queue runs and the item is not pending, not being cancelled and not executing on another queue; then the item is the last of the list, pending there, also if it is executing on this queue, and the submission is on record; otherwise nothing changes |
| Workqueue.DelayedSubmissionWaits | src/compat/rtw88_compat.c:240-259 | With a delay it waits for its timer under the same condition, on no list; without a timer there is no submission |
| Workqueue.TimerQueuesOrDrops | src/compat/rtw88_compat.c:228-238 | The timer function puts waiting work at the end of the list of its running queue, drops it on a stopped one, and leaves other work alone |
| Workqueue.FateChangesExactly | src/compat/rtw88_compat.c:127-324 | Exactly which section puts a submission on its list, starts it, ends it and cancels it |
| Workqueue.WorkerRunsHead | src/compat/rtw88_compat.c:133-149 | A worker executes the head of its list, and afterwards both it and the item are idle again; nobody else is concerned |
| Workqueue.DroppedExactly | src/compat/rtw88_compat.c:228-238 | Over every run in which no section touches a freed queue, an accepted submission is dropped exactly if its timer function ran when its queue had been stopped and not yet freed |
| Workqueue.DropsExactly | src/compat/rtw88_compat.c:228-238 | No other section drops a submission |
| Workqueue.StoppedQueueDropsWork | src/compat/rtw88_compat.c:228-238 | A run after which accepted work has neither run nor been cancelled, and flush, item flush and sync cancel all return |
| Workqueue.TouchesFreedExactly | src/compat/rtw88_compat.c:127-324 | A section touches a freed queue exactly if the owner submits to it, flushes it or destroys it again, or if it is the timer function of an item that still waits to get on it; workers and cancellers never do |
| Workqueue.TimerCanMeetFreedQueue | src/compat/rtw88_compat.c:187-238 | A run after which a timer function reads a queue that destroy_workqueue has freed |
| Workqueue.DestroyIsSafeExactly | src/compat/rtw88_compat.c:187-200 | When destroy_workqueue frees a queue, owners that are careful from there on can still come to touch a freed queue exactly if some item was waiting for its timer to get on this one |
| Workqueue.CarefulOwnersAreSafe | src/compat/rtw88_compat.c:187-200 | If each queue is destroyed once, is not used after it has been freed, and is freed only with no item waiting for its timer to get on it, no section of any run touches a freed queue |
| Workqueue.CancelsEnabled | src/compat/rtw88_compat.c:275-324 | A cancellation never touches a freed queue |
| Workqueue.Settled | src/compat/rtw88_compat.c:326-333 | Flushing an item returns only when every submission of it is over; a dropped one was delayed and for a stopped queue |
| Workqueue.OldestFirst | src/compat/rtw88_compat.c:133-143 | A worker starts the submission that was put on its queue first of all that are still queued there |
| Workqueue.StepFates | src/compat/rtw88_compat.c:127-324 | Submissions only move forward: each is put on its list and started at most once, and never after it was cancelled or dropped |
| Workqueue.StoppedDrains | src/compat/rtw88_compat.c:187-197 | A stopped queue takes nothing new, each step of its worker shortens what remains, and it ends only empty |
| Workqueue.StoppedWorkerGoesOn | src/compat/rtw88_compat.c:127-156 | The worker of a stopped queue can always go on, and can end exactly when nothing remains |
| Workqueue.QueueEndsAlone | src/compat/rtw88_compat.c:152-197 | Stopping, ending and freeing concern one queue alone, and leave its list as it is |
| Workqueue.SecondCancellerReturnsTooEarly | src/compat/rtw88_compat.c:286-297 | A run in which the second of two sync cancellers returns while the item is queued again |
| Workqueue.Reachable | src/compat/rtw88_compat.c:127-333 | The invariant of lists, flags, workers and counters holds in every run |
| Workqueue.StepKeeps | src/compat/rtw88_compat.c:127-333 | Every lock section keeps that invariant |
| Workqueue.QueueKeeps | src/compat/rtw88_compat.c:201-212 | Queueing keeps it, on whichever queue and in whichever state the item is |
| Workqueue.LaterKeeps | src/compat/rtw88_compat.c:240-259 | Queueing with a delay keeps it |
| Workqueue.TimerKeeps | src/compat/rtw88_compat.c:228-238 | The timer function keeps it, whether the queue takes the item or is stopped |
| Workqueue.CancelKeeps | src/compat/rtw88_compat.c:286-314 | Beginning a sync cancellation keeps it, for any number of cancellers |
| Workqueue.RemoveKeeps | src/compat/rtw88_compat.c:275-284 | Removing a pending item keeps it and leaves the item not pending |
| Workqueue.TakeKeeps | src/compat/rtw88_compat.c:137-142 | Taking the first item keeps it |
| Workqueue.FinishKeeps | src/compat/rtw88_compat.c:145-149 | Finishing an item keeps it |
| WorkqueueWakeups.EndedWaitIsWoken | src/compat/rtw88_compat.c:127-333 | Every lock section that ends the wait of a worker, flusher, canceller or destroyer wakes the channel that it sleeps on |
| WorkqueueWakeups.NoWakeupIsMissed | src/compat/rtw88_compat.c:127-333 | In every run, whoever is asleep still has its reason to wait |
| WorkqueueLocked.WorkSystem.constructor | src/compat/rtw88_compat.c:158-179 | New queues and items with rings of their own stand for the start of the machine |
| WorkqueueLocked.WorkSystem.AddTail | src/compat/rtw88_compat.c:209-209 | The real cells: the entry joins the ring of its queue at the end, and every ring still spells its queue, no item on two of them |
| WorkqueueLocked.WorkSystem.TakeOut | src/compat/rtw88_compat.c:139-139 | The real cells: the entry leaves the ring, and every ring still spells its queue |
| WorkqueueLocked.WorkSystem.FirstWork | src/compat/rtw88_compat.c:137-138 | The item whose entry follows the head is the first of the queue |
| WorkqueueLocked.WorkSystem.QueueWorkLocked | src/compat/rtw88_compat.c:201-212 | The fields after the call are those of the machine; the result tells whether the item was accepted |
| WorkqueueLocked.WorkSystem.QueueWork | src/compat/rtw88_compat.c:214-222 | The whole submission under the lock is one step of the machine; it returns true exactly if the queue runs and the item is not pending, not being cancelled and not executing elsewhere, exactly then one more submission is on record, and the item ends the list of the queue |
| WorkqueueLocked.WorkSystem.QueueDelayedWork | src/compat/rtw88_compat.c:240-259 | It returns true exactly under that condition and with a timer; exactly then one more submission is on record and the item waits for its timer, on no list |
| WorkqueueLocked.WorkSystem.DelayedWorkTimerFn | src/compat/rtw88_compat.c:228-238 | The timer function moves waiting work to its queue exactly as the machine does |
| WorkqueueLocked.WorkSystem.WorkerTake | src/compat/rtw88_compat.c:137-142 | The oldest entry leaves the list and becomes the item that executes; everything else is as before |
| WorkqueueLocked.WorkSystem.WorkerFinish | src/compat/rtw88_compat.c:145-149 | The item no longer executes and the active count drops; everything else is as before |
| WorkqueueLocked.WorkSystem.WorkerEnd | src/compat/rtw88_compat.c:152-154 | The worker of a stopped and empty queue reports that it is done |
| WorkqueueLocked.WorkSystem.DestroyBegin | src/compat/rtw88_compat.c:190-192 | From here on the queue accepts nothing; its list stays |
| WorkqueueLocked.WorkSystem.DestroyTest | src/compat/rtw88_compat.c:193-196 | One test of the wait loop: it is left exactly when the worker has ended, and then the record is freed |
| WorkqueueLocked.WorkSystem.FlushQueueTest | src/compat/rtw88_compat.c:266-273 | One test of the wait loop on the real ring: it is left exactly when the list is empty and nothing is active |
| WorkqueueLocked.WorkSystem.RemovePendingWork | src/compat/rtw88_compat.c:275-284 | The item leaves its list or stops waiting; the result tells whether it was pending |
| WorkqueueLocked.WorkSystem.CancelSyncBegin | src/compat/rtw88_compat.c:286-305 | The item is marked and leaves its list or stops waiting, in one step of the machine; the result tells whether it was pending |
| WorkqueueLocked.WorkSystem.CancelSyncTest | src/compat/rtw88_compat.c:292-296 | One test of the wait loop: it is left exactly when the item does not execute |
| WorkqueueLocked.WorkSystem.CancelDelayedWork | src/compat/rtw88_compat.c:316-324 | The item leaves its list or stops waiting; the result tells whether it was pending |
| WorkqueueLocked.WorkStruct.constructor | src/compat/linux/workqueue.h:39-43 | A new item is idle, on no queue |
| WorkqueueLocked.WorkqueueStruct.constructor | src/compat/rtw88_compat.c:158-178 | A new queue is empty and running |
| IntrusiveList.ListHead.constructor | src/compat/linux/types.h:152-155 | A new head is an empty ring |
| IntrusiveList.ListHead.Init | src/compat/linux/types.h:152-155 | Initialising makes an empty ring |
| IntrusiveList.ListEmpty | src/compat/linux/types.h:179-182 | The test tells exactly whether the ring has entries |
| IntrusiveList.ListLink | src/compat/linux/types.h:156-160 | Exactly the four links change |
| IntrusiveList.ListAddTail | src/compat/linux/types.h:161-164 | The ring becomes the ring with the new cell as its last entry, forwards and backwards |
| IntrusiveList.ListDel | src/compat/linux/types.h:169-174 | The ring becomes the ring without the entry, the others in their order; the links of the entry are cleared |
| IntrusiveList.ListDelInit | src/compat/linux/types.h:175-178 | The ring becomes the ring without the entry, the others in their order, and the entry ends as an empty ring |
| IntrusiveList.ListFirst | src/compat/rtw88_compat.c:137-138 | The cell after the head is the oldest entry |
| Sha1.SwapLoads | src/kext/RTW88IEEE80211.cpp:61-61 | Swapping the bytes of a little-endian load gives the big-endian word |
| Sha1.FastChoice | src/kext/RTW88IEEE80211.cpp:64-65 | The short form of the choice function is Ch of FIPS 180-4 |
| Sha1.FastMajority | src/kext/RTW88IEEE80211.cpp:67-67 | The short form of the majority function is Maj of FIPS 180-4 |
| Sha1.SumOrder | src/kext/RTW88IEEE80211.cpp:64-68 | The in-place sum, in its order, is the temporary word of section 6.1.2 |
| Sha1.WindowMoves | src/kext/RTW88IEEE80211.cpp:61-62 | Overwriting one slot of the 16-word circular buffer keeps it the last 16 words of the 80-word schedule |
| Sha1.Blk0 | src/kext/RTW88IEEE80211.cpp:61-61 | The word of the round, for the first 16 rounds |
| Sha1.Blk | src/kext/RTW88IEEE80211.cpp:62-62 | The word of the round from slots 13, 8, 2 and 0 ahead, for rounds 16 to 79 |
| Sha1.R0 | src/kext/RTW88IEEE80211.cpp:64-64 | One macro call with rotated roles is one turn of the loop of section 6.1.2 |
| Sha1.R1 | src/kext/RTW88IEEE80211.cpp:65-65 | One macro call that schedules its word is one turn, rounds 16 to 19 |
| Sha1.R2 | src/kext/RTW88IEEE80211.cpp:66-66 | One macro call with the parity function is one turn, rounds 20 to 39 |
| Sha1.R3 | src/kext/RTW88IEEE80211.cpp:67-67 | One macro call with the short majority function is one turn, rounds 40 to 59 |
| Sha1.R4 | src/kext/RTW88IEEE80211.cpp:68-68 | One macro call with the parity function is one turn, rounds 60 to 79 |
| Sha1.Rounds0 | src/kext/RTW88IEEE80211.cpp:79-83 | The twenty calls with written-out roles are turns 0 to 19 |
| Sha1.Rounds20 | src/kext/RTW88IEEE80211.cpp:84-88 | The twenty calls with written-out roles are turns 20 to 39 |
| Sha1.Rounds40 | src/kext/RTW88IEEE80211.cpp:89-93 | The twenty calls with written-out roles are turns 40 to 59 |
| Sha1.Rounds60 | src/kext/RTW88IEEE80211.cpp:94-98 | The twenty calls with written-out roles are turns 60 to 79 |
| Sha1.Transform | src/kext/RTW88IEEE80211.cpp:70-100 | For every state and block the transform is the compression function over the 80-word schedule |
| Sha1Vector.HashOfAbc | src/kext/RTW88IEEE80211.cpp:70-146 | The hash value of "abc" under the specification is the one of FIPS 180; it fixes every constant, rotation, function and byte order |
| Sha1Spec.PadZerosLeast | src/kext/RTW88IEEE80211.cpp:136-141 | The padding has as few zeros as fill the last block |
| Sha1Spec.FoldInOrder | src/kext/RTW88IEEE80211.cpp:121-123 | The blocks are compressed in order, each on the value left by those before it |
| Sha1Stream.CountCarries | src/kext/RTW88IEEE80211.cpp:113-116 | The two 32-bit words with the carry and the shift by 29 keep the length in bits modulo 2^64 |
| Sha1Stream.Context.constructor | src/kext/RTW88IEEE80211.cpp:102-109 | A new context has been given the empty message |
| Sha1Stream.Context.CountMore | src/kext/RTW88IEEE80211.cpp:113-117 | The counter grows by the length, and the place in the buffer is the length of the tail |
| Sha1Stream.Context.Blocks | src/kext/RTW88IEEE80211.cpp:121-123 | The loop compresses every whole block that is left and stops before the tail |
| Sha1Stream.Context.Update | src/kext/RTW88IEEE80211.cpp:111-129 | With 32-bit indices, a context that holds m holds m + data afterwards: hash value, buffered tail and counter |
| Sha1Stream.FullTest | src/kext/RTW88IEEE80211.cpp:113-126 | The 32-bit test for a full buffer is right exactly if the place in the buffer and the length add up to less than 2^32 |
| Sha1Stream.LastZero | src/kext/RTW88IEEE80211.cpp:136-141 | The padding loop stops exactly at the padding length of section 5.1.1 |
| Sha1Stream.CountBytes | src/kext/RTW88IEEE80211.cpp:132-135 | The eight bytes taken out of the counter are the 64-bit length |
| Sha1Stream.Context.Final | src/kext/RTW88IEEE80211.cpp:131-146 | For every message below 2^61 bytes, however it was split, the digest is the hash of section 6.1 |
| KeyDerivation.HashPieces | src/kext/RTW88IEEE80211.cpp:173-176 | A message handed over in any pieces hashes like the whole |
| KeyDerivation.MaskPads | src/kext/RTW88IEEE80211.cpp:168-171 | Both pads are masked, each with its byte, everywhere |
| KeyDerivation.HmacSha1 | src/kext/RTW88IEEE80211.cpp:148-182 | HMAC-SHA1 of RFC 2104 for keys of any length: longer ones are hashed first |
| KeyDerivation.HmacBytes | src/kext/RTW88IEEE80211.cpp:148-182 | Both pads byte by byte: the key, or the hash of a longer one, under 0x36 inside and 0x5c outside |
| KeyDerivation.Pbkdf2Block | src/kext/RTW88IEEE80211.cpp:197-207 | One block: the exclusive or of 4096 iterates |
| KeyDerivation.DerivePmk | src/kext/RTW88IEEE80211.cpp:184-215 | PBKDF2 of RFC 8018 with 4096 iterations over the first 120 bytes of the network name, cut to 32 bytes |
| KeyDerivation.PmkBytes | src/kext/RTW88IEEE80211.cpp:184-215 | Each of the 32 bytes is the exclusive or of 4096 iterates: bytes 0 to 19 of block 1, bytes 20 to 31 of block 2, the first iterate being the HMAC of the salt and the number of the block in four bytes |
| KeyDerivation.LessIsTotal | src/kext/RTW88IEEE80211.cpp:221-230 | Of two different byte strings of one length exactly one is less, so both ends put the two addresses and nonces in the same order |
| KeyDerivation.LessAtDifference | src/kext/RTW88IEEE80211.cpp:221-234 | The order is decided by the first byte in which the two differ |
| KeyDerivation.PtkData | src/kext/RTW88IEEE80211.cpp:217-243 | The 76 bytes that are hashed: the lesser and the greater address, then the lesser and the greater nonce |
| KeyDerivation.PrfInput | src/kext/RTW88IEEE80211.cpp:236-257 | Block i is the HMAC of the label "Pairwise key expansion", a zero, those bytes and i |
| KeyDerivation.BothEndsAgree | src/kext/RTW88IEEE80211.cpp:217-258 | Swapping the roles of the two ends gives the same key |
| KeyDerivation.DerivePtk | src/kext/RTW88IEEE80211.cpp:217-258 | The 64-byte key of the pseudo-random function over the ordered addresses and nonces |
| AesTables.TablesInvert | src/kext/RTW88IEEE80211.cpp:260-296 | The two tables of the source are inverse permutations of all 256 bytes |
| AesSbox.SboxIsAffineInverse | src/kext/RTW88IEEE80211.cpp:260-277 | Every entry of the table is the affine image, by section 5.1.1 of FIPS 197, of the only inverse of its index in the field; that of 0 is the image of 0 |
| AesSbox.OnlyInverse | src/kext/RTW88IEEE80211.cpp:303-312 | Under the product of the source a byte has at most one inverse |
| AesSbox.TimesCommutes | src/kext/RTW88IEEE80211.cpp:303-312 | The product of the source is commutative |
| AesSbox.TimesAssociates | src/kext/RTW88IEEE80211.cpp:303-312 | And associative |
| AesField.XtimeAdds | src/kext/RTW88IEEE80211.cpp:298-301 | Doubling is additive |
| AesField.TimesStep | src/kext/RTW88IEEE80211.cpp:306-310 | One turn of the multiplication loop moves one term into the sum |
| AesField.Mul | src/kext/RTW88IEEE80211.cpp:303-312 | The loop computes the product, for all pairs of bytes |
| AesProduct.TimesAddsRight | src/kext/RTW88IEEE80211.cpp:303-312 | The product distributes over sums in its second factor |
| AesProduct.TimesAddsLeft | src/kext/RTW88IEEE80211.cpp:303-312 | And in its first factor |
| AesProduct.TimesOne | src/kext/RTW88IEEE80211.cpp:303-312 | 1 is the unit |
| AesProduct.EighthPower | src/kext/RTW88IEEE80211.cpp:298-301 | Eight doublings reduce by the polynomial of FIPS 197, section 4.2 |
| AesProduct.TimesXtime | src/kext/RTW88IEEE80211.cpp:303-312 | Multiplying by a doubled factor doubles the product |
| AesProduct.TimesIsProduct | src/kext/RTW88IEEE80211.cpp:303-312 | The product of the source has all the laws of the field product |
| AesProduct.OnlyProduct | src/kext/RTW88IEEE80211.cpp:303-312 | Any operation with these laws is that product, so the loop computes no other one |
| AesMix.MixForm | src/kext/RTW88IEEE80211.cpp:351-361 | The column transformation as a sum with one doubling |
| AesMix.InvForm | src/kext/RTW88IEEE80211.cpp:351-361 | The inverse transformation as that sum and two corrections |
| AesMix.InvAfterMix | src/kext/RTW88IEEE80211.cpp:351-361 | The inverse column transformation undoes the column transformation |
| AesMix.MixAfterInv | src/kext/RTW88IEEE80211.cpp:351-361 | And is undone by it |
| AesSpec.SubBytesInvert | src/kext/RTW88IEEE80211.cpp:346-349 | The byte substitutions invert each other |
| AesSpec.ShiftRowsInvert | src/kext/RTW88IEEE80211.cpp:338-344 | The row shifts invert each other |
| AesSpec.MixColumnsInvert | src/kext/RTW88IEEE80211.cpp:351-361 | The column transformations invert each other, for all states |
| AesSpec.AddRoundKeyInverts | src/kext/RTW88IEEE80211.cpp:333-336 | Adding a round key twice changes nothing |
| AesSpec.RoundsUndone | src/kext/RTW88IEEE80211.cpp:363-380 | After the inverse rounds down to a round, what is left is the state of the cipher at that round |
| AesSpec.RoundsRedone | src/kext/RTW88IEEE80211.cpp:363-380 | And the same the other way round |
| AesSpec.CipherInverts | src/kext/RTW88IEEE80211.cpp:363-380 | For every key and block, the inverse cipher undoes the Cipher of section 5.1 under the key schedule of section 5.2, and is undone by it |
| AesVector.CipherOfExample | src/kext/RTW88IEEE80211.cpp:363-380 | The encryption of appendix B of FIPS 197 from the definitions; it fixes the layers, their direction, number and order |
| AesVector.KeysOfExample | src/kext/RTW88IEEE80211.cpp:314-331 | All eleven round keys of appendix A.1 of FIPS 197 |
| AesVector.FirstWordMade | src/kext/RTW88IEEE80211.cpp:319-329 | The first word made for that key is a0fafe17 |
| AesVector.TurnedWord | src/kext/RTW88IEEE80211.cpp:319-329 | Byte by byte, every fourth word is the sum of the word four back, the substituted bytes of the word before turned round by one, and a power of two in byte 0 |
| AesVector.PlainWord | src/kext/RTW88IEEE80211.cpp:318-330 | The other words are the sum of the word four back and the word before |
| AesVector.RoundByte | src/kext/RTW88IEEE80211.cpp:338-361 | Byte by byte, a round is twice the substituted byte on its diagonal, three times the next, the two others, and the round key |
| Aes.RoundConstants | src/kext/RTW88IEEE80211.cpp:316-316 | The ten constants are the powers of two in the field |
| Aes.ScheduleWord | src/kext/RTW88IEEE80211.cpp:319-327 | The word to add, rotated, substituted and with its constant at every fourth word |
| Aes.AddWord | src/kext/RTW88IEEE80211.cpp:328-329 | The next word is the sum, everything before is untouched |
| Aes.ExpandWord | src/kext/RTW88IEEE80211.cpp:318-330 | One turn extends the schedule by one word |
| Aes.KeyExpand | src/kext/RTW88IEEE80211.cpp:314-331 | The buffer holds the 44 words of the key schedule of section 5.2 |
| Aes.RoundKeyBytes | src/kext/RTW88IEEE80211.cpp:369-378 | The bytes at 16 times the round are that round key |
| Aes.AddKey | src/kext/RTW88IEEE80211.cpp:333-336 | In place, the state plus the round key |
| Aes.InvShift | src/kext/RTW88IEEE80211.cpp:338-344 | The moves through one temporary are the inverse row shift |
| Aes.InvSub | src/kext/RTW88IEEE80211.cpp:346-349 | In place, the inverse substitution |
| Aes.InvMixColumn | src/kext/RTW88IEEE80211.cpp:353-360 | One column is replaced, the others are untouched |
| Aes.InvMix | src/kext/RTW88IEEE80211.cpp:351-361 | In place, the inverse column transformation |
| Aes.DecryptBlock | src/kext/RTW88IEEE80211.cpp:363-380 | Decryption of a block is the inverse cipher, hence the inverse of encryption |
| KeyWrap.UnwrapAfterWrap | src/kext/RTW88IEEE80211.cpp:382-420 | For every key and 1 to 32 blocks, unwrapping the wrapping of section 2.2.1 of RFC 3394 succeeds and returns the plaintext |
| KeyWrap.WrapByShifting | src/kext/RTW88IEEE80211.cpp:382-420 | That wrapping is the one that section 2.2.1 states by shifting registers, from eight bytes 0xa6 through six turns over the blocks |
| KeyWrap.WrapAfterUnwrap | src/kext/RTW88IEEE80211.cpp:382-420 | Whenever unwrapping succeeds, wrapping its output again gives back its input: no other input is accepted |
| KeyWrap.StepsInvert | src/kext/RTW88IEEE80211.cpp:398-410 | One step of each loop undoes the other |
| KeyWrap.UnwoundWrapped | src/kext/RTW88IEEE80211.cpp:398-410 | Undoing the steps of a wrapping down to any step gives its state at that step |
| KeyWrap.WrappedUnwound | src/kext/RTW88IEEE80211.cpp:398-410 | And the same the other way round |
| KeyWrap.XorCounter | src/kext/RTW88IEEE80211.cpp:403-404 | The loop that stops early adds the full 64-bit counter |
| KeyWrap.CounterInLastByte | src/kext/RTW88IEEE80211.cpp:402-404 | Below 256 the counter changes only the last byte of the register |
| KeyWrap.UnwrapOnce | src/kext/RTW88IEEE80211.cpp:400-408 | One turn is one step backwards |
| KeyWrap.UnwrapLoops | src/kext/RTW88IEEE80211.cpp:398-410 | The nested loops undo all steps |
| KeyWrap.LoadBlocks | src/kext/RTW88IEEE80211.cpp:394-396 | The blocks are those of the input |
| KeyWrap.StoreBlocks | src/kext/RTW88IEEE80211.cpp:416-417 | The output is the blocks in their order |
| KeyWrap.Unwrap128 | src/kext/RTW88IEEE80211.cpp:382-420 | The method is that unwrapping, with every refusal: bad length, too many blocks, wrong initial value |
| ConnectionSpec.Reachable | src/kext/RTW88IEEE80211.cpp:1055-3601 | The invariant of state, keys, packet number and transmitted frames holds after every run of handlers |
| ConnectionSpec.StepKeeps | src/kext/RTW88IEEE80211.cpp:1055-3601 | Every handler keeps that invariant |
| ConnectionSpec.ConnectedMeansKeyed | src/kext/RTW88IEEE80211.cpp:2007-2032 | After every run the scan return state is IDLE, and CONNECTED on a network with the privacy bit means WPA2 with an installed pairwise key |
| ConnectionPaths.JoinedInOrder | src/kext/RTW88IEEE80211.cpp:1162-2883 | In every run, a station that is associating has had its authentication accepted since this attempt began; one that is handshaking or connected, then its association; one connected with WPA2, then a good third message with all its keys installed |
| ConnectionPaths.PhaseIsNext | src/kext/RTW88IEEE80211.cpp:1055-3601 | Phase by phase, exactly which events end it and where they lead |
| ConnectionPaths.PeerChangesExactly | src/kext/RTW88IEEE80211.cpp:2200-2797 | Exactly which events add and release the peer, and begin and end a manual scan |
| ConnectionPaths.AttemptBegins | src/kext/RTW88IEEE80211.cpp:2208-2243 | An attempt begins with the network asked for, WPA2 exactly for CCMP, and without keys, peer or pending cancellation |
| ConnectionPaths.DisconnectClears | src/kext/RTW88IEEE80211.cpp:2725-2797 | A disconnect by command, power-off or handshake timeout leaves neither keys nor peer |
| ConnectionPaths.PowerChanges | src/kext/RTW88IEEE80211.cpp:2733-2763 | Exactly when there is power after a power command |
| ConnectionPaths.PacketGoesOut | src/kext/RTW88IEEE80211.cpp:3362-3488 | A packet of a connected station with its peer is exactly one frame if sent, to the network in use, protected exactly under WPA2 with a key and not for EAPOL, and takes exactly then a packet number |
| ConnectionPaths.HandshakeIsAnswered | src/kext/RTW88IEEE80211.cpp:2821-2883 | Each good handshake message is answered by one unprotected EAPOL frame |
| ConnectionPaths.HeaderBytes | src/kext/RTW88IEEE80211.cpp:3432-3440 | The eight bytes of the CCMP header in terms of the packet number |
| ConnectionSpec.DataIsProtected | src/kext/RTW88IEEE80211.cpp:3386-3441 | After every run, each data frame but EAPOL handed to the hardware for a network with the privacy bit is protected and carries a CCMP header that tells its packet number |
| ConnectionSpec.HeaderTellsPn | src/kext/RTW88IEEE80211.cpp:3432-3440 | A receiver reads back from the CCMP header the packet number that was put in |
| ConnectionSpec.PacketNumbersUnique | src/kext/RTW88IEEE80211.cpp:3427-3441 | Of two protected frames sent between two clearings of the keys the later has the larger place, and they carry the same packet number exactly if their places differ by a multiple of 2^48 |
| ConnectionSpec.InstallsStartFresh | src/kext/RTW88IEEE80211.cpp:2867-2874 | A pairwise key is installed only when none of its packet numbers has been used |
| ConnectionSpec.CounterOnlyGrows | src/kext/RTW88IEEE80211.cpp:2821-2883 | However a run goes on, repeated handshake messages included, until the keys are next cleared the number of packet numbers used and the frames sent only grow, and the counter is that number modulo 2^48 |
| ConnectionSpec.InstalledKeyIsDerivedExactly | src/kext/RTW88IEEE80211.cpp:2821-2874 | The pairwise key that a third message installs was derived from a first message exactly if one has been answered since the keys were last cleared |
| ConnectionSpec.ThirdMessageAloneConnects | src/kext/RTW88IEEE80211.cpp:2830-2883 | A run that gets connected to a protected network by a third message alone, with a key that no first message derived |
| Connection.IncrementCounts | src/kext/RTW88IEEE80211.cpp:3427-3430 | The loop with its early stop counts modulo a power of 256 |
| Connection.TakePacketNumber | src/kext/RTW88IEEE80211.cpp:3427-3430 | In place, the six bytes plus one |
| Connection.NextNumber | src/kext/RTW88IEEE80211.cpp:3427-3430 | The packet number grows by one modulo 2^48 |
| Connection.BytesOfValue | src/kext/RTW88IEEE80211.cpp:3433-3440 | The six bytes are those of the packet number, least significant first |
| Connection.Station.ClearAllKeys | src/kext/RTW88IEEE80211.cpp:693-717 | Both keys and the packet number are gone; nothing else changes |
| Connection.Station.DoDisconnect | src/kext/RTW88IEEE80211.cpp:2765-2797 | Keys and peer gone, state IDLE |
| Connection.Station.InstallKey | src/kext/RTW88IEEE80211.cpp:747-794 | A key whose length does not fit its cipher changes nothing; otherwise the slot holds the new key, or none if the hardware refused it; the packet number restarts only with an accepted pairwise key |
| Connection.Station.TxDataFrame | src/kext/RTW88IEEE80211.cpp:3362-3488 | The whole effect of a transmission, for frames dropped early, lost late, or sent |
| Connection.Station.OnScanDone | src/kext/RTW88IEEE80211.cpp:1983-1993 | A scan that ends goes back to its return state and leaves nothing of itself behind; without a scan nothing changes |
| Connection.Station.AbortActiveScan | src/kext/RTW88IEEE80211.cpp:1923-1954 | The scan is over unless it is a manual one that has not ended in time, which alone is reported as refusal |
| Connection.Station.OnCmdScan | src/kext/RTW88IEEE80211.cpp:2007-2127 | A scan starts only from IDLE and powered on; where memory, channels or a scanner are missing the state is IDLE again |
| Connection.Station.OnManualScanEnd | src/kext/RTW88IEEE80211.cpp:2185-2193 | The end of the manual scan ends the scan and clears its marks, also if the state has been left meanwhile |
| Connection.Station.OnManualScanChannel | src/kext/RTW88IEEE80211.cpp:2149-2183 | Only in a manual scan of a connected station is the home channel marked as such |
| Connection.Station.ConnectTarget | src/kext/RTW88IEEE80211.cpp:2208-2243 | Old keys and peer go first; a protected network without CCMP and PSK, a key for an open one, or no secret for a protected one is refused; otherwise authentication starts with WPA2 exactly for CCMP |
| Connection.Station.OnCmdConnect | src/kext/RTW88IEEE80211.cpp:2200-2251 | A connection starts only from IDLE, after a scan that could be ended, with a proper name and power; otherwise neither keys nor target change |
| Connection.Station.OnAuthResponse | src/kext/RTW88IEEE80211.cpp:1162-1177 | Only a valid answer while authenticating and not cancelled counts: acceptance leads to association, rejection or a failed transmission to IDLE |
| Connection.Station.OnAssocResponse | src/kext/RTW88IEEE80211.cpp:2375-2473 | Only a valid answer while associating and not cancelled counts: acceptance adds the peer and leads to the handshake under WPA2 and to CONNECTED otherwise |
| Connection.Station.OnDeauth | src/kext/RTW88IEEE80211.cpp:1193-1229 | A frame from the network in use, addressed to us, clears the keys and goes to IDLE from CONNECTED, HANDSHAKING or a scan that returns there; any other changes nothing |
| Connection.Station.OnHandshakeM1 | src/kext/RTW88IEEE80211.cpp:2821-2829 | While handshaking an EAPOL answer goes out and the state stays; at any other time nothing changes |
| Connection.Station.InstallKeys | src/kext/RTW88IEEE80211.cpp:2867-2874 | Both installs, in order, stopping at the first refusal |
| Connection.Station.OnHandshakeM3 | src/kext/RTW88IEEE80211.cpp:2830-2883 | CONNECTED is reached exactly if the MIC and the key data are good and every install succeeds, after the EAPOL answer; a refused install leaves its slot empty, one that does not fit leaves it as it was |
| Connection.Station.OnTimer | src/kext/RTW88IEEE80211.cpp:3562-3601 | A timeout ends an offloaded scan and the association, disconnects a handshake, and leaves a manual scan and every other state as they are |
| Connection.Station.OnCmdDisconnect | src/kext/RTW88IEEE80211.cpp:2725-2731 | Authentication is cancelled; any state but IDLE loses keys and peer and becomes IDLE |
| Connection.Station.OnCmdPowerOn | src/kext/RTW88IEEE80211.cpp:2733-2739 | Power comes only if the start succeeds, and DISCONNECTING ends |
| Connection.Station.OnCmdPowerOff | src/kext/RTW88IEEE80211.cpp:2741-2763 | Keys, peer and power are gone and the state is IDLE from every state, except that a manual scan that does not end refuses |
| Connection.Station.OnOutputPacket | src/kext/RTW88IEEE80211.cpp:1099-1115 | A packet goes out exactly when connected, or in a scan that returns there and is not manual or is on the home channel; otherwise nothing changes |
| Connection.Station.constructor | src/kext/RTW88IEEE80211.hpp:295-344 | A new station is idle, powered off, without keys, with packet number 0 |
| BssCache.BssList.constructor | src/kext/RTW88IEEE80211.hpp:319-322 | A new list is empty, its generation 0 |
| BssCache.CacheIsTheRecentNetworks | src/kext/RTW88IEEE80211.cpp:1442-2028 | After every run, for every BSSID: it is in the list exactly if it has been heard and no completed scan since then met it too old and not in use; it is there once, with what its last beacon said, and its age follows from the scans started since; the count is the length |
| BssCache.AgeIsExactIff | src/kext/RTW88IEEE80211.cpp:1968-2028 | The age of a listed network is the number of scans started since its last beacon exactly if the counter has not wrapped since; it is never more |
| BssCache.WrapMakesOldNetworksYoung | src/kext/RTW88IEEE80211.cpp:2021-2028 | A run of 2^32 scans after which a network not heard since before the first of them counts as just heard, and a completed scan keeps it |
| BssCache.RecentIsListed | src/kext/RTW88IEEE80211.cpp:1958-1980 | A network heard within the last three scans is always in the list |
| BssCache.Reachable | src/kext/RTW88IEEE80211.cpp:1442-2028 | No BSSID twice, the count is the length, and no record is newer than the generation, after every run |
| BssCache.StepKeeps | src/kext/RTW88IEEE80211.cpp:1442-2028 | Every step keeps this, the wrap of the generation included |
| BssCache.BeaconUpdates | src/kext/RTW88IEEE80211.cpp:1442-1459 | A beacon makes its record the one of its BSSID and leaves every other as it is |
| BssCache.ScanRemovesExactly | src/kext/RTW88IEEE80211.cpp:1958-1980 | A completed scan removes exactly the networks that are not in use and older than three generations |
| BssCache.BssList.ProcessScanResult | src/kext/RTW88IEEE80211.cpp:1442-1459 | On linked nodes: a known BSSID is overwritten in place with its link kept, a new one is linked in front and counted |
| BssCache.BssList.NextGeneration | src/kext/RTW88IEEE80211.cpp:2021-2028 | On linked nodes: the counter never becomes 0; at its wrap it is 1 and so is the age mark of every record |
| BssCache.BssList.ScanDone | src/kext/RTW88IEEE80211.cpp:1956-1981 | On linked nodes, through the link to the next one: exactly the fresh records and the one in use stay, in their order; an aborted scan removes nothing |
| BssCache.Bypass | src/kext/RTW88IEEE80211.cpp:1961-1976 | Writing one link takes one node out of the chain and leaves the others in their order |
| BssCache.BssList.Search | src/kext/RTW88IEEE80211.cpp:1444-1445 | The walk over the links finds the one node with the BSSID, or none |
| BssIpc.RoundTrip | src/kext/RTW88IEEE80211.cpp:3636-3676 | For every list with names of at most 32 bytes and every buffer length, the parser of the tool yields exactly the longest prefix that fits into 4095 bytes and the buffer, every field intact |
| BssIpc.FittingIsLongest | src/kext/RTW88IEEE80211.cpp:3651-3656 | A prefix fits exactly if it is no longer than the one taken |
| BssIpc.FillEntries | src/kext/RTW88IEEE80211.cpp:3651-3667 | The loop writes whole entries, stops at the first that does not fit, and touches nothing else |
| BssIpc.GetBssList | src/kext/RTW88IEEE80211.cpp:3636-3676 | Length word and entries in the front of the buffer, the rest untouched, nothing at all below four bytes |
| BssIpc.ReplyBytes | src/kext/RTW88IEEE80211.cpp:3636-3676 | The reply holds its own length, low byte first, and the entries of the longest prefix that fits into the buffer and 4095 bytes |
| BssIpc.EntryBytes | src/kext/RTW88IEEE80211.cpp:3657-3667 | An entry byte by byte: length, name, BSSID, strength with the high byte first, channel, cipher with the low byte first |
| BssIpc.Le32RoundTrip | src/kext/RTW88IEEE80211.cpp:3670-3672 | The copied length and cipher words survive |
| BssIpc.Be16RoundTrip | src/kext/RTW88IEEE80211.cpp:3663-3664 | The signal strength survives, negative values included |
| BssIpc.DecodeEntry | ctl/main.c:181-190 | An entry decodes to the record it was made of |
| BssIpc.ParseOfEntries | ctl/main.c:177-201 | Parsing any sequence of entries gives the list |
| BssIpc.ParseList | ctl/main.c:166-201 | On any bytes whatever: it is safe exactly if every name that it reaches stays inside its array of 33 bytes and leaves a terminator there, and then it yields what the bytes say, with the length clamp and both ends of its loop |
| BssIpc.ReplyNamesFit | ctl/main.c:166-201 | A reply of the driver is safe to parse exactly if every name in the part that fits does so |
| BssIpc.EntriesFitExactly | ctl/main.c:177-197 | Entries are safe to parse exactly if every one of their names does so |
| BssIpc.NameFitsExactly | ctl/main.c:181-197 | A name is safe exactly if it has at most 32 bytes, or 33 with a zero among them |
| BssIpc.StringEnd | ctl/main.c:196-197 | How a string is read from the array: to the first zero, which lies inside exactly if there is one |
| BssIpc.LongNameDoesNotFit | ctl/main.c:178-197 | A reply with one name of 33 bytes is not safe to parse: the copy fits, but no terminator is left |

## Left out

- DelayedWork: is a machine on values and not a class, since its operations are interleaved inside their bodies; `WorkqueueLocked` gives the class form of the sections under the lock.
- DelayedWork: queues are stopped but not freed there; freed queues are in `Workqueue`.
- DelayedWork: claims nothing about when work runs; after a cancellation and a new submission an old callback may move it early.
- DelayedWork.Reachable: is for runs in which no step touches a freed call; the meaning of such a step, and of a lock that is freed while somebody waits for it, is not modelled.
- DelayedWork.FewHelpfulStepsSuffice: that the scheduler is fair, so that a step which stays possible is taken, is an assumption outside of the model.
- Workqueue: what happens after a section has touched a freed queue is undefined and not modelled; a record freed and allocated again is a new queue.
- Workqueue: an unknown queue or item (a null pointer, a missing lock) is not modelled, nor is an item destroyed while it is in use.
- RxBa.Receiver.RxBaTeardown: frees slot by slot, where the source collects the frames and frees them after unlocking.
- RxBa: delivery is in the order of the steps; that two deliveries on different threads do not overtake each other rests on the serialization of the receive path.
- Reading ADDBA and DELBA frames, and how data frames reach the reorder buffer.
- Sha1Stream.Context.Update: takes at most 2^32 - 1 bytes together with those in the buffer; beyond that the 32-bit test for a full buffer goes wrong (`Sha1Stream.FullTest`), and the copy that follows would leave the buffer.
- Sha1Stream.Context.Final: is for messages below 2^61 bytes, the bound of FIPS 180-4.
- Sha1.Blk0: loads words as a little-endian machine does, the only kind the driver runs on.
- KeyDerivation.DerivePmk: the passphrase is the byte string up to its terminator.
- AesSpec: encryption does not occur in the source; the Cipher is that of FIPS 197.
- KeyWrap.Unwrap128: returns an option where the source fills a buffer and a length and returns a flag.
- The MIC check of a handshake message and the search for the group key in it: `micOk`, `dataOk` and `gtk` of the event say how they ended.
- Connection: one handler is one step; `externalSupplicant` is false, the hardware and virtual interface are there, and time, retries of the authentication and the contents of management frames are left out.
- Connection.Station.AbortActiveScan: its polling is one outcome, whether the scan ended meanwhile.
- Connection.Station.TxDataFrame: of the frame it keeps the protected bit, the CCMP header and the network; sequence numbers, QoS and the copied payload are left out.
- BssCache: `info` stands for all that a beacon says; reading its elements is left out, and so are the wrap of the count at 2^32 and the freeing of nodes.
- BssIpc.ParseList: says nothing about what the tool does once a name has left its array or been read beyond it; of printing only the reading of the name is modelled.
- Start-up and teardown of the driver, hardware access, firmware, channels, AWDL, the control interface, logging.

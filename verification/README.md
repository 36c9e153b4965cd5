# Verification models for ZEON

A Dafny project that models parts of this repository and proves what they are for. `dafny verify dfyconfig.toml`
checks all of it.

| component | source | modules |
|---|---|---|
| Windows WebSocket session | `windows/transport/zeon_windows_websocket.cpp` | `SessionCore`, `SessionClass`, `SessionRuns` |
| IndexedDB file system of the Drift worker | `web/drift_worker.js` (`cY`, `ij`, `fE`, `mh`, `h2`, `ii`, `em`) | `LinkedRing`, `Blocks`, `Storage`, `PendingQueue`, `FileStates`, `MemoryFiles`, `FileRuns`, `Reopening`, `CrashPoints`, `SharedOriginals`, `IdStore`, `FileSystem` |
| Arbitrary-precision integers of the Drift worker | `web/drift_worker.js` (`a6`) | `Digits`, `Shifts`, `Division`, `BigInteger`, `Decimal` |
| UTF-8 encoder of the Drift worker | `web/drift_worker.js` (`hP`, `nF`) | `Utf8` |
| System-proxy takeover and crash recovery | `windows/runner/system_proxy_recovery*`, `hiddify-core/hiddify-sing-box/common/settings/proxy_windows.go` | `Recovery`, `Overlap` |
| iOS lab report | `scripts/ios_lab.py` | `LabReport` |
| Percentiles of the profile diagnostics | `scripts/diagnostics/profile_timeout_diag.py` | `Percentiles` |

**The session** is a state machine. Each section under the mutex is one step (a function of `SessionCore`, and a
method of the class `Session` proved equal to it), and so is each thing a thread or WinHTTP does in between.
`SessionRuns` lets all of them interleave in any order. WinHTTP is trusted with this and no more: a completion
arrives only for an operation that was issued and is still outstanding; HEADERS_AVAILABLE arrives at most once for
each request sent; HANDLE_CLOSING arrives once for a closed handle, after every other callback on it has returned.
`Fail` and `AbortHandles` may run in any thread at any time, the latter once the session has ended, which is more
than the callers do. The clock is an argument of the steps that read it.

**The file system** keeps files in memory and a queue of operations for the store, which insertion rewrites. The
central statement is that doing the pending operations in order always gives the files in memory. It is false of
some calls, because a truncated file keeps the rest of its last block: a growing truncation, a write past the end,
a write to a deleted file; and transactions may fail, after which the code goes on with the next one. `RunExact` says
exactly when it holds. That rewriting the queue on insertion is the same as appending is `RewritingIsAppending`: of all
calls, but for a deletion that cancels the creation of a file still stored because its deletion had failed. A failed
truncation or deletion may also leave a file that cannot be read, so that the store cannot be opened any more:
`ReopensExactly` and `MildFailuresDoNotMatter`. What a worker leaves that stops in the middle is in `CrashPoints`.

**The recovery** model includes the owner in Go that writes the record, so that the whole life of a record is
covered. The design promises that a crash never leaves an unmarked dead localhost; `NeverUnmarked` says exactly when
that holds: a reader that fails to read `Armed` takes the record for absent, in both languages. There each call runs by
itself; `OverlapExactly` is about the effects of the runner and of an owner in between each other.

**Where the code keeps less than one might expect**, a lemma gives the input: `StaleBytesReturn`, `WriteAfterRemove`,
`FailedDeletionCancels`, `FailedTruncationStrands`, `FailedDeletionStrands`, `WritesOvertake`, `SharedBytesComeEarly`,
`UnreadArmedLosesUserState`, `LateForeignStateIsLost`, `NewRecordIsDeleted`, `SecondInterruptLosesTheCheck`,
`ErrorIsLostWhenFull`, `ClosingAgain`, `EarlyCloseIsLost`, `ParentClosedTwice`, `UsedAfterClose`.

## Model

| member | source | states |
|---|---|---|
| SessionRuns.CounterIsExact | windows/transport/zeon_windows_websocket.cpp:240-249 | in every run the handle counter is the number of created handles whose HANDLE_CLOSING is still to come, less a websocket whose increment is still ahead; it never goes below zero, and at zero no websocket is left uncounted |
| SessionRuns.CallbacksFindTheirSession | windows/transport/zeon_windows_websocket.cpp:341-350 | in every run, a callback that may arrive, HANDLE_CLOSING included, finds the session registered |
| SessionRuns.ErasedOnlyWhenDone | windows/transport/zeon_windows_websocket.cpp:800-812 | once erased, the session was released, no callback on its handles is running, each handle was closed exactly once and none is left in a field for the destructor or in the hands of a thread |
| SessionRuns.ErasedExactly | windows/transport/zeon_windows_websocket.cpp:335-338 | in every run, once no thread is inside MaybeErase or on its way there (from Release, from the last decrement of the counter, from an AbortHandles that found both fields empty), the session is erased exactly when it was released and every handle made for it is gone |
| SessionRuns.ClosedAtMostOnce | windows/transport/zeon_windows_websocket.cpp:785-798 | request and websocket are each closed at most once, over all threads that may be about to close them |
| SessionRuns.OpenAtTheCallExactly | windows/transport/zeon_windows_websocket.cpp:498-510 | in every run, the websocket handle that a sending, receiving or closing thread took in its section is still open at its call exactly when no thread has closed it since; if one has, the session has ended |
| SessionRuns.UsedAfterClose | windows/transport/zeon_windows_websocket.cpp:582-598 | a run in which a thread is about to send on a websocket handle that was closed after it had left the mutex |
| SessionRuns.HandedIsAPrefix | windows/transport/zeon_windows_websocket.cpp:273-298 | what WinHTTP was handed is a prefix of what was accepted; completed and queued payloads make up the accepted ones; at most one send is being started or in flight; the byte counter is the sum of the queue, within 8 MiB and 64 entries |
| SessionRuns.InFlightIsQueued | windows/transport/zeon_windows_websocket.cpp:582-627 | the payload being handed over or in flight is the first one of the queue, so its bytes stay alive and in place |
| SessionRuns.ShutdownComesLast | windows/transport/zeon_windows_websocket.cpp:629-648 | if a shutdown was handed over, every payload accepted had completed by then, and no later step accepts or hands over another (section 5.5.1 of RFC 6455) |
| SessionRuns.OneShutdownAtATime | windows/transport/zeon_windows_websocket.cpp:300-321 | at most one shutdown is being started or in flight |
| SessionRuns.ClosingAgain | windows/transport/zeon_windows_websocket.cpp:300-321 | after a shutdown was handed over, one more close request starts one more shutdown exactly when the earlier one has completed |
| SessionRuns.ShutdownSaysWhatWasAsked | windows/transport/zeon_windows_websocket.cpp:629-642 | in every run, a shutdown is started with the code and the reason of the last close request, and with the normal code if that named none |
| SessionRuns.ShutdownFollowsClose | windows/transport/zeon_windows_websocket.cpp:300-321 | in every run of a session that lasts, once nothing is being sent, a shutdown is about to be handed over or was exactly when a close request was taken while the session was connected; so such a request is always followed by one, at once or when the queue has drained, and one from before the upgrade by none |
| SessionRuns.EarlyCloseIsLost | windows/transport/zeon_windows_websocket.cpp:313-316 | a run with a close request during the upgrade that ends connected, with nothing to send and no shutdown |
| SessionRuns.KeepsReceiving | windows/transport/zeon_windows_websocket.cpp:498-580 | in every run, a connected session that lasts has just one receive being started, issued or outstanding, until one is refused or completes with nothing usable, and none from then on |
| SessionRuns.AcceptsExactly | windows/transport/zeon_windows_websocket.cpp:273-298 | in every run of a session that lasts, a payload is accepted exactly when it is not too long, the session is connected, no close was requested, and the payloads accepted but not completed leave room for it; otherwise the code names the first of these that is missing |
| SessionRuns.FrameEndsExactly | windows/transport/zeon_windows_websocket.cpp:519-576 | a frame ends the session exactly when it is a close frame, is of another kind than the message it continues, makes that too long, or completes one for which the event queue has no room |
| SessionRuns.CloseComesOut | windows/transport/zeon_windows_websocket.cpp:535-545 | in every run, a close frame is the last event, with its reason, exactly when the queue has room for it, and otherwise the overflow error is |
| SessionRuns.EveryEventIsDelivered | windows/transport/zeon_windows_websocket.cpp:260-271 | from every run on, as many calls as events are queued, by a caller with room for each, deliver every event pushed, but for those replaced by an error that is delivered last |
| SessionRuns.PopTells | windows/transport/zeon_windows_websocket.cpp:260-271 | the result is 1 exactly when an event was delivered, 0 exactly when there is none, -2 exactly when its payload does not fit; nothing changes but with 1 |
| SessionRuns.ParentClosedOnceExactly | windows/transport/zeon_windows_websocket.cpp:800-812 | in every run, connect_ and internet_ are each closed at most once, threads about to close included, exactly when no thread of MaybeErase found the field set while another was between finding and clearing it |
| SessionRuns.ParentClosedTwice | windows/transport/zeon_windows_websocket.cpp:800-812 | a run in which two threads pass the test of MaybeErase and close connect_ twice |
| SessionRuns.HistoryMatches | windows/transport/zeon_windows_websocket.cpp:722-760 | in every run the events pushed match (Connected (Text or Binary)*)? (Error or Close)?, with the last part only after the session has ended; the queue keeps its limits and its byte counter is exact |
| SessionRuns.TerminalIsFinal | windows/transport/zeon_windows_websocket.cpp:323-333 | once ended a session stays ended and pushes nothing more |
| SessionRuns.ErrorIsLostWhenFull | windows/transport/zeon_windows_websocket.cpp:722-748 | the error that ends a session goes unreported exactly when the queue already holds 128 events |
| SessionRuns.DeliveredInOrder | windows/transport/zeon_windows_websocket.cpp:252-271 | events come out in the order and under the numbers they were pushed with; a number is skipped only right before an error that is the last event of the session |
| SessionRuns.EndsAtItsDeadline | windows/transport/zeon_windows_websocket.cpp:762-783 | in every run, a check of the deadlines ends the session exactly when the deadline of the last close request has come or no frame has arrived for the receive timeout |
| SessionRuns.OneReceiveAtATime | windows/transport/zeon_windows_websocket.cpp:498-517 | at most one receive owns the receive buffer, and the reassembly buffer stays within 8 MiB |
| SessionRuns.MessagesComeOutWhole | windows/transport/zeon_windows_websocket.cpp:519-580 | in every run that has received the frames of a list of messages, split in any way, and has not ended, the messages pushed after Connected are exactly that list (section 5.4 of RFC 6455) |
| SessionRuns.PushKeepsEvents | windows/transport/zeon_windows_websocket.cpp:722-760 | a push in its place keeps counters, limits, numbering and shape of the history, whether the event fits or gives way to the overflow error |
| SessionRuns.RunningStep | windows/transport/zeon_windows_websocket.cpp:388-470 | every step of every thread and of WinHTTP keeps handle accounting, flags, send queue, shutdown and receive ownership together |
| SessionCore.ReassemblyIsConcatenation | windows/transport/zeon_windows_websocket.cpp:546-568 | for every splitting of messages into frames, the branch puts out the concatenations in order if none is above 8 MiB, and otherwise rejects; both directions |
| SessionCore.SplittingDoesNotMatter | windows/transport/zeon_windows_websocket.cpp:546-568 | two splittings of the same messages give the same output |
| SessionClass.Session.PushEventLocked | windows/transport/zeon_windows_websocket.cpp:722-760 | the new fields are those of the pushing step, and both byte counters stay exact |
| SessionClass.Session.Fail | windows/transport/zeon_windows_websocket.cpp:696-712 | ends the session with one error event, unless it had ended |
| SessionClass.Session.QueueSend | windows/transport/zeon_windows_websocket.cpp:273-298 | refuses with -2, -1 or -3 and changes nothing, or appends the payload with its type, counts it and says whether to start sending |
| SessionClass.Session.StartCurrentSend | windows/transport/zeon_windows_websocket.cpp:582-598 | hands out the first payload, or gives the send slot back |
| SessionClass.Session.OnWriteComplete | windows/transport/zeon_windows_websocket.cpp:606-627 | removes the first payload, counts it out, and says whether to send the next or to shut down |
| SessionClass.Session.RequestClose | windows/transport/zeon_windows_websocket.cpp:300-321 | refuses a reason above 123 bytes with -2, or records code, reason and deadline and says whether to shut down now; an ended session stays as it is |
| SessionClass.Session.StartShutdown | windows/transport/zeon_windows_websocket.cpp:629-642 | hands out the recorded code and reason, or nothing once the session has ended |
| SessionClass.Session.StartReceive | windows/transport/zeon_windows_websocket.cpp:498-505 | takes the receive slot exactly when it is free and the session lasts |
| SessionClass.Session.OnReadComplete | windows/transport/zeon_windows_websocket.cpp:519-580 | frees the receive slot and takes in one frame: close, reject, buffer or push |
| SessionClass.Session.OnUpgraded | windows/transport/zeon_windows_websocket.cpp:448-470 | takes the request out of its field and installs the websocket unless the session has ended |
| SessionClass.Session.AbortHandles | windows/transport/zeon_windows_websocket.cpp:785-798 | takes both handles out of their fields |
| SessionClass.Session.CheckDeadlinesLocked | windows/transport/zeon_windows_websocket.cpp:762-783 | ends the session when the close deadline or the receive timeout has passed |
| SessionClass.Session.TakeEvent | windows/transport/zeon_windows_websocket.cpp:260-271 | delivers the first event if its payload fits, and counts it out |
| SessionClass.Session.NextEvent | windows/transport/zeon_windows_websocket.cpp:259-271 | when the close deadline or the receive timeout has passed the session ends and both handles leave their fields, and otherwise they stay; then the first event left is delivered, when no other thread comes in between |
| Digits.CarryPreserves | web/drift_worker.js:2436-2457 | propagating carries or borrows, however long the array, keeps the value up to the carry out of the top |
| Digits.Compare | web/drift_worker.js:2433-2435 | the sign of the result is the sign of the difference of the values |
| Digits.AbsAdd | web/drift_worker.js:2436-2441 | the result digits hold the sum of the values, and nothing else is written |
| Digits.AbsSub | web/drift_worker.js:2442-2447 | the result digits hold the difference, modulo the width when it is negative, even when the result array is the minuend; nothing else is written |
| Digits.MulAdd | web/drift_worker.js:2448-2457 | a row times a digit is added to a value that has room for it; nothing is written past that room |
| Shifts.ShiftBits | web/drift_worker.js:2418-2421 | the result digits hold the value times a power of two |
| Shifts.ShiftLeft | web/drift_worker.js:2422-2428 | the digits in use hold the value times a power of two, and a top digit that came out zero is not counted |
| Shifts.ShiftRight | web/drift_worker.js:2429-2432 | the result digits hold the value divided by a power of two, rounded down |
| Division.EstimateNotTooSmall | web/drift_worker.js:2458-2462 | the one-digit estimate is never below the quotient digit |
| Division.QuotientDigit | web/drift_worker.js:7908-7912 | one turn of the loop turns the window into quotient digit and remainder, including the correction |
| Division.Correct | web/drift_worker.js:7910-7912 | the correction loop ends, and ends with the right digit |
| Division.FirstDigit | web/drift_worker.js:7902-7903 | the first digit, 0 or 1, starts the division correctly |
| Division.Divide | web/drift_worker.js:7886-7919 | for all dividends and divisors, the high digits hold the quotient and the low digits the remainder, scaled by the normalizing shift |
| BigInteger.TruncDivMod | web/drift_worker.js:7870-7885 | quotient and remainder, rounded toward zero, belong together and the remainder is smaller than the divisor |
| BigInteger.CompareTo | web/drift_worker.js:7825-7827 | the sign of the difference of the integers |
| BigInteger.Add | web/drift_worker.js:7845-7852 | the sum, for all signs and lengths |
| BigInteger.Subtract | web/drift_worker.js:7853-7860 | the difference, for all signs and lengths |
| BigInteger.Multiply | web/drift_worker.js:7861-7869 | the product, for all signs and lengths |
| BigInteger.ShiftedLeft | web/drift_worker.js:7796-7807 | the integer times a power of two |
| BigInteger.ShiftedRight | web/drift_worker.js:7808-7824 | the integer divided by a power of two and rounded down, for every sign and every shift |
| BigInteger.DivisionMemo.Run | web/drift_worker.js:7886-7919 | afterwards the memo holds the division of these two operands, whether it was computed or remembered |
| BigInteger.DivisionMemo.Quotient | web/drift_worker.js:7870-7877 | the quotient rounded toward zero, whatever was divided before |
| BigInteger.DivisionMemo.Remainder | web/drift_worker.js:7878-7885 | the remainder with the sign of the dividend, whatever was divided before |
| Decimal.NotationRoundTrip | web/drift_worker.js:2329-2335 | reading the decimal notation of any integer gives the integer back |
| Decimal.NotationInjective | web/drift_worker.js:7927-7943 | different integers have different notations |
| Decimal.NoLeadingZero | web/drift_worker.js:7927-7943 | a numeral has more than one digit exactly from ten on, and begins with a zero only for zero itself |
| Decimal.ToString | web/drift_worker.js:7927-7943 | the printed text is the decimal notation; the loop ends because the value falls |
| Decimal.ParseDecimal | web/drift_worker.js:2329-2335 | the left-aligned four-digit parser computes the value of the digits |
| Decimal.PushGroup | web/drift_worker.js:7933-7941 | a remainder below ten thousand, padded to four digits, is the next group of the numeral |
| Utf8.DecodeEncoded | web/drift_worker.js:7658-7709 | decoding by the grammar of RFC 3629, section 4, undoes encoding, for every list of scalar values |
| Utf8.CodePointsOfUnits | web/drift_worker.js:7672-7685 | a string made of scalar values by the rule of UTF-16 (RFC 2781, section 2.1) is read as these |
| Utf8.CodePointsMeaning | web/drift_worker.js:7666-7685 | any string is read as the one in which the surrogates without a partner next to them, and nothing else, are replaced by U+FFFD |
| Utf8.Encode | web/drift_worker.js:7659-7664 | the octets decode to scalar values whose UTF-16 form is the string with every unpaired surrogate replaced; for a string made of scalar values, to just these |
| Utf8.Encoder.Fill | web/drift_worker.js:7686-7709 | never more than three octets a unit, so no write leaves the buffer and no early exit is taken; what is written encodes just the units consumed |
| Utf8.Encoder.WriteSurrogate | web/drift_worker.js:7672-7685 | a pair gives its four octets, a lone high surrogate the replacement |
| Utf8.Encoder.WriteReplacement | web/drift_worker.js:7666-7671 | writes the octets of U+FFFD |
| LinkedRing.Ring.Links | web/drift_worker.js:7422-7460 | at every entry forward and backward links are inverse, and forward leads round the ring in order |
| LinkedRing.Ring.Append | web/drift_worker.js:7440-7452 | the ring holds the old entries and the new one last |
| LinkedRing.Ring.Unlink | web/drift_worker.js:7453-7460 | the ring holds the other entries in order, also when the first entry goes; the entry is free again |
| LinkedRing.Ring.Remove | web/drift_worker.js:7423-7425 | unlinks an entry of this list and leaves others alone |
| LinkedRing.Ring.Before | web/drift_worker.js:7474-7477 | the entry before, or null at the front |
| Blocks.BlockWriter.Put | web/drift_worker.js:11825-11836 | after the block loop, which ends, the replaced blocks are those of one more write |
| Blocks.BlockWriter.Unwritten | web/drift_worker.js:11837-11841 | a block not yet written to starts as the block of the original content, filled up with zeros |
| Blocks.NextPiece | web/drift_worker.js:11826-11836 | one turn of the loop changes exactly the block it is at |
| Storage.ReadBlocks | web/drift_worker.js:11681-11712 | reading copies the blocks into the content of the file, in any order, and fails exactly when a block starts past its end |
| Storage.PatchExact | web/drift_worker.js:11713-11737 | replacing blocks equals overlaying the writes in order exactly when no byte left over past the end is exposed |
| Storage.ConnectedIsSafe | web/drift_worker.js:11825-11836 | writes that start at or before the end of the file never expose such a byte |
| Storage.SplittingIsSplicing | web/drift_worker.js:12017-12029 | for any stored file and any such list of writes, block-wise writing is byte-wise splicing |
| Storage.ResizeExact | web/drift_worker.js:11738-11759 | truncating or extending the stored file matches its bytes exactly when no byte left over is exposed; shortening always does |
| Storage.StaleBytesReturn | web/drift_worker.js:11750-11752 | a file cut short and extended again that reads back old bytes |
| Storage.PatchesMerge | web/drift_worker.js:12010-12016 | two patches in a row are the one patch with both lists of writes |
| PendingQueue.InsertPatchMeaning | web/drift_worker.js:12009-12016 | on every queue and every store, inserting a write, merged back past other files or not, means the same as appending it, if it starts from what the patch it joins leads to |
| PendingQueue.MergeMeaning | web/drift_worker.js:12011-12014 | on every queue and every store, a write that starts from what the patch reached by the scan leads to commutes back to it past operations on other files |
| PendingQueue.MergeKeepsOrder | web/drift_worker.js:12011-12014 | merging a write that exposes no left-over byte leaves none exposed by the patch it joins |
| PendingQueue.MergesExactly | web/drift_worker.js:12010-12014 | a write joins a patch of its file exactly when there is one with only patches and creations of other files behind it, and that one |
| PendingQueue.PurgesExactly | web/drift_worker.js:11973-11983 | a deletion drops everything about its file behind the last truncation of any file, or creation or deletion of this one; a creation there goes as well, and with a creation or a deletion there the deletion itself is dropped |
| PendingQueue.InsertDeleteExact | web/drift_worker.js:11972-11984 | on every queue and every store, inserting a deletion, with the writes before it dropped, a repeat ignored or a creation cancelled, means the same as appending it exactly when it does not cancel the creation of a file that is then stored; no other file is affected |
| PendingQueue.InsertDeleteMeaning | web/drift_worker.js:11972-11984 | so it always does on queues that create only absent files, and leaves such a queue |
| PendingQueue.PurgeMeaning | web/drift_worker.js:11975-11983 | on every queue and every store, the scan changes no other file, and when it drops the deletion the file is gone without it, unless the creation of a stored file was cancelled |
| PendingQueue.CreatedTwice | web/drift_worker.js:11980-11983 | the smallest queue on which it does not, one that creates a stored file; runs with a failed deletion reach it, see FailedDeletionCancels |
| FileStates.StepAppends | web/drift_worker.js:11843-12029 | every call, completion and failure keeps what the rewriting relies on, and leads to what the operation made, appended, leads to, exactly unless a deletion cancels the creation of a stored file or a failure makes a difference to its file |
| FileStates.RewritingIsAppending | web/drift_worker.js:11843-12029 | over every run from any state that a run can reach, safe or not and with any failures, the pending operations lead at every point to what all operations made since lead to, appended as they were made, exactly when no step is of those two kinds |
| FileRuns.CreationsFindTheirNameFree | web/drift_worker.js:11911-11918 | over every run, pending and running creations find their names free at every point exactly when no file is created that the pending operations leave stored and no deletion of a stored file fails with a creation of it next in the queue |
| FileRuns.HarmlessExactly | web/drift_worker.js:11848-11852 | over every run from any stored state, what is pending stores only files that are in memory and creates only absent ones, at every point, exactly when no deletion of a stored file fails that the queue does not make up for |
| FileRuns.WithoutFailures | web/drift_worker.js:11843-12029 | over every run without failures, safe or not, rewriting the queue never changes its meaning |
| FileRuns.FailedDeletionCancels | web/drift_worker.js:11980-11983 | a run with one failed deletion that ends with a file deleted in memory, nothing pending, and the file stored for good |
| FileStates.StepExact | web/drift_worker.js:11843-11955 | a step, failing transactions included, keeps memory equal to what the store gives when read after the pending operations exactly when it is safe: a write or truncation finds its file and exposes no left-over byte, or writes nothing to an unknown file, a deletion cancels no creation of a stored file, and after a failure its own file still agrees |
| FileStates.RunExact | web/drift_worker.js:11843-11955 | over any run of calls and of transactions that complete or fail, the agreement holds at every point exactly when every step was safe where it was taken |
| FileRuns.GentleIsSafe | web/drift_worker.js:11925-11955 | a write that leaves no gap and a truncation that does not grow, on a file that is there, are safe, and so are all other calls while creations find their names free |
| FileRuns.GentleRun | web/drift_worker.js:11843-11955 | every run of such calls from any stored state, with transactions completing at any time or failing without a difference, keeps the agreement |
| FileStates.DrainedAgrees | web/drift_worker.js:11848-11852 | draining empties the queue, and opening the store again then gives the files in memory |
| FileRuns.FailureExact | web/drift_worker.js:11848-11852 | right after a failed transaction store and memory agree exactly when its own file still does: when a deletion of it is pending; with nothing pending on it, exactly when the stored file already is the one in memory; for the creation of a stored file always, and of an absent one exactly when a deletion is pending |
| FileRuns.TransactionsInOrder | web/drift_worker.js:11966-12029 | in every run of safe steps whose transactions complete, the running operation creates an absent file or overlays its writes on just what the stored file holds |
| Reopening.SoundExactly | web/drift_worker.js:11713-11737 | one operation on readable files leaves them readable exactly when it is no patch that ends before a block that stays |
| Reopening.ReopensExactly | web/drift_worker.js:11887-11905 | over every run, safe or not and with any failures, the store can be opened again after every step exactly when no transaction completes such a patch |
| Reopening.MildFailuresDoNotMatter | web/drift_worker.js:11843-11955 | that is so in every run, safe or not, in which no deletion of a stored file and no truncation that would shorten one fails |
| Reopening.FailedTruncationStrands | web/drift_worker.js:11695-11700 | of any stored file with a second block, a failed truncation to nothing followed by a write leaves a store that cannot be opened |
| Reopening.FailedDeletionStrands | web/drift_worker.js:11695-11700 | so does a failed deletion after which the file is created and written again |
| CrashPoints.StoredFilesWereMade | web/drift_worker.js:11848-11852 | over every run without failures, safe or not, at every point each stored file by itself is as some first part of the operations made so far leaves it, whatever was merged, dropped or cancelled |
| CrashPoints.WritesOvertake | web/drift_worker.js:12011-12014 | not so the store as a whole: three writes to two files after the first of whose patches the store is as no first part of the three leaves it |
| SharedOriginals.SharingDoesNotMatterInTheEnd | web/drift_worker.js:12056-12067 | a waiting patch shares the array of its file, into which later writes within the file go at once: whichever patches share it, what all pending operations lead to is the same as with copies |
| SharedOriginals.SharedBytesComeEarly | web/drift_worker.js:12056-12067 | two writes to one file after the first of whose patches the store holds what the file never was |
| MemoryFiles.WriteInMemory | web/drift_worker.js:11940-11951 | a write to any file, stored or deleted on close, sets the bytes it reaches, fills a gap with zeros, keeps every other byte and every other file; writing nothing at the start of an unknown file does not make it known |
| MemoryFiles.TruncateInMemory | web/drift_worker.js:11934-11937 | a truncation keeps the bytes before the new end, fills with zeros, and keeps every other file |
| MemoryFiles.MemoryHoldsWhatWasWritten | web/drift_worker.js:11907-11951 | over every run, safe or not and with any failures, every file in memory is known and as long as its calls make it, and holds at each byte what the last write that reaches it put there, unless it was cut before that byte or deleted since |
| FileStates.WriteAfterRemove | web/drift_worker.js:11940-11951 | a write of at least one byte through a handle of a deleted file brings the file back in memory but not in the store |
| FileSystem.FileSystem.constructor | web/drift_worker.js:4427-4433 | starts over any consistent store with nothing read and nothing pending |
| FileSystem.FileSystem.LoadAll | web/drift_worker.js:11887-11905 | remembers every id and reads every stored file into memory; it fails exactly when one of them cannot be read |
| FileSystem.FileSystem.OpenOver | web/drift_worker.js:4427-4441 | opening succeeds exactly when every stored file can be read, and then the state is the opened one |
| FileSystem.FileSystem.OpenFile | web/drift_worker.js:11911-11918 | the state after opening is that of the step, creation queued unless deleted on close |
| FileSystem.FileSystem.DeleteFile | web/drift_worker.js:11907-11909 | the state after deleting is that of the step |
| FileSystem.FileSystem.WriteFile | web/drift_worker.js:11940-11951 | the state after writing is that of the step, with the write merged in the ring in place |
| FileSystem.FileSystem.ReadFile | web/drift_worker.js:12042-12047 | the buffer holds the bytes of the file from the offset on and zeros behind its end, and the short read is reported exactly when the end was passed |
| FileSystem.FileSystem.TruncateFile | web/drift_worker.js:11934-11937 | the state after setting the length is that of the step |
| FileSystem.FileSystem.StartNext | web/drift_worker.js:11848-11852 | the first pending operation leaves the ring and runs, unless one runs already |
| FileSystem.FileSystem.Completed | web/drift_worker.js:11920-11923 | the operation takes effect and the next one starts |
| FileSystem.FileSystem.Failed | web/drift_worker.js:11848-11852 | the operation had no effect and the next one starts all the same |
| FileSystem.MergeInto | web/drift_worker.js:12010-12016 | the scan back over the ring merges the write where the rewriting says, or finds that it has to be appended |
| FileSystem.PurgeFrom | web/drift_worker.js:11973-11984 | the scan back over the ring, unlinking as it goes, leaves the purged queue |
| FileSystem.PatchPositionMeaning | web/drift_worker.js:12011-12014 | a position is found exactly when the rewriting can merge |
| IdStore.IdCache.Lookup | web/drift_worker.js:11864-11886 | the remembered id is the one in the database |
| IdStore.IdCache.Execute | web/drift_worker.js:11970-12029 | each transaction by file id has the effect of its operation by name, and the cache stays right |
| IdStore.AddFileStores | web/drift_worker.js:11669-11679 | a new row under a free name stores an empty file under that name and changes no other |
| IdStore.PutBlocksStores | web/drift_worker.js:11713-11737 | writing blocks and length of one row is the patch of that file and no other |
| IdStore.CutFileStores | web/drift_worker.js:11738-11759 | cutting one row is the truncation of that file and no other |
| IdStore.DropFileStores | web/drift_worker.js:11760-11771 | dropping row and blocks removes that file and no other |
| IdStore.Collect | web/drift_worker.js:12017-12022 | the block writer collects the blocks that all writes of a patch replace |
| Recovery.NeverUnmarked | hiddify-core/hiddify-sing-box/common/settings/proxy_windows.go:122-145 | over any run of takeovers, giving up and recovery calls, with any call and any reading of a value failing and any process stopping anywhere: at every point ZEON's proxy state has an armed record that knows the user's state, exactly when all along foreign states can be told from ZEON's and no owner takes over after failing to read Armed while the user's state depends on the record |
| Recovery.UnreadArmedLosesUserState | hiddify-core/hiddify-sing-box/common/settings/proxy_windows.go:406-411 | an owner that cannot read Armed of a dead owner's record takes the dead state for the user's, which is then neither set nor recorded |
| Recovery.StepExact | hiddify-core/hiddify-sing-box/common/settings/proxy_windows.go:96-200 | one step keeps that account exactly when a foreign state that appears can be told from ZEON's and no such blind takeover happens |
| Recovery.SeenIsRead | windows/runner/system_proxy_recovery.cpp:93-127 | a reader who fails to read some values sees the record as it is, as unreadable, or, failing to read Armed, as absent |
| Recovery.RecoveryConverges | windows/runner/system_proxy_recovery.cpp:262-317 | after a crash, any sequence of recovery calls that fail or stop anywhere leaves the proxy expected or baseline while the record exists, and baseline once it is gone |
| Recovery.CalmCallFinishes | windows/runner/system_proxy_recovery.cpp:242-313 | for a dead owner, whether or not another process has its id by now, one call ends with baseline and no record exactly when the record was gone or its marker is a proper loopback, unless the creation time of a process with that id cannot be read; a process that does not open counts as dead |
| Recovery.TakenOverIsRecoverable | windows/runner/system_proxy_recovery_logic.h:29-37 | what an owner leaves behind when it dies can be undone exactly when it listened on 127.0.0.1 and a valid port, also when its process id was reused |
| Recovery.DisableRestores | hiddify-core/hiddify-sing-box/common/settings/proxy_windows.go:158-200 | an owner's clean-up without failures restores its baseline if its own state is still set, and removes record and RunOnce; with another generation it changes nothing |
| Recovery.FoundNamesItsGeneration | windows/runner/system_proxy_recovery.cpp:93-127 | a record that is found names a generation, so that zero can stand for any |
| Recovery.EnableThenDisable | hiddify-core/hiddify-sing-box/common/settings/proxy_windows.go:96-168 | taking over and giving up again leaves the proxy as it was |
| Recovery.ArmedBeforeSet | hiddify-core/hiddify-sing-box/common/settings/proxy_windows.go:138-154 | whatever fails, an Enable that changes the proxy has set it to the owner's state, with the armed record and the command for the next logon in place |
| Recovery.FailedRestoreIsArmed | windows/runner/system_proxy_recovery.cpp:303-306 | a call whose restore fails keeps the record and sets the command for the next logon again, if it can |
| Recovery.RunOnceGoesLast | windows/runner/system_proxy_recovery.cpp:213-235 | a call removes the command for the next logon only when the record is gone, wherever it fails or stops |
| Recovery.CommandStartsPath | windows/runner/system_proxy_recovery.cpp:129-150 | the command for the next logon starts the recorded program exactly when its path has no quote, which is checked |
| Recovery.OwnStateIsBaseline | hiddify-core/hiddify-sing-box/common/settings/proxy_windows.go:203-208 | the owner's state keeps bypass list and script of the baseline, names its server, and allows that server and direct connections only |
| Recovery.OutcomeTells | windows/runner/system_proxy_recovery.cpp:262-317 | what each result of a call tells about record, proxy and owner before and after it |
| Recovery.RecoverOverwrites | windows/runner/system_proxy_recovery.cpp:282-313 | a call changes the proxy only from the recorded expected state to the recorded baseline, with a proper marker, and with the owner not running or calling itself with permission |
| Recovery.LiveOwnerUntouched | windows/runner/system_proxy_recovery.cpp:242-258 | a live owner's machine is left alone exactly as long as its process can be opened, if there is anything to undo |
| Recovery.LiveOwnerSurvives | windows/runner/system_proxy_recovery.cpp:242-258 | a live owner's proxy and record survive any number of such calls |
| Recovery.UserStateStays | windows/runner/system_proxy_recovery_logic.h:39-52 | a state set by the user or another program survives every sequence of clean-ups |
| Recovery.LateForeignStateIsLost | windows/runner/system_proxy_recovery.cpp:282-312 | a foreign state set between the query and the restore of one call is overwritten, unless it is the baseline |
| Overlap.OverlapExactly | hiddify-core/hiddify-sing-box/common/settings/proxy_windows.go:96-200 | a new owner takes over while the runner, whose mutex it does not take, cleans up after a dead one any number of times: for every order of their effects, failures and stops, ZEON's proxy is left without a record that knows the user's state exactly when the owner's setting is the last effect on the proxy and a deletion the last one on the record; never without a deletion by the runner |
| Overlap.NewRecordIsDeleted | windows/runner/system_proxy_recovery.cpp:282-313 | an order in which the runner restores the proxy, the owner takes over, and the runner deletes the new owner's record |
| Recovery.WrittenIsRead | hiddify-core/hiddify-sing-box/common/settings/proxy_windows.go:352-395 | a completely written and armed record is read back as it was |
| Recovery.UnarmedWhileWriting | hiddify-core/hiddify-sing-box/common/settings/proxy_windows.go:352-382 | until its last write a record counts as absent, whatever writes failed before |
| Recovery.SystemProxy.ReadOwnershipRecord | windows/runner/system_proxy_recovery.cpp:93-127 | reading value after value up to the first failure gives the record, absent or unreadable, as reading the key as a whole with these values missing does |
| Recovery.SystemProxy.DeleteRecoveryState | windows/runner/system_proxy_recovery.cpp:213-235 | deletes the record and then the RunOnce value, with the failures and the stop in between |
| Recovery.SystemProxy.ArmRecoveryRunOnce | windows/runner/system_proxy_recovery.cpp:129-150 | sets the RunOnce value to the quoted recovery command, or refuses |
| Recovery.SystemProxy.RecoverZeonSystemProxy | windows/runner/system_proxy_recovery.cpp:262-317 | the call, effect by effect, is the specified recovery, for every combination of failures and stops |
| LabReport.SavedReportsAreHonest | scripts/ios_lab.py:99-107 | in every run, whatever is raised and however often it is interrupted, a report saved as PASS has ended and was cleaned up, the simulator deleted or the last device step a verified cleanup, and real_ios_vpn is saved true only with a device PASS |
| LabReport.SavedPassExact | scripts/ios_lab.py:443-463 | in every run, a device report saved as PASS has a live-tunnel round trip between connection and verified traffic and no failed one, exactly when no interrupt arrived in the last finally block before the round trips were recorded, or at their check when one had failed |
| LabReport.SavedPassIsBacked | scripts/ios_lab.py:443-463 | one interrupt alone never costs that |
| LabReport.SecondInterruptLosesTheCheck | scripts/ios_lab.py:456-463 | a run with two interrupts whose saved PASS lists no round trip at all |
| LabReport.TwoInterrupts | scripts/ios_lab.py:456-463 | two interrupts in a row in the last finally block of a passing device run save PASS, and its round trips back it exactly when they were recorded and none had failed |
| LabReport.UndisturbedVerdict | scripts/ios_lab.py:431-463 | a device run without exception near its statements and without interrupt saves PASS, with real_ios_vpn, exactly when test and receipt passed, all five steps are there and the clean-up last, the tunnel was alive in between, the heartbeat thread has ended and no round trip failed; FAIL exactly for a failed test or receipt, BLOCKED exactly for an unconvincing receipt |
| LabReport.UndisturbedSimulator | scripts/ios_lab.py:480-508 | a simulator run of that kind saves PASS exactly when its receipt passed, and otherwise FAIL |
| LabReport.HandlerDecides | scripts/ios_lab.py:509-530 | an exception that reaches main decides the status saved: BLOCKED unless the report says FAIL, INTERRUPTED for a timeout or an interrupt |
| LabReport.FairStep | scripts/ios_lab.py:480-530 | every statement, exception and interrupt keeps a claim of PASS tied to what it rests on |
| LabReport.Run.Save | scripts/ios_lab.py:99-107 | writes the report with PASS and real_ios_vpn taken back where they are not earned |
| LabReport.Run.Conclude | scripts/ios_lab.py:431-455 | the verdict: failed, raised, interrupted or passed, as the receipt and the round trips say |
| Percentiles.WithinMinAndMax | scripts/diagnostics/profile_timeout_diag.py:86-98 | the percentile of a non-empty list lies between its minimum and maximum, and reaches them at 0 and 1 |
| Percentiles.OrderDoesNotMatter | scripts/diagnostics/profile_timeout_diag.py:91-98 | lists with the same elements have the same percentiles |
| Percentiles.MonotoneInP | scripts/diagnostics/profile_timeout_diag.py:92-98 | the percentile does not fall when p grows |
| Percentiles.LiesOnTheLine | scripts/diagnostics/profile_timeout_diag.py:91-98 | the percentile lies on the straight line between the two values around position (n - 1) * p of the sorted list |
| Percentiles.AscendingIsUnique | scripts/diagnostics/profile_timeout_diag.py:91 | a multiset of values has only one ascending list |
| Percentiles.SummaryIsOrdered | scripts/diagnostics/profile_timeout_diag.py:329-354 | p50, p95, p99 and max exist together, exactly when a sample succeeded, and are in order, as are the counts of slow samples |
| Percentiles.RanksOfSummary | scripts/diagnostics/profile_timeout_diag.py:344-346 | of 100 k + 1 successful samples p50, p95 and p99 are those at index 50 k, 95 k and 99 k of the sorted times |
| Percentiles.CountsOfSummary | scripts/diagnostics/profile_timeout_diag.py:330-350 | the times are just those of the successful samples, as often as they occur, the maximum is theirs, and the slow counts are how many reach 5, 15 and 90 seconds |
| Percentiles.SummarizeSamples | scripts/diagnostics/profile_timeout_diag.py:322-355 | the names of the groups have entries and nothing else has, each the summary of the last group of that name, in the order of first samples |
| Percentiles.EverySampleIsCountedExactly | scripts/diagnostics/profile_timeout_diag.py:329-336 | the totals of all entries add up to the number of samples exactly when no two groups have the same name, and to less otherwise |
| Percentiles.EveryGroupIsSummarized | scripts/diagnostics/profile_timeout_diag.py:336 | without an @ in a target, each group's entry is its own summary |

## Left out

- Start of the session before WinHttpSendRequest, URL parsing, proxy authentication, ClassifyFailure and the metadata of events other than kind and number: branch tables and foreign calls; a second request after a proxy challenge is allowed any number of times.
- What WinHTTP does when connect_ or internet_ is closed twice, or when a call is made on a handle that was closed.
- Liveness of the session: an overflow ends it without AbortHandles, and nothing says when the caller releases it.
- SessionRuns.RunningStep: does not model memory order of the atomic counter and flag; each access is one step.
- SessionClass.Session.NextEvent: does not model the wait on the condition variable, nor other threads between its sections, which SessionRuns lets in.
- BigInteger.FromDigit: integers of more than one digit are not built from machine numbers here.
- Decimal.ParseDecimal: takes the digits that the pattern of `qF` has matched; signs, hexadecimal and malformed text are rejected before it.
- Division by zero, bitwise operations, hash codes and conversion to doubles of the big integers.
- FileSystem.FileSystem.WriteFile: a patch keeps a copy of what it starts from, while in the code it shares the file's array, which later writes within the file change in place before the patch is carried out. `SharingDoesNotMatterInTheEnd` shows that this makes no difference once the pending operations are done.
- CrashPoints.StoredFilesWereMade: holds with such copies; in the code, `SharedBytesComeEarly`, the store may in between hold what the file never was.
- FileSystem.FileSystem.Failed: an IndexedDB transaction is atomic; what a browser does that stops in the middle of one is not modelled.
- Closing the file system and the error 10 of calls afterwards; locks and file attributes.
- Recovery.RecoveryConverges: one call runs at a time. The named mutex makes that so for calls of the runner among themselves, but not for the owner in Go, which is in `Overlap`.
- Overlap.OverlapExactly: nobody else sets the proxy meanwhile, and the owner reads `Armed` (`LateForeignStateIsLost` and `UnreadArmedLosesUserState` are about these); its record is written in one effect, as it counts as absent until the last one.
- Recovery.WrittenIsRead: strings have no trailing NUL characters, which reading from the registry would strip.
- LabReport.Run.Conclude: the fields of a receipt other than its status and steps, and what the rest of the validator refuses, are not modelled.
- Percentiles.WithinMinAndMax: over real numbers; rounding of floating point is not modelled.
- Percentiles.SummarizeSamples: counts of HTTP classes, failures and shares of slow samples are left out, as they would only add easy members.
- The rest of the repository: user interface, build and packaging scripts, generated code, and the orchestration in Go and Swift over libraries that are not part of it.

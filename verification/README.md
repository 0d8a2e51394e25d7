# Verified model of the Transiva transfer core

This project models, in Dafny 4.11, the stateful logic underneath Transiva's export tool and proves
properties of it that hold for every input, every run or every interleaving.

| file | models |
|---|---|
| `WorkerPool.dfy` | `DownloadWorkerPool`: workers, bounded channels, `Submit`, `DownloadBatch`, `Close`, as a step machine |
| `ResumeDownload.dfy` | `ResumeableDownloader`: file, checkpoint and HTTP reply over crashes and restarts, as a step machine, and its download loop as a class |
| `Encryption.dfy` | the chunked AES-GCM file format: counter nonce, frames, the encrypt and decrypt loops |
| `Bandwidth.dfy`, `Adaptive.dfy` | the token bucket, its lone and interleaved callers, and the adaptive wrapper |
| `Cleanup.dfy` | retention: marking, three selection passes, the accounting of a cleanup |
| `Monitor.dfy` | the network monitor: state, listeners with ten-message channels, `WaitForNetwork` |
| `Retry.dfy` | the retry loops, backoff arithmetic and error classification |
| `Checksums.dfy` | the checksum file: compute, print, parse, verify |
| `Manifest.dfy` | the artifact manifest builder and its validator |
| `Wrappers.dfy`, `ByteStrings.dfy` | `Option` and byte strings |

Protocols that run in several goroutines are step machines over values: a step is one atomic action
(one channel operation, one critical section, one file operation) and a run is any sequence of enabled
steps. Sequential loops are methods over the source's own mutable state, proved against
specification functions. Clocks, randomness, the file system, the HTTP server, the AEAD and the hash
are parameters; where a law about them is needed (Open inverts Seal, a server follows RFC 9110,
an absolute path is a fixed point of `filepath.Abs`) it is a stated precondition.

## What turned out not to hold

The code is modelled as written, and these promises of its comments or names fail. For each, a
theorem says exactly when the promise holds, and an input or a run shows it failing.

- A resumed download appends at the end of the file and never truncates to the checkpoint offset.
  Unless the server ignores Range, it is correct if and only if the file length equals that offset
  (`ResumeCorrectIff`, `ResumeCorrectIffAligned`); from nothing, with an honest server, a crash can leave
  them different (`CrashThenResumeCorrupts`).
- A finished download stays marked completed if and only if no periodic save is in flight and the ticker
  goroutines of all runs are gone (`CompletedStaysIff`). A late save is reached for every content
  (`LateSaveReachable`), and after it every run asks for an empty range and fails (`StrandedForever`) until
  one is answered 200 or cannot open the file for appending: either of these repairs it (`StrandedRescued`).
- A checkpoint on disk never claims more bytes than the file has, or m if that is more, through every run that
  starts aligned, if and only if no save of an earlier run is pending that claims more than m (`SavesTruthful`,
  `SavesFitIff`). So with m = 0 any pending byte is too much: a run that truncates the file is overtaken by it
  (`PendingOverclaims`, `OverclaimReachable`).
- `Close` blocks forever exactly when more than `2 * workerCount` results would have to fit into the
  results channel (`CloseReturnsIffFits`), and every larger batch can lead there (`CloseCanBlock`).
- `DownloadBatch` on a new pool is never refused if and only if the batch has at most `2 * workerCount`
  tasks (`NeverRefusedIff`, with the refusing run in `LargerBatchCanBeRefused`). On a pool that was used
  before, the next batch gets the results of its own tasks if and only if nothing is left over
  (`NextServedIff`); a refused batch leaves its first tasks behind, and their results go to the next one
  (`LoadedIsNotServed`).
- `Submit` panics if it sends after `Close` has closed the tasks channel, which its check of the context does not
  prevent: a panic can follow if and only if some Submit can still pass that check, or has passed it and not yet
  sent (`CanPanicIff`, `PanicOnlyWhileClosing`, with a run in `SubmitCanPanic`).
- A nil error of `DownloadBatch` means a result for every task if it was not cancelled (`BatchTheorem`); a
  cancelled one can return nil with none (`CancelledCanReturnNil`).
- The messages of a listener end with the current state if and only if at most one goroutine calls
  `updateState` (`OrderKeptIff`); with two or more, the run in `OverlapBreaksOrder` ends with a stale one.
- `WaitForNetwork` checks the state before it subscribes. However updates overlap, a waiter is sure to be woken
  if and only if, when it subscribes, the state is not Up or an update that wrote Up has yet to begin its pass
  (`WaiterWokenIff`). Without an update in the gap that is so (`QuietGapIsSafe`); with a whole one it is not
  (`LostWakeup`); and with two updating goroutines another pass still to come does not help
  (`PendingDownIsNoWakeup`).
- The `RetryableError` and `NonRetryableError` markers decide nothing unless they are listed themselves
  (`MarkersDoNotDecide`), and both fail on simple messages (`MarkersFail`).
- Errors never speed the adaptive limiter up if and only if `minSpeed <= maxSpeed` (`NeverRisesIff`);
  otherwise two failures an interval apart raise the speed to `minSpeed` (`SwappedSpeedsRise`).
- "Increase speed if success rate is high" works, as long as no error was recorded, if and only if the limiter
  is at `maxSpeed` or at five bytes per second or more (`SuccessesReachMaxIff`, `SlowStaysSlow`); after one
  error it never works again (`ErrorStaysRecorded`, `NeverFasterAfterError`).
- A bandwidth wait can be truncated to zero, and then makes no progress on a clock that has not moved, if and
  only if the limit exceeds a byte per nanosecond (`ZeroSleepPossibleIff`, `FrozenClockNoProgress`); two calls
  at one instant on a burst of one byte are such a case (`ZeroSleepReached`).
- A caller of the bandwidth limiter that asks for at most the bucket size gets it once nobody else calls and
  every sleep moves the clock (`LoneWaitGranted`); among others there is no fairness, and they can keep it
  waiting for any number of sleeps (`StarvedForever`).
- "Never reused with the same key" holds for the nonces of one file of up to 2^96 chunks
  (`NoncesOfFileDistinct`). A passphrase always gives the same key, and two of its files share a nonce if and
  only if one start value lies closer behind the other than its file is long (`FilesShareNonceIff`), for
  instance when the start values are equal.
- A malformed preserve pattern stops the marking, and the cleanup goes on. An over-age export survives if and
  only if a pattern protects it and no name before it meets a malformed one (`OverAgeDeletedIff`); `ProtectedExportDeleted`
  shows a directory where a protected export is deleted.
- A cleanup reports zero preserved exports whenever it deletes nothing (`CleanupOldExports`), which is exactly
  when the unpreserved ones meet the policy as they are (`NothingSelectedIff`).
- A checksum list written over an older one that was itself listed fails validation unless the two lists have
  equal hashes (`SaveThenValidate`); saving twice always gives two lists that differ (`SecondSavePassesIff`).
  Names survive if and only if they are free of whitespace (`RoundTripIff`, `SpacedNameLost`).

## Model

| member | source | states |
|---|---|---|
| WorkerPool.TasksConserved | cmd/hyperexport/parallel_download.go:82-110 | in every interleaving the multiset of accepted tasks is queued + held + buffered + received + abandoned; nothing is abandoned without cancellation; both channels stay within 2 * workerCount; no worker sends on the closed results channel |
| WorkerPool.InvStep | cmd/hyperexport/parallel_download.go:82-110 | each single step of any goroutine keeps conservation, the channel bounds, and that workers stop only after cancellation or on a closed, drained queue |
| WorkerPool.BatchTheorem | cmd/hyperexport/parallel_download.go:293-352 | on a pool with any history and in every interleaving, Close racing included: an uncancelled batch that returns nil has one result per task; if the pool had nothing left over, these are the results of exactly its tasks, nothing is left over again, and even a cancelled batch returns no others; a batch that fits into the queue beside what is left over is never refused |
| WorkerPool.CancelledCanReturnNil | cmd/hyperexport/parallel_download.go:325-352 | every non-empty batch of up to 2 * workerCount tasks can, when cancelled, return nil with no result |
| WorkerPool.BatchReturns | cmd/hyperexport/parallel_download.go:293-352 | left to the workers and itself a batch on an open pool with workers returns: every schedule is finite, with an explicit bound, and when nothing can step it has returned, with nil if it fits |
| WorkerPool.CancelledStops | cmd/hyperexport/parallel_download.go:82-110 | after a cancellation every schedule of workers and batch is finite, and when it is over all workers have stopped and the batch has returned |
| WorkerPool.CancelledChoices | cmd/hyperexport/parallel_download.go:86-107 | a cancelled worker may stop with tasks still queued, or drop its finished result |
| WorkerPool.CancelledReturnsAtOnce | cmd/hyperexport/parallel_download.go:325-345 | a cancelled collector may return with what it has, even if results are waiting |
| WorkerPool.WorkerServes | cmd/hyperexport/parallel_download.go:82-110 | a ready worker can take the oldest task and put its result, with the outcome of the download, behind the others while there is room |
| WorkerPool.SubmitServed | cmd/hyperexport/parallel_download.go:230-247 | a task submitted from outside to an idle open pool comes back as its own result |
| WorkerPool.OldestFirst | cmd/hyperexport/parallel_download.go:249-252 | whoever receives, cancelled or not, gets the oldest result |
| WorkerPool.NextServedIff | cmd/hyperexport/parallel_download.go:293-352 | whatever batch of up to 2 * workerCount tasks comes next, in every uncancelled run it is not refused and returns the results of its own tasks, iff nothing is queued, held or undrained before it |
| WorkerPool.LoadedIsNotServed | cmd/hyperexport/parallel_download.go:231-247 | on a pool with anything left over some next batch is refused or returns the result of a task that is not its own |
| WorkerPool.NeverRefusedIff | cmd/hyperexport/parallel_download.go:231-247 | on a new pool no uncancelled run of a batch is refused iff it has at most 2 * workerCount tasks |
| WorkerPool.LargerBatchCanBeRefused | cmd/hyperexport/parallel_download.go:231-247 | for every batch larger than 2 * workerCount some uncancelled interleaving refuses it and leaves its first 2 * workerCount tasks queued |
| WorkerPool.NoZeroReceive | cmd/hyperexport/parallel_download.go:325-345 | on a pool with any history an uncancelled collector never receives the zero value of the closed results channel: by then it has as many results as tasks |
| WorkerPool.CloseReturnsIffFits | cmd/hyperexport/parallel_download.go:268-285 | with nobody submitting, receiving or cancelling, every schedule of a closing pool is finite, and when it is over Close has returned iff queued + held + undrained results fit into 2 * workerCount |
| WorkerPool.CloseCanBlock | cmd/hyperexport/parallel_download.go:268-285 | for every workerCount > 0 and every batch of more than 2 * workerCount tasks a run from a new pool reaches a waiting Close with too much left to fit |
| WorkerPool.CanPanicIff | cmd/hyperexport/parallel_download.go:230-285 | from any state some continuation panics iff some Submit can still pass its check of the context, or has passed it and not yet sent |
| WorkerPool.PanicOnlyWhileClosing | cmd/hyperexport/parallel_download.go:230-285 | in every run no Submit panics before Close is called, and after Close returned none passes its check of the context |
| WorkerPool.SubmitCanPanic | cmd/hyperexport/parallel_download.go:230-271 | for every non-empty batch a run where Close comes between the check and the send panics without a cancellation |
| WorkerPool.StuckMeansClosedOrFull | cmd/hyperexport/parallel_download.go:268-285 | a closing pool that cannot step has returned, or is deadlocked on a full results channel |
| ResumeDownload.ResumedRunResult | cmd/hyperexport/parallel_download.go:442-624 | a successful run that resumed at offset c over the file `was` leaves was ++ remote[c..] on 206 or c = 0, and the remote content when a Range request is answered 200 |
| ResumeDownload.ResumeCorrectIff | cmd/hyperexport/parallel_download.go:442-624 | a successful resumed run leaves the content iff a Range request was answered 200 or the file was exactly the content up to the checkpoint offset |
| ResumeDownload.ResumeCorrectIffAligned | cmd/hyperexport/parallel_download.go:448-459 | for a file that is a prefix of the content, iff a Range request was answered 200 or the file length equals the checkpoint offset |
| ResumeDownload.FreshRunResult | cmd/hyperexport/parallel_download.go:462-473 | a run that does not resume, or whose Range is ignored, leaves exactly the content |
| ResumeDownload.AlignedHistorySound | cmd/hyperexport/parallel_download.go:442-624 | over every history of runs, aborts, crashes and late saves whose resumptions start aligned: the file is always a prefix of the content, every count a running copy can save is at most the file length, and a finished run leaves the content |
| ResumeDownload.SavesTruthful | cmd/hyperexport/parallel_download.go:442-624 | over a whole run that starts aligned while the saves pending from before claim at most m bytes: from its first save on, whenever saves land and however the run ends, the checkpoint on disk claims at most the bytes in the file, or m if that is more, and at most m until the reply has come; the final save claims the whole content, which the file then holds |
| ResumeDownload.SavesFitIff | cmd/hyperexport/parallel_download.go:528-566 | before a run begins, for every m, all aligned runs from there keep to that iff no save in flight and no leftover ticker claims more than m; with m = 0, iff none claims a byte |
| ResumeDownload.PendingOverclaims | cmd/hyperexport/parallel_download.go:462-473 | if one claims more than m, a run that truncates the file ends with an empty file and a checkpoint beyond m |
| ResumeDownload.OverclaimReachable | cmd/hyperexport/parallel_download.go:462-566 | for every non-empty content such a state is reached from nothing |
| ResumeDownload.CrashThenResumeCorrupts | cmd/hyperexport/parallel_download.go:448-459 | for any two-byte content a crash and a resume from the empty state can report success over a three-byte file |
| ResumeDownload.LateSaveReachable | cmd/hyperexport/parallel_download.go:540-566 | for every non-empty content a save in flight can land after the final save and leave an unfinished checkpoint at full length |
| ResumeDownload.StrandedForever | cmd/hyperexport/parallel_download.go:491-501 | from such a checkpoint no history without a 200 reply or a failing open ever finishes or changes file or checkpoint |
| ResumeDownload.StrandedRescued | cmd/hyperexport/parallel_download.go:491-519 | from such a checkpoint a run answered 200, and a run whose open for appending fails, ends with the whole content and a completed checkpoint |
| ResumeDownload.CompletedStaysIff | cmd/hyperexport/parallel_download.go:528-566 | a finished download's checkpoint stays completed in every continuation without another run iff no save is in flight and no ticker goroutine is left |
| ResumeDownload.ResumeableDownloader.DownloadWithResume | cmd/hyperexport/parallel_download.go:442-624 | from the fields alone: an unfinished checkpoint of this path over a file that opens is resumed at its count, and anything else empties the file and asks for all of it; a reply that does not fit ends in an error over the untouched file; otherwise the body is appended to the file (to nothing when a Range request was answered 200), and the result is an error iff some iteration was cancelled, failed to read or wrote short; it is one run of the step machine among any overlapping saves |
| ResumeDownload.StartMeans | cmd/hyperexport/parallel_download.go:444-487 | which starts resume, from the checkpoint, the path and the file, and what each does to file and offset |
| ResumeDownload.ReplyMeans | cmd/hyperexport/parallel_download.go:489-525 | what each status does to file and run, with and without a Range request |
| ResumeDownload.ResumeableDownloader.Download | cmd/hyperexport/parallel_download.go:489-624 | the same from the request on |
| ResumeDownload.ResumeableDownloader.CopyBody | cmd/hyperexport/parallel_download.go:571-624 | the whole body is appended and counted, or a prefix of it when iteration `last` is the first that is cancelled, fails to read or writes short, which is when it fails |
| ResumeDownload.ResumeableDownloader.CopyOnce | cmd/hyperexport/parallel_download.go:572-603 | one iteration: how much is read, written and counted, when it fails, and when it is the last |
| ResumeDownload.ResumeableDownloader.TickerMoves | cmd/hyperexport/parallel_download.go:537-566 | a ticker goroutine takes a snapshot of the counted bytes, saves one as unfinished or fails to, or ends: one step of the machine |
| ResumeDownload.ResumeableDownloader.TickersRun | cmd/hyperexport/parallel_download.go:537-566 | the given steps of the tickers, in order and each if it is possible in its turn, while the run stays where it is |
| ResumeDownload.ResumeableDownloader.StopRun | cmd/hyperexport/parallel_download.go:571-604 | returning with an error is the abort step and leaves the ticker with the count |
| ResumeDownload.ResumeableDownloader.FinishRun | cmd/hyperexport/parallel_download.go:606-624 | the final save, or its failure, is the finishing step |
| ResumeDownload.ResumeableDownloader.CopyPiece | cmd/hyperexport/parallel_download.go:578-597 | one piece appends what was written and counts exactly that, with saves possible in between |
| Encryption.IncrementNonce | cmd/hyperexport/encryption.go:411-418 | the in-place loop adds one to the big-endian value modulo 256^len |
| Encryption.NonceAtValue | cmd/hyperexport/encryption.go:159-160 | the nonce of chunk i has value start + i modulo 256^len |
| Encryption.BigEndianMeans | cmd/hyperexport/encryption.go:411-418 | the value meant: the last byte counts one, each byte before it 256 times the next |
| Encryption.NonceReuse | cmd/hyperexport/encryption.go:133-160 | two chunks share a nonce iff their distance is a multiple of 256^len |
| Encryption.NoncesOfFileDistinct | cmd/hyperexport/encryption.go:120-160 | the 12-byte nonces of one file are pairwise distinct for up to 2^96 chunks (section 8 of NIST SP 800-38D) |
| Encryption.FilesShareNonceIff | cmd/hyperexport/encryption.go:71-160 | two files of p and q chunks under one key share a nonce iff neither is empty and, modulo 256^len, the second start is less than p ahead of the first or the first less than q ahead of the second |
| Encryption.FramesUseNonceAt | cmd/hyperexport/encryption.go:133-160 | chunk i is framed under the start nonce incremented i times |
| Encryption.SizeRoundTrip | cmd/hyperexport/encryption.go:144-149 | the four size bytes read back as the length iff it is below 2^32 |
| Encryption.SizeIsBigEndian | cmd/hyperexport/encryption.go:144-149 | the size field is the big-endian value of its four bytes |
| Encryption.RoundTrip | cmd/hyperexport/encryption.go:289-321 | decrypting an encrypted file succeeds and returns it exactly, for every start nonce and every split into chunks, the empty file included |
| Encryption.DecryptTruncated | cmd/hyperexport/encryption.go:283-321 | decrypting any prefix of an encrypted stream writes a prefix of the plaintext, and succeeds iff the cut is a frame boundary at or after the nonce |
| Encryption.DecryptMeans | cmd/hyperexport/encryption.go:283-321 | any input of at least 12 bytes is its nonce, frames whose ciphertexts open under the nonces in turn, and a rest: the output is their plaintexts, and the outcome is success iff the rest is empty, a cut size, a cut chunk, or a chunk that does not open |
| Encryption.DecryptSucceedsIff | cmd/hyperexport/encryption.go:283-321 | decryption succeeds with a plaintext iff the input is a nonce and whole frames that open in turn to it |
| Encryption.TamperedFrameFails | cmd/hyperexport/encryption.go:309-312 | the first frame that does not open ends in that error, with the plaintexts before it as output, whatever follows |
| Encryption.DecryptShort | cmd/hyperexport/encryption.go:283-287 | an input too short for the nonce, and no other, is reported as that |
| Encryption.ChunksAreAllData | cmd/hyperexport/encryption.go:131-169 | the chunks hold all data that was read, that of the last reply included |
| Encryption.ReadsFailMeans | cmd/hyperexport/encryption.go:162-167 | reading fails iff the first reply that does not go on is an error |
| Encryption.SealChunk | cmd/hyperexport/encryption.go:136-160 | one chunk becomes one frame under the current nonce, which then moves on |
| Encryption.EncryptFile | cmd/hyperexport/encryption.go:131-169 | whatever Read returned, the output is the nonce and the frames of the non-empty pieces read before the first error, and success means no read error |
| Encryption.DecryptFile | cmd/hyperexport/encryption.go:283-324 | the loop writes and reports what the parser specification says, error cases included |
| Encryption.EncryptThenDecrypt | cmd/hyperexport/encryption.go:289-321 | the two loops compose to the identity on everything that was read |
| Bandwidth.RunValid | cmd/hyperexport/bandwidth.go:78-97 | in every interleaving of callers the bucket stays between 0 and its size |
| Bandwidth.AttemptConserves | cmd/hyperexport/bandwidth.go:78-97 | what an attempt leaves and grants is what was there and the whole bytes that flowed in, up to the size of the bucket |
| Bandwidth.SleepMeans | cmd/hyperexport/bandwidth.go:99-106 | after a failed attempt the caller sleeps for a second or, if that is less, for the whole nanoseconds in which the missing bytes flow in |
| Bandwidth.WindowBound | cmd/hyperexport/bandwidth.go:78-97 | bytes granted in a window [s, t] are at most bucketSize + limit * (t - s) + 1 |
| Bandwidth.RateBound | cmd/hyperexport/bandwidth.go:69-118 | the same for any window of any longer run |
| Bandwidth.OversizedNeverGranted | cmd/hyperexport/bandwidth.go:93-97 | a request above the bucket size is refused at every point of every run |
| Bandwidth.SleepProgress | cmd/hyperexport/bandwidth.go:99-116 | each sleep of a lone caller ends in a grant or strictly lowers an explicit measure, despite truncated waits and refills |
| Bandwidth.FrozenClockNoProgress | cmd/hyperexport/bandwidth.go:99-106 | without clock progress a failed attempt repeats unchanged, and its wait is zero iff the missing tokens are worth less than a nanosecond |
| Bandwidth.ZeroSleepPossibleIff | cmd/hyperexport/bandwidth.go:37-106 | some limiter of this rate, whatever its burst, can after some run from its creation ask for a wait of length zero iff the rate exceeds a byte per nanosecond |
| Bandwidth.ZeroSleepReached | cmd/hyperexport/bandwidth.go:37-106 | with a burst of one byte the second of two calls at one instant is such a wait |
| Bandwidth.BandwidthLimiter.constructor | cmd/hyperexport/bandwidth.go:37-66 | no or a non-positive rate means unlimited; otherwise a full bucket of the burst size, by default twice the rate |
| Bandwidth.BandwidthLimiter.TryTake | cmd/hyperexport/bandwidth.go:79-106 | the critical section of one Wait iteration: whole new state and verdict |
| Bandwidth.BandwidthLimiter.Wait | cmd/hyperexport/bandwidth.go:69-118 | among any attempts of other callers, all attempts together are a run of the theorems above; the caller returns after the first sleep that ends in a grant, or when cancelled; above the bucket size only when cancelled; on error it has taken nothing |
| Bandwidth.LoneWaitGranted | cmd/hyperexport/bandwidth.go:69-118 | once nobody else calls and no sleep is empty, a request of at most the bucket size is granted, alone from the start within two sleeps per missing token |
| Bandwidth.LoneWaitTime | cmd/hyperexport/bandwidth.go:69-118 | a caller that is alone, with exact timers, is granted before twice the time in which its missing bytes flow in |
| Bandwidth.StarvedForever | cmd/hyperexport/bandwidth.go:69-118 | from every state others can empty the bucket and take each refill so that a caller is not granted a byte after any number of sleeps |
| Bandwidth.SleeperState | cmd/hyperexport/bandwidth.go:76-116 | among any other callers the bucket stays in bounds at each wake-up, and a caller without its bytes misses some and sleeps for them |
| Bandwidth.BandwidthLimiter.TryAfterOthers | cmd/hyperexport/bandwidth.go:76-116 | one iteration: what others take during the sleep, then the own attempt at the end |
| Adaptive.SpeedInRange | cmd/hyperexport/bandwidth.go:286-322 | in every run the speed stays in [min, max] and equals the base limiter's rate |
| Adaptive.GrantedNeverExceeds | cmd/hyperexport/bandwidth.go:242-326 | from creation on, bytes granted are at most the bucket size plus max speed times elapsed time |
| Adaptive.NeverFasterAfterError | cmd/hyperexport/bandwidth.go:276-306 | with min <= max the speed never rises after the first recorded error, in any run |
| Adaptive.ErrorStaysRecorded | cmd/hyperexport/bandwidth.go:268-283 | after an error was recorded no event brings the error average below a tenth |
| Adaptive.SwappedSpeedsRise | cmd/hyperexport/bandwidth.go:300-306 | for every pair with min > max, two failures an interval apart raise the speed of a new limiter to min |
| Adaptive.NeverRisesIff | cmd/hyperexport/bandwidth.go:276-322 | no run of a new limiter is faster after an error than just before it iff min <= max |
| Adaptive.AdjustmentMeans | cmd/hyperexport/bandwidth.go:286-322 | at most once in ten seconds, up to six fifths or down to four fifths in whole bytes, within the bounds and by the thresholds of the two averages, or not at all |
| Adaptive.SuccessesReachMaxIff | cmd/hyperexport/bandwidth.go:286-306 | without an error, successes bring the speed to maxSpeed iff it is there or at least five bytes per second |
| Adaptive.SlowStaysSlow | cmd/hyperexport/bandwidth.go:293-299 | below five bytes per second no run ever makes it faster |
| Adaptive.FailuresReachMin | cmd/hyperexport/bandwidth.go:300-306 | failures bring the speed down to minSpeed from wherever it is |
| Adaptive.AdaptiveBandwidthLimiter.constructor | cmd/hyperexport/bandwidth.go:242-265 | defaults, the middle speed, and a base limiter at that speed satisfy the invariant |
| Adaptive.AdaptiveBandwidthLimiter.RecordSuccess | cmd/hyperexport/bandwidth.go:268-274 | one success event, keeping the invariant |
| Adaptive.AdaptiveBandwidthLimiter.RecordError | cmd/hyperexport/bandwidth.go:277-283 | one failure event, keeping the invariant |
| Adaptive.AdaptiveBandwidthLimiter.AdjustSpeed | cmd/hyperexport/bandwidth.go:286-322 | the new speed, and the base limit with it, at most once per interval |
| Adaptive.AdaptiveBandwidthLimiter.TryTake | cmd/hyperexport/bandwidth.go:325-327 | an attempt through the wrapper is an attempt on the base bucket and keeps the invariant |
| Cleanup.SelectForDeletion | cmd/hyperexport/cleanup.go:222-308 | the deleted exports are the k oldest unpreserved ones for the least k whose survivors meet age, count and size limits, and the running total is the survivors' size |
| Cleanup.SelectionWithoutTies | cmd/hyperexport/cleanup.go:293-296 | with distinct modification times the survivors are a suffix of the listing itself |
| Cleanup.SelectionSafe | cmd/hyperexport/cleanup.go:229-232 | no preserved export is selected and no path twice |
| Cleanup.SecondPassSelectsNothing | cmd/hyperexport/cleanup.go:222-308 | a second selection at the same instant over the survivors selects nothing |
| Cleanup.ProtectedSurvive | cmd/hyperexport/cleanup.go:199-219 | an export whose name a pattern protects is not deleted if marking reached it |
| Cleanup.OverAgeDeletedIff | cmd/hyperexport/cleanup.go:199-240 | an over-age export that was not preserved before survives iff a pattern protects its name and no name before it runs into a malformed pattern |
| Cleanup.ProtectedExportDeleted | cmd/hyperexport/cleanup.go:142-240 | export-1 runs into the malformed pattern, and export-2, though protected, is deleted |
| Cleanup.NothingSelectedIff | cmd/hyperexport/cleanup.go:222-308 | nothing is deleted iff the unpreserved exports meet all limits as they are |
| Cleanup.MarkByAge | cmd/hyperexport/cleanup.go:225-240 | the first pass takes exactly the over-age exports, which are the oldest, and counts the rest |
| Cleanup.TrimToCount | cmd/hyperexport/cleanup.go:242-271 | the second pass deletes only as many as the count limit needs |
| Cleanup.TrimToSize | cmd/hyperexport/cleanup.go:273-305 | the third pass stops at the first survivors within the size limit |
| Cleanup.CollectUnmarked | cmd/hyperexport/cleanup.go:245-261 | the nested loops collect what is neither preserved nor already marked |
| Cleanup.UnmarkedIsRest | cmd/hyperexport/cleanup.go:252-260 | with distinct paths that is exactly what lies behind the deleted prefix |
| Cleanup.MarkPreserved | cmd/hyperexport/cleanup.go:199-219 | exports before the first malformed match are marked as the patterns say, those from it on are untouched |
| Cleanup.ProtectedIff | cmd/hyperexport/cleanup.go:204-216 | a name is protected iff some pattern matches and all before it were tried without a match, stops the marking iff likewise one is malformed, and is left alone iff all were tried without a match |
| Cleanup.UnmatchedDeleted | cmd/hyperexport/cleanup.go:199-240 | an over-age export that no pattern matches is deleted |
| Cleanup.AgeAlone | cmd/hyperexport/cleanup.go:225-240 | with no other limit, exactly the unpreserved exports older than maxAge are deleted |
| Cleanup.FailuresLast | cmd/hyperexport/cleanup.go:100-120 | each removal that fails adds one error |
| Cleanup.CleanupOldExports | cmd/hyperexport/cleanup.go:57-134 | counts and sizes of the result are those of the selection; failed removals are errors but still counted; nothing selected means an all-zero result; an over-age export that no pattern matches is among the deleted |
| Monitor.BuffersBounded | network/monitor.go:160-218 | however updates overlap, no channel holds more than ten messages |
| Monitor.OfferMeans | network/monitor.go:208-215 | a message is dropped iff ten are unread, and otherwise sent, to one listener after the other |
| Monitor.DropNeedsTen | network/monitor.go:208-215 | in every run a listener that loses a message had ten unread ones at some moment |
| Monitor.PassExcludes | network/monitor.go:194-216 | while a pass runs nobody writes the state or subscribes |
| Monitor.PassesOverlap | network/monitor.go:208-216 | two passes may run at once |
| Monitor.ListenerStream | network/monitor.go:194-218 | with serialised updates and none in flight, a listener without a drop has been sent exactly the passes since its Subscribe, stutter-free under notifyOnChange, and its last message is the state |
| Monitor.OverlapBreaksOrder | network/monitor.go:194-218 | for two or more updating goroutines, with and without notifyOnChange, a run ends idle with the last message Up and the state Down |
| Monitor.OrderKeptIff | network/monitor.go:194-218 | in every run, whenever no update is in flight, the last message of every complete listener is the state, iff at most one goroutine updates |
| Monitor.WaiterWokenIff | network/monitor.go:160-218 | in whatever state a waiter subscribes and however updates overlap afterwards: it has been sent an Up in every later state that is idle and Up, unless it dropped a message, iff at the Subscribe the state was not Up or an update that wrote Up had yet to begin its pass |
| Monitor.QuietGapIsSafe | network/monitor.go:169-178 | in every run, if the check saw another state than Up and no update begins before the Subscribe, the waiter is woken |
| Monitor.PendingDownIsNoWakeup | network/monitor.go:122-127 | with two or more updating goroutines a run from the start leads to a Subscribe in state Up with a pass of Down still to come, and on to an idle state Up with only Down in the channel |
| Monitor.LostWakeup | network/monitor.go:169-178 | from every idle state that is not Up a whole update between check and Subscribe leads to a waiter that is not woken on a network that is up |
| Monitor.CheckConnectivity | network/monitor.go:311-334 | Up iff there are hosts and all answer, Down iff none answers, Degraded otherwise |
| Monitor.NetworkMonitor.Subscribe | network/monitor.go:160-166 | once it holds the lock: a new, empty channel behind the others |
| Monitor.NetworkMonitor.Perform | network/monitor.go:160-218 | each atomic step of updateState, Subscribe and a receive changes the fields as the step machine says |
| Monitor.NetworkMonitor.WaitForNetwork | network/monitor.go:169-191 | at once when Up; otherwise, among any steps of any number of updating goroutines in the gap and while it waits, it succeeds iff an Up was taken from its own channel; unless at its Subscribe the state was Up with no Up left to announce, a waiter still waiting on an idle network that is up finds an Up buffered or dropped a message; the subscription stays behind |
| Monitor.NetworkMonitor.Select | network/monitor.go:178-190 | the same from the Subscribe on |
| Monitor.WaitedRun | network/monitor.go:169-191 | waiting, with any steps of others coming in, is a run of the step machine, and succeeds iff an Up was taken |
| Monitor.WaitedOutcome | network/monitor.go:181-190 | a waiter is cancelled only by the end of its context, and does not outlast it |
| Monitor.WaitedFollows | network/monitor.go:181-190 | every run of others can happen while it waits |
| Monitor.GappedFollows | network/monitor.go:170-178 | and in the gap before its Subscribe |
| Monitor.EnoughTakes | network/monitor.go:184-188 | taking all that is buffered, it succeeds iff an Up is among it |
| Monitor.NetworkMonitor.UpdateState | network/monitor.go:194-218 | every listener is offered the new state iff it must be announced, and full channels drop it |
| Monitor.WholeUpdate | network/monitor.go:194-218 | that effect is one serialised run of the step machine: begin, one pass over all listeners, end |
| Retry.RunStopsAtFirst | retry/retry.go:87-174 | the operation is called with 1, 2, .., k and the run ends at the first attempt that succeeds, fails non-retryably, is cancelled or is the last, with the matching outcome |
| Retry.RunTrace | retry/retry.go:87-174 | event by event: attempts 1 to k - 1 call, fail retryably and pause once, attempt k ends before the call, after it or in its pause, and the outcome is the one that goes with it |
| Retry.RunPauses | retry/retry.go:132-170 | each pause awaits the network iff a monitor is asked for and reports down, and otherwise sleeps for the backoff of that attempt, with at most a quarter more as jitter |
| Retry.TrailingReturnUnreachable | retry/retry.go:173 | the return behind the loop is reached iff MaxAttempts is not positive |
| Retry.MonitorIrrelevant | retry/retry.go:132-152 | a monitor that is not asked for, or always reports up, leaves trace and outcome as without one |
| Retry.TotalBackoffBound | retry/retry.go:154-170 | the sleeps of a whole run sum to at most 1.25 * (MaxAttempts - 1) * MaxDelay |
| Retry.TotalBackoffAtLeast | retry/retry.go:154-170 | with a multiplier of at least one, the sleeps of a run sum to at least the first backoff for each |
| Retry.DelayBounds | retry/retry.go:260-278 | each delay lies between the capped exponential in whole nanoseconds and 1.25 times it, and is the former without jitter and grows with the random number with it |
| Retry.BackoffMonotone | retry/retry.go:260-267 | the delay before jitter never decreases when the multiplier is at least one |
| Retry.BackoffRecurrence | retry/retry.go:260-267 | it starts at InitialDelay, is multiplied from attempt to attempt, and stays at MaxDelay once there |
| Retry.Normalize | retry/retry.go:56-79 | every configuration becomes usable, and a usable one is kept |
| Retry.Do | retry/retry.go:87-174 | the loop does exactly what the trace specification says |
| Retry.DoWithResult | retry/retry.go:177-257 | the same trace, and the value is that of the last, successful call |
| Retry.TwinDo | cmd/hyperexport/retry.go:74-138 | the twin follows the same specification without a monitor |
| Retry.WrappingKeepsRetryable | retry/retry.go:281-352 | a retryable error stays retryable under any context text at any depth |
| Retry.ContextCounts | retry/retry.go:281-352 | a pattern in the text around an error makes it retryable, whatever the error is |
| Retry.MarkersDoNotDecide | retry/retry.go:397-437 | a marked error is retryable iff the unmarked one is, or the marker value itself is listed |
| Retry.MarkersFail | retry/retry.go:397-437 | NonRetryableError around any transient message is retried, and RetryableError around an empty one is not |
| Retry.LowerFolds | retry/retry.go:360-378 | the lower-cased pattern occurs in the lower-cased text at exactly the places where it occurs up to the case of letters |
| Retry.IndexString | retry/retry.go:381-395 | the first occurrence, or -1 iff there is none |
| Retry.ToLower | retry/retry.go:368-378 | only the letters A to Z change |
| Retry.ContainsString | retry/retry.go:360-365 | true iff the lower-cased text contains the lower-cased pattern |
| Retry.IsRetryable | retry/retry.go:281-352 | true iff a listed error is on the chain or some pattern occurs in the message |
| Retry.RetryableMeans | retry/retry.go:281-378 | that is, the text of a pattern stands in the message up to the case of letters |
| Checksums.RoundTripIff | cmd/hyperexport/validation.go:447-465 | printing a map in any order and parsing it gives the map back iff every name is non-empty and free of whitespace |
| Checksums.SpacedNameLost | cmd/hyperexport/validation.go:447-465 | a listed name with a space does not come back |
| Checksums.FieldsOfLine | cmd/hyperexport/validation.go:563-565 | a printed line reads back as checksum and name |
| Checksums.ParsedNamesClean | cmd/hyperexport/validation.go:451-465 | whatever the file holds, every parsed name is non-empty and free of whitespace |
| Checksums.LineMeans | cmd/hyperexport/validation.go:451-465 | in any list, a line of at least two fields gives the first as the checksum of the second, and any other line gives nothing |
| Checksums.ExtraFieldsIgnored | cmd/hyperexport/validation.go:458-465 | what follows the second field is ignored |
| Checksums.LastLineCounts | cmd/hyperexport/validation.go:451-465 | lines take effect in turn, so the last one for a name counts |
| Checksums.PrintFormat | cmd/hyperexport/validation.go:563-565 | the lines are checksum, two spaces, name, newline |
| Checksums.SaveThenValidate | cmd/hyperexport/validation.go:553-600 | compute, save and validate on an unchanged directory of clean names passes iff a file was listed and an earlier list, if any was listed, hashes like the new one; a dangling earlier list is none |
| Checksums.FreshListValidates | cmd/hyperexport/validation.go:423-533 | without an earlier list a non-empty directory of clean names validates |
| Checksums.SecondSavePassesIff | cmd/hyperexport/validation.go:553-600 | after saving twice the two lists differ, and validation passes iff their hashes collide |
| Checksums.SavedListDetects | cmd/hyperexport/validation.go:476-514 | with the saved list of a directory in it, any other directory passes iff every listed file is there, readable, and hashes as it did |
| Checksums.ParseChecksums | cmd/hyperexport/validation.go:447-465 | the parsing loop, blank and short lines skipped |
| Checksums.SaveChecksumManifest | cmd/hyperexport/validation.go:553-568 | the printed file, for any order of the map |
| Checksums.ComputeExportChecksums | cmd/hyperexport/validation.go:571-600 | exactly the regular files, or an error iff one is unreadable |
| Checksums.CountVerdicts | cmd/hyperexport/validation.go:476-514 | verified + failed + missing is the number of entries, each counted by its own verdict |
| Checksums.ValidateChecksums | cmd/hyperexport/validation.go:423-533 | passes iff there is no list, or it is readable, non-empty and every listed file is there with that hash; which report it gives in each case |
| Manifest.BuildValidates | manifest/validator.go:13-52 | for every sequence of builder calls whose Build succeeds, Validate accepts the manifest iff the arguments the builder does not check were acceptable |
| Manifest.BuiltFaithful | manifest/builder.go:85-157 | without an error the disks are, in order, what the disk calls asked for, with distinct names |
| Manifest.BuiltChecksumsMatch | manifest/builder.go:137-157 | on unchanged files every recorded digest matches, and a disk carries one iff it was asked for |
| Manifest.BuildThenVerify | manifest/validator.go:165-193 | VerifyChecksums on a built manifest returns true for exactly the disks added with a checksum |
| Manifest.ComputedChecksumValid | manifest/builder.go:281-296 | a computed checksum has the form the validator demands |
| Manifest.HexForm | manifest/builder.go:295 | the digest prints as two lower-case hexadecimal digits a byte |
| Manifest.HexReadsBack | manifest/builder.go:295 | the digits read back as the bytes |
| Manifest.Builder.AddDisk | manifest/builder.go:85-134 | adds the disk or records the first of five problems |
| Manifest.Builder.AddDiskWithChecksum | manifest/builder.go:137-157 | the SHA-256 of the file in hexadecimal goes on the disk just added, if it was asked for and there is no error; after any error no checksum is set, and earlier disks are never touched |
| Manifest.Builder.WithVM | manifest/builder.go:72-82 | replaces the VM |
| Manifest.Builder.AddNIC | manifest/builder.go:160-167 | appends the NIC unchecked |
| Manifest.Builder.Build | manifest/builder.go:266-278 | a manifest iff there was no error and there is a disk |
| Manifest.ValidateDisk | manifest/validator.go:55-123 | accepts iff the disk is valid and its name new, and then remembers the name |
| Manifest.Validate | manifest/validator.go:13-52 | accepts iff the manifest meets the schema as one predicate states it |
| Manifest.VerifyChecksums | manifest/validator.go:165-193 | passes iff every recorded digest matches, and then holds true for exactly the disks with one; panics iff the first disk that does not verify has a checksum shorter than 7; otherwise an error, with true for the disks before that one and false for it iff its file could be read |

## Left out

- Goroutines and channels of the pool and the monitor are values in a step machine, not Dafny objects: real scheduling, the memory model and unbuffered hand-over (`workerCount` 0 with a waiting receiver) are not captured, and after a panic the model goes on where the process would end.
- `downloadFile`, `GetProgress` and the byte counters of the pool: a download is one step with an arbitrary success flag. A negative worker count panics in `make` and is not modelled.
- The `.tmp` file two concurrent checkpoint saves share, JSON, timestamps, directory creation and operating-system errors beyond ending a run; a hand-edited checkpoint with a negative offset.
- Encryption.RoundTrip: takes Open-inverts-Seal and the 16-byte tag as laws of the cipher; key derivation, GPG, directories and cryptographic strength are not part of this model.
- Bandwidth.RateBound: byte counts are non-negative, as all callers pass lengths; arithmetic is exact where the source rounds doubles; 64-bit overflow is not modelled. `LimitedReader`, `LimitedWriter` and `GetStats` only forward.
- Bandwidth.BandwidthLimiter.Wait: demands a cancellation or a sleep that ends in a grant, as it would never return without; clocks never run backwards.
- Adaptive.NeverFasterAfterError: averages are exact reals; with doubles the first error average is the same tenth.
- Cleanup.SelectForDeletion: takes the listing sorted and with distinct paths, as `CleanupOldExports` and the directory glob provide; sizes are non-negative.
- Directory scanning, size calculation, free-space triggering and scheduling of the cleanup.
- Monitor.ListenerStream: needs updateState calls that do not overlap; OrderKeptIff shows why. `Stop`, netlink events and dialling are left out.
- Retry.IndexString: strings are sequences of characters; on valid UTF-8 this finds the same answers as the source's bytes.
- Errors joined from several, or with their own `Is` method; log output and the text of returned errors; `DoWithResult` of the twin, which is the same loop again.
- Checksums.SaveThenValidate: a name stands for the entry of that name; listed names that contain path separators are not resolved.
- Manifest.BuildValidates: the length of a MAC is in characters, the source counts bytes; a nil manifest and the fields the validator never reads are left out, as is JSON and YAML encoding.
- Cloud backends, vSphere and Nutanix export, daemon handlers, user interfaces, configuration, registry, history and logging: no property beyond field access.

# Recording data plane: model and proofs

This project models the native recording core in `native/src` and proves what it promises: no camera frame is lost
silently, every audio segment that a checkpoint names survives a crash, and the clock and statistics arithmetic is
sound. Run `dafny verify dfyconfig.toml` here to check it.

## What is modelled

Each source component is a module. Code that updates fields in place is a class whose methods are proved equal to a
function on plain values, or to keep a stated layout; what the component promises is then proved about those functions.
Threads that share state are a step function over the atomic steps of each thread, folded over an arbitrary sequence of
actions, so a theorem about `Run` holds for every interleaving. `Paths` says of a method that it is some such run.
Operations that may refuse have their success stated exactly, and the machines come with theorems that they get
somewhere: what a run without failures completes, and how a stop or an end is reached from every state.

| modules | source | contents |
|---|---|---|
| `CheckpointFormat`, `Disk`, `Checkpoint`, `CheckpointWriter` | `audio.rs` | journal and header files, what a crash leaves of them, the commit as a machine over I/O actions, the same commit as it updates its fields |
| `DurabilityChain`, `DurabilityRuns`, `Commits` | `audio.rs` | commit worker, segment syncs and commits interleaved; crashes of it; the worker as it updates its fields |
| `AudioRecorder`, `AudioRecorderRuns`, `AudioRecorderProgress` | `audio.rs` | block pool, segment writer and commit chain as one machine, from the frames read to the audio recovered; the way to a good end |
| `Wav`, `Segments`, `SegmentRuns`, `SegmentFiles` | `audio.rs` | WAV header, cutting the stream into segments, plain chunking as the reference |
| `BlockPool`, `PcmThreads` | `audio.rs` | buffers between capture and disk thread; the capture loop and the disk thread's turn in place |
| `BoundedQueue`, `LossAccounting` | `bounded.rs`, `native_camera.rs` | weighted queue, producer loop and frame validator |
| `Fanout`, `ActiveTake`, `SegmentPlanner`, `TakePath` | `recording.rs`, `active_take.rs`, `capture_runtime.rs` | recording gate, reservations, segment plan, one frame on its way into a take |
| `Capture`, `CaptureRuns`, `CaptureHistory`, `CaptureProgress`, `CaptureRuntime` | `capture_runtime.rs` | frame thread, IMU thread and controller interleaved; where its rows come from; what it completes; the critical sections as they update the locked state |
| `IndexWriter`, `FrameIndex` | `recording.rs`, `capture_runtime.rs` | asynchronous index writer; capture runtime and one writer per take interleaved |
| `AudioClock`, `Imu`, `LeastSquares`, `StageMetrics`, `Jpeg`, `JpegHeader` | `audio_clock.rs`, `imu.rs`, `metrics.rs`, `jpeg.rs`, `recording.rs` | sample clock, counter unwrapping and clock fit, stage histogram, JPEG scanners |

Assumptions about the environment are explicit. An `fsync` makes a file's bytes and name durable; an unsynced append
may be kept, lost or torn; a rename is atomic and may be on either side of a crash until the directory is synced. Any
I/O action may fail with part of its effect. The record encoding is any one that can be read back and contains no
newline; nothing is asked of the digest. `f64` is taken over exact reals. The camera driver supplies strictly
increasing sequence numbers and timestamps.

## What turned out not to hold everywhere

- A histogram percentile is within a factor of two of the sample of its rank exactly when that sample is below 2^63:
  the last bucket is open above (`StageMetrics.PercentileWithinFactorTwo`). At 2^63 it is missed
  (`StageMetrics.FactorTwoIsMissed`).
- An unwrapped counter follows the device counter exactly when that advances by at most half the modulus
  (`Imu.UnwrapIsExactIff`). An advance of one modulus and one tick is read as one tick (`Imu.WrapIsMissed`).
- `durable_samples` promises recoverable audio only if a clock checkpoint is installed before the first commit, as
  `start_and_capture` does: without one, commits return `Ok` and write nothing
  (`DurabilityRuns.NothingIsPublishedWithoutClock`), and a single submitted segment already breaks the promise
  (`DurabilityRuns.DurableClaimNeedsTheClock`). With one it always holds (`DurabilityRuns.DurableSamplesSurvive`).
- `write` of the index writer may tell its caller that a record failed although the record is sent: exactly when the
  record is admitted and the byte count would overflow (`IndexWriter.ToldWrongExactly`), which a run reaches
  (`IndexWriter.OverflowIsReachable`). `flush_and_close` succeeds exactly when that never happened
  (`IndexWriter.FlushSucceedsExactly`).

## Model

| member | source | states |
|---|---|---|
| CheckpointFormat.FramedRowsReadBack | native/src/audio.rs:1387-1411 | newline-framed delta rows split and decode back to the same rows, in sequence |
| CheckpointFormat.PublishedRecovers | native/src/audio.rs:2689-2737 | a published header over a journal that starts with its rows expands to exactly its snapshot, whatever follows in the journal |
| CheckpointFormat.RecoveryIsChecked | native/src/audio.rs:2689-2737 | nothing is recovered but a header and a journal that belong together: length, digest, rows in sequence and both counts match, and the inventory is that of those rows |
| CheckpointFormat.BelongingIsRecovered | native/src/audio.rs:2689-2737 | files that belong together are recovered, whatever follows in the journal |
| Checkpoint.StepKeeps | native/src/audio.rs:1345-1459 | every begun commit and every I/O action, succeeding or failing with part of its effect, keeps counters, journal, header and temporary file in step |
| Checkpoint.CrashConsistency | native/src/audio.rs:1345-1459 | over every run of commits and every crash point, recovery decodes exactly the last published snapshot or the one whose rename may have taken effect |
| Checkpoint.CommittedIsDurable | native/src/audio.rs:1425-1458 | once a commit has returned `Ok`, every later crash recovers at least its anchors and segments, whatever fails afterwards |
| Checkpoint.FailureIsTerminal | native/src/audio.rs:1351-1356 | after a failed action no later commit touches the disk |
| Checkpoint.NoUnpublishedTail | native/src/audio.rs:1413-1428 | between successful commits the journal holds the published rows and nothing else, all synced |
| CheckpointWriter.CompletedIsARun | native/src/audio.rs:1345-1459 | a commit performed in one call is a legal run of the action machine |
| CheckpointWriter.CommitKeepsAll | native/src/audio.rs:1345-1459 | a commit in one call keeps the machine's invariant for every combination of I/O answers |
| CheckpointWriter.CommitSucceedsExactly | native/src/audio.rs:1345-1459 | over observers that only appended, a commit returns `Ok` exactly when each of its eight I/O actions (seven once the journal exists) answers ok; then every surviving image recovers exactly the given anchors and segments, otherwise the journal has failed for good and nothing new is published |
| CheckpointWriter.CommitWithoutIo | native/src/audio.rs:1351-1382 | without a clock a commit is `Ok`, with a regressed observer an error; both leave the machine as it was |
| CheckpointWriter.CheckpointJournal.WriteRow | native/src/audio.rs:1412-1428 | creating, appending and syncing the journal is the machine's first stretch; `Ok` exactly when all of these answer ok |
| CheckpointWriter.CheckpointJournal.WriteHeader | native/src/audio.rs:1429-1448 | creating, writing and syncing the temporary header is the machine's second stretch; `Ok` exactly when all three answer ok |
| CheckpointWriter.CheckpointJournal.MoveHeader | native/src/audio.rs:1449 | the rename is one action, which may take effect although it fails; `Ok` exactly when it answers ok |
| CheckpointWriter.CheckpointJournal.SealHeader | native/src/audio.rs:1450-1458 | the counters move only after the directory is synced; `Ok` exactly when that answers ok |
| CheckpointWriter.CheckpointJournal.Commit | native/src/audio.rs:1345-1459 | `Ok` exactly when the journal has not failed, the observers have not regressed and every I/O action answers ok, or there is no clock; then exactly the given anchors and segments are published and every surviving image recovers them |
| DurabilityChain.StepKeeps | native/src/audio.rs:989-1052 | every step of submitter, worker, commit and capture thread keeps backlog, order, records and publication in step |
| DurabilityRuns.BacklogIsBounded | native/src/audio.rs:1018-1041 | pending commits are exactly queued and in-flight segments plus at most one reservation, never more than 8, and a live channel has room for every admitted segment |
| DurabilityRuns.CommitsAreAPrefix | native/src/audio.rs:989-1016 | the durable records are at every moment a prefix of the submitted segments, in order, each once |
| DurabilityRuns.FinishCommitsEverything | native/src/audio.rs:1043-1051 | `finish` returning `Ok` means every submitted segment is synced, recorded exactly once and, with a clock, published |
| DurabilityRuns.SurvivingHeaderNamesDurableFiles | native/src/audio.rs:1109-1128 | whenever a crash falls, every segment the recovered inventory names was submitted at that position and its file is intact |
| DurabilityRuns.DurableSamplesSurvive | native/src/audio.rs:1121-1126 | with the clock installed first, `durable_samples` is the end of a segment that recovery returns, or 0 |
| DurabilityRuns.RecoveredClockWasObserved | native/src/audio.rs:1575-1587 | whenever a crash falls, the clock anchors recovered are those kept up to some moment of the run and the one seen last at that moment, none lost in between, reordered or made up |
| DurabilityRuns.NothingIsPublishedWithoutClock | native/src/audio.rs:1359-1365 | without a clock checkpoint no crash ever finds a header |
| DurabilityRuns.DurableClaimNeedsTheClock | native/src/audio.rs:1359-1365 | a concrete run in which `durable_samples` becomes the end of a submitted segment although, for lack of a clock, nothing is published and no crash finds a checkpoint |
| Commits.CallIsARun | native/src/audio.rs:989-1052 | every call of the worker class is a run of the chain, so what holds of all runs holds after it |
| Commits.SubmitLeads | native/src/audio.rs:1018-1041 | an uninterrupted `submit` is its four atomic steps |
| Commits.BatchCommitLeads | native/src/audio.rs:1118-1120 | the commit of a synced batch, all its I/O answered, is a run of the chain |
| Commits.CommitWorker.SubmitSegment | native/src/audio.rs:1018-1041 | a segment is refused, without a trace, exactly after a commit error or with 8 commits pending |
| Commits.CommitWorker.GatherBatch | native/src/audio.rs:997-1000 | the batch is the first segment and all that had accumulated, at most 8 |
| Commits.CommitWorker.SyncBatch | native/src/audio.rs:1109-1117 | the batch is synced and recorded in order up to the first failure; `Ok` exactly when there is none |
| Commits.CommitWorker.CommitTurn | native/src/audio.rs:997-1009 | one turn of the loop is a run of the chain; it is `Ok` exactly when all syncs and the I/O of the commit succeed over observers that did not regress, and then the batch is durable, gone from the backlog and, with a clock, published |
| AudioRecorder.StepKeeps | native/src/audio.rs:1461-1640 | every step of capture thread, disk thread with its segment writer, and commit worker keeps pool, stream, sealed segments and submissions in step |
| AudioRecorderRuns.SegmentsSentAreTheStream | native/src/audio.rs:1254-1299 | at every moment of every run the segments that reached the commit worker are exactly those sealed, and tile a prefix of what was read, cut every S frames |
| AudioRecorderRuns.RecoveredAudioIsTheStream | native/src/audio.rs:1461-1640 | end to end: whenever a crash falls, with a segment open or after any failure, the audio recovered is a gapless beginning of the frames read from the device, each file holding exactly samples [start, end) under its header, or no checkpoint was published |
| AudioRecorderRuns.DurableWithinWritten | native/src/audio.rs:1121-1126 | `durable_samples` never exceeds the sample count of the completed segments, nor that the frames read |
| AudioRecorderRuns.EndedRecordingSurvives | native/src/audio.rs:1626-1700 | a recording that `start_and_capture` ends well is recovered whole, every frame read, at any later crash |
| AudioRecorderRuns.DiskThreadAdvances | native/src/audio.rs:1173-1226 | the disk thread never stands still in the loop of `write_frames` or in front of its last seal |
| AudioRecorderProgress.HealthyRecordingEndsWell | native/src/audio.rs:1626-1700 | a run in which no I/O action fails and no segment meets a full backlog, whose capture has stopped and whose worker is joined, has ended well |
| AudioRecorderProgress.HealthyRecordingCanEnd | native/src/audio.rs:1491-1519 | from every state of such a run with the capture stopped, disk thread and worker can go on without a failure to a good end |
| Wav.HeaderReadsBack | native/src/audio.rs:1777-1819 | the 44 bytes read back as 16-bit PCM RIFF/WAVE of the recorder's format with the exact sizes |
| Wav.HeaderExistsExactly | native/src/audio.rs:1777-1797 | a header is refused exactly if the RIFF size, the block align or the byte rate does not fit its field |
| Segments.FedKeeps | native/src/audio.rs:1184-1216 | the loop of `write_frames` keeps the stream laid out: without an error nothing of the buffer is left over, after any error what is kept is laid out over a prefix of everything offered |
| Segments.SealExactly | native/src/audio.rs:1254-1299 | sealing an open segment with frames succeeds exactly when truncation, header and submission do, and adds its exact range and file; any failure leaves the sealed segments as they were |
| SegmentRuns.WriteKeeps | native/src/audio.rs:1173-1218 | `write_frames` without an error appends its whole buffer to the laid-out stream, otherwise a prefix is kept |
| Segments.ProgressIsExact | native/src/audio.rs:1148-1171 | after N frames the published progress is N samples, ceil(N/S) segments and 44·ceil(N/S) + N·frame bytes |
| Segments.FinishTiles | native/src/audio.rs:1220-1226 | `finish` seals exactly the completed frames, torn tails cut off; if that fails the segments sealed before stand |
| SegmentRuns.ChunkAt | native/src/audio.rs:1184-1216 | the reference: chunk i of a stream is its bytes from i·size up to (i+1)·size or the end |
| SegmentRuns.TilesAreChunks | native/src/audio.rs:1254-1299 | the sealed files are the plain chunks of the stream, one by one, each under a header for its length |
| SegmentRuns.RecordingSealsTheChunks | native/src/audio.rs:1491-1519 | for every split of the stream into calls: if no I/O fails, writing and `finish` return `Ok` and the files are the chunks of everything offered; after a failure a successful `finish` seals the chunks of what was completed |
| SegmentRuns.SegmentFileReadsBack | native/src/audio.rs:1777-1819 | a segment file reads back as a 16-bit PCM WAV file of exactly its chunk |
| SegmentRuns.RecordingReadsBack | native/src/audio.rs:1173-1299 | in any admissible format a finished recording is WAV files as long as their headers say, whose bodies put together are the completed frames; a recording without an I/O failure finishes, with everything that was offered |
| SegmentFiles.SegmentWriter.Open | native/src/audio.rs:1228-1252 | a segment opens at the samples written before it, exactly when its file can be created and given a header; otherwise nothing changes |
| SegmentFiles.SegmentWriter.FinishSegment | native/src/audio.rs:1254-1299 | truncation, final header, submission and inventory in order, `Ok` exactly when the I/O is; no segment is open afterwards |
| SegmentFiles.SegmentWriter.WriteRound | native/src/audio.rs:1184-1216 | one pass of the loop: open, write what fits, seal when full |
| SegmentFiles.SegmentWriter.Feed | native/src/audio.rs:1184-1216 | the while loop is the iterated round, with the same state, count and first error |
| SegmentFiles.SegmentWriter.WriteFrames | native/src/audio.rs:1173-1218 | a failed commit stops writing at once; success publishes the exact progress |
| SegmentFiles.SegmentWriter.FinishRecording | native/src/audio.rs:1220-1226 | `Ok` when the I/O of the last seal is; then the files are the chunks of the stream, also when writing had failed before |
| BlockPool.StepKeeps | native/src/audio.rs:1481-1626 | every step of capture and disk thread keeps the buffers partitioned, the counter exact and the samples conserved |
| BlockPool.BuffersAreConserved | native/src/audio.rs:1485-1489 | the 769 buffers are always partitioned among pool, queue, capture and disk thread |
| BlockPool.ExhaustionMeansFullQueue | native/src/audio.rs:1610-1614 | pool exhaustion, or refusal by a live queue, means all 768 queue slots are taken |
| BlockPool.QueuedFramesAreBounded | native/src/audio.rs:1538-1549 | `queued_frames` is exactly the frames between capture and disk and never exceeds 769·1024 |
| BlockPool.DrainedMeansWritten | native/src/audio.rs:1685-1693 | a run that ends well on both sides has written exactly the samples read, in order |
| BlockPool.WrittenIsAPrefix | native/src/audio.rs:1491-1519 | what is written, the part of a block at which a write failed included, is at every moment a prefix of what was read, and the counter is its length |
| PcmThreads.CallIsARun | native/src/audio.rs:1491-1624 | every call of the pipeline class is a run of the pool machine |
| PcmThreads.PcmPipeline.TakeFrames | native/src/audio.rs:1556-1615 | frames read go to the buffer in hand; without a clock anchor the capture fails, otherwise a full buffer is queued and replaced, exactly when queue and pool allow it |
| PcmThreads.PcmPipeline.Enqueue | native/src/audio.rs:1538-1549 | a block is counted, then goes to the end of the queue exactly when that has room and a reader |
| PcmThreads.PcmPipeline.NextBuffer | native/src/audio.rs:1612-1614 | the next buffer comes from the pool, or the capture ends, exactly when that is empty |
| PcmThreads.PcmPipeline.FillBlocks | native/src/audio.rs:1550-1619 | up to the stop every full block is queued and what is left is in the buffer in hand; it succeeds exactly when no turn fails and the full blocks find room and replacement |
| PcmThreads.PcmPipeline.CaptureLoop | native/src/audio.rs:1550-1624 | the capture loop, for any health, device and anchor answers, is a run of the pool machine; it succeeds exactly when no turn fails and queue and pool suffice, and then all frames offered are queued, cut every 1024, each piece in its own buffer, the rest last |
| PcmThreads.PcmPipeline.WriteNext | native/src/audio.rs:1494-1512 | the oldest block leaves queue and count, is written, and its buffer goes back to the pool; a failed write leaves a part of it |
| AudioClock.MappedNs | native/src/audio_clock.rs:24-41 | a mapped instant is positive and at most 20 ms before its observation |
| AudioClock.MapsExactly | native/src/audio_clock.rs:18-41 | a row is mapped exactly when its bracket is positive, ordered, at most 1 ms wide and at most 20 ms behind the hardware point, and the instant lies behind the origin of the clock |
| AudioClock.MappedIsTheInstant | native/src/audio_clock.rs:36-40 | at whatever raw instant of the bracket the monotonic clock was read, the mapped time is that of the hardware point to within half the bracket and a nanosecond |
| AudioClock.RetainedRowsNameOnePoint | native/src/audio_clock.rs:11-16 | reads that see one hardware point again keep its first row, a new point its own |
| AudioClock.ObserveAnchor | native/src/audio_clock.rs:47-74 | at most three calls, another one only after a delayed row, and every rejected row reported |
| AudioClock.PlacementMeetsPoints | native/src/audio_clock.rs:76-85 | the sample time meets every anchor exactly |
| AudioClock.PlacementRises | native/src/audio_clock.rs:76-85 | the sample time rises strictly over all samples, extrapolations included |
| AudioClock.AcceptedClockIsMonotone | native/src/audio_clock.rs:87-144 | accepted anchors place all samples monotonically through every anchor, and start precedes end |
| AudioClock.AcceptedAnchorsShareOneRate | native/src/audio_clock.rs:113-144 | one common rate within 1% of nominal, any two anchors within 40 ms of it |
| AudioClock.AcceptedAnchorsCoverTheCapture | native/src/audio_clock.rs:94-134 | every captured sample has an anchor at or behind it within a second, a buffer and a period |
| AudioClock.RegularClockIsAccepted | native/src/audio_clock.rs:87-144 | a clock at its nominal rate, anchored every second any number of times, is accepted without deviation once its anchors cover the capture, and start and end are the times of sample 0 and the last one on the nominal line |
| LeastSquares.NormalEquations | native/src/imu.rs:729-790 | the residuals of the fitted line are orthogonal to the constant and to the centred ticks |
| LeastSquares.FitMinimises | native/src/imu.rs:729-790 | no other line has a smaller sum of squared errors |
| LeastSquares.FitRises | native/src/imu.rs:729-790 | on points that rise in both clocks denominator and slope are positive |
| Imu.UnwrapIsExactIff | native/src/imu.rs:634-660 | one packet is unwrapped exactly if and only if the counter advanced by at most half the modulus |
| Imu.WrapIsMissed | native/src/imu.rs:634-660 | an advance of one modulus and one tick is read as one tick |
| Imu.UnwrappingRestoresTheCounter | native/src/imu.rs:634-660 | over a whole run the unwrapped counts are the true counter up to one multiple of the modulus |
| Imu.AddedKeepsTheWindow | native/src/imu.rs:684-727 | every `add` keeps at most 64 points strictly increasing in both clocks; a refused one changes nothing |
| Imu.AddedExactly | native/src/imu.rs:684-727 | a reversed interval and time that does not move forward are refused, a repeated tick moves only the host time, any other reading enters the window at the middle of its read interval, and the answer is the estimate over the last 64 |
| Imu.FitIsSound | native/src/imu.rs:729-803 | with three or more points the zero guard and `invalid_clock_fit` are unreachable |
| Imu.EstimateIsBestAndBounded | native/src/imu.rs:729-803 | the published line is the least-squares one and its residual bounds its distance from every host time within the uncertainty of a point |
| Imu.EstimateIsTight | native/src/imu.rs:729-803 | the offset is the integer nearest to that of the line, ties away from zero, the residual the least one that bounds the largest distance and the largest uncertainty together, and the quality says whether that is within 1 ms |
| Imu.ResidualCoversReadings | native/src/imu.rs:684-803 | every host time of every read interval in the window lies within the published residual of the line, and one nanosecond for an interval of odd width |
| Imu.TimestampUnwrapper.Update | native/src/imu.rs:634-660 | the field updates; a rejected reading leaves the unwrapper unchanged |
| Imu.TimeSynchronizer.Add | native/src/imu.rs:684-727 | the window update over the read intervals given to it; from three points on always a line, whose residual covers each of those intervals |
| Imu.TimestampReadsBack | native/src/imu.rs:829-831 | a 24-bit count at the head of a packet is read back |
| Imu.Collector.ObservePacket | native/src/imu.rs:300-339 | both samples of a packet carry its unwrapped ticks and the middle of its read interval; samples of successful packets are numbered 0, 1, 2, … without gaps, a rejected packet consumes no number |
| Imu.Collector.AcceptPayload | native/src/imu.rs:376-383 | a payload equal to the last accepted one is stale |
| StageMetrics.BucketHolds | native/src/metrics.rs:307-313 | bucket b holds [2^(b-1), 2^b), the last one open above |
| StageMetrics.Percentile | native/src/metrics.rs:315-325 | the answer is the floor of the bucket in which the cumulated count passes the threshold |
| StageMetrics.PercentileWithinFactorTwo | native/src/metrics.rs:307-325 | the answer v at rank t is 0 exactly when the t-th smallest sample x is, never above it, and x < 2v exactly when x < 2^63 |
| StageMetrics.FactorTwoIsMissed | native/src/metrics.rs:307-325 | after one sample of 2^63 every percentile is 2^62 |
| StageMetrics.PercentileFindsABucket | native/src/metrics.rs:315-325 | over recorded samples the loop never falls through |
| StageMetrics.RecordedRepresents | native/src/metrics.rs:100-120 | a recorded sample makes the histogram, total and count those of the longer multiset |
| StageMetrics.RecordsExactly | native/src/metrics.rs:100-120 | a sample is recorded exactly when the number of samples and their sum still fit a u64 |
| StageMetrics.Metrics.RecordStage | native/src/metrics.rs:100-120 | a sample joins those recorded before on its stage, exactly when their number and sum fit a u64; all other stages unchanged |
| StageMetrics.Metrics.StagePercentile | native/src/metrics.rs:243-260 | the reported percentile bounds the one sample of its rank among everything recorded |
| Jpeg.Ranges | native/src/jpeg.rs:4-26 | the cursor loop lists, in order, each next SOI…EOI image and leaves no complete one behind |
| Jpeg.ScanIsUnique | native/src/jpeg.rs:4-26 | that list is determined by the payload |
| Jpeg.ScanCoversEveryPair | native/src/jpeg.rs:4-26 | spans are ordered and disjoint and every complete pair opens inside one |
| Jpeg.ScannersAgree | native/src/recording.rs:912-923 | `jpeg_payload` succeeds exactly when `ranges` is non-empty, starts at its first range and contains all of them |
| Jpeg.PayloadHoldsTheScan | native/src/recording.rs:912-923 | the payload is the one piece that opens with the first SOI and closes with the last EOI, and every range of the scan lies in it |
| Jpeg.PayloadInBytes | native/src/recording.rs:912-923 | in bytes: the payload opens with the first FF D8 and closes with the last FF D9 |
| JpegHeader.Dimensions | native/src/jpeg.rs:28-79 | the nested cursor loops compute the marker walk |
| JpegHeader.DimensionsReadBack | native/src/jpeg.rs:33-76 | behind any list of other marker segments the width and height that a frame header encodes are read back |
| JpegHeader.DimensionsAreFound | native/src/jpeg.rs:33-76 | a size that is answered stands in a whole frame header of the payload |
| JpegHeader.StrayBytesArePassed | native/src/jpeg.rs:34-52 | bytes that are no marker, and the two markers without a length, are passed over |
| JpegHeader.ScanEndsTheSearch | native/src/jpeg.rs:45-47 | a start of scan in front of the frame header ends the search |
| JpegHeader.Avi1Counter | native/src/recording.rs:927-951 | the loop computes the strict segment walk |
| JpegHeader.CounterReadsBack | native/src/recording.rs:927-951 | behind any list of other segments the 24-bit counter that the first AVI1 segment encodes is read back |
| JpegHeader.NoCounterBehind | native/src/recording.rs:933-939 | a scan, an end of image or anything but a marker in front of that segment ends the search |
| BoundedQueue.Channel.TryPush | native/src/bounded.rs:34-48 | a value goes to the end of the queue exactly when that is open, below its capacity and has the bytes left; otherwise nothing changes |
| BoundedQueue.Channel.Receive | native/src/bounded.rs:69-90 | the oldest value leaves, with its bytes; a closed queue is disconnected, an empty one times out, and neither changes |
| BoundedQueue.Channel.CloseAndClear | native/src/bounded.rs:92-98 | everything queued is dropped and the queue refuses |
| BoundedQueue.Channel.Reopen | native/src/bounded.rs:100-105 | an empty queue accepts again |
| LossAccounting.FrameValidator.Validate | native/src/native_camera.rs:77-148 | a frame is accepted exactly if it moves sequence and time forward and accounts for no more rejections than the gap; it splits the gap into rejected and missing, a refused one changes nothing |
| LossAccounting.FrameValidator.Reset | native/src/native_camera.rs:72-75 | both clocks are forgotten |
| LossAccounting.StepKeeps | native/src/native_camera.rs:488-565 | every push and delivery keeps producer counter, queue and validator in step |
| LossAccounting.LossAccountingIsExact | native/src/native_camera.rs:77-148 | on every run no delivery is refused, and each reports exactly the refused pushes and the never-supplied sequences since the one before |
| LossAccounting.LossesFillTheSpan | native/src/native_camera.rs:77-148 | delivered, rejected and missing add up to the sequence span |
| LossAccounting.CameraPipe.Produce | native/src/native_camera.rs:488-565 | one iteration of the producer loop is the pipeline's step |
| LossAccounting.CameraPipe.Consume | native/src/capture_runtime.rs:646-665 | one frame received and validated; none of such a driver is refused |
| Fanout.CaptureFanoutState.StartRecording | native/src/recording.rs:133-144 | a take starts unless one is open or still has frames in flight |
| Fanout.CaptureFanoutState.BeginFrame | native/src/recording.rs:146-199 | only an open gate admits, the first frame always, later ones exactly on the grid or behind a gap; every frame and every lost one is counted, and only a full counter refuses |
| Fanout.CaptureFanoutState.FinishFrame | native/src/recording.rs:201-219 | the last frame in flight of a stopping recording drops it |
| Fanout.CaptureFanoutState.StartStopping | native/src/recording.rs:221-231 | the gate closes, and drops at once without frames in flight |
| Fanout.CaptureFanoutState.MarkFailure | native/src/recording.rs:233-240 | one report per take, and the gate closes |
| ActiveTake.PendingFrameBlocksForever | native/src/active_take.rs:80-144 | a frame left pending makes every later reservation and end fail |
| ActiveTake.ActiveTakeWriter.ReserveFrame | native/src/active_take.rs:80-111 | an open take without a pending frame numbers its frames 0, 1, 2, … and refuses gaps; a refused reservation consumes no number |
| ActiveTake.ActiveTakeWriter.FinishPendingFrame | native/src/active_take.rs:113-132 | exactly the pending frame of this session is finished, its bytes counted, unless a counter is full, which leaves it pending |
| ActiveTake.ActiveTakeWriter.FinishTake | native/src/active_take.rs:134-144 | an open take ends exactly when every reserved frame is written |
| SegmentPlanner.SegmentStartsCount | native/src/recording.rs:295-329 | n frames open ceil(n/S) segments |
| SegmentPlanner.FinishedBoundaries | native/src/recording.rs:368-420 | after a successful finish there are ceil(n/S)+1 boundaries, each at its own ordinal, with times that never fall and end at the duration |
| SegmentPlanner.TilesPlaceEveryFrame | native/src/recording.rs:331-366 | in a tiling every frame lies in exactly one segment |
| SegmentPlanner.RecordingSegmentPlanner.PlanFrame | native/src/recording.rs:295-329 | frame n is frame n%S of segment n/S, its boundary placed if it opens one; refused exactly for a negative time or a full counter |
| SegmentPlanner.RecordingSegmentPlanner.RegisterSegment | native/src/recording.rs:331-366 | a segment is accepted exactly if it is not empty and starts with the next index where the last one ended; then it continues the tiling |
| SegmentPlanner.RecordingSegmentPlanner.Finish | native/src/recording.rs:368-400 | success exactly when the frames submitted are those planned and those covered, at a time that is not negative; then the registered segments tile them |
| TakePath.WriteStepKeeps | native/src/capture_runtime.rs:739-824 | each stage keeps the counters in step and the rows in place; a failing one leaves the take stuck |
| TakePath.FailureAfterReservation | native/src/capture_runtime.rs:739-824 | a failure before the reservation changes nothing, one after it leaves exactly that frame pending |
| TakePath.FrameIsWritten | native/src/capture_runtime.rs:739-824 | a written frame moves all five counters by one, gives its JPEG payload to the encoder and adds exactly its row at its place; a failed one writes none |
| TakePath.FrameIsWrittenExactly | native/src/capture_runtime.rs:739-824 | a frame is written exactly when it owns no gap, holds a JPEG payload, encoder and index accept it and no counter is full; its bytes are counted |
| TakePath.SplitSinkRecording.WriteFrame | native/src/capture_runtime.rs:739-824 | the stages in source order with early return; the encoder gets the piece from the first SOI to the last EOI, and a frame with a gap is refused without a trace |
| Capture.StepKeeps | native/src/capture_runtime.rs:601-737 | every step of frame thread, IMU thread and controller keeps gate, takes and tracking in step |
| CaptureProgress.ArrivedExactly | native/src/capture_runtime.rs:601-693 | a frame is an error exactly if it does not fit 63 bits, has no payload, does not move sequence and time forward, accounts for more losses than there is room for or overflows the count; an open take records the first frame, each behind a gap and each on the decimation grid, and no other |
| CaptureProgress.TakeStartsExactly | native/src/capture_runtime.rs:256-361 | in every state of every run a start installs a fresh open take exactly with valid arguments, a running preview, no recording and no IMU thread, and otherwise changes nothing |
| CaptureProgress.HealthyTakeIsComplete | native/src/capture_runtime.rs:601-824 | over every interleaving in which frames follow each other without a gap, encoder and index accept them and nobody stops the recording, the take stays open, nothing is reported, and whenever the frame thread is idle every d-th frame since the start has its row |
| CaptureProgress.GoodFramesAreWritten | native/src/capture_runtime.rs:601-824 | from every state in which a take was just opened, any list of such frames is taken in full: row i and entry i of the encoder are those of frame i·d |
| CaptureRuns.NoSilentLoss | native/src/capture_runtime.rs:646-734 | a gap or rejection after the first frame, on the decimation grid or off it, ends the take before another row is reserved, in every continuation; by the time the frame thread is idle or gone the gate is closed, the take stamped, and the failure called back unless a stop had begun |
| CaptureRuns.RowsAreOnTheGrid | native/src/recording.rs:146-199 | row i carries source s0+i·d, frame i, segment i/S, place i%S, at strictly rising times, in every state of every run |
| CaptureHistory.EncodedFramesWereDelivered | native/src/capture_runtime.rs:631-824 | entry i of the encoder is the JPEG payload of a frame that was delivered, whose source sequence and time row i carries; the take has the session, segment length and start time it was started with |
| CaptureRuns.EveryGridFrameIsWritten | native/src/recording.rs:146-199 | while a take is open and has not failed, every grid frame delivered has its row |
| CaptureRuns.CountersAgree | native/src/capture_runtime.rs:739-824 | between frames all counters of a take without failure are equal |
| CaptureRuns.FailureBlocksTheTake | native/src/active_take.rs:80-187 | a failure after the reservation leaves one frame pending for good, in every continuation |
| CaptureRuns.EndingATake | native/src/session_store.rs:416-478 | in every state of every run, a take without failure ends with equal counters, exactly when the registered segments cover its frames; then they tile them and the boundaries are complete: their ordinals, times that never fall, the duration last; a take with a pending frame never ends |
| CaptureRuns.EveryCutEndsTheTake | native/src/session_store.rs:520-545 | however the encoder cuts the frames not covered yet, registering its segments makes `finish` of a take without failure succeed |
| CaptureHistory.BoundariesAreTimed | native/src/capture_runtime.rs:786-805 | every segment boundary of a take that ends lies at the time of its opening frame behind the start, or at the duration if that is earlier |
| Capture.RegisteredTiles | native/src/recording.rs:331-366 | a registration moves nothing but the coverage, keeps the segments tiled, and its counter cannot overflow |
| CaptureRuns.StopIsClean | native/src/capture_runtime.rs:376-430 | `stop_recording` succeeds only after every admitted frame has finished |
| CaptureProgress.StopCanSucceed | native/src/capture_runtime.rs:376-450 | from every state of every run `stop_recording` can be brought to success; then no recording and no IMU thread are left, and the preview runs on |
| CaptureProgress.TimedOutStop | native/src/capture_runtime.rs:402-425 | a stop gives up only while a frame is in flight or the IMU thread has not left, and then changes nothing but that it has returned |
| CaptureProgress.ImuFailureEndsTheTake | native/src/capture_runtime.rs:856-918 | an IMU error while a recording is there closes its gate, stamps an open take and is reported once; without a recording the thread just ends |
| CaptureRuns.StoppingHasFramesInFlight | native/src/recording.rs:221-240 | a stopping recording always has a frame in flight, and callbacks never exceed takes started |
| CaptureRuns.StampSticks | native/src/capture_runtime.rs:85-115 | the stop timestamp is written once, and no frame is admitted after the gate has closed |
| CaptureRuns.EarliestCloserStamps | native/src/capture_runtime.rs:85-115 | the stamp is the clock reading of the earliest step that closes the gate, or the largest instant if the clock could not be read |
| CaptureRuntime.SharedState.RequestCaptureStop | native/src/capture_runtime.rs:86-114 | a stamp of 0 becomes the reading, or the largest instant if there is none; any other stays |
| CaptureRuntime.SharedState.ProcessFrame | native/src/capture_runtime.rs:631-693 | the first critical section is the arrival step |
| CaptureRuntime.SharedState.FinishRecordingFrame | native/src/capture_runtime.rs:839-852 | releasing the frame is the finishing step and never fails |
| CaptureRuntime.SharedState.ReportRecordingFailure | native/src/capture_runtime.rs:965-1000 | closes the gate, stamps the take and reports at most once |
| CaptureRuntime.SharedState.SetTerminalError | native/src/capture_runtime.rs:1002-1031 | ends preview and recording |
| CaptureRuntime.SharedState.LeaveLoop | native/src/capture_runtime.rs:590-598 | the loop's tail stamps and drops the recording |
| CaptureRuntime.SharedState.StartRecording | native/src/capture_runtime.rs:256-361 | a take is installed exactly with valid arguments, an open gate time, a running preview, no recording and no IMU worker; otherwise nothing changes |
| CaptureRuntime.SharedState.BeginRecordingStop | native/src/capture_runtime.rs:432-450 | closes the gate and stamps the take |
| IndexWriter.StepKeeps | native/src/recording.rs:723-889 | every atomic step of caller and worker keeps backlog, file and counts exact |
| IndexWriter.BacklogIsBounded | native/src/recording.rs:776-814 | pending bytes are exactly queued and in-flight payloads plus at most one reservation, within 8 MiB, and counted records are a prefix of the accepted ones |
| IndexWriter.FileIsPrefixOfAccepted | native/src/recording.rs:736-761 | the file is at every moment a prefix of the accepted records, wherever a write fails |
| IndexWriter.FlushedFileIsComplete | native/src/recording.rs:816-876 | a successful `flush_and_close` means file, byte count and digest input are the concatenation of the accepted records |
| IndexWriter.FlushSucceedsExactly | native/src/recording.rs:803-876 | without an I/O error `flush_and_close` succeeds exactly when the accepted bytes fit a `u64`, and exactly when the caller was told of every record |
| IndexWriter.FlushCanEnd | native/src/recording.rs:816-876 | from every state of every run, in the middle of a `write` too, `flush_and_close` can be brought to its answer; without a failed write that is success exactly when the accepted bytes fit a `u64` |
| IndexWriter.ToldWrongExactly | native/src/recording.rs:776-814 | `write` fails although its record is sent, exactly when the record is admitted and the byte count would overflow |
| IndexWriter.OverflowIsReachable | native/src/recording.rs:803-814 | a run up to 2^64 - 1 bytes after which one more byte is refused and sent |
| IndexWriter.ErrorIsTerminal | native/src/recording.rs:769-774 | after a failed write, wherever the caller is, the file grows no more and `flush_and_close` fails; at most the one record past its check still reaches the channel |
| IndexWriter.WriteCallMeans | native/src/recording.rs:776-814 | an uninterrupted `write` in one piece equals its four atomic steps |
| IndexWriter.WorkerTurnMeans | native/src/recording.rs:736-761 | an uninterrupted turn of the worker in one piece equals its five atomic steps |
| IndexWriter.ArtifactWriter.Write | native/src/recording.rs:776-814 | a refused record leaves no trace in backlog, digest or channel |
| IndexWriter.ArtifactWriter.WriteNext | native/src/recording.rs:736-761 | one payload moves from channel to file; a failing write leaves a part and ends the worker |
| FrameIndex.StepKeeps | native/src/recording.rs:495-540 | every step of capture runtime and index writers keeps the records told to each take equal to the encoding of its rows, or one ahead of a failed take |
| FrameIndex.FlushedIndexIsTheTake | native/src/recording.rs:612-623 | whenever the index of a take is flushed with success, its file is the encoding of exactly the rows 0 to n on the decimation grid, in order |
| FrameIndex.IndexCanBeFlushed | native/src/recording.rs:612-623 | from every state of every run the index of a take that is between two records can be flushed and closed, and without a failed write its file is then the encoding of the rows |

## Left out

- Rounding of `f64`, and inputs that are not finite.
- PyO3, ALSA, V4L2, TurboJPEG and USB calls: their results are inputs. The encoder accepts a frame or fails.
- The digest function and the JSON text: the digest is any function, the encoding any that reads back.
- Scheduling: the theorems about progress give steps that lead on, not that a thread is given its turn.
- Mutex poisoning, thread panics and timing: a timeout may fall at any moment.
- Threads run as interleaved steps on values; the classes of the commit worker, the PCM pipeline and the index writer
  show one call at a time, without the other thread in between.
- Restarting the preview and `close` of the capture runtime; the machine starts with a running preview.
- Which take a late failure report lands on: the frame thread drops the lock between finishing a frame and reporting
  its failure, and one controller is assumed.
- Constructors refuse a zero decimation, segment length or queue capacity and an empty session in the source; here those
  are preconditions of the constructors.
- Counters that the source advances with an unchecked `+=` (packet and sample numbers, pending rejections, sample and
  byte totals of the audio writer) are unbounded.
- `sync_offset_ns` is not clamped to 64 bits, and the accelerometer and gyroscope words of an IMU packet are not decoded.
- The segment length in frames is given, not computed from seconds; the path of a segment follows from its index.
- `finish` of an already finished commit worker, `close` of the index writer, and its `fsync` as a crash guarantee.
- Payload copies, queue, loss and preview counters of `metrics.rs`, and I/O timing of the audio writer.
- `preview.rs`, `imu_preview.rs`, `frame_stream.rs`, `audio_checkpoint.rs`, `schema_validation.rs`: thin wrappers.
- `catalog_admission.rs`, `catalog_signature.rs`, the Python helpers and the deployment scripts.
- `stereo_encoder.rs` and `v4l2.rs` are not part of this model; of `session_store.rs` only the registration of segments
  and what ends the writer, the planner and the index of a take are, and a registration may come at any moment.
- The IMU index of a take runs through the same writer but is not composed with the IMU thread; in `FrameIndex` the byte
  counter that both share may refuse a record at any moment.

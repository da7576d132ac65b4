# Video editor: a verified model

This project models three parts of an Android video editor and its server, and proves what they are for.

**Seam carving.** The effect narrows a frame by ten columns. It fills a map of path intensities by a dynamic program over a
flat buffer (`SeamCarving`), backtracks a seam from the leftmost minimum of the bottom row, and rebuilds the byte buffer
without it (`SeamRemoval`). `SeamPaths` says what the intensities mean: the least energy of all connected paths from the top.
`RowMajor` relates flat buffers to rows, and `Subsequences` says what is left after deletions. Energies and intensities are
reals below the sentinel that stands for `Float.MAX_VALUE`; the gradient is any bounded map of the frame's size.

**The frame pipeline.** Stages joined by bounded queues pass frames on; `offer` drops a frame when the queue is full.
`PipelineRun` is the state machine of take, apply and offer steps under every interleaving, `AddFrames` the server's call that
puts a batch in and waits for as many frames, `ClientBatching` the phone's side of that call. `PipelineEdits` is the class
whose methods insert, remove and move effects while the pipeline may be running, and `OrphanThread` says what a thread does that
an edit leaves behind.

**Network measurement.** `Checksum` is the checksum of ping packets. `UdpLoss` and `UdpPacing` (with `Timers`) are the
receiver's loss counters and the sender's rate control. `ResultsExchange` and `Parameters` are the two text exchanges with the
server, over `Decimal` and `Tokens`. `ClientModel` specifies the client's main loop turn by turn, with its control messages,
interval lists and byte accounting, and proves what every run keeps; `ClientClock` says when intervals and the test begin and
end; `ClientRun` is the loop itself, changing streams and linked lists in place, and refines that specification.

Methods with state are proved against specification functions; the theorems are lemmas about those functions, over all inputs
and all runs.

## What was found

Where the code does not do what its comments or its use suggest, the model follows the code, and the exact condition under
which it does is proved, or how it fails.

- The backtrack stays in the middle when both sides are equally cheap and cheaper than the middle. The removed seam is a
  cheapest one if and only if that never happens on it (`SeamIsCheapestIff`).
- `addFrames` is safe for at most 2 frames (20 with one stage). For every larger batch some interleaving drops a frame, and
  then the call blocks for ever (`AlwaysReturnsIff`). The phone sends pairs until a call fails; the call that succeeds after k
  failures in a row sends k + 2 frames, so one failure is too many for two stages or more, and 19 are for one
  (`EveryBatchReturnsIff`).
- The phone's `waitForCompletion`, once all batches sent are answered, ends if and only if no frame was ever processed on the
  phone itself and the last frame added was sent, which without failures means an even number of frames (`CompletionIff`).
- Inserting an effect in the middle of a pipeline replaces two threads without interrupting them. They go on taking frames
  beside their successors if and only if they were live (`AddEffectAt`, and `MoveEffect` for a move into the middle), and then
  frames can come out in the wrong order (`OrphanReorders`). Moving an effect to a negative index loses it. A task that is in
  the chain already breaks the chain when it is added again.
- `start` after `stop` starts nothing again: interrupted threads stay as they are, and `running` is true (`Start`).
- The difference of the two loss counters is the number of missing packets if and only if no packet came twice and all their
  numbers are positive (`LossIsBounded`).
- The protocol in the parameter string is never read: `getopt` takes the first word for the name of the program. Of a text of
  up to 127 characters the server takes over the client's settings if and only if it had the same protocol before, the same
  value in each field left out, and no number is above 2^63 - 1; of a longer one nothing is read (`SettingsRecoveredIff`).
- A failed send adds 2^64 - 1 to the total, since -1 is stored in an unsigned variable and never found negative
  (`TotalIsRightIff`).
- The state of the client is read as one byte, so the negative codes ACCESS_DENIED and SERVER_ERROR are never recognized:
  they end the run as the unknown messages 255 and 254 (`MessageErrors`, `DenialIsUnknown`).
- A client that cannot send IPERF_DONE ends its loop normally, but with an error set (`UnsentDoneIsNoFailure`).
- Results that the server asks for during the test are displayed with incomplete intervals, unless each stream has just ended
  one (`EarlyResultsIff`).

## Model

| member | source | states |
|---|---|---|
| `SeamCarving.CellIntensity` | android-video-editor-server/src/com/cs4911/video_editor/effects/SeamCarveEffect.java:99-110 | one cell becomes its own energy plus the least intensity of the up to three cells above it, read from the flat buffer in bounds; out-of-range columns read as the sentinel |
| `SeamCarving.ComputePathIntensityMat` | android-video-editor-server/src/com/cs4911/video_editor/effects/SeamCarveEffect.java:75-128 | the flat-buffer dynamic program ends with every cell equal to the minimum cost of all paths from row 0 to it, and returns nothing exactly for a map without cells |
| `SeamCarving.SentinelIsNeutral` | android-video-editor-server/src/com/cs4911/video_editor/effects/SeamCarveEffect.java:103-144 | below the sentinel, the minimum of three with sentinels beside the border is the minimum over the cells that exist |
| `SeamPaths.MinCostIsLowerBound` | android-video-editor-server/src/com/cs4911/video_editor/effects/SeamCarveEffect.java:96-116 | no connected path from the top row to a cell costs less than the value computed for that cell |
| `SeamPaths.MinCostIsAttained` | android-video-editor-server/src/com/cs4911/video_editor/effects/SeamCarveEffect.java:96-116 | some connected path from the top row to the cell costs exactly that value |
| `SeamPaths.MinCostBelowSentinel` | android-video-editor-server/src/com/cs4911/video_editor/effects/SeamCarveEffect.java:138-144 | for bounded energies and up to the stated number of rows no intensity reaches the sentinel Float.MAX_VALUE |
| `SeamRemoval.FindSeamStart` | android-video-editor-server/src/com/cs4911/video_editor/effects/SeamCarveEffect.java:166-178 | the scan of the bottom row ends at the leftmost of its minima |
| `SeamCarving.BacktrackIsSeam` | android-video-editor-server/src/com/cs4911/video_editor/effects/SeamCarveEffect.java:182-195 | the columns found by backtracking stay within 0..width-1 and move at most one per row |
| `SeamCarving.StepUpIsBest` | android-video-editor-server/src/com/cs4911/video_editor/effects/SeamCarveEffect.java:183-192 | a step up goes to a cheapest neighbour, except under a side tie, and then it costs exactly the difference to the cheaper sides |
| `SeamCarving.StepLeavesColumnIff` | android-video-editor-server/src/com/cs4911/video_editor/effects/SeamCarveEffect.java:183-192 | a step leaves its column to a side exactly if that side is strictly cheaper than the middle and than the other side |
| `SeamCarving.BacktrackCost` | android-video-editor-server/src/com/cs4911/video_editor/effects/SeamCarveEffect.java:182-195 | the energy of the backtracked seam is the intensity it starts from plus the sum of what its side ties cost |
| `SeamCarving.SeamIsCheapestIff` | android-video-editor-server/src/com/cs4911/video_editor/effects/SeamCarveEffect.java:166-195 | the removed seam is a cheapest top-to-bottom seam if and only if no row of it has left == right < middle, and exactly then its energy is the least bottom-row intensity |
| `SeamCarving.SideTieCounterexample` | android-video-editor-server/src/com/cs4911/video_editor/effects/SeamCarveEffect.java:48-192 | for the grey frame of 5 columns and 3 rows 4 0 0 0 4, 0 0 1 0 0 and 0 2 2 2 0, whose Sobel gradient the map is, the removed seam costs 8 although a seam of cost 2 exists |
| `SeamRemoval.RemovePixel` | android-video-editor-server/src/com/cs4911/video_editor/effects/SeamCarveEffect.java:211-260 | in the flat buffers, exactly one row is rewritten: the seam's pixel is cut out and the colour bytes of its neighbours become floor averages with it; every other byte of the new buffer is kept |
| `SeamRemoval.RemoveLeastImportantPath` | android-video-editor-server/src/com/cs4911/video_editor/effects/SeamCarveEffect.java:152-200 | the new buffer is the old frame with the least important seam cut out, and there is none exactly for a frame without pixels: in every row exactly the alpha byte at the seam's column goes, the colours beside that column are floor averages with it, and all others are kept |
| `SeamRemoval.ColourBetween` | android-video-editor-server/src/com/cs4911/video_editor/effects/SeamCarveEffect.java:225-259 | colour bytes away from the seam are kept; beside it they lie between the two blended bytes, as unsigned bytes, with the average rounded down |
| `SeamRemoval.CarvedIsCut` | android-video-editor-server/src/com/cs4911/video_editor/effects/SeamCarveEffect.java:202-260 | a carved row is the row cut at the seam's column, in terms of the row's own bytes: the alphas but one, and every colour as it was or as a floor average |
| `SeamRemoval.UnsignedByte` | android-video-editor-server/src/com/cs4911/video_editor/effects/SeamCarveEffect.java:237-257 | a byte's colour value is between 0 and 255 and congruent to it modulo 256 |
| `SeamRemoval.AlphaIsDeleted` | android-video-editor-server/src/com/cs4911/video_editor/effects/SeamCarveEffect.java:215-220 | carving a row deletes exactly one alpha byte and blends none |
| `SeamRemoval.ApplyTo` | android-video-editor-server/src/com/cs4911/video_editor/effects/SeamCarveEffect.java:23-41 | for every gradient of the frame's size the result is the last of ten rounds, each of which cuts the seam that it found out of every row of the frame before it, so that it is ten columns narrower and of the same height, or it is the frame itself if that has fewer than ten columns or no rows; each row's alpha values are a subsequence of the original row's |
| `SeamRemoval.AlphaIsSubsequence` | android-video-editor-server/src/com/cs4911/video_editor/effects/SeamCarveEffect.java:23-41 | after any number of carvings each row's alpha values are a subsequence of the original row's |
| `SeamRemoval.AlphaColumns` | android-video-editor-server/src/com/cs4911/video_editor/effects/SeamCarveEffect.java:23-41 | each alpha value that is left is found in the original row, in columns that increase from left to right |
| `SeamRemoval.GradientsExist` | android-video-editor-server/src/com/cs4911/video_editor/effects/SeamCarveEffect.java:48-67 | there is a gradient of the kind that the effect assumes: the one of frames without edges |
| `SeamRemoval.StepRemovesSeam` | android-video-editor-server/src/com/cs4911/video_editor/effects/SeamCarveEffect.java:26-39 | each round cuts a full seam out of every row of the frame it starts from, a cheapest one exactly if no side tie is met |
| `PipelineRun.WorkMoves` | android-video-editor-server/src/com/cs4911/video_editor/pipeline/LocalEffectTask.java:27-48 | one step of a worker (take, apply, offer or give up) keeps the order of the frames it holds and counts any frame it drops |
| `PipelineRun.StepKeepsInv` | android-video-editor-server/src/com/cs4911/video_editor/pipeline/LocalEffectTask.java:27-48 | every step of any thread, every admission and delivery keep the run's invariant: what was delivered and what is still inside is the stage composition of a subsequence of the admitted frames |
| `PipelineRun.EveryRun` | android-video-editor-server/src/com/cs4911/video_editor/pipeline/LocalEffectTask.java:27-48 | over every edit-free run with any number of stages, interruptions and full queues: delivered and processed frames are all effects applied, the first one first, to a subsequence of the admitted frames, admitted = delivered + queued + in flight + rejected + discarded, and no queue exceeds its capacity |
| `PipelineRun.WhichFramesArrive` | android-video-editor-server/src/com/cs4911/video_editor/pipeline/LocalEffectTask.java:27-48 | frame by frame: each frame that passed all stages is all effects applied to one admitted frame, at strictly increasing positions; if as many came out as went in, none is missing |
| `PipelineRun.ThroughIsApplied` | android-video-editor-server/src/com/cs4911/video_editor/pipeline/LocalEffectTask.java:35-41 | going through the stages one after the other is the last effect applied to what all effects before it make of the frame |
| `PipelineRun.TwoStages` | android-video-editor-server/src/com/cs4911/video_editor/pipeline/LocalEffectTask.java:35-41 | two stages f and g make g(f(x)) of a frame x |
| `PipelineRun.DoomedStep` | android-video-editor-server/src/com/cs4911/video_editor/pipeline/LocalEffectTask.java:27-48 | a step of an interrupted worker takes no frame and leaves it one step fewer to make; a frame it had not checked yet is counted as discarded when it stops and goes to no queue |
| `PipelineRun.InterruptedThreadStops` | android-video-editor-server/src/com/cs4911/video_editor/pipeline/LocalEffectTask.java:27-48 | over every run after an interrupt: the thread never takes another frame; it makes at most two more steps, and when it has made them it has stopped and can make no step any more; a frame that it had taken and not yet checked is never offered to the next queue and counts as discarded |
| `PipelineRun.OnlyInterruptsStop` | android-video-editor-server/src/com/cs4911/video_editor/pipeline/LocalEffectTask.java:27-48 | over every run without an interrupt of the thread, it is neither interrupted nor stopped |
| `OrphanThread.OrphanReorders` | android-video-editor-server/src/com/cs4911/video_editor/pipeline/Pipeline.java:158-165 | with a second thread for the same task, as a middle insert leaves it, there is a run that loses nothing and delivers two frames in the wrong order, for any effect that tells them apart |
| `AddFrames.EventLosesNothing` | android-video-editor-server/src/com/cs4911/video_editor/Server.java:147-168 | with a batch that fits into every queue no event of a call can drop a frame |
| `AddFrames.EventUsesWork` | android-video-editor-server/src/com/cs4911/video_editor/Server.java:147-168 | each event that loses nothing uses up exactly one unit of a measure known at the start, so a call that returns takes a fixed number of events |
| `AddFrames.AddFramesIsCorrect` | android-video-editor-server/src/com/cs4911/video_editor/Server.java:147-168 | for a batch that fits into every queue, under every interleaving: no offer fails, the call is never stuck before it returns, and it returns all effects applied to the batch in order, leaving the pipeline quiescent |
| `AddFrames.LossMeansNoReturn` | android-video-editor-server/src/com/cs4911/video_editor/Server.java:159-165 | if a frame of the batch was dropped, the call does not return |
| `AddFrames.SafeBatchIff` | android-video-editor-server/src/com/cs4911/video_editor/Server.java:147-168 | with the server's queues (2 inside, 20 at the ends) no interleaving drops a frame if and only if the batch has at most 20 frames for one stage and at most 2 for more |
| `AddFrames.ServerPipeline` | android-video-editor-server/src/com/cs4911/video_editor/Server.java:147-168 | for any effects there is a quiescent pipeline with the server's queues and a waiting worker per stage, as the results about calls assume |
| `AddFrames.StuckRun` | android-video-editor-server/src/com/cs4911/video_editor/Server.java:147-168 | for every larger batch an interleaving after which nothing can step and the call has not returned |
| `AddFrames.AlwaysReturnsIff` | android-video-editor-server/src/com/cs4911/video_editor/Server.java:147-168 | the call returns under every interleaving that runs until nothing can step if and only if the batch is within that bound |
| `ClientBatching.FrameProcessor.AddFrame` | android-video-editor/src/com/cs4911/video_editor/pipeline/FrameProcessor.java:75-97 | the whole state after a frame was added: collected and perhaps sent in cloud mode, offered to the local queue otherwise |
| `ClientBatching.FrameProcessor.HandleResult` | android-video-editor/src/com/cs4911/video_editor/pipeline/FrameProcessor.java:252-260 | each frame of a result is offered to the processed queue and counted off |
| `ClientBatching.FrameProcessor.GetFrame` | android-video-editor/src/com/cs4911/video_editor/pipeline/FrameProcessor.java:104-119 | the first processed frame is taken; if there is none, the newest one added is shown in cloud mode, and otherwise the call waits |
| `ClientBatching.QueuesStayBounded` | android-video-editor/src/com/cs4911/video_editor/pipeline/FrameProcessor.java:95-260 | over every history neither of the phone's queues holds more than two frames |
| `ClientBatching.LocalAddQueues` | android-video-editor/src/com/cs4911/video_editor/pipeline/FrameProcessor.java:95 | a frame to be processed on the phone is queued behind the others if there are fewer than two |
| `ClientBatching.ResultSeen` | android-video-editor/src/com/cs4911/video_editor/pipeline/FrameProcessor.java:251-260 | of a result, as many frames as there is room for go behind those in the processed queue, the first ones, in order: all of them if they fit |
| `ClientBatching.ResultsAreShown` | android-video-editor/src/com/cs4911/video_editor/pipeline/FrameProcessor.java:104-260 | after every history the frames shown and still queued are frames of the results in their order, and they are all of them if and only if no result ever found too little room |
| `ClientBatching.NoFrameIsLost` | android-video-editor/src/com/cs4911/video_editor/pipeline/FrameProcessor.java:75-260 | after every history, whichever calls fail, the sent batches and the buffer are the frames added in cloud mode, in order, and numFrames is the number of frames buffered or unanswered and of all added outside it |
| `ClientBatching.BatchesArePairs` | android-video-editor/src/com/cs4911/video_editor/pipeline/FrameProcessor.java:84-88 | if no call fails, every batch has exactly 2 frames and at most one frame waits |
| `ClientBatching.FailuresGrowTheBatch` | android-video-editor/src/com/cs4911/video_editor/pipeline/FrameProcessor.java:86-91 | after k failing calls in a row the next batch has k + 2 frames |
| `ClientBatching.OnlyPairsIff` | android-video-editor/src/com/cs4911/video_editor/pipeline/FrameProcessor.java:84-91 | over every history, all batches sent are pairs if and only if no failed call is followed by one that does not fail |
| `ClientBatching.BatchesAtMostIff` | android-video-editor/src/com/cs4911/video_editor/pipeline/FrameProcessor.java:84-91 | over every history and for every k, no batch has more than k + 1 frames if and only if no call succeeds after k or more in a row that failed |
| `ClientBatching.CompletionIff` | android-video-editor/src/com/cs4911/video_editor/pipeline/FrameProcessor.java:262-275 | when all batches sent are answered, the counter that waitForCompletion waits for is zero if and only if no frame was ever added outside cloud mode, and none was added in it or the last one was sent, whichever calls failed; without a failing call the latter is after an even number of frames |
| `ClientBatching.NeverCompletesAfterwards` | android-video-editor/src/com/cs4911/video_editor/pipeline/FrameProcessor.java:78-275 | once a frame was processed on the phone the counter never reaches zero, however many results arrive for the frames sent |
| `ClientBatching.EveryBatchIsAnswered` | android-video-editor/src/com/cs4911/video_editor/pipeline/FrameProcessor.java:84-88 | if no call fails, each batch is one that the server's addFrames processes completely under every interleaving |
| `ClientBatching.EveryBatchReturnsIff` | android-video-editor/src/com/cs4911/video_editor/pipeline/FrameProcessor.java:84-91 | every batch of a history returns under all interleavings if and only if no call succeeds after too many in a row that failed: 19 against a server with one stage, one against any other |
| `ClientBatching.EveryBatchReturnsWithStages` | android-video-editor/src/com/cs4911/video_editor/pipeline/FrameProcessor.java:84-91 | with two stages or more that is: no failed call is followed by one that does not fail |
| `ClientBatching.PairsCanBeServed` | android-video-editor-server/src/com/cs4911/video_editor/Server.java:147-168 | pairs can be served one call after the other, however many they are |
| `ClientBatching.RepliesAreTheFrames` | android-video-editor-server/src/com/cs4911/video_editor/Server.java:147-168 | calls served in turn, each from the pipeline that the call before it left, return all effects applied to the frames, in order |
| `ClientBatching.AnswersAreTheFrames` | android-video-editor/src/com/cs4911/video_editor/pipeline/FrameProcessor.java:75-97 | if no call fails, the replies of any complete calls of the server for the batches sent, one after the other, are all effects applied to the added frames without a last odd one |
| `PipelineEdits.Pipeline.constructor` | android-video-editor-server/src/com/cs4911/video_editor/pipeline/Pipeline.java:36-58 | a new pipeline has its effects and a new, unstarted thread for each, and is not running; it is wired from its input queue through its effects to its output queue if and only if no task comes twice |
| `PipelineEdits.JoinedTasksDiffer` | android-video-editor-server/src/com/cs4911/video_editor/pipeline/Pipeline.java:44-55 | no route of different queues joins a chain in which a task comes twice |
| `PipelineEdits.Pipeline.CreateThreads` | android-video-editor-server/src/com/cs4911/video_editor/pipeline/Pipeline.java:234-244 | all old threads are interrupted or unstarted, and each task has a new thread, live exactly if the pipeline was running; threads outside the chain are as before |
| `PipelineEdits.Pipeline.Start` | android-video-editor-server/src/com/cs4911/video_editor/pipeline/Pipeline.java:86-93 | exactly the threads that were never started become live; interrupted ones stay interrupted |
| `PipelineEdits.Pipeline.Stop` | android-video-editor-server/src/com/cs4911/video_editor/pipeline/Pipeline.java:98-103 | exactly the live threads become interrupted |
| `PipelineEdits.Pipeline.AddEffect` | android-video-editor-server/src/com/cs4911/video_editor/pipeline/Pipeline.java:109-127 | the task is appended, one queue and its thread are new and the thread before it is replaced, all others stay; new threads take frames exactly if the pipeline runs and are unstarted otherwise, kept ones are in their old state, and the replaced one takes none; live threads are left outside the chain exactly if there were any before; the chain stays wired, with each thread taking from the input queue of its task, if and only if the task was not in it already |
| `PipelineEdits.Pipeline.AddEffectAt` | android-video-editor-server/src/com/cs4911/video_editor/pipeline/Pipeline.java:134-170 | the task is inserted at the index, or at the end if that is beyond it, or nothing happens for a negative index; one queue, its thread and those of its neighbours whose place changed are new, all others stay; new threads take frames exactly if the pipeline runs, kept ones are in their old state; what AddEffect keeps is kept, except that after a middle insert no live thread is outside the chain if and only if there was none before and neither of the two threads it replaces was live |
| `PipelineEdits.Pipeline.RemoveEffect` | android-video-editor-server/src/com/cs4911/video_editor/pipeline/Pipeline.java:176-202 | the task is deleted, or replaced by an Identity task if it was the only one; an invalid index changes nothing; one queue goes, one neighbour has a new thread, which takes frames exactly if the pipeline runs, all others stay as they were, and threads that left the chain take none; all that AddEffect keeps is kept |
| `PipelineEdits.Pipeline.MoveEffect` | android-video-editor-server/src/com/cs4911/video_editor/pipeline/Pipeline.java:209-213 | a move is a deletion and an insertion at the clamped index, and fails after the deletion for a negative end index; it keeps the multiset of shown effects, also in a pipeline of one effect; new threads take frames exactly if the pipeline runs, kept ones are in their old state; moved into the middle, it leaves no live thread outside the chain if and only if there was none and neither new neighbour's thread is live after the deletion |
| `PipelineEdits.Pipeline.ClearEffects` | android-video-editor-server/src/com/cs4911/video_editor/pipeline/Pipeline.java:219-228 | a single new Identity task between the two end queues, with a new thread that takes frames exactly if the pipeline runs; the old threads take none |
| `PipelineEdits.Pipeline.GetEffects` | android-video-editor-server/src/com/cs4911/video_editor/pipeline/Pipeline.java:73-81 | exactly the effects other than Identity, in order |
| `PipelineEdits.VisibleInserted` | android-video-editor-server/src/com/cs4911/video_editor/pipeline/Pipeline.java:73-170 | an insertion among the tasks puts the effect among the shown effects behind those of the tasks in front of it |
| `PipelineEdits.VisibleDeleted` | android-video-editor-server/src/com/cs4911/video_editor/pipeline/Pipeline.java:73-202 | a removal takes exactly the removed task's effect away from the shown effects |
| `PipelineEdits.MoveKeepsVisible` | android-video-editor-server/src/com/cs4911/video_editor/pipeline/Pipeline.java:209-213 | a move only permutes the shown effects, for all valid start and all non-negative end indices |
| `PipelineEdits.AddAmongShown` | android-video-editor-server/src/com/cs4911/video_editor/pipeline/Pipeline.java:73-170 | if no task is an Identity, an indexed add is the same insertion into the shown effects |
| `PipelineEdits.RemoveAmongShown` | android-video-editor-server/src/com/cs4911/video_editor/pipeline/Pipeline.java:73-202 | if no task is an Identity, a removal is the same deletion from the shown effects |
| `PipelineEdits.AttachedAdd` | android-video-editor-server/src/com/cs4911/video_editor/pipeline/Pipeline.java:138-165 | after a rewiring at the index, each thread still takes from its task's input queue if the thread of the task whose input changed is new |
| `Checksum.Cksum` | android-video-editor/jni/ping.c:226-250 | for up to 32768 words and a byte the loop computes the complement of the ones' complement sum of RFC 1071, section 1, without overflowing its 32-bit accumulator |
| `Checksum.ChecksumExample` | android-video-editor/jni/ping.c:226-250 | the numerical example of RFC 1071, section 3, read by a little-endian host |
| `Checksum.FoldStands` | android-video-editor/jni/ping.c:245-246 | two folds leave a 16-bit value that is congruent to the sum modulo 65535, and zero only for a zero sum |
| `Checksum.StoredChecksumVerifies` | android-video-editor/jni/ping.c:226-250 | a packet whose zeroed checksum field is filled with a word verifies to zero if and only if the word is the checksum, or 65535 where that is 0 |
| `Checksum.ChangeIsNoticed` | android-video-editor/jni/ping.c:226-250 | changing one word goes unnoticed if and only if it swaps the two forms of zero and another word is not zero |
| `Checksum.ChecksumOfSwapped` | android-video-editor/jni/ping.c:226-250 | swapping the bytes of every word, a last odd byte taken with a zero, swaps the bytes of the checksum (RFC 1071, section 2) |
| `Checksum.ChecksumOfPadded` | android-video-editor/jni/ping.c:239-243 | a packet has the checksum of the same packet with a zero byte behind a last odd one |
| `UdpLoss.Stream.Receive` | android-video-editor/jni/iperf_udp.c:35-86 | a failed read changes nothing; any other adds its bytes and leaves the counters as they follow from the packet numbers received so far |
| `UdpLoss.CountIsHighest` | android-video-editor/jni/iperf_udp.c:63-67 | packet_count is the highest number seen, or 0 before there was a positive one |
| `UdpLoss.DifferenceOfCounters` | android-video-editor/jni/iperf_udp.c:63-69 | cnt_error less outoforder_packets is packet_count less the number of packets that arrived |
| `UdpLoss.NumbersCounted` | android-video-editor/jni/iperf_udp.c:63-69 | the packets that arrived in order brought as many different numbers, and all numbers seen are these if and only if no late packet filled a gap |
| `UdpLoss.LossIsBounded` | android-video-editor/jni/iperf_udp.c:62-71 | for every history the numbers missing up to packet_count are between cnt_error - outoforder_packets and cnt_error; the lower bound is exact if and only if all numbers are positive and none came twice, the upper one if and only if no gap was ever filled |
| `Timers.Timer.constructor` | android-video-editor/jni/timer.c:82-103 | a new timer ends the given seconds and microseconds after it was made |
| `Timers.Timer.Update` | android-video-editor/jni/timer.c:67-80 | an updated timer ends the given seconds and microseconds after the update |
| `UdpPacing.Stream.constructor` | android-video-editor/jni/iperf_udp.c:246-266 | the first packet waits for the interval of the target rate |
| `UdpPacing.Stream.Send` | android-video-editor/jni/iperf_udp.c:93-144 | before the timer expires nothing happens; a failed write counts a packet but leaves the timer; a successful one sets the timer so that the next packet is more than an interval after this one, and expires no later than an interval after it was set, whichever branch of the adjustment is taken |
| `UdpPacing.IntervalBelowRate` | android-video-editor/jni/iperf_udp.c:105-106 | rounding the interval down never lets more bits through than the rate allows |
| `UdpPacing.IntervalMeetsRate` | android-video-editor/jni/iperf_udp.c:105-106 | the interval is the longest one, in whole microseconds, that does not fall below the rate |
| `UdpPacing.RateIsReached` | android-video-editor/jni/iperf_udp.c:103-141 | for any two packets i <= j whose gaps exceed the interval by a delay at most: rate * elapsed microseconds <= (j - i) * (blksize * 8 * 1000000 + rate * delay) |
| `UdpPacing.PacingBound` | android-video-editor/jni/iperf_udp.c:103-141 | (j - i) * blksize * 8 * 1000000 < rate * elapsed microseconds for any two packets i < j whose gaps exceed the interval |
| `UdpPacing.SentWithinRate` | android-video-editor/jni/iperf_udp.c:103-141 | the same for the packets of a sender after any sequence of calls, counted from the making of its timer |
| `Decimal.ReadPrinted` | android-video-editor/jni/iperf_api.c:769-908 | reading a printed unsigned number gives the number and the text behind it |
| `Decimal.ReadPrintedInt` | android-video-editor/jni/iperf_api.c:769-908 | the same for signed numbers |
| `Decimal.ReadPrintedFixed` | android-video-editor/jni/iperf_api.c:758-908 | the same for numbers with six decimals |
| `Decimal.PrintExample` | android-video-editor/jni/iperf_api.c:769 | the digits of 1234567890 |
| `Decimal.PrintedExample` | android-video-editor/jni/iperf_api.c:758-769 | a negative number, and one with six decimals |
| `ResultsExchange.LineInParts` | android-video-editor/jni/iperf_api.c:769-770 | a line is the five values with their separators: a colon, three commas and a line break |
| `ResultsExchange.ScanPrinted` | android-video-editor/jni/iperf_api.c:769-909 | scanning a printed result line gives back all five values, whatever follows the line |
| `ResultsExchange.LineFits` | android-video-editor/jni/iperf_api.c:769-770 | no line is cut off by its 128-character buffer |
| `ResultsExchange.Test.AddStream` | android-video-editor/jni/iperf_api.c:1535-1553 | the first stream gets number 1, and one added to n > 0 streams number n + 2 |
| `ResultsExchange.Test.Package` | android-video-editor/jni/iperf_api.c:753-781 | the results string has one line per stream with the bytes of this side's own direction |
| `ResultsExchange.Test.ParseResults` | android-video-editor/jni/iperf_api.c:887-926 | the other side's lines are stored stream by stream, the last line of each number counting, up to the first number that is unknown; what this side measured itself is kept |
| `ResultsExchange.AllKnown` | android-video-editor/jni/iperf_api.c:910-915 | all lines are known to the other side if and only if it has at least as many streams |
| `ResultsExchange.ExchangeResults` | android-video-editor/jni/iperf_api.c:745-882 | both branches run against each other: the exchange succeeds if and only if both sides have the same number of streams, and then both hold for every stream the bytes sent that its sender counted, and bytes received, jitter, errors and packets as its receiver measured them, in forward and in reverse mode |
| `Tokens.SplitSpaced` | android-video-editor/jni/iperf_api.c:627-634 | splitting a text of spaced words gives back the words |
| `Parameters.Test.PackageParameters` | android-video-editor/jni/iperf_api.c:536-604 | the text is the protocol, the number of streams and every non-zero or set option, behind a signed length byte |
| `Parameters.Test.ParseParameters` | android-video-editor/jni/iperf_api.c:608-685 | exactly as many characters as the length byte says are read, none if it is negative, and the options behind the first word are obeyed in turn |
| `Parameters.BodyText` | android-video-editor/jni/iperf_api.c:540-594 | the text, character by character: -p or -u, the number of streams, and -R -w -b -m -N -n -t -l -S in this order, each if it is set, with its number |
| `Parameters.BodyFits` | android-video-editor/jni/iperf_api.c:538-594 | the text has at most 147 characters (the buffer has 256) |
| `Parameters.OptionsArrive` | android-video-editor/jni/iperf_api.c:550-676 | every option arrives exactly, 64-bit numbers up to the largest signed one, and a field that was left out keeps the receiver's value |
| `Parameters.ParametersArrive` | android-video-editor/jni/iperf_api.c:536-685 | texts of up to 127 characters arrive as that overlay; from a longer one nothing is read |
| `Parameters.SettingsRecoveredIff` | android-video-editor/jni/iperf_api.c:536-685 | for a text of up to 127 characters the receiver has the sender's settings if and only if no 64-bit number is above the largest signed one and both agreed before in the protocol and in every field the sender left out; for a longer text, if and only if both were the same before |
| `ClientRun.Stream.AddToIntervalList` | android-video-editor/jni/iperf_api.c:936-951 | the interval is appended to the linked list, and the tail pointer is its last node again |
| `ClientRun.Test.EndIntervals` | android-video-editor/jni/iperf_api.c:1168-1200 | every stream's current interval ends at the stream's own clock reading, starts where the last one ended, and holds the bytes counted since |
| `ClientRun.Test.MoveData` | android-video-editor/jni/iperf_api.c:417-482 | each ready stream sends or receives, and its result is added to the total as an unsigned 64-bit number |
| `ClientRun.Test.HandleMessage` | android-video-editor/jni/iperf_client_api.c:56-122 | the state and the streams after each message, and whether the loop goes on |
| `ClientModel.MessageErrors` | android-video-editor/jni/iperf_client_api.c:60-172 | a message is reported as unknown if and only if the switch does not name its code, as a termination if and only if it is SERVER_TERMINATE, and never as a denial or an error of the server; the run goes on if and only if no error is set, or it is that IPERF_DONE could not be sent |
| `ClientModel.UnsentDoneIsNoFailure` | android-video-editor/jni/iperf_client_api.c:91-172 | if IPERF_DONE cannot be sent, the run ends normally in that state, with the error set |
| `ClientModel.DenialIsUnknown` | android-video-editor/jni/iperf_client_api.c:60-119 | ACCESS_DENIED and SERVER_ERROR, sent as one byte, end the run with an unknown message in state 255 or 254 |
| `ClientModel.DenialIsNeverReported` | android-video-editor/jni/iperf_client_api.c:179-254 | no run ends with a denial or an error of the server; the loop is left early if and only if an error is set, other than that IPERF_DONE could not be sent |
| `ClientRun.Test.Run` | android-video-editor/jni/iperf_client_api.c:179-254 | the loop refines the turn-by-turn specification, and if it ends with the results displayed after an orderly run, every stream has a last interval and its intervals are complete |
| `ClientModel.MovedEach` | android-video-editor/jni/iperf_api.c:435-479 | each of the first k streams that is ready has moved its result, and the others nothing |
| `ClientModel.MovedBalanced` | android-video-editor/jni/iperf_api.c:437-475 | what the streams moved is added to the total, less one for each failure, modulo 2^64 |
| `ClientModel.EndedComplete` | android-video-editor/jni/iperf_api.c:1174-1197 | ending an interval leaves intervals that tile the time from the start and hold all bytes of the measured direction |
| `ClientModel.TurnKeepsPhase` | android-video-editor/jni/iperf_client_api.c:194-250 | each turn with a message in order keeps what holds in each state, among it that the intervals account for all bytes and that a byte-limited test has no timer |
| `ClientModel.DisplayedIsComplete` | android-video-editor/jni/iperf_client_api.c:87-248 | at the end of every orderly run each stream's intervals are non-empty, tile its time without gaps, and sum exactly to its total |
| `ClientClock.TimesAreReadings` | android-video-editor/jni/iperf_client_api.c:193-250 | at the end of every orderly run each stream begins at the clock reading of the start and ends at that of the turn in which the test ended; its intervals end at the readings of the turns in which the statistics timer had expired, and at the last one, and begin where the one before ended |
| `ClientClock.IntervalsFillTheTest` | android-video-editor/jni/iperf_api.c:1182-1191 | the durations of a stream's intervals sum to the time from its start to its end, and none is negative if the clock does not go back |
| `ClientClock.TestLastsItsDuration` | android-video-editor/jni/iperf_client_api.c:239-240 | over every orderly run of a time-limited test: a turn that moves data ends the test if and only if more than duration seconds have passed since its timer was made |
| `ClientClock.TestMovesItsBytes` | android-video-editor/jni/iperf_client_api.c:239-240 | over every orderly run of a byte-limited test: a turn that moves data ends the test if and only if bytes_sent is then at least num_streams * bytes, modulo 2^64 |
| `ClientClock.DueIntervalsAreComplete` | android-video-editor/jni/iperf_client_api.c:212-248 | over every orderly run: after a turn in which the statistics were due or the test ended, the intervals hold all bytes moved so far, those of that turn included |
| `ClientModel.ResultsComeFromTheServer` | android-video-editor/jni/iperf_api.c:916-922 | when results are exchanged, a sending client takes over the number of bytes received that the server reports, and a receiving one the number sent; its own count stays |
| `ClientModel.OrderlyRunsExist` | android-video-editor/jni/iperf_client_api.c:179-254 | there are orderly runs that end with the results displayed, for any number of streams |
| `ClientModel.EarlyResultsIff` | android-video-editor/jni/iperf_client_api.c:87-248 | whenever results are asked for, after a set-up in order: at the end all intervals are complete if and only if the test was over then, or each stream had an interval and had moved nothing since its last one |
| `ClientModel.EarlyResultsAreIncomplete` | android-video-editor/jni/iperf_client_api.c:87-96 | an example: results asked for before the test ran are displayed for a stream without any interval |
| `ClientModel.RunBalanced` | android-video-editor/jni/iperf_api.c:437-475 | over every orderly run the client's total is the sum of the streams' totals less one for each failed send or receive, modulo 2^64 |
| `ClientModel.TotalIsRightIff` | android-video-editor/jni/iperf_api.c:437-475 | the total is the sum of the streams' totals if and only if no send or receive failed |
| `ClientModel.ByteLimitIsMet` | android-video-editor/jni/iperf_client_api.c:212-248 | in byte-limited mode without failures: num_streams * bytes <= bytes_sent < num_streams * (bytes + blksize) once TEST_END was sent, and bytes_sent is the sum of the streams' totals |

## Left out

- Floating point rounding: energies and intensities are reals, and so is their order; jitter and CPU use are only printed and
  read, as millionths.
- OpenCV: the gradient is an arbitrary bounded map (Sobel with mirrored borders is modelled for SideTieCounterexample only),
  effects are arbitrary total functions on frames, and decoding and encoding of images is not part of this model. Frames have
  four channels of bytes.
- Loops of the source that are split into several methods here (rows, cells and single streams) keep the source's order.
- LocalEffectTask.run and Server.addFrames are steps of a state machine rather than methods, because their meaning is in the
  interleavings; a task's effect throws no exception and returns no null.
- Several pipelines in one FrameProcessor, concurrent calls, the private copy of a pipeline, and FrameProcessor.stop, which
  also empties the end queues.
- PipelineEdits.Pipeline.constructor: the two end queues are different, as in FrameProcessor, and a task belongs to one
  pipeline only. Editing and running are separate models: frames in a queue that an edit removes are not followed.
- SeamRemoval.RemoveLeastImportantPath: the frame and the map have the same size, as in the only call; for a frame of width
  zero OpenCV refuses to make the narrower matrix before the source returns null, and the model returns no frame.
- ClientBatching: the list passed to a call is taken to be copied before the call returns, a failing call to deliver nothing,
  and results to arrive in any order and size. Histories contain no pipelines that take from and put into the phone's queues.
- Checksum.Cksum: words are read in little-endian order, as on the phone; ChecksumOfSwapped carries the result over to the
  other byte order.
- UdpLoss.Stream.Receive: counters are unbounded, so the wrap-around of a counter of packets after 2^31 of them is not
  modelled; jitter is not computed.
- UdpPacing.Stream.Send: the clock does not go backwards during a call, reading it does not fail, and 64-bit products do not
  overflow; what the packet carries is not modelled.
- ResultsExchange.Test.ParseResults: the text is one that the other side can print, with any numbers in any order; on other
  texts the source reads variables it has not set. Jitter is below 2^64 millionths. Sockets are not part of this model.
- Parameters.Test.ParseParameters: options are single letters, each in a word of its own, as the other side writes them; the
  first word to look at is the one behind the name of the program, as in a process that has not used getopt before; char is
  signed.
- ClientRun.Test.Run: sockets, select and clocks are inputs of each turn. The two timers of a test are made at one
  reading of the clock. The reporter, which only prints, the floating-point copies of durations, TCP statistics and the
  protocol's own initialization (UdpPacing has it for UDP) are left out; counters of single streams are unbounded, while the
  total wraps at 2^64.
- Activities, menus, the server's transport, the other effects, memory allocation failures, and unit conversions.

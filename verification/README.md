# Verified model of a speech recognition service

This project models the four state machines and the text pipeline of a speech
recognition service and proves what they are relied on for. Models, sockets,
storage and clocks appear as arbitrary values, as failures at any call, or as
adversaries held to a stated contract.

* `StreamProtocol`, `StreamSafety`, `StreamAnswers`, `StreamRuntime`: one ONLINE
  stream. A receiver and a recognition worker share a queue, a generation counter
  and two locks; code between two awaits is one step and every interleaving is
  covered.
* `AudioBuffer`, `SegmentPolicy`, `SegmentMerging`, `WordTimeline`,
  `RealtimeSession`: the session behind the stream. A trimmed buffer with three
  cursors, pending speech segments that merge and flush, and locked sentences.
  The voice activity detector may say anything its contract (`VadStep`) allows:
  intervals are ordered, disjoint and end within the audio received, and speech
  confirmed later starts at the reported active start or after the audio seen
  so far, up to a lag.
* `TaskQueue`, `TaskQueueSafety`, `TaskQueueResults`, `TaskDispatch`,
  `TaskRuntime`, `TaskRepository`, `StableSort`: the priority queue, its
  workers, immediate batches, shutdown and recovery.
* `TaskLifecycle`, `TaskServices`: submission, compensation, processing, result
  hooks and cleanup of a task. Every call to a repository, to the archive, to the
  file index or on temp audio may fail, one that writes also after it took
  effect, and any number of steps of other tasks may happen between two calls.
  The invariant: a pending or processing task has its
  temp audio, and a completed task has an archive key whose bytes have the
  recorded hash.
* `TextAlignment`, `SpeakerMerge`, `SegmentDecode`, `Punctuation`: cutting text
  to timestamps, merging by speaker, recombining parallel decodes, and
  splitting text for the punctuation model.
* `Wrappers`, `Arithmetic`: the option type, minima and maxima.

## Results that need a condition

Some expected properties do not hold of the code without a condition; each is
stated with the exact condition, and with a run or an input that breaks it.

* The end of `stop()` clears the registry. Ownership of tasks survives if and
  only if no immediate batch is in flight (`StopFinishIff`); otherwise a run
  exists in which a worker and a batch process one task
  (`StopUnderBatchBreaksOwnership`).
* Marking a task as processing keeps the life cycle invariant if and only if its
  temp audio exists (`ProcessingNeedsAudio`): a batch that names a finished task
  breaks it (`ProcessingAgainBreaksSafety`). It stays broken after the call if
  and only if the mark took effect and recording the error did not
  (`ProcessOffline`).
* A submission breaks the life cycle invariant if and only if `create_task`
  raises after it took effect and the compensation then removes the audio
  (`SubmitUpload`, `CreateAndEnqueue`, `SubmitRestored`, `LostCreate`).
* Incremental merging equals merging the whole list if and only if no call finds
  the queue empty and its first interval within the merge gap of the last
  finalised end (`IncrementalIsBatchIff`, `FinishIsBatchIff`). Without lag only
  a segment of maximal length can bring that about (`IncrementalIsBatch`); a lag
  of one millisecond is enough (`LagSplitsWhatBatchMerges`).
* A trim removes one sample of a padded window exactly when fractional parts of
  the two products are in the wrong order (`PendingTrimError`), as for a segment
  that begins after one second at 22050 samples a second (`TrimTakesASample`).
* Alignment preserves the text if and only if the text is empty, or it has a
  unit, there is a timestamp, and no unit meets a short timestamp
  (`AlignPreservesTextIff`); a lone separator and a short timestamp lose text
  (`LoneSeparatorIsLost`, `ShortStampLosesUnit`).
* Neighbouring sentences have different speakers if and only if no two runs of
  one speaker that say something have only blank runs between them
  (`MergeAlternatesIff`); three units with a blank one in the middle break it
  (`BlankUnitHidesAChange`).

Where code and comments disagree the code is followed: the separator set in
`src/core/text_utils.py` contains the apostrophe but no double quote, because
two adjacent literals are joined there.

## Model

| member | source | states |
|---|---|---|
| `StreamSafety.StreamIsSafe` | src/application/online_stream_runtime.py:77-177 | In every interleaving of receiver and worker, at every moment: the newest start, stop or final message before a recognition message (payload or final event) is the start of its own generation, so nothing follows a stop or the final event; no message of an older generation follows a start, and the generations of starts strictly grow |
| `StreamSafety.UnfinishedIsExact` | src/application/online_stream_runtime.py:109-152 | In every reachable state the unfinished count is the number of queued chunks plus one if the worker holds a chunk, so it never becomes negative, and the queue respects its bound |
| `StreamSafety.StopIsABarrier` | src/application/online_stream_runtime.py:91-107 | Whenever stop_session is past the wait for the queue, nothing is queued or in flight and the chunks given to add_audio since the last reset are exactly the chunks accepted since the last start, once each and in order |
| `StreamSafety.StepInv` | src/application/online_stream_runtime.py:77-200 | Every step of either task keeps the whole invariant: lock ownership, the unfinished count, generations of queued and held chunks, the log automaton and the account of accepted audio |
| `StreamSafety.AcceptedLogIsSafe` | src/application/online_stream_runtime.py:173-177 | A message log accepted by the phase automaton is safe in the sense of the stream result |
| `StreamSafety.InternalStepDecreases` | src/application/online_stream_runtime.py:126-177 | Every step the program takes on its own uses up a finite rank, so only finitely many follow without a new client message |
| `StreamSafety.NoDeadlock` | src/application/online_stream_runtime.py:91-177 | With a live worker some internal step other than a failure or a cancellation is possible until all accepted work is done and the receiver is idle, so the session lock and the send lock are never waited for in a circle |
| `StreamSafety.StopHangsIff` | src/application/online_stream_runtime.py:91-92 | While stop_session waits for the queue, no step but a failure or a cancellation is possible exactly when the worker has died with chunks still queued |
| `StreamAnswers.EveryRequestIsAnswered` | src/application/online_stream_runtime.py:77-124 | Over every run from any reachable state: by the time the receiver takes the next request it has sent exactly the answer to the last one: the started message of the new generation, the final event if finish() left text and then the stop message, a notice of an inactive session, of backpressure or of an unknown command, or nothing |
| `StreamAnswers.StopDeliversFinal` | src/application/online_stream_runtime.py:95-107 | Whatever the worker does, finish() with text is followed by exactly one final event of its generation and then the stop message; without text by the stop message alone |
| `StreamAnswers.EveryChunkIsAnswered` | src/application/online_stream_runtime.py:126-177 | Over every run in which no send fails and the worker is not cancelled: by the time the worker is done with a chunk it has posted exactly what the outcomes of add_audio and of the partial decode are worth: one payload of its generation, one error event, or nothing |
| `StreamAnswers.TextIsPosted` | src/application/online_stream_runtime.py:154-177 | Text of a session that is still current at each check is posted exactly once |
| `StreamAnswers.FailedSendIsReported` | src/application/online_stream_runtime.py:138-152 | A payload that cannot be sent is followed by exactly one error event |
| `StreamAnswers.AcceptedIsOffered` | src/application/online_stream_runtime.py:109-124 | Over every run the accepted audio is what the client offered since the last START while the session was active and the queue had room, in order |
| `StreamAnswers.OfferedIsFed` | src/application/online_stream_runtime.py:91-124 | In every run from the start of the stream, once STOP is past its barrier the session has been given exactly that audio, once each and in order |
| `StreamAnswers.ClosedIsSilent` | src/application/online_stream_runtime.py:62-70 | After close() nothing is sent and nothing is given to the session |
| `StreamRuntime.OnlineStreamRuntime.constructor` | src/application/online_stream_runtime.py:30-51 | The queue bound is at least one and the initial state is that of the protocol |
| `StreamRuntime.OnlineStreamRuntime.DrainAudioQueue` | src/application/online_stream_runtime.py:194-200 | Draining empties the queue and lowers the unfinished count by exactly its length |
| `StreamRuntime.OnlineStreamRuntime.StartSession` | src/application/online_stream_runtime.py:77-80 | START up to its first await is exactly the protocol step: a new generation and a drained queue; the invariant is kept |
| `StreamRuntime.OnlineStreamRuntime.StartCritical` | src/application/online_stream_runtime.py:82-89 | START under the session lock resets the session unless it is superseded by a later start or a close |
| `StreamRuntime.OnlineStreamRuntime.StopCritical` | src/application/online_stream_runtime.py:95-97 | STOP enters the final recognition only with an empty queue and all accepted audio fed |
| `StreamRuntime.OnlineStreamRuntime.StopAfterFinish` | src/application/online_stream_runtime.py:98-107 | After finish() the session is inactive, the lock is free, and the final event is due before the stop message if and only if there is text |
| `StreamRuntime.OnlineStreamRuntime.EnqueueAudio` | src/application/online_stream_runtime.py:109-124 | Audio is refused without an active session, queued with the current generation, or answered by backpressure when the queue is full |
| `StreamRuntime.OnlineStreamRuntime.Close` | src/application/online_stream_runtime.py:62-70 | Closing advances the generation, stops the worker and gives up the locks of the receiver |
| `StreamRuntime.OnlineStreamRuntime.WorkerGet` | src/application/online_stream_runtime.py:128-134 | The worker takes the oldest chunk; its unfinished mark stays until task_done |
| `StreamRuntime.OnlineStreamRuntime.ProcessAudioEnter` | src/application/online_stream_runtime.py:154-159 | A chunk of an older generation or of an inactive session is dropped under the session lock; any other is handed to the session |
| `StreamRuntime.OnlineStreamRuntime.ProcessAudioAdded` | src/application/online_stream_runtime.py:159-170 | What follows add_audio: drop when superseded, otherwise a payload, a partial decode or nothing |
| `StreamRuntime.OnlineStreamRuntime.ProcessAudioDecoded` | src/application/online_stream_runtime.py:170-171 | What follows the partial decode: a payload, nothing, or the error event |
| `StreamRuntime.OnlineStreamRuntime.SendIfCurrentEnter` | src/application/online_stream_runtime.py:173-177 | The generation is checked again under the session lock before a payload is sent |
| `AudioBuffer.ChunkedAudioBuffer.Append` | src/engine_runtime/engines/online/audio_buffer.py:27-31 | The history grows by the samples, the chunks stay nonempty and still concatenate to the retained history |
| `AudioBuffer.ChunkedAudioBuffer.Replace` | src/engine_runtime/engines/online/audio_buffer.py:21-25 | The history becomes the given samples, starting at offset zero |
| `AudioBuffer.ChunkedAudioBuffer.Reset` | src/engine_runtime/engines/online/audio_buffer.py:16-19 | An empty history at offset zero |
| `AudioBuffer.ChunkedAudioBuffer.Slice` | src/engine_runtime/engines/online/audio_buffer.py:33-58 | The result is the history between the two offsets, clipped to what is retained, whatever the chunking |
| `AudioBuffer.ChunkedAudioBuffer.DropBefore` | src/engine_runtime/engines/online/audio_buffer.py:60-79 | Only the start moves, to the clipped offset and never back; the rest keeps its absolute position |
| `SegmentPolicy.PendingTrimError` | src/engine_runtime/engines/online/session_policy.py:68-77 | The retained start of a pending segment exceeds the start of its padded window by one sample exactly when the fractional parts are in the wrong order, and never at a whole number of samples per millisecond |
| `SegmentPolicy.TrimTakesASample` | src/engine_runtime/engines/online/session_policy.py:57-85 | At 22050 samples a second the trim point of a concrete segment is one sample into its padded window |
| `SegmentPolicy.FlushIffDue` | src/engine_runtime/engines/online/session_policy.py:29-61 | A segment received in full is flushed if and only if it has the maximal length or need not wait: no open speech within the merge gap, a tail gap of at least that, and the minimal time past its start |
| `SegmentPolicy.TrimPointIsSafe` | src/engine_runtime/engines/online/session_policy.py:57-85 | The trim point is in front of both cursors, at most one sample into the padded window of any pending segment (none at whole sample rates), and never inside the window of open speech |
| `SegmentPolicy.TrimPointBelow` | src/engine_runtime/engines/online/session_policy.py:66-85 | The trim point does not exceed any of the bounds it is the minimum of |
| `SegmentPolicy.TrimPointIsGreatest` | src/engine_runtime/engines/online/session_policy.py:66-85 | Nothing is kept without need: the trim point is the greatest position that respects both cursors, all pending windows and open speech |
| `SegmentPolicy.MakePolicy` | src/engine_runtime/engines/online/realtime_session.py:85-89 | The settings a session ends up with are the given ones, raised to the bounds its constructor imposes |
| `SegmentMerging.FlushCountSpec` | src/engine_runtime/engines/online/realtime_session.py:312-320 | The flush loop takes exactly the longest prefix of the queue that is ready to flush |
| `SegmentMerging.LockFlushesDue` | src/engine_runtime/engines/online/realtime_session.py:269-320 | After every report the front of the queue must wait, in terms of lengths, gaps and clock alone, and every segment the report finalised need not |
| `SegmentMerging.RunFlushesDue` | src/engine_runtime/engines/online/realtime_session.py:269-320 | So over whole runs a segment becomes final exactly at the first report at which it is at the front and need not wait |
| `SegmentMerging.AcceptInv` | src/engine_runtime/engines/online/realtime_session.py:290-303 | Enqueuing an interval keeps the merging invariant: a partition of all confirmed intervals into ordered, disjoint segments with justified boundaries |
| `SegmentMerging.LockInv` | src/engine_runtime/engines/online/realtime_session.py:269-320 | One report of a VAD that meets the contract, merged and flushed, keeps the whole invariant of the session |
| `SegmentMerging.RunInv` | src/engine_runtime/engines/online/realtime_session.py:269-320 | The invariant holds after every run of such reports |
| `SegmentMerging.InExactlyOneSegment` | src/engine_runtime/engines/online/realtime_session.py:281-303 | Every confirmed interval lies inside exactly one segment of finalised and pending ones |
| `SegmentMerging.FinishInv` | src/engine_runtime/engines/online/onnx/session.py:112-124 | finish() confirms open speech up to the end of the audio, as one interval, leaves nothing pending and keeps the invariant |
| `SegmentMerging.FinishedRunConserves` | src/engine_runtime/engines/online/onnx/session.py:99-124 | After any run and finish() every confirmed interval is inside a finalised segment, the segments are ordered and disjoint, and each boundary is a gap above the merge gap (less the lag) or follows a segment of maximal length |
| `SegmentMerging.IncrementalIsBatchIff` | src/engine_runtime/engines/online/realtime_session.py:290-320 | For every lag: the run equals one pass over all confirmed intervals if and only if no call finds the queue empty and its first interval within the merge gap of the last finalised end |
| `SegmentMerging.FinishIsBatchIff` | src/engine_runtime/engines/online/onnx/session.py:112-124 | The same after finish(), whose confirmation of open speech counts as one more call |
| `SegmentMerging.IncrementalIsBatch` | src/engine_runtime/engines/online/realtime_session.py:290-337 | Without lag, and while no segment reached the maximal length, every run agrees with merging the whole list in one pass |
| `SegmentMerging.FinishedIsBatch` | src/engine_runtime/engines/online/onnx/session.py:99-124 | So after finish() nothing is pending and the finalised segments are those of one pass over everything confirmed |
| `SegmentMerging.LagSplitsWhatBatchMerges` | src/engine_runtime/engines/online/realtime_session.py:322-331 | A concrete run with one millisecond of lag whose incremental result differs from the one-pass result |
| `WordTimeline.NormaliseItems` | src/engine_runtime/engines/online/timestamp_utils.py:62-82 | Malformed items are skipped, tokens fall back to the raw text, and the largest time is tracked |
| `WordTimeline.PlaceWords` | src/engine_runtime/engines/online/timestamp_utils.py:87-98 | Every word is shifted as decided and clamped into its sentence |
| `WordTimeline.ExtractGlobalTimestamps` | src/engine_runtime/engines/online/timestamp_utils.py:48-98 | The two passes compute the words of a sentence in session time |
| `WordTimeline.EveryItemIsPlaced` | src/engine_runtime/engines/online/timestamp_utils.py:62-98 | Every well-formed item becomes one word, in order, with its own token, shifted by the start of the padded audio if and only if all times fit into its length plus a second, and clamped into the sentence |
| `WordTimeline.TimestampsFitSentence` | src/engine_runtime/engines/online/timestamp_utils.py:87-98 | Whatever the model says all words lie inside their sentence, and times that never go back in the model never go back in the result |
| `WordTimeline.SessionWordsNondecreasing` | src/engine_runtime/engines/online/realtime_session.py:339-369 | Word times never go back over the sentences of a whole session, provided they do not within each segment |
| `RealtimeSession.DecodedWindowWasKept` | src/engine_runtime/engines/online/realtime_session.py:362-382 | When a finalised segment was decoded its unpadded window was still in the buffer, and its padded window too unless the segment before ends less than the padding away |
| `RealtimeSession.DecodeHearsSegment` | src/engine_runtime/engines/online/realtime_session.py:374-382 | If the buffer has not lost the start of a segment and the segment ends within the audio received, the audio handed to the model contains all of it |
| `RealtimeSession.FinalisedIsHeard` | src/engine_runtime/engines/online/realtime_session.py:339-382 | The audio handed to the model for a finalised segment contained all samples of the segment, and what the segment said is the answer of the model for that audio |
| `RealtimeSession.OnlineOnnxRealtimeSession.EverySegmentIsHeard` | src/engine_runtime/engines/online/realtime_session.py:339-382 | In every state of a session each segment finalised so far was heard in full when it was decoded |
| `RealtimeSession.PaddingIsKept` | src/engine_runtime/engines/online/realtime_session.py:362-382 | With a merge gap of at least the padding only a segment that follows one of maximal length can lose padding |
| `RealtimeSession.LockedByAppend` | src/engine_runtime/engines/online/realtime_session.py:548-564 | A newly locked sentence starts after everything locked before it and contains its words |
| `RealtimeSession.ReportedAppend` | src/engine_runtime/engines/online/onnx/session.py:82-97 | The intervals of all VAD replies of a call are joined in order |
| `RealtimeSession.NormaliseAppend` | src/engine_runtime/engines/online/realtime_session.py:271-288 | Normalising works interval by interval (with NormaliseOne: only empty intervals are dropped) |
| `RealtimeSession.OnlineOnnxRealtimeSession.TrimAudioBuffer` | src/engine_runtime/engines/online/realtime_session.py:593-602 | Trimming moves the start to the trim point, never back, and takes nothing that is still needed beyond the stated sample |
| `RealtimeSession.OnlineOnnxRealtimeSession.DecodeFinalSegment` | src/engine_runtime/engines/online/realtime_session.py:374-432 | The model hears exactly the retained part of the window from the segment start less the padding to the segment end plus the padding or the end of the audio; less than a tenth of a second is not decoded |
| `RealtimeSession.OnlineOnnxRealtimeSession.LockSentence` | src/engine_runtime/engines/online/realtime_session.py:339-347 | Exactly the sentence of the decode is appended if any text is kept, and nothing otherwise |
| `RealtimeSession.OnlineOnnxRealtimeSession.LockFinal` | src/engine_runtime/engines/online/realtime_session.py:339-346 | The segment joins the finalised ones together with what it said and where the buffer began |
| `RealtimeSession.OnlineOnnxRealtimeSession.AdvancePast` | src/engine_runtime/engines/online/realtime_session.py:362-368 | The streaming cursor jumps to the end of the segment, possibly backwards, and all cursor bounds survive |
| `RealtimeSession.OnlineOnnxRealtimeSession.FinalizePendingSegment` | src/engine_runtime/engines/online/realtime_session.py:339-369 | Finalising moves the front segment over, records its sentence and keeps cursors, segments and sentences consistent |
| `RealtimeSession.OnlineOnnxRealtimeSession.EnqueuePendingFinalSegment` | src/engine_runtime/engines/online/realtime_session.py:290-303 | An interval within the merge gap plus the padding of the last pending segment extends it, any other is queued behind it |
| `RealtimeSession.OnlineOnnxRealtimeSession.EnqueueConfirmed` | src/engine_runtime/engines/online/realtime_session.py:271-276 | A report is normalised and enqueued interval by interval |
| `RealtimeSession.OnlineOnnxRealtimeSession.FlushPendingFinalSegments` | src/engine_runtime/engines/online/realtime_session.py:312-320 | A forced flush leaves nothing; any other takes segments from the front until the first that must wait, and keeps everything consistent |
| `RealtimeSession.OnlineOnnxRealtimeSession.FlushReadyPendingSegments` | src/engine_runtime/engines/online/realtime_session.py:305-310 | The early exits of the flush change nothing the flush would change |
| `RealtimeSession.OnlineOnnxRealtimeSession.LockConfirmedSegments` | src/engine_runtime/engines/online/realtime_session.py:269-279 | A report is enqueued and flushed as the merging model says |
| `RealtimeSession.OnlineOnnxRealtimeSession.FeedChunks` | src/engine_runtime/engines/online/onnx/session.py:82-95 | The VAD is fed whole chunks of the history, each sample once and in order, until fewer than one chunk is left; all replies and the last active start are kept |
| `RealtimeSession.OnlineOnnxRealtimeSession.AddAudio` | src/engine_runtime/engines/online/onnx/session.py:67-97 | The history grows by the samples, fewer than one VAD chunk stays unfed, nothing that is due stays pending, and merging state, cursors and sentences keep the session invariant |
| `RealtimeSession.OnlineOnnxRealtimeSession.DecodePartial` | src/engine_runtime/engines/online/realtime_session.py:159-174 | Streaming recognition hears the next stretch of the history exactly when there is enough of it |
| `RealtimeSession.OnlineOnnxRealtimeSession.ConsumeLockedSentences` | src/engine_runtime/engines/online/realtime_session.py:232-236 | Every locked sentence is handed out exactly once and in order |
| `RealtimeSession.OnlineOnnxRealtimeSession.FeedRemaining` | src/engine_runtime/engines/online/onnx/session.py:102-116 | finish() feeds the rest, so the VAD has heard the whole history in order |
| `RealtimeSession.OnlineOnnxRealtimeSession.CloseOpenSpeech` | src/engine_runtime/engines/online/onnx/session.py:119-122 | Open speech is closed at the end of the audio and then forgotten |
| `RealtimeSession.OnlineOnnxRealtimeSession.ForceLockTail` | src/engine_runtime/engines/online/realtime_session.py:514-546 | The forced tail is the decode from the end of the last finalised segment to the end of the audio |
| `RealtimeSession.OnlineOnnxRealtimeSession.FinishSentences` | src/engine_runtime/engines/online/onnx/session.py:119-130 | The tail of finish(): nothing pending, sentences exactly what the segments said plus a forced tail if there were none, all in order |
| `RealtimeSession.OnlineOnnxRealtimeSession.Finish` | src/engine_runtime/engines/online/onnx/session.py:99-130 | finish() as a whole: all audio fed to the VAD, nothing pending, every sentence in order with words inside it |
| `TaskQueueSafety.StepInv` | src/task_queue/workers.py:41-114 | Every step of workers, batches, submissions and shutdown keeps ownership, the stop protocol and first-in first-out dispatch, unless it ends a stop under a running batch |
| `TaskQueueSafety.StopFinishIff` | src/task_queue/workers.py:73-75 | The end of stop() keeps the invariant if and only if no immediate batch is in flight |
| `TaskQueueSafety.FrontIsFirst` | src/task_queue/workers.py:77-88 | The entry taken from the queue precedes every other one by priority, then by counter |
| `TaskQueueResults.OneOwner` | src/task_queue/execution.py:18-42 | In every state reachable without a stop under a running batch a key has at most one owner among queue positions, workers and batches, and the registry tracks exactly the owned keys |
| `TaskQueueResults.StopUnderBatchBreaksOwnership` | src/task_queue/workers.py:73-75 | A concrete run through such a stop after which a worker and a batch process the same key |
| `TaskQueueResults.StoppingGetsSentinel` | src/task_queue/workers.py:52-61 | Once the sentinels are posted every dequeue yields one and ends its worker |
| `TaskQueueResults.RunQuieter` | src/task_queue/workers.py:52-71 | Through a whole shutdown no worker begins a task, queued tasks stay, only sentinels are dequeued, and without a timeout their number is that of the workers that exited |
| `TaskQueueResults.ShutdownExact` | src/task_queue/workers.py:52-71 | From the call of stop() to its end exactly as many sentinels are dequeued as there are workers, and none is left unless the workers were cancelled |
| `TaskQueueResults.ShutdownProgress` | src/task_queue/workers.py:62-71 | Until every worker has exited some worker can move, and doing so uses up work |
| `TaskQueueResults.ShutdownAddsNoWork` | src/task_queue/workers.py:86-114 | No other step during a shutdown adds work, so the shutdown ends |
| `TaskQueueResults.DequeuedInOrder` | src/task_queue/workers.py:77-88 | Over a whole run entries of one class are dequeued in the order in which they were enqueued, and those still queued come later |
| `TaskDispatch.DispatchIsGrouped` | src/task_queue/workers.py:77-88 | Emptying the queue yields sentinels, VIP jobs and other jobs, each group in the order of arrival |
| `TaskDispatch.NonVipOnlyWithoutVip` | src/task_queue/policy.py:9-10 | A job that is not VIP is dequeued only if every queued entry is one |
| `TaskDispatch.DequeuedAsDispatched` | src/task_queue/workers.py:77-94 | Over every run the entries queued at its beginning are dequeued in exactly the order in which they would be drained on the spot, whatever arrives meanwhile; none is lost before a stop() ends |
| `TaskDispatch.OvertakersComeBefore` | src/task_queue/workers.py:77-94 | Over every run an entry is dequeued before one that was already queued only if it precedes that one by priority, then by counter |
| `TaskDispatch.RecoveredInOrder` | src/task_queue/recovery.py:44-46 | Over every run after a start, whatever is submitted, processed or shut down meanwhile: the recovered tasks of one kind that no batch is processing are dequeued in exactly the order in which recovery enqueued them, and until a stop() ends those not yet dequeued are still queued |
| `TaskDispatch.StartDispatchesInRepositoryOrder` | src/task_queue/queue.py:133-154 | Over every run after a start: the pending tasks of both repositories that no batch is processing are dequeued, kind by kind, in the order their repository returned them |
| `TaskRepository.PendingTasksOrder` | src/core/infrastructure_adapters/task_repository.py:54-66 | The pending tasks come VIP first, then oldest first, ties in the order of creation; all of them if the limit allows |
| `TaskRepository.PendingTasksSooner` | src/core/infrastructure_adapters/task_repository.py:54-66 | A VIP task comes before every other, then the older one first, a missing time counting as now; a limit cuts off the end of that list |
| `TaskRepository.PendingTasksDistinct` | src/core/infrastructure_adapters/task_repository.py:54-66 | No task is returned twice |
| `TaskRepository.ListedDistinct` | src/core/infrastructure_adapters/task_repository.py:19-20 | The records of the repository have distinct ids |
| `TaskRepository.MemoryTaskRepository.CreateTask` | src/core/infrastructure_adapters/task_repository.py:22-49 | A new pending record with the given fields and the current time replaces or joins the records |
| `TaskRepository.MemoryTaskRepository.GetPendingTasks` | src/core/infrastructure_adapters/task_repository.py:54-66 | The loop and the sort compute the pending order |
| `TaskRepository.MemoryTaskRepository.RecoverStaleProcessing` | src/core/infrastructure_adapters/task_repository.py:68-82 | Exactly the tasks that have been processing for at least the timeout become pending again, all others stay as they are, and their number is returned |
| `TaskRepository.ProcessingTimesOut` | src/core/infrastructure_adapters/task_repository.py:68-97 | A task marked as processing is recovered exactly from the end of the timeout on |
| `StableSort.SortIsStable` | src/core/infrastructure_adapters/task_repository.py:60-65 | The sort is ordered by key and keeps the order of equal keys |
| `TaskRuntime.TaskExecutionRegistry.TryEnqueue` | src/task_queue/execution.py:18-22 | A key is accepted exactly when it is neither queued nor in flight |
| `TaskRuntime.TaskExecutionRegistry.TryBeginExternal` | src/task_queue/execution.py:24-28 | A key is taken in flight exactly when it is neither queued nor in flight |
| `TaskRuntime.QueueWorkerRuntime.Start` | src/task_queue/workers.py:41-50 | A second start changes nothing; the first launches at least one worker |
| `TaskRuntime.QueueWorkerRuntime.Enqueue` | src/task_queue/workers.py:77-84 | A tracked key is refused; any other joins the queue with priority 0 for VIP and 1 otherwise and the next counter value, and the registry |
| `TaskRuntime.QueueWorkerRuntime.WorkerTake` | src/task_queue/workers.py:86-94 | A worker takes the smallest entry; a sentinel ends it, a job moves to in flight |
| `TaskRuntime.QueueWorkerRuntime.WorkerFinish` | src/task_queue/workers.py:95-114 | However the processing ends the key is released |
| `TaskRuntime.QueueWorkerRuntime.StopPost` | src/task_queue/workers.py:52-61 | stop() up to its wait posts one sentinel per worker |
| `TaskRuntime.QueueWorkerRuntime.StopClear` | src/task_queue/workers.py:73-75 | stop() after its wait empties everything; the invariant survives if and only if no batch is in flight |
| `TaskRuntime.QueueWorkerRuntime.BatchTake` | src/task_queue/batch.py:74-76 | A batch owns a task exactly when nobody else tracks it, and then holds its key |
| `TaskRuntime.QueueWorkerRuntime.BatchRelease` | src/task_queue/batch.py:84-85 | A batch gives its task up |
| `TaskRuntime.OfflineTaskQueue.Enqueue` | src/task_queue/queue.py:118-131 | A submission is refused unless the queue is enabled, running and supports the kind |
| `TaskRuntime.OfflineTaskQueue.RecoverPendingTasks` | src/task_queue/queue.py:133-154 | Pending tasks are enqueued one by one in repository order |
| `TaskRuntime.OfflineTaskQueue.Start` | src/task_queue/queue.py:94-106 | Recovery and start are one step, taken only if the queue is enabled, has a service and is not running |
| `TaskRuntime.ImmediateBatchProcessor.ProcessOne` | src/task_queue/batch.py:60-85 | The batch becomes the owner exactly if the task exists and is not tracked when it is looked at; the task succeeds exactly if it did and processing returned true; afterwards the batch holds nothing |
| `TaskRuntime.ImmediateBatchProcessor.Process` | src/task_queue/batch.py:33-58 | Every requested task is taken up as stated for one task and counts once, as completed or as failed |
| `TaskLifecycle.SetTaskSafe` | src/core/infrastructure_adapters/task_repository.py:84-145 | Writing a record keeps the life cycle invariant if and only if its audio is there when it is still needed and its archive entry is sound |
| `TaskLifecycle.ProcessingNeedsAudio` | src/application/task_flow.py:47-48 | Marking a task as processing keeps the invariant if and only if its temp audio exists |
| `TaskLifecycle.ProcessingAgainBreaksSafety` | src/application/offline.py:126-128 | A concrete world with one failed task and no temp audio that satisfies the invariant until a batch marks the task as processing |
| `TaskLifecycle.DiscardSafe` | src/core/infrastructure_adapters/temp_files.py:63-64 | Cleaning up temp audio keeps the invariant if and only if the task is not waiting to be processed |
| `TaskLifecycle.LostCreate` | src/application/tasks.py:456-471 | Cleaning up the audio after a create_task that raised is safe if and only if the create had no effect |
| `TaskLifecycle.MineIsOthers` | src/application/task_flow.py:47-58 | What one task does is within what every other task tolerates between its own steps |
| `TaskLifecycle.LowerIgnoresCase` | src/application/tasks.py:354-358 | Two hashes agree in the comparison exactly if they agree but for the case of letters |
| `TaskServices.TaskServices.SubmitUpload` | src/application/tasks.py:378-462 | Under every combination of failures, before or after they took effect: accepted with audio and a pending record, or given up as stated; the invariant fails if and only if the create raised after it took effect and the audio was cleaned up |
| `TaskServices.TaskServices.CreateAndEnqueue` | src/application/tasks.py:427-462 | Creation and scheduling either both succeed or are compensated; the invariant fails if and only if the create raised after it took effect and the audio was cleaned up |
| `TaskServices.TaskServices.CompensateFailedSubmission` | src/application/tasks.py:464-515 | Audio goes with a task that is known to be marked as failed or whose create raised; in the second case the invariant survives if and only if the record does not exist after all or the audio cannot be removed |
| `TaskServices.TaskServices.SubmitRestored` | src/application/tasks.py:245-304 | With the archive holding the audio of the source before the call: accepted if and only if the source is finished and its audio verified and no call fails; the invariant fails if and only if the audio could be restored, the create raised after it took effect and the audio was cleaned up. The audio of an accepted task is the archived bytes and its hash theirs |
| `TaskServices.TaskServices.RestoreAndVerify` | src/application/tasks.py:324-376 | Restoring succeeds exactly when the archive has the file, the write and the hashing do not fail, the size is allowed and the recorded hash, if any, matches whatever its case; otherwise nothing is left unless it cannot be removed |
| `TaskServices.TaskServices.HandleComplete` | src/application/postprocess.py:166-229 | Audio found under its hash is reused without touching the archive, so that a failing store does not matter; any other gets a new key whose bytes have the hash; it raises exactly if hashing fails or there is nothing to reuse and the store fails |
| `TaskServices.TaskServices.StoreNewFile` | src/application/file_processing.py:81-128 | A new archive key holds the audio and is indexed by its hash, unless indexing fails, which does not matter |
| `TaskServices.TaskServices.OnSuccess` | src/task_queue/result_hooks.py:22-178 | What each success hook does and when it raises |
| `TaskServices.TaskServices.HandleSuccess` | src/task_queue/hook_execution.py:14-43 | The success hooks in order: it raises exactly if archiving, recording the key, the text file or the result fails; otherwise the task is completed and cleaned up as far as that works; once archived it names the key found under the hash or a new one, even if a later hook fails; with an exception the audio stays |
| `TaskServices.TaskServices.HandleFailure` | src/task_queue/hook_handlers.py:63-73 | The failure hooks never raise; the error is recorded unless that call fails |
| `TaskServices.TaskServices.ProcessOffline` | src/application/offline.py:103-164 | Under every combination of failures: the task is done if and only if it exists with audio and no call that matters fails, and is then completed and archived; the invariant fails if and only if the task exists without audio, is marked as processing and recording the error has no effect; temp audio goes only with a completed task; otherwise it is failed unless recording that fails too or it could not even be loaded |
| `TaskServices.TaskServices.ProcessWithoutAudio` | src/application/offline.py:126-164 | A task without audio, named by a batch: whatever other tasks do between its two repository calls, the invariant of all others holds, and its own if and only if the mark had no effect or the error was recorded |
| `TaskServices.TaskServices.StoreSpeakerResult` | src/application/speaker.py:102-121 | It raises exactly if archiving or saving fails; otherwise the task is completed and names the key found under the hash or a new one; temp audio goes only then |
| `TaskServices.TaskServices.ProcessSpeaker` | src/application/speaker.py:77-136 | The same for speaker tasks, whose audio is checked before they are marked as processing, so that the invariant always holds |
| `TextAlignment.AlignTextToTimestamps` | src/engine_runtime/engines/offline/timestamp_utils.py:90-159 | The loops over text, words and timestamps compute the alignment of the pieces of the text |
| `TextAlignment.NextUnit` | src/engine_runtime/engines/offline/timestamp_utils.py:126-134 | A unit is a run of word characters that ends at the end of the text or in front of a character that is not one, or a single other character |
| `TextAlignment.PiecesSpellText` | src/engine_runtime/engines/offline/timestamp_utils.py:116-134 | Cutting the text into separators and units loses nothing |
| `TextAlignment.PiecesAreMaximal` | src/engine_runtime/engines/offline/timestamp_utils.py:116-134 | Every piece is a separator, a single other character, or a run of word characters that ends at the end of the text or in front of a character that is not one; the pieces stand one behind the other |
| `TextAlignment.AlignPreservesTextIff` | src/engine_runtime/engines/offline/timestamp_utils.py:111-159 | The tokens spell the text if and only if the text is empty, or has a unit, there is a timestamp, and no unit meets a timestamp that is too short |
| `TextAlignment.LoneSeparatorIsLost` | src/engine_runtime/engines/offline/timestamp_utils.py:111-159 | The tokens of a text of one separator do not spell it, whatever the timestamps |
| `TextAlignment.ShortStampLosesUnit` | src/engine_runtime/engines/offline/timestamp_utils.py:136-145 | A unit that meets a timestamp that is too short is lost |
| `TextAlignment.AlignTokens` | src/engine_runtime/engines/offline/timestamp_utils.py:136-155 | Every token says something, and with full timestamps the k-th token has the times and the detail of the k-th timestamp |
| `TextAlignment.TokensBeginAtUnits` | src/engine_runtime/engines/offline/timestamp_utils.py:116-159 | With full timestamps the k-th token covers the text from where the k-th unit begins (the first one from the start) to where the next one begins, and the last one the rest |
| `TextAlignment.AlignedTextIsKept` | src/engine_runtime/engines/offline/timestamp_utils.py:111-159 | Whatever the timestamps, if there is any token the tokens spell the text but for exactly the units that meet a timestamp that is too short |
| `TextAlignment.TokensTakeFullStamps` | src/engine_runtime/engines/offline/timestamp_utils.py:136-155 | The tokens take the full timestamps that any unit meets, one each and in order |
| `SpeakerMerge.SpeakerForTimeRange` | src/engine_runtime/engines/offline/speaker_utils.py:8-49 | The scan with a running best computes the chosen speaker |
| `SpeakerMerge.SpeakerForIsBest` | src/engine_runtime/engines/offline/speaker_utils.py:15-49 | The chosen speaker is that of the first segment with the largest positive overlap, else of the first segment with an endpoint nearest to the midpoint, else 0 |
| `SpeakerMerge.OverlapIsCommon` | src/engine_runtime/engines/offline/speaker_utils.py:34-39 | The overlap is the time from the first to the last moment that range and segment have in common |
| `SpeakerMerge.SpeakerForShortBoundaryToken` | src/engine_runtime/engines/offline/speaker_utils.py:52-81 | The scan over the ordered segments finds the first change of speaker strictly inside a short token |
| `SpeakerMerge.BoundaryIff` | src/engine_runtime/engines/offline/speaker_utils.py:70-81 | The correction applies if and only if the token lasts 1 to 250 ms and a change of speaker lies strictly inside |
| `SpeakerMerge.SpeakerForTimeRangeWithBoundary` | src/engine_runtime/engines/offline/speaker_utils.py:84-97 | For a token of 1 to 250 ms with a change of speaker strictly inside it is the speaker behind the first such change, otherwise the best one |
| `SpeakerMerge.SegmentsInOrder` | src/engine_runtime/engines/offline/speaker_utils.py:73-74 | Changes of speaker are looked for in the order of starts, then of ends |
| `SpeakerMerge.TokensInOrder` | src/engine_runtime/engines/offline/speaker_utils.py:114 | Units are merged in the order of starts, then of ends |
| `SpeakerMerge.MergeTimedUnitsBySpeaker` | src/engine_runtime/engines/offline/speaker_utils.py:106-144 | The loop with an open sentence computes the nonblank sentences of the sorted units |
| `SpeakerMerge.RunsAreMaximal` | src/engine_runtime/engines/offline/speaker_utils.py:114-140 | The runs are nonempty, have one speaker each and another one next to it, and together are the units |
| `SpeakerMerge.CollapseTellsRuns` | src/engine_runtime/engines/offline/speaker_utils.py:120-140 | Each sentence tells one maximal run: its text, bounds and speaker, and all timestamp details without loss or repetition |
| `SpeakerMerge.MergeOfSpokenUnits` | src/engine_runtime/engines/offline/speaker_utils.py:106-144 | Units that all say something become exactly the maximal runs of their stable order, each told whole, and neighbours have different speakers |
| `SpeakerMerge.NonBlankAlternatesIff` | src/engine_runtime/engines/offline/speaker_utils.py:138-143 | Dropping blank sentences leaves neighbours of different speakers if and only if no two sentences of one speaker have only blank ones between them |
| `SpeakerMerge.MergeAlternatesIff` | src/engine_runtime/engines/offline/speaker_utils.py:106-144 | For all units and segments: neighbouring sentences have different speakers if and only if no two runs of one speaker that say something have only blank runs between them |
| `SpeakerMerge.BlankUnitHidesAChange` | src/engine_runtime/engines/offline/speaker_utils.py:138-143 | Concrete units and segments, with a blank unit of another speaker in between, whose merge has two neighbours with the same speaker |
| `SpeakerMerge.BuildSpeakerAlignedText` | src/engine_runtime/engines/offline/onnx/speaker_merge.py:107-115 | Alignment followed by the merge; no tokens give no sentences |
| `SpeakerMerge.AlignedTextIsSortedTokens` | src/engine_runtime/engines/offline/onnx/speaker_merge.py:107-115 | Whatever the speakers the sentences spell the tokens in stable time order and neighbours have different speakers |
| `SpeakerMerge.SpeakerAlignmentPreservesText` | src/engine_runtime/engines/offline/onnx/speaker_merge.py:107-115 | With full timestamps in time order the sentences give back the text exactly if and only if the text is empty, or has a unit and there is a timestamp |
| `SegmentDecode.RunKeepsModels` | src/engine_runtime/engines/offline/onnx/recognizer.py:135-161 | The models in the pool and in use are the same multiset in every reachable state |
| `SegmentDecode.NoModelUsedTwice` | src/engine_runtime/engines/offline/onnx/recognizer.py:135-161 | No model is in use twice or both in use and in the pool, and none is lost |
| `SegmentDecode.PoolProgress` | src/engine_runtime/engines/offline/onnx/recognizer.py:146-161 | A waiting segment can begin or some model can be given back |
| `SegmentDecode.CombineAsrSegmentDecodes` | src/engine_runtime/engines/offline/onnx/helpers.py:70-87 | The three arrays are filled in the order given and read in index order |
| `SegmentDecode.DecodeIsConfluent` | src/engine_runtime/engines/offline/onnx/recognizer.py:163-172 | For every order of completion the call raises, or returns the same text, timestamps and payloads, those of all segments in index order |
| `SegmentDecode.SegmentInPlace` | src/engine_runtime/engines/offline/onnx/helpers.py:70-87 | The text, timestamps and payload of each segment stand right behind those of all segments before it |
| `SegmentDecode.SliceCoversSegment` | src/engine_runtime/engines/offline/onnx/helpers.py:19-32 | The padded slice reaches from the padding before the segment to the padding behind it, within the audio, and so covers the segment as far as there is audio; its offset is less than one sample behind its first sample |
| `Punctuation.SplitTextForPunc` | src/engine_runtime/engines/online/onnx/punctuation.py:100-118 | The two loops terminate for every text and limit and compute the parts |
| `Punctuation.LastSoftRange` | src/engine_runtime/engines/online/onnx/punctuation.py:110-115 | A part ends at the last soft break of its search window, or at the limit if there is none |
| `Punctuation.SplitIsExact` | src/engine_runtime/engines/online/onnx/punctuation.py:100-118 | The parts concatenate to the text without white space, none is too long or empty, and all but the last have at least the stated length |
| `Punctuation.PartsEndRight` | src/engine_runtime/engines/online/onnx/punctuation.py:107-117 | Every part ends at the end of the text, at the last soft break of the window in front of its limit, or at the limit if that window has none |
| `Punctuation.CompactAppend` | src/engine_runtime/engines/online/onnx/punctuation.py:102 | White space is dropped character by character (with CompactOne) and all else kept in order |
| `Punctuation.SplitAt80` | src/engine_runtime/engines/online/onnx/punctuation.py:77-78 | With a limit of 80 all parts but the last have at least 57 characters, so there are at most n / 57 of them, rounded up |
| `Punctuation.SplitThenJoinIsFallback` | src/engine_runtime/engines/online/onnx/punctuation.py:120-137 | Splitting and joining unchanged parts amounts to the heuristic used without a model |
| `Punctuation.JoinEndsSentence` | src/engine_runtime/engines/online/onnx/punctuation.py:129-137 | A joined text is the stripped parts, followed by a mark exactly if they do not end in one |
| `Punctuation.StripTrims` | src/engine_runtime/engines/online/onnx/punctuation.py:131 | Stripping cuts off exactly the white space at both ends |
| `Punctuation.FallbackTwice` | src/engine_runtime/engines/online/onnx/punctuation.py:120-127 | The heuristic adds a mark only where there is none, so applying it again changes nothing |
| `Punctuation.PunctuatedAt` | src/engine_runtime/engines/online/onnx/punctuation.py:77-97 | Each part is what the model makes of it, the part itself if that is nothing, and the heuristic if the model fails |
| `Punctuation.GenerateLong` | src/engine_runtime/engines/online/onnx/punctuation.py:77-98 | Every part is punctuated on its own, with the heuristic where the model fails, and the parts are joined |

## Left out

- Speech, VAD, speaker and punctuation models, their loading, audio decoding and loudness thresholds: opaque; their answers are arbitrary.
- HTTP and WebSocket plumbing, configuration, logging, metrics, SQL sessions, object storage and message queue calls: only their effects and failures appear.
- The polling timeout of the recognition worker and the cancellation of calls running in threads: library behaviour; a cancelled worker is one step.
- A `start()` or `stop()` of the task queue issued while another `stop()` is under way: the callers do not overlap them, and the state machine does not enable it.
- The heap inside the priority queue: taken as removal of the minimum; the counter is unique, so there are no ties.
- The derivation of the VAD contract from the VAD adapter: the contract is assumed.
- Floating point in time arithmetic: `int(ms * rate / 1000)` is exact floor division on nonnegative values, with truncation toward zero below.
- The streaming tail of the PT session, which dates its sentence from the retained buffer, and the PT feeding of whole remainders: the session is the ONNX one.
- The text of a locked sentence, its later repair across sentence boundaries and repeated phrase removal: the sentence is kept or not by an arbitrary choice of the model's answer.
- Streaming recognition caches, partial text and the timing of partial decodes: only the cursor and the audio fed are modelled.
- Interference on the task a service call is about: other tasks leave its record and audio alone, which rests on `TaskQueueResults.OneOwner` for processing and on the new id for submission; a batch that names a task between its creation and its enqueueing, and a start of the queue whose recovery picks it up there, are excluded.
- The updates of one record by the in-memory repository: they appear as `WithStatus`, `WithResult`, `WithError` and `WithFileInfo` in the life cycle.
- The two task repositories and the soft deletion of tasks: one map of records with unique ids stands for both repositories in the life cycle.
- Removal of archived files: the archive only grows.
- TaskServices.TaskServices.HandleComplete: does not model the completion message, which never raises and changes no stored state.
- TaskRuntime.ImmediateBatchProcessor.Process: does not model the batch result hooks, of which the service configures none, nor the processing time.
- The fallback chain behind speaker-aligned text and the sentence builders it calls: adds only case distinctions.
- `normalize_timestamps`, `fill_timestamp_tokens`, offset helpers and payload extraction: parsing of loosely typed values without a further property.
- The decode of one segment by different models of the pool: the models are taken to answer alike.

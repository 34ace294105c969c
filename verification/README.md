# Verification models

Nine state machines and protocols of this system, each modelled in Dafny and proved to keep
the promises its code makes. They share no state; each has its own module.

| module | what it models |
|---|---|
| `SchedulerPolicy`, `SchedulerGates`, `SchedulerRuns`, `SchedulerExclusive`, `SchedulerCore` | the single-memory-owner admission scheduler: the eviction and admission policy, what it means in sizes, tiers and times, any number of concurrent admissions as a state machine with one step per stretch between awaits, when exclusive models stay isolated, and the nested loops under the lock with their termination |
| `PartialStt` | the generation/busy/pending protocol of partial transcription |
| `SentenceChunks`, `TtsQueue` | streaming speech: cutting a reply into chunks, and the cancellable playback queue |
| `Fading`, `Ducking` | volume fades and the saved-volume state of ducking |
| `ConfigPaths`, `PanelMirror` | the appletsrc parser and its joined paths, and the panel mirror |
| `PowerGuard`, `PowerReadings`, `OomGuard`, `OomTargets` | two polling guards whose guarantees span whole runs, and what each does in terms of its readings |
| `JsonPoller` | the portal's timer chain |
| `Journal`, `JournalRows` | the event journal and its fold |
| `Options`, `Floats`, `Seqs`, `Sets`, `Sorting`, `Text` | shared vocabulary |

Most modules have the same shape. A datatype holds the state, `Step` is one atomic event and
`Run` a whole run; lemmas about `Run` hold for every interleaving of events. A class holds the
fields the program updates in place, and its methods, with the program's own branches and
loops, are proved to follow `Step`. Where a method has to be related to such a run, the class
carries the run's state as a ghost field.

Standing assumptions, besides those under "Left out": each atomic section between two awaits,
or under a lock, is one step; arithmetic is over the integers and the reals, so binary
rounding of floats is not modelled (truncation and round-half-even are). In the scheduler
Lemonade loads only on request, a model is in health from its load request on, each id has one
manifest entry, swap admission is off, and anyone may unload at any await. In
`SchedulerCore` the outside world is an arbitrary script of such changes, a failed health
request takes time, and a poll interval is at least one clock tick.

Where the code does not do what its documentation or a first reading suggests, the code is
modelled and the difference proved:

- "exclusive" is enforced when an exclusive model is admitted, not while it is loaded; when
  isolation survives every run: `SchedulerExclusive.ExclusiveStaysAloneIff`.
- A reset that races a running worker breaks the single-worker promise and can lose the
  newest audio: `PartialStt.RacingResetDoublesWorkers`, `PartialStt.RacingResetLosesNewest`.
- The final flushing branch of the chunk splitter is never taken:
  `SentenceChunks.FeedSentenceChunks`.
- A fade on a silent stream jumps up first, because silence is read as 100:
  `Ducking.FadeStartsInside`.
- The mirror's own writes set it off again when a new widget writes a key that the followed
  panel's config does not have: `PanelMirror.MirrorSettles`, `PanelMirror.ExtraKeyRetriggers`.
- A screen the mirror has not recorded yet is not brought into line by itself:
  `PanelMirror.AgreeIff`.
- With unordered bars or timers the out-of-memory guard can miss its HARD deadline:
  `OomGuard.PressureIff`.
- The victim among apps is the least idle one, where the comments and the design notes
  (openspec/changes/memory-oom-guard/how.md) promise the most idle: `OomGuard.VictimIsLeastIdle`.
- The restart-cost bias for models never changes a victim: `OomTargets.BiasNeverMatters`.
- A journal row may carry a timestamp that is not its agent's greatest:
  `Journal.RowIsNewest`.

## Model

| member | source | states |
|---|---|---|
| `SchedulerPolicy.PickVictimIsLeast` | modules/llm-litellm/files/etc/aipc/litellm/scheduler_hook.py:174-213 | the victim is an eligible model with the least (tier rank, last use); there is no victim exactly when no loaded model is eligible |
| `SchedulerGates.VictimIsOldest` | modules/llm-litellm/files/etc/aipc/litellm/scheduler_hook.py:174-213 | on tiers, use and times alone: the victim is idle, not the target and may fall, and every other model that may fall is of a later tier, or of the same one and used no earlier; no victim exactly when none may fall |
| `SchedulerGates.OneRowLoaded` | modules/llm-litellm/files/etc/aipc/litellm/scheduler_hook.py:136-159 | which row of a health answer counts, as which model, in use, and ready |
| `SchedulerGates.LoadsExactlyWhen` | modules/llm-litellm/files/etc/aipc/litellm/scheduler_hook.py:401-408 | a round loads exactly when the target is not loaded, no rate limit applies, and the weights stay within the budget, a slot is free, and every readable probe is satisfied - host memory at least the floor and at least size plus headroom, GPU page memory within its budget when the pool is empty |
| `SchedulerGates.LimitsExactlyWhen` | modules/llm-litellm/files/etc/aipc/litellm/scheduler_hook.py:386-400 | a round is refused for rate exactly when the target is not loaded, not exclusive, its alias no workhorse, and another alias was admitted within the switch interval |
| `SchedulerGates.ServesExactlyWhen` | modules/llm-litellm/files/etc/aipc/litellm/scheduler_hook.py:383-385 | a round serves exactly when the target is ready and alone (exclusive), or within the count and without another large model if large |
| `SchedulerGates.EvictsExactlyWhen` | modules/llm-litellm/files/etc/aipc/litellm/scheduler_hook.py:438-452 | otherwise a round unloads the picked victim; without one a large absent target forces out the first other large model that is not exclusive; with neither it waits |
| `SchedulerPolicy.UnloadsAreJustified` | modules/llm-litellm/files/etc/aipc/litellm/scheduler_hook.py:438-455 | whatever a round decides to unload was seen loaded and is not the target; an exclusive model falls only to an exclusive target, a model in use only to a large-for-large switch, a smaller resident only to an exclusive target |
| `SchedulerPolicy.WhoMayJoinExclusive` | modules/llm-litellm/files/etc/aipc/litellm/scheduler_hook.py:273-288 | the slot gate by itself, with exactly one model loaded and that one exclusive: it lets another model pass exactly when there are two slots and not both are large; the budget and memory gates come on top |
| `SchedulerPolicy.GpuLoadedKnown` | modules/llm-litellm/files/etc/aipc/litellm/scheduler_hook.py:136-159 | every entry kept from a health answer is the manifest's entry for its id |
| `SchedulerPolicy.FewerWeighLess` | modules/llm-litellm/files/etc/aipc/litellm/scheduler_hook.py:166-171 | a pool of distinct models contained in another one is no larger and no heavier |
| `SchedulerPolicy.ShrinkKeepsPool` | modules/llm-litellm/files/etc/aipc/litellm/scheduler_hook.py:273-319 | unloading, by anybody, keeps the count limit, the single large slot and the budget |
| `SchedulerPolicy.LoadKeepsPool` | modules/llm-litellm/files/etc/aipc/litellm/scheduler_hook.py:310-319 | loading a target that fitted a snapshot keeps the three limits although others may have left since; an exclusive target then finds the pool empty |
| `SchedulerRuns.ShrinkKeepsTasks` | modules/llm-litellm/files/etc/aipc/litellm/scheduler_hook.py:353-492 | a change from outside disturbs no suspended admit call |
| `SchedulerRuns.MoveKeepsInv` | modules/llm-litellm/files/etc/aipc/litellm/scheduler_hook.py:353-492 | a call that moves on leaves the facts other suspended calls rely on alone |
| `SchedulerRuns.PostLoadKeepsInv` | modules/llm-litellm/files/etc/aipc/litellm/scheduler_hook.py:408-418 | the load request itself keeps the pool limits and every call's facts |
| `SchedulerRuns.RoundKeepsInv` | modules/llm-litellm/files/etc/aipc/litellm/scheduler_hook.py:382-475 | one round of the hold loop keeps the invariant and only posts justified requests |
| `SchedulerRuns.ServedAlone` | modules/llm-litellm/files/etc/aipc/litellm/scheduler_hook.py:368-378 | an exclusive target served without the lock is the only loaded model |
| `SchedulerRuns.StepKeepsInv` | modules/llm-litellm/files/etc/aipc/litellm/scheduler_hook.py:353-492 | every step of every admit call and of the outside world keeps the invariant |
| `SchedulerRuns.RunKeepsInv` | modules/llm-litellm/files/etc/aipc/litellm/scheduler_hook.py:353-492 | the invariant holds after every run from a pool within the limits |
| `SchedulerRuns.PoolAlwaysOk` | modules/llm-litellm/files/etc/aipc/litellm/scheduler_hook.py:353-492 | for every interleaving of admits and external unloads: at most max_gpu models, at most one large, total weight within the budget |
| `SchedulerRuns.EveryUnloadJustified` | modules/llm-litellm/files/etc/aipc/litellm/scheduler_hook.py:438-455 | every unload posted in any run was justified by the snapshot it was decided on |
| `SchedulerRuns.LockIsExclusive` | modules/llm-litellm/files/etc/aipc/litellm/scheduler_hook.py:379-381 | at most one admit call is past the lock |
| `SchedulerRuns.EveryAdmissionSound` | modules/llm-litellm/files/etc/aipc/litellm/scheduler_hook.py:353-492 | whenever a request is served its model is loaded and ready, and an exclusive one is alone at that moment |
| `SchedulerRuns.EveryLoadFits` | modules/llm-litellm/files/etc/aipc/litellm/scheduler_hook.py:401-418 | every load posted in any run was decided on with the target absent, the weights within the budget, a free slot, and every readable probe satisfied, each inequality written out |
| `SchedulerRuns.RequestsAreLogged` | modules/llm-litellm/files/etc/aipc/litellm/scheduler_hook.py:401-455 | a call that goes on to load or to unload has posted exactly that request, logged with its snapshot and probes; nothing else is ever posted |
| `SchedulerRuns.AdmissionsAreLogged` | modules/llm-litellm/files/etc/aipc/litellm/scheduler_hook.py:353-492 | every admission and only those are recorded, with the pool at that moment |
| `SchedulerRuns.PoolChanges` | modules/llm-litellm/files/etc/aipc/litellm/scheduler_hook.py:353-492 | the pool changes only by a requested load, an unload, or from outside |
| `SchedulerRuns.OthersStay` | modules/llm-litellm/files/etc/aipc/litellm/scheduler_hook.py:353-492 | a step moves only its own call |
| `SchedulerRuns.ArrivalIsRefused` | modules/llm-litellm/files/etc/aipc/litellm/scheduler_hook.py:353-367 | an arriving request is refused exactly when there is an allowlist without its alias |
| `SchedulerRuns.FastPathServes` | modules/llm-litellm/files/etc/aipc/litellm/scheduler_hook.py:368-378 | without the lock a request is served exactly when its model is ready and, if exclusive, alone |
| `SchedulerRuns.WaitingEnds` | modules/llm-litellm/files/etc/aipc/litellm/scheduler_hook.py:379-468 | how each wait of a call ends: for the lock, for its model to become ready, for a victim to be gone |
| `SchedulerRuns.LeavingUnlocks` | modules/llm-litellm/files/etc/aipc/litellm/scheduler_hook.py:379-488 | a call past the lock can always give up, and the lock is free exactly when it has left |
| `SchedulerRuns.AdmissionIsBooked` | modules/llm-litellm/files/etc/aipc/litellm/scheduler_hook.py:489-492 | the cooldown times and the rate limit change exactly when a call is admitted under the lock, to that moment and alias |
| `SchedulerExclusive.FittingJoins` | modules/llm-litellm/files/etc/aipc/litellm/scheduler_hook.py:273-319 | whatever passes all gates beside a loaded exclusive model is a manifest entry that can join one |
| `SchedulerExclusive.StepKeepsAlone` | modules/llm-litellm/files/etc/aipc/litellm/scheduler_hook.py:353-492 | while no manifest entry can join an exclusive model, no step of any call or of the outside world ends its isolation |
| `SchedulerExclusive.JoiningRun` | modules/llm-litellm/files/etc/aipc/litellm/scheduler_hook.py:353-492 | for every exclusive manifest model and every allowed alias that can join it: a run of a single caller that ends with both loaded |
| `SchedulerExclusive.JoinExample` | modules/llm-litellm/files/etc/aipc/litellm/scheduler_hook.py:273-288 | a concrete manifest in which this happens |
| `SchedulerExclusive.ExclusiveStaysAloneIff` | modules/llm-litellm/files/etc/aipc/litellm/scheduler_hook.py:353-492 | every run from a pool that isolates its exclusive models keeps them isolated, exactly when the manifest has no exclusive model and allowed alias of another one with two slots, joint weight within the budget and not both large |
| `SchedulerCore.CalmRound` | modules/llm-litellm/files/etc/aipc/litellm/scheduler_hook.py:382-475 | for an exclusive target among idle peers a round evicts one of them, or loads once alone |
| `SchedulerCore.DecisionFacts` | modules/llm-litellm/files/etc/aipc/litellm/scheduler_hook.py:383-455 | what serving, loading and unloading each rest on; loading on the written-out room and absence of the target |
| `SchedulerCore.PostedSafely` | modules/llm-litellm/files/etc/aipc/litellm/scheduler_hook.py:418-418 | the pool after a load request is within the limits; for an exclusive target nothing else can be in it |
| `SchedulerCore.DrainEvict` | modules/llm-litellm/files/etc/aipc/litellm/scheduler_hook.py:453-468 | an eviction moves exactly one model from the pool to the list of victims |
| `SchedulerCore.Scheduler.AwaitGone` | modules/llm-litellm/files/etc/aipc/litellm/scheduler_hook.py:456-468 | the bounded wait for a victim: afterwards time has passed or it is gone; if it is gone and nobody interferes, one look is enough; no look starts later than 30 seconds or the load timeout, and undisturbed it waits that long for a victim that stays |
| `SchedulerCore.Scheduler.EvictAndWait` | modules/llm-litellm/files/etc/aipc/litellm/scheduler_hook.py:454-468 | posts one unload and waits: afterwards time has passed or the victim is gone; undisturbed, exactly the victim is gone after two awaits |
| `SchedulerCore.Scheduler.PollReady` | modules/llm-litellm/files/etc/aipc/litellm/scheduler_hook.py:419-436 | polls until the target is ready or the load deadline passes, and terminates; no later look starts after the deadlines, and undisturbed it gives up only then |
| `SchedulerCore.Scheduler.LoadAndWait` | modules/llm-litellm/files/etc/aipc/litellm/scheduler_hook.py:408-437 | posts exactly one load for a target that fits; true only if the target is ready; pool limits kept |
| `SchedulerCore.Scheduler.Starved` | modules/llm-litellm/files/etc/aipc/litellm/scheduler_hook.py:469-480 | at most one successful reclaim of ComfyUI memory, then time passes |
| `SchedulerCore.Scheduler.Round` | modules/llm-litellm/files/etc/aipc/litellm/scheduler_hook.py:382-488 | one round of the hold loop: it either ends the call or lets time pass or shrinks the pool, with the deadline not yet passed |
| `SchedulerCore.Scheduler.AdmitLocked` | modules/llm-litellm/files/etc/aipc/litellm/scheduler_hook.py:379-492 | admission under the lock terminates, given that a failed health request takes time (without it an unobeyed unload followed by instant health failures would loop at one clock value); it books exactly the admitted calls; an exclusive target among idle peers that nobody disturbs is admitted or times out, admitted only after unloading each other model exactly once and loading the target exactly once, alone in the pool, and admitted for certain when memory suffices and three awaits per model and three for the load fit the hold time |
| `SchedulerCore.Scheduler.Admit` | modules/llm-litellm/files/etc/aipc/litellm/scheduler_hook.py:353-492 | the whole call: refused exactly when off the allowlist, untouched state then; served only when ready (exclusive: alone); booked exactly when admitted under the lock; the takeover guarantees of the locked part, with its awaits counted after the first look at health |
| `PartialStt.AlwaysFresh` | modules/voice-wake/files/usr/lib/aipc-voice/aipc_voice_capture.py:296-362 | every interleaving of requests, resets and workers: what belongs to the current generation was requested since the last reset |
| `PartialStt.TextIsFresh` | modules/voice-wake/files/usr/lib/aipc-voice/aipc_voice_capture.py:296-362 | the text is empty or was transcribed from audio requested since the last reset, and so is pending audio |
| `PartialStt.AudioIsRequested` | modules/voice-wake/files/usr/lib/aipc-voice/aipc_voice_capture.py:307-361 | whatever is pending, being transcribed or was published is the audio of the accepted request with its serial number |
| `PartialStt.TextIsHeard` | modules/voice-wake/files/usr/lib/aipc-voice/aipc_voice_capture.py:335-362 | the text is, stripped, what the last worker of the current generation that heard anything heard from the audio it held; empty exactly when there was none since the last reset |
| `PartialStt.LastHeardIsLast` | modules/voice-wake/files/usr/lib/aipc-voice/aipc_voice_capture.py:335-362 | that step is the last one at which something was heard, with no reset after it |
| `PartialStt.StaleLeavesNoText` | modules/voice-wake/files/usr/lib/aipc-voice/aipc_voice_capture.py:335-339 | a worker of an older generation leaves text and history alone, drops the pending audio and declares the worker idle |
| `PartialStt.WorkerGoesOn` | modules/voice-wake/files/usr/lib/aipc-voice/aipc_voice_capture.py:340-361 | a current worker goes on with exactly the pending audio, or leaves when there is none, without disturbing other workers |
| `PartialStt.GenerationCountsResets` | modules/voice-wake/files/usr/lib/aipc-voice/aipc_voice_capture.py:296-301 | the generation is the number of resets |
| `PartialStt.AlwaysOrderly` | modules/voice-wake/files/usr/lib/aipc-voice/aipc_voice_capture.py:307-362 | with resets only while no worker is in flight: one worker, busy exactly then, newest request always somewhere |
| `PartialStt.NothingNewestLost` | modules/voice-wake/files/usr/lib/aipc-voice/aipc_voice_capture.py:307-362 | with such resets: texts appear in request order, and an idle worker has transcribed the newest request since the last reset |
| `PartialStt.RacingResetDoublesWorkers` | modules/voice-wake/files/usr/lib/aipc-voice/aipc_voice_capture.py:296-316 | reset and request keep a single worker if and only if no worker was in flight |
| `PartialStt.RacingResetLosesNewest` | modules/voice-wake/files/usr/lib/aipc-voice/aipc_voice_capture.py:335-339 | after a reset, two requests and the oldest worker finishing, the newest request is nowhere - neither pending, nor being transcribed, nor done - if and only if a worker was in flight at the reset |
| `PartialStt.PartialSttWorker.Reset` | modules/voice-wake/files/usr/lib/aipc-voice/aipc_voice_capture.py:296-301 | empties the text, drops the pending audio, and is idle in a new generation |
| `PartialStt.PartialSttWorker.GetText` | modules/voice-wake/files/usr/lib/aipc-voice/aipc_voice_capture.py:303-305 | returns the published text |
| `PartialStt.PartialSttWorker.Request` | modules/voice-wake/files/usr/lib/aipc-voice/aipc_voice_capture.py:307-316 | ignores short snapshots, starts a worker exactly when idle, else replaces the pending audio |
| `PartialStt.PartialSttWorker.Publish` | modules/voice-wake/files/usr/lib/aipc-voice/aipc_voice_capture.py:335-361 | the publishing section: in the current generation a non-blank answer leaves the text equal to its stripped form, a blank or stale one leaves it alone; goes on with exactly the pending audio, or exits |
| `SentenceChunks.LastEndIsLast` | modules/voice-pipecat/files/usr/lib/aipc-voice/aipc_voice_stream.py:66-75 | the boundary found is one, and no later position of the window is |
| `SentenceChunks.CutPreference` | modules/voice-pipecat/files/usr/lib/aipc-voice/aipc_voice_stream.py:66-82 | in terms of characters: the last sentence end late enough in the window, else the last pause, else the hard cut, else (only when flushing a buffer that is not blank) everything, else none |
| `SentenceChunks.ScanBoundaries` | modules/voice-pipecat/files/usr/lib/aipc-voice/aipc_voice_stream.py:69-75 | the scan over regex matches finds the last boundary that ends late enough |
| `SentenceChunks.ChooseCut` | modules/voice-pipecat/files/usr/lib/aipc-voice/aipc_voice_stream.py:66-82 | the nested tests choose the specified cut |
| `SentenceChunks.FeedSentenceChunks` | modules/voice-pipecat/files/usr/lib/aipc-voice/aipc_voice_stream.py:46-92 | the loop terminates with the chunks and remainder of the recursive specification; after a flush the remainder is blank, so the last flushing branch is never taken |
| `SentenceChunks.FeedWeaves` | modules/voice-pipecat/files/usr/lib/aipc-voice/aipc_voice_stream.py:46-92 | one call drops nothing but whitespace around chunks: buffer = chunks in order with blanks between, then the remainder |
| `SentenceChunks.FeedBounds` | modules/voice-pipecat/files/usr/lib/aipc-voice/aipc_voice_stream.py:46-92 | every chunk is non-blank and at most max(min_chars, max_chars) long; a remainder carried on is shorter than that |
| `SentenceChunks.FeedIsEager` | modules/voice-pipecat/files/usr/lib/aipc-voice/aipc_voice_stream.py:46-92 | chunks are stripped, and nothing is held back: a remainder is shorter than min_chars, or shorter than max_chars without a sentence end or pause late enough |
| `SentenceChunks.FlushLeavesBlank` | modules/voice-pipecat/files/usr/lib/aipc-voice/aipc_voice_stream.py:76-91 | flushing leaves only whitespace |
| `SentenceChunks.WovenCompose` | modules/voice-pipecat/files/usr/bin/aipc-voice-stream:242-260 | carrying the remainder into the next token keeps the weaving |
| `SentenceChunks.TokensWeave` | modules/voice-pipecat/files/usr/bin/aipc-voice-stream:242-260 | the token loop weaves any carried text and all tokens into its chunks |
| `SentenceChunks.ReplyIsSpokenExactly` | modules/voice-pipecat/files/usr/bin/aipc-voice-stream:242-260 | for every splitting of every reply into tokens no non-whitespace character is lost, duplicated or reordered |
| `SentenceChunks.ReplyChunksBounded` | modules/voice-pipecat/files/usr/bin/aipc-voice-stream:242-260 | no chunk of the whole reply is blank or too long |
| `TtsQueue.AlwaysInv` | modules/voice-pipecat/files/usr/lib/aipc-voice/aipc_voice_stream.py:133-235 | the invariant of producers, cancellers and worker over every interleaving |
| `TtsQueue.SpokenInOrder` | modules/voice-pipecat/files/usr/lib/aipc-voice/aipc_voice_stream.py:202-235 | spoken texts are a prefix of the enqueued texts in order; played + errors = completed calls; at most one speak begins after a cancel |
| `TtsQueue.ClosedSpeaksAll` | modules/voice-pipecat/files/usr/lib/aipc-voice/aipc_voice_stream.py:171-172 | closed and never cancelled, a finished worker has spoken exactly the texts put before the first close |
| `TtsQueue.CancelSilences` | modules/voice-pipecat/files/usr/lib/aipc-voice/aipc_voice_stream.py:174-182 | from a cancel on, at most one more speak begins, however the run goes on |
| `TtsQueue.CancelledIff` | modules/voice-pipecat/files/usr/lib/aipc-voice/aipc_voice_stream.py:174-182 | the queue is cancelled exactly when some cancel happened |
| `TtsQueue.CancelDrains` | modules/voice-pipecat/files/usr/lib/aipc-voice/aipc_voice_stream.py:174-182 | a cancel empties the queue item by item and then puts one sentinel |
| `TtsQueue.LeavesExactlyWhen` | modules/voice-pipecat/files/usr/lib/aipc-voice/aipc_voice_stream.py:212-235 | the worker leaves its loop exactly when it takes a sentinel, or finds the flag set at one of its three tests |
| `TtsQueue.CancelledWorkerEnds` | modules/voice-pipecat/files/usr/lib/aipc-voice/aipc_voice_stream.py:202-235 | a cancelled worker left alone ends within three of its own steps, whatever it was doing, even blocked on an empty queue |
| `TtsQueue.EnqueueAppends` | modules/voice-pipecat/files/usr/lib/aipc-voice/aipc_voice_stream.py:164-169 | an undisturbed enqueue puts the stripped text at the end exactly when the queue is not cancelled and the text not blank |
| `TtsQueue.SpeaksToTheEnd` | modules/voice-pipecat/files/usr/lib/aipc-voice/aipc_voice_stream.py:202-235 | from any uncancelled state an undisturbed worker speaks every text queued before a sentinel, in order, and finishes |
| `TtsQueue.TtsChunkQueue.EnqueueTest` | modules/voice-pipecat/files/usr/lib/aipc-voice/aipc_voice_stream.py:164-168 | the first half of enqueue: cancelled queues and blank texts are refused |
| `TtsQueue.TtsChunkQueue.EnqueuePut` | modules/voice-pipecat/files/usr/lib/aipc-voice/aipc_voice_stream.py:169-169 | the second half: the stripped text goes to the end |
| `TtsQueue.TtsChunkQueue.Cancel` | modules/voice-pipecat/files/usr/lib/aipc-voice/aipc_voice_stream.py:174-182 | undisturbed, cancelling leaves exactly one sentinel in the queue and begins no speech |
| `TtsQueue.TtsChunkQueue.WorkerGet` | modules/voice-pipecat/files/usr/lib/aipc-voice/aipc_voice_stream.py:213-218 | a get takes the head, or times out on an empty queue |
| `TtsQueue.TtsChunkQueue.WorkerTest` | modules/voice-pipecat/files/usr/lib/aipc-voice/aipc_voice_stream.py:212-235 | each of the three cancel tests ends the worker exactly when the flag is set |
| `TtsQueue.TtsChunkQueue.Count` | modules/voice-pipecat/files/usr/lib/aipc-voice/aipc_voice_stream.py:226-233 | each completed speak is counted once, as played or as an error |
| `Fading.EaseEnds` | tools/aipc_lib/voice_audio.py:387-392 | the curve starts at 0 and ends at 1 |
| `Fading.EaseSymmetric` | tools/aipc_lib/voice_audio.py:387-392 | e(t) + e(1 - t) = 1 on the unit interval |
| `Fading.EaseMonotone` | tools/aipc_lib/voice_audio.py:387-392 | the curve never falls and stays in [0, 1] for every argument |
| `Fading.EaseIsCubic` | tools/aipc_lib/voice_audio.py:387-392 | 4 t^3 in the first half and flat outside the unit interval; with the symmetry this is the whole curve |
| `Fading.FadeIsNearest` | tools/aipc_lib/voice_audio.py:415-423 | each volume of a fade is a nearest integer to the eased point between start and end |
| `Fading.FadeIsMonotone` | tools/aipc_lib/voice_audio.py:415-423 | for every start, end and step count the rounded volumes move one way, stay between the ends and finish at the end |
| `Fading.TrailIsMonotone` | tools/aipc_lib/voice_audio.py:415-431 | the same of a whole fade as a list of writes |
| `Ducking.WrittenIsMonotone` | tools/aipc_lib/voice_audio.py:404-431 | everything one fade writes to a stream, final snap included, is monotone, in range and ends at the target |
| `Ducking.WrittenCount` | tools/aipc_lib/voice_audio.py:404-431 | how many volumes a fade writes |
| `Ducking.FadeStartsInside` | tools/aipc_lib/voice_audio.py:400-403 | because a silent stream is read as 100, a fade stays between the actual volume and its target exactly when the stream was not silent or goes to at least 100 |
| `Ducking.DuckKeepsInv` | tools/aipc_lib/voice_audio.py:434-476 | ducking, first or repeated, puts every remembered stream at its level and remembers every other application's stream |
| `Ducking.StopKeepsInv` | tools/aipc_lib/voice_audio.py:479-497 | ending ducking puts every stream back and forgets |
| `Ducking.AlwaysInv` | tools/aipc_lib/voice_audio.py:783-795 | the invariant over every sequence of voice states, appearing and vanishing streams |
| `Ducking.DuckedToLevel` | tools/aipc_lib/voice_audio.py:434-476 | right after any ducking state every other stream is at max(floor, int(orig * factor)) when that is below its original, else at its original; speech output is untouched |
| `Ducking.RestoredToOriginal` | tools/aipc_lib/voice_audio.py:479-497 | right after any state that ends ducking every stream is at its original volume |
| `Ducking.OtherwiseUntouched` | tools/aipc_lib/voice_audio.py:783-795 | every other voice state touches nothing |
| `Ducking.DisabledTouchesNothing` | tools/aipc_lib/voice_audio.py:434-440 | with ducking disabled no stream is ever moved and nothing is remembered |
| `Ducking.NeverElsewhere` | tools/aipc_lib/voice_audio.py:783-795 | at every moment a stream is at its original or at its level, speech output always at its original |
| `Ducking.VoiceAudio.SetInputVolume` | tools/aipc_lib/voice_audio.py:382-384 | writes one stream, clamped to 0..150, and nothing else |
| `Ducking.VoiceAudio.FadeInputs` | tools/aipc_lib/voice_audio.py:395-431 | the double loop: final volumes, and per stream exactly the specified list of writes |
| `Ducking.VoiceAudio.Gather` | tools/aipc_lib/voice_audio.py:443-464 | the loop of duck_start over the streams: originals win once remembered; only lower targets are faded |
| `Ducking.VoiceAudio.DuckStartNow` | tools/aipc_lib/voice_audio.py:434-476 | globals and streams after duck_start, and every write it made; re-entry jumps instead of fading |
| `Ducking.VoiceAudio.DuckStopNow` | tools/aipc_lib/voice_audio.py:479-497 | globals and streams after duck_stop, and every write it made |
| `Ducking.VoiceAudio.OnVoice` | tools/aipc_lib/voice_audio.py:783-795 | dispatch on the voice state |
| `ConfigPaths.JoinSplit` | tools/aipc_lib/panel_mirror.py:334-337 | splitting a suffix on the separator and joining it again gives it back, for every string |
| `ConfigPaths.SplitJoin` | tools/aipc_lib/panel_mirror.py:334-337 | splitting undoes joining for names that hold no separator |
| `ConfigPaths.PathRejoins` | tools/aipc_lib/panel_mirror.py:334-337 | the group names written by apply_panel_spec name exactly the captured header |
| `ConfigPaths.NoConfusion` | tools/aipc_lib/panel_mirror.py:121-127 | no header belongs to two widgets, not even when one id is a prefix of the other |
| `ConfigPaths.EntryReadsBack` | tools/aipc_lib/panel_mirror.py:97-106 | a written entry is read back under its own key exactly when the key has no equals sign and the line does not look like a header |
| `ConfigPaths.FileReadsBack` | tools/aipc_lib/panel_mirror.py:86-107 | for every file of such entries the parser returns what was written, repeated headers merged |
| `ConfigPaths.JunkIsSkipped` | tools/aipc_lib/panel_mirror.py:92-106 | lines that are neither headers nor entries may stand anywhere and change nothing |
| `ConfigPaths.PreambleIsSkipped` | tools/aipc_lib/panel_mirror.py:92-106 | whatever stands before the first header is ignored |
| `ConfigPaths.SectionsCanBeWritten` | tools/aipc_lib/panel_mirror.py:86-107 | every map of sections with plain entries is what some file says |
| `ConfigPaths.ParseIniSections` | tools/aipc_lib/panel_mirror.py:86-107 | the parsing loop computes the specified reader over the lines |
| `PanelMirror.CaptureAppletConfig` | tools/aipc_lib/panel_mirror.py:110-130 | the capture loop returns exactly the non-empty groups under the widget, nested applets excluded |
| `PanelMirror.CapturesAreCapturable` | tools/aipc_lib/panel_mirror.py:110-130 | a capture holds neither empty groups nor nested applets |
| `PanelMirror.CaptureByPath` | tools/aipc_lib/panel_mirror.py:110-130 | in terms of group paths: a capture holds exactly the non-empty groups below the widget's own, with their contents, but none below a further Applets |
| `PanelMirror.PutShows` | tools/aipc_lib/panel_mirror.py:331-338 | a config written under a widget is captured as written over whatever the widget had there |
| `PanelMirror.PutIsCaptured` | tools/aipc_lib/panel_mirror.py:331-338 | a written config is captured as written exactly when it overwrites every key the widget had |
| `PanelMirror.PutElsewhere` | tools/aipc_lib/panel_mirror.py:331-338 | writing one widget's config shows in no other widget |
| `PanelMirror.RefsInOrder` | tools/aipc_lib/panel_mirror.py:139-163 | a panel whose applets are all known is read in its on-screen order |
| `PanelMirror.RefsConcat` | tools/aipc_lib/panel_mirror.py:139-163 | the widgets read are those of the order that are known, one by one |
| `PanelMirror.RebuiltShows` | tools/aipc_lib/panel_mirror.py:319-338 | what a rebuilt panel shows: the spec's widgets in order, each config over what the new widget wrote itself |
| `PanelMirror.RebuiltIsCaptured` | tools/aipc_lib/panel_mirror.py:319-338 | capturing a panel just rebuilt from a capture with fresh ids gives that capture - same widgets, order, groups, keys, values, geometry - exactly when whatever the new widgets wrote themselves is overwritten |
| `PanelMirror.FileRoundTrip` | tools/aipc_lib/panel_mirror.py:86-130 | the same through the file: what stands after a rebuild can be written, and parsing any file that says it and capturing gives the spec back under the same condition |
| `PanelMirror.OthersAreKept` | tools/aipc_lib/panel_mirror.py:319-338 | rebuilding one screen changes no other screen's capture |
| `ConfigPaths.OfPanelIff` | tools/aipc_lib/panel_mirror.py:110-130 | a group belongs to a panel exactly when its path is the panel's own or continues it |
| `PanelMirror.RebuildReplaces` | tools/aipc_lib/panel_mirror.py:319-338 | a rebuild drops the old panel's groups, keeps everybody else's, and puts a panel with the new id, order and geometry in its place |
| `PanelMirror.ApplyAllCaptures` | tools/aipc_lib/panel_mirror.py:394-397 | rebuilding a set of screens gives each of them the spec over what its new widgets wrote, and leaves the others as they were |
| `PanelMirror.MirrorConverges` | tools/aipc_lib/panel_mirror.py:341-401 | after a run the record says that every screen has the canonical spec and screens that had it are not rebuilt; a screen shows it, and the record is what is on the screens, exactly when what new widgets wrote themselves is overwritten; with nobody to follow nothing is touched |
| `PanelMirror.FirstRunFollowsPrimary` | tools/aipc_lib/panel_mirror.py:370-401 | without a record every screen is left showing the primary screen's panel, or the lowest screen's if the primary has none, over what its new widgets wrote, and the record is that panel everywhere |
| `PanelMirror.QuietRunRecords` | tools/aipc_lib/panel_mirror.py:381-385 | with a record that nobody differs from nothing is touched, and new screens are recorded |
| `PanelMirror.MirrorSettles` | tools/aipc_lib/panel_mirror.py:353-356 | a following run without a user edit rebuilds nothing, and changes nothing at all, exactly when what new widgets wrote themselves was overwritten; otherwise it takes a screen it rebuilt for an edited one and rebuilds the panel everybody followed; fewer than two screens change nothing |
| `PanelMirror.ExtraKeyRetriggers` | tools/aipc_lib/panel_mirror.py:353-356 | a concrete desktop and new widget with which the mirror sets itself off again |
| `PanelMirror.SecondRunSettles` | tools/aipc_lib/panel_mirror.py:341-401 | if widgets write the same groups and keys whenever they are created, a second run in a row leaves nothing for a third |
| `PanelMirror.AgreeIff` | tools/aipc_lib/panel_mirror.py:370-398 | a run ends with all screens alike exactly when what new widgets wrote themselves is overwritten and it was a first run, or a recorded screen was edited, or they were alike |
| `PanelMirror.EditWins` | tools/aipc_lib/panel_mirror.py:370-401 | with a record every screen is left showing the panel of the lowest screen that differs from it - with a single edit, the edited one - over what its new widgets wrote, and the record is that panel everywhere |
| `PanelMirror.Plasma.ApplyPanelSpec` | tools/aipc_lib/panel_mirror.py:319-338 | the nested loops over widgets, groups and keys reach the specified desktop |
| `PanelMirror.Plasma.MirrorPanels` | tools/aipc_lib/panel_mirror.py:341-401 | one trigger: panels, config and record as specified |
| `PowerGuard.StepIsNext` | modules/system-hardware-power-guard/files/usr/lib/aipc-power-guard/power_guard.py:215-286 | the single writes of a poll add up to the one-piece transition |
| `PowerGuard.AlwaysConsistent` | modules/system-hardware-power-guard/files/usr/lib/aipc-power-guard/power_guard.py:215-286 | in every reachable state each ceiling is int(max * factor), and INIT and DISCHARGING have factor 1 |
| `PowerGuard.ActionsAreSafe` | modules/system-hardware-power-guard/files/usr/lib/aipc-power-guard/power_guard.py:215-286 | between any two writes of a poll, whatever the stop handler skips is unclamped |
| `PowerGuard.StopNeverLeavesClamp` | modules/system-hardware-power-guard/files/usr/lib/aipc-power-guard/power_guard.py:288-308 | a stop signal at any moment, even between two writes of a poll, leaves every CPU at its original ceiling |
| `PowerGuard.TrackQuiet` | modules/system-hardware-power-guard/files/usr/lib/aipc-power-guard/power_guard.py:249-284 | after a drain with AC online the state machine tracks a quiet stretch in RECONNECTING |
| `PowerGuard.ReleaseNeedsObservation` | modules/system-hardware-power-guard/files/usr/lib/aipc-power-guard/power_guard.py:249-284 | after a drain with AC online the factor exceeds the reconnect clamp only after an observation period in which every processed poll was quiet |
| `PowerGuard.ExpandOnce` | modules/system-hardware-power-guard/files/usr/lib/aipc-power-guard/power_guard.py:274-281 | one favourable poll adds one step, capped at 1 |
| `PowerGuard.ExpansionReachesFull` | modules/system-hardware-power-guard/files/usr/lib/aipc-power-guard/power_guard.py:274-281 | n favourable polls reach min(1, factor + n * step), so 1 exactly once n * step covers the rest |
| `PowerReadings.PollMoves` | modules/system-hardware-power-guard/files/usr/lib/aipc-power-guard/power_guard.py:215-286 | one processed poll from any state, on readings alone: AC gone, drain, or each of the recovery branches, with the ceilings each leaves |
| `PowerReadings.StopReleases` | modules/system-hardware-power-guard/files/usr/lib/aipc-power-guard/power_guard.py:295-301 | the stop handler restores every ceiling in the four clamp states and touches nothing else |
| `PowerReadings.FrozenLeavesNoTrace` | modules/system-hardware-power-guard/files/usr/lib/aipc-power-guard/power_guard.py:215-219 | polls at which the kill switch is on leave no trace in a run |
| `PowerReadings.RunMoves` | modules/system-hardware-power-guard/files/usr/lib/aipc-power-guard/power_guard.py:215-286 | in every run each poll moves the guard by its own readings and those of the processed polls before it, without the guard's memory: in EXPANDING a lower power reading than the last moves to CAUTIONARY, from CAUTIONARY a higher one moves back |
| `PowerReadings.EmergencyExactlyWhen` | modules/system-hardware-power-guard/files/usr/lib/aipc-power-guard/power_guard.py:226-255 | with AC online a processed poll of any run ends in EMERGENCY, every ceiling int(max * emergency), exactly when the battery says it discharges, its power is below the threshold, or this and the previous processed poll each saw a lower energy than the one before |
| `PowerGuard.Guard.ApplyFreq` | modules/system-hardware-power-guard/files/usr/lib/aipc-power-guard/power_guard.py:137-146 | the loop over CPUs writes int(max * factor) to each, in order |
| `PowerGuard.Guard.Sense` | modules/system-hardware-power-guard/files/usr/lib/aipc-power-guard/power_guard.py:220-237 | the drain test, the energy-drop streak and the power delta |
| `PowerGuard.Guard.Offline` | modules/system-hardware-power-guard/files/usr/lib/aipc-power-guard/power_guard.py:240-247 | AC gone: release what was clamped, then DISCHARGING |
| `PowerGuard.Guard.Emergent` | modules/system-hardware-power-guard/files/usr/lib/aipc-power-guard/power_guard.py:249-255 | drain: EMERGENCY and the emergency clamp |
| `PowerGuard.Guard.Stable` | modules/system-hardware-power-guard/files/usr/lib/aipc-power-guard/power_guard.py:261-284 | AC without drain: the four recovery branches |
| `PowerGuard.Guard.PollOnce` | modules/system-hardware-power-guard/files/usr/lib/aipc-power-guard/power_guard.py:215-286 | one poll: the specified state and the specified list of writes |
| `PowerGuard.Guard.OnStop` | modules/system-hardware-power-guard/files/usr/lib/aipc-power-guard/power_guard.py:295-301 | the signal handler |
| `OomGuard.VictimIsRight` | modules/system-memory-oom-guard/files/usr/lib/aipc-oom-guard/oom_guard.py:104-142 | the victim is unprotected, in the top_n, an app whenever there is one, of least priority in its class; none exactly when all are protected |
| `OomTargets.ShieldedIsProtected` | modules/system-memory-oom-guard/files/usr/lib/aipc-oom-guard/oom_guard.py:88-99 | protected is exactly the guard's own unit, a cgroup whose name ends in user@, digits, .service, and whatever contains a protected pattern |
| `OomTargets.SessionIff` | modules/system-memory-oom-guard/files/usr/lib/aipc-oom-guard/oom_guard.py:92-96 | the session test by dropping digits from the last path component agrees with that description for every name |
| `OomTargets.ClassifyIsFirst` | modules/system-memory-oom-guard/files/usr/lib/aipc-oom-guard/oom_guard.py:79-84 | a cgroup belongs to the first backend configured with it, to none exactly when there is no such backend |
| `OomTargets.TopSize` | modules/system-memory-oom-guard/files/usr/lib/aipc-oom-guard/oom_guard.py:75-76 | the candidates are min(top_n, all) of the sampled cgroups |
| `OomTargets.VictimMeans` | modules/system-memory-oom-guard/files/usr/lib/aipc-oom-guard/oom_guard.py:104-142 | the victim in terms of shields, owners and idle times |
| `OomTargets.BiasNeverMatters` | modules/system-memory-oom-guard/files/usr/lib/aipc-oom-guard/oom_guard.py:96-119 | priorities are idle times, raised for models; since apps sort before models anyway, no value of the model bias changes any victim |
| `OomTargets.ReliefMeans` | modules/system-memory-oom-guard/files/usr/lib/aipc-oom-guard/oom_guard.py:104-135 | what relief does to it: nothing dies at SOFT; at HARD outside a dry run a model's backend is restarted, an app killed |
| `OomTargets.EntersExactlyWhen` | modules/system-memory-oom-guard/files/usr/lib/aipc-oom-guard/oom_guard.py:294-313 | which poll enters which state, and that anything else changes nothing |
| `OomGuard.VictimIsLeastIdle` | modules/system-memory-oom-guard/files/usr/lib/aipc-oom-guard/oom_guard.py:96-120 | an app that is hit is a least idle one of those that may be; it is a most idle one exactly when they are all equally idle |
| `OomGuard.TopIsLargest` | modules/system-memory-oom-guard/files/usr/lib/aipc-oom-guard/oom_guard.py:75-76 | whatever is left out of the top_n is no larger than anything in it |
| `OomGuard.ForceIsJustified` | modules/system-memory-oom-guard/files/usr/lib/aipc-oom-guard/oom_guard.py:294-313 | a kill or restart happens only below the hard bar, t_hard after the last transition, outside dry-run, on the right target; models are restarted, apps killed |
| `OomGuard.AlwaysLogOk` | modules/system-memory-oom-guard/files/usr/lib/aipc-oom-guard/oom_guard.py:294-313 | the log of transitions is in time order and every forceful act t_hard after the transition before it |
| `OomGuard.ForceIsSpaced` | modules/system-memory-oom-guard/files/usr/lib/aipc-oom-guard/oom_guard.py:294-313 | over a whole run forceful acts are at least t_hard apart |
| `OomGuard.PressureGoesHard` | modules/system-memory-oom-guard/files/usr/lib/aipc-oom-guard/oom_guard.py:294-305 | with ordered bars and timers sustained pressure goes HARD at the first active poll with t_hard elapsed |
| `OomGuard.SoftRestartsClock` | modules/system-memory-oom-guard/files/usr/lib/aipc-oom-guard/oom_guard.py:294-313 | with t_hard above t_soft: a run from the guard's start in which a SOFT transition makes it miss its deadline |
| `OomGuard.NormalRestartsClock` | modules/system-memory-oom-guard/files/usr/lib/aipc-oom-guard/oom_guard.py:294-313 | with the soft bar below the hard one: a run from the guard's start that went HARD, fell back to NORMAL below the hard bar and so misses its deadline |
| `OomGuard.PressureCanStarve` | modules/system-memory-oom-guard/files/usr/lib/aipc-oom-guard/oom_guard.py:294-313 | whenever bars and timers are unordered some run from the guard's start is under pressure and not HARD in time |
| `OomGuard.PressureIff` | modules/system-memory-oom-guard/files/usr/lib/aipc-oom-guard/oom_guard.py:294-313 | the promise holds of all runs from the guard's start exactly when bars and timers are ordered, or t_hard or the hard bar is not positive |
| `OomGuard.Guard.Act` | modules/system-memory-oom-guard/files/usr/lib/aipc-oom-guard/oom_guard.py:104-135 | choosing the victim by filtering and sorting in place |
| `OomGuard.Guard.TransitionTo` | modules/system-memory-oom-guard/files/usr/lib/aipc-oom-guard/oom_guard.py:307-313 | state and clock first, then relief |
| `OomGuard.Guard.PollOnce` | modules/system-memory-oom-guard/files/usr/lib/aipc-oom-guard/oom_guard.py:294-305 | one poll; any forceful act is justified |
| `JsonPoller.OneFetchOneTimer` | modules/system-aipc-portal/web/src/scripts/poll.js:21-83 | every interleaving: one fetch in flight at most, one timer pending at most; while alive a timer is pending or a timer callback is suspended |
| `JsonPoller.ChainContinues` | modules/system-aipc-portal/web/src/scripts/poll.js:52-59 | a suspended timer callback does re-arm: its request settles into a resuming one, and resuming leaves a fresh timer |
| `JsonPoller.StopIsFinal` | modules/system-aipc-portal/web/src/scripts/poll.js:74-78 | after stop no fetch starts and no timer is armed; at most the response under way is delivered |
| `JsonPoller.RefreshFetches` | modules/system-aipc-portal/web/src/scripts/poll.js:79-82 | a refresh fetches at once exactly when alive with nothing in flight, else it only forgets the ETag |
| `JsonPoller.FetchesExactlyWhen` | modules/system-aipc-portal/web/src/scripts/poll.js:21-28 | in every run a fetch starts exactly when a pending timer fires or the tab turns visible, both only while visible, or on a refresh, alive with nothing in flight; with the remembered ETag, but none on a refresh |
| `JsonPoller.ArmsExactlyWhen` | modules/system-aipc-portal/web/src/scripts/poll.js:52-67 | a timer is armed exactly when alive and a timer callback has finished its tick or the tab turns visible; it replaces the pending one |
| `JsonPoller.EndsExactlyWhen` | modules/system-aipc-portal/web/src/scripts/poll.js:29-44 | a request ends exactly by a 304, by its body once reading, or by a failure |
| `JsonPoller.CallbacksReturn` | modules/system-aipc-portal/web/src/scripts/poll.js:55-58 | how often timer callbacks return from their ticks and resume |
| `JsonPoller.EtagChanges` | modules/system-aipc-portal/web/src/scripts/poll.js:34-35 | the ETag is that of the last 200 answer that had one, forgotten on a refresh |
| `JsonPoller.DeliversExactlyWhen` | modules/system-aipc-portal/web/src/scripts/poll.js:36-37 | data is delivered exactly when the body of a 200 answer has been read |
| `JsonPoller.StartsWithFetch` | modules/system-aipc-portal/web/src/scripts/poll.js:69-71 | a poller starts with one forced fetch, even in a hidden tab, and one timer |
| `JsonPoller.AlwaysInv` | modules/system-aipc-portal/web/src/scripts/poll.js:21-83 | the single-flight, single-timer invariant over every run |
| `JsonPoller.Poller.constructor` | modules/system-aipc-portal/web/src/scripts/poll.js:69-71 | creation: listen, forced tick, schedule |
| `JsonPoller.Poller.TickStart` | modules/system-aipc-portal/web/src/scripts/poll.js:21-28 | a tick up to its first await, and the ETag it sends |
| `JsonPoller.Poller.ScheduleNext` | modules/system-aipc-portal/web/src/scripts/poll.js:52-59 | clear the remembered timer, arm a new one |
| `JsonPoller.Poller.TimerCallbackStarts` | modules/system-aipc-portal/web/src/scripts/poll.js:55-56 | the timer callback up to its await |
| `JsonPoller.Poller.TimerCallbackResumes` | modules/system-aipc-portal/web/src/scripts/poll.js:57-57 | the timer callback after its tick |
| `JsonPoller.Poller.AnswerArrives` | modules/system-aipc-portal/web/src/scripts/poll.js:34-36 | a 200 answer: remember the ETag, read the body |
| `JsonPoller.Poller.TickEnds` | modules/system-aipc-portal/web/src/scripts/poll.js:37-42 | a tick ends and clears the in-flight flag, whatever the answer |
| `JsonPoller.Poller.OnVisibility` | modules/system-aipc-portal/web/src/scripts/poll.js:61-67 | tick and reschedule when the tab becomes visible |
| `JsonPoller.Poller.RefreshNow` | modules/system-aipc-portal/web/src/scripts/poll.js:79-82 | forget the ETag, force a tick |
| `JsonPoller.Poller.StopPolling` | modules/system-aipc-portal/web/src/scripts/poll.js:74-78 | stop, clear the timer, stop listening |
| `Journal.CutLandsOnBoundary` | tools/aipc_lib/peer_mcp_events.py:30-42 | cutting a file of lines anywhere and skipping to the next newline lands on a line boundary, the first one inside the part kept |
| `Journal.TrimKeepsLines` | tools/aipc_lib/peer_mcp_events.py:30-42 | trimming keeps a suffix of the lines within the limit; it drops lines exactly when the file is over the limit, and then exactly those that do not fit into less than half of it |
| `Journal.JournalIsRecentLines` | tools/aipc_lib/peer_mcp_events.py:45-67 | after any run of appends the journal is a suffix of all lines ever written, at most the limit plus the last line; a line is missing only if it and those after it fill half the limit |
| `Journal.SmallJournalKeepsAll` | tools/aipc_lib/peer_mcp_events.py:45-67 | nothing is dropped while everything fits |
| `Journal.JournalFile.TrimFile` | tools/aipc_lib/peer_mcp_events.py:30-42 | the scan for the first newline of the kept half |
| `Journal.JournalFile.Append` | tools/aipc_lib/peer_mcp_events.py:45-67 | trim, then append; size bound |
| `Journal.EachRowIsOwn` | tools/aipc_lib/peer_mcp_events.py:70-93 | each row is computed from its agent's own events alone |
| `Journal.FoldShape` | tools/aipc_lib/peer_mcp_events.py:70-93 | one row per agent at most, newest first, exactly min(limit, agents) rows |
| `Journal.CutKeepsNewest` | tools/aipc_lib/peer_mcp_events.py:92-93 | an agent cut off by the limit is no newer than any row kept |
| `Journal.RowsAreIndependent` | tools/aipc_lib/peer_mcp_events.py:70-93 | other agents' events do not change a row |
| `JournalRows.OfConcat` | tools/aipc_lib/peer_mcp_events.py:79-89 | an agent's events are its own ones, in order |
| `JournalRows.AgentsInOrder` | tools/aipc_lib/peer_mcp_events.py:79-89 | agents come in the order of their first events |
| `JournalRows.RowGrows` | tools/aipc_lib/peer_mcp_events.py:84-89 | what one more event does to its agent's row: nothing if stamped earlier, else its fields and timestamp, where it has them, win |
| `JournalRows.LatestFieldWins` | tools/aipc_lib/peer_mcp_events.py:84-89 | for events stamped in order a row holds, for every field, the value of the last event that has it |
| `Journal.RowTimestamp` | tools/aipc_lib/peer_mcp_events.py:84-89 | which timestamp a row carries, for every list of events |
| `Journal.RowIsNewest` | tools/aipc_lib/peer_mcp_events.py:84-89 | a row carries its agent's greatest timestamp except exactly when the first event is stamped, all stamps are negative and one is missing |
| `Journal.NonNegativeStampsAreNewest` | tools/aipc_lib/peer_mcp_events.py:70-93 | with stamps that are not negative every row carries its agent's maximum |
| `Journal.Collect` | tools/aipc_lib/peer_mcp_events.py:73-89 | the reading loop fills the dict with each agent's row in order of first appearance |
| `Journal.FoldEvents` | tools/aipc_lib/peer_mcp_events.py:70-93 | the whole call computes the specified fold |
| `Sorting.StableSortSorts` | modules/system-memory-oom-guard/files/usr/lib/aipc-oom-guard/oom_guard.py:119-119 | the sort behind the victim, top_n and row orders permutes and orders |
| `Sorting.StableSortStable` | tools/aipc_lib/peer_mcp_events.py:92-93 | equal keys keep their order |

## Left out

- AdmitLocked: swap admission, which is off by default and leaves the loop without loading, and the degrade-open return are outcomes of the machine without further claims; a model that is not ready at the first look after its load is only promised a bounded wait.
- Scheduler: the clock is read once per stretch between two awaits; the source reads it again a few instructions later.
- ExpansionReachesFull: the clamp to exactly 1.0 is over the reals; float error in repeated additions is not modelled.
- PartialStt: the transcription itself and its temporary file; a failed one hears nothing.
- FeedSentenceChunks: max_chars below 1, with which a hard cut would not shorten the buffer.
- TtsChunkQueue: a second `start` after a cancel, which may find leftovers in the queue, and `join`.
- FadeInputs: the sleeps between steps, failing pactl calls and streams that vanish during a fade.
- VoiceAudio: user volume edits while ducked, reuse of stream indexes, the sink bookkeeping, other audio routing. Streams in a run start at 1 to 150 percent; the silent case is stated separately.
- MirrorPanels: edits during a run, several panels at one location of one screen, and geometry that Plasma does not read back as written; JSON is taken to be injective.
- ParseIniSections: splitting the text into lines, and KConfig's escaping of brackets in group names.
- ApplyPanelSpec: the QML side, where a widget may show a config only after a restart.
- PowerGuard: energy-performance hints, charge thresholds, dry run, failing writes and the persisted status file.
- OomGuard: digits in session names are ASCII digits; the contents of a SOFT relief, notifications, how a process is found and killed, unreadable memory information.
- JsonPoller: delays, callbacks that throw or call back into the poller, and the payload.
- Journal: JSON encoding, clipping of outputs, permissions and failing writes; two writers appending at once.
- Process details, HTTP, D-Bus, systemd, sysfs, PulseAudio and the network appear only as the state they change.
- Command line tools, provider adapters, onboarding, rendering, translations, cost totals and voice intents: input, output and table look-ups.

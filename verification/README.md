# Subtitling pipeline: model and proofs

A Dafny 4.11 model of a video subtitling service, and proofs of what its hard parts keep. A user uploads a video in
pieces; a worker extracts the audio, drops silence and vocalizations, has the rest transcribed and translated through a
queue of remote operations, projects the captions back onto the original clock, lays them out and writes them.

`dafny verify dfyconfig.toml` checks everything. Times are exact reals, the output clock is integer milliseconds,
Python's `round` is half-even, byte strings and frames are sequences.

| Part | Files | What is modelled |
|---|---|---|
| Subtitle layout | `Rounding`, `Sorting`, `Text`, `Wrap`, `Sweep`, `Layout`, `LayoutText`, `LayoutProofs`, `LayoutTheorems`, `LayoutShares`, `LayoutSuccess`, `TextMeanings`, `Decimal`, `Outputs`, `Consumers` | the sweep over overlapping captions on the millisecond clock, wrapping, the clamped split of an interval's time, SRT and SAMI output, the validators of worker and editor |
| Segment queue | `SegmentQueue`, `QueueProofs`, `QueueLoop`, `QueueTermination`, `QueueRuns`, `QueueRefinement`, `QueueOutcomes`, `Sentences`, `TranslationGroups`, `Translation`, `TranslationQueue`, `Placeholders`, `TranslationWhole` | the scheduler with retries, backoff, cooldown, stop-and-drain and its snapshot; the transcription validator; grouping, batching, alignment and merging of translations |
| Audio and timeline | `Intervals`, `Preprocess`, `Vad`, `AudioMeanings`, `Timeline`, `AudioCopy`, `Windows`, `PackedTimeline`, `RestoredOrder`, `Transcripts`, `Pipeline` | interval arithmetic, voice activity, frame copying, the map between the clocks, transcripts and their projection, and the way from copied audio to accepted captions |
| Locks and jobs | `LeaseLocks`, `JobHandlers`, `JobLifecycle`, `JobCollection` | the readers/writer protocol of lock files and leases with crashes; every handler of a job's record, step by step under its locks |
| Upload | `UploadServer`, `UploadClient`, `UploadRetries`, `UploadProtocol`, `UploadProgress`, `UploadPump`, `PumpMeanings` | the append with rollback, the client's loops, both together with lost replies and crashes, the browser's one-at-a-time queue |

Code that changes variables, fields or buffers in steps is modelled as methods and classes with loops, each proved
against a specification function or relation; the results are lemmas about those. Protocols are state machines whose
steps are the code between two points at which another process can act; a crash can come between any two steps, and
their results hold for every run. What a specification function is for is stated apart from it, in the program's own
numbers, in the files whose names end in `Meanings`, `Outcomes`, `Shares`, `Retries`, `Progress` and `Collection` and in
the lemmas whose names end in `Exactly`.

Where the code differs from what its documentation or its callers assume, the model follows the code:

- Laying out a laid-out track is not always the identity. `textwrap` leaves a blank at the end of a line when a long
  word follows with no room left, and the second layout removes it. It is the identity exactly when that does not
  happen (`LayoutTheorems.LayoutFixedPoint`); captions for which it is not: `LayoutSuccess.LayoutNotFinal`.
- The second validation in `write_draft` can reject a track the first one accepted, because ends are rounded up
  (exact condition: `Consumers.DraftStored`; a cue: `Consumers.RoundedPastLimit`).
- `resumeUpload` also returns normally when the upload is no longer open. As long as the job is neither cancelled nor
  expires, that means the client's own bytes are on the server exactly when no client has a file of the declared size
  that differs from another's (`UploadProtocol.ReturnMeansMyBytes`). If the job can be cancelled or expire, it means
  so only when there is nothing to upload (`UploadProtocol.ClosedReturnMeansNothing`). A client whose own completion
  was accepted is never misled (`UploadProtocol.MisledFoundClosed`).
- Taking placeholders out of a translation and sorting them back by start reorders captions unless a condition on the
  starts holds (`TranslationWhole.TranslateWhole`); restored captions need not meet it
  (`RestoredOrder.PlaceholdersReorder`).

## Model

| member | source | states |
|---|---|---|
| Sweep.CollectEvents | packages/shared/video_service/subtitles.py:54-60 | fills the event table with exactly the start and end changes of every cue, each at its own millisecond |
| Sweep.ApplyEvents | packages/shared/video_service/subtitles.py:69-73 | the mutated active set holds, after the changes of a point, exactly the cues shown from that point on |
| Sweep.Run | packages/shared/video_service/subtitles.py:54-74 | the whole sweep: its intervals are those of `SweepOf` |
| Sweep.SweepExact | packages/shared/video_service/subtitles.py:61-74 | intervals are sorted and disjoint, a millisecond is covered iff some cue is shown at it, and each interval lists exactly the cues active throughout it, in start order |
| Sweep.SweepUnique | packages/shared/video_service/subtitles.py:61-74 | no other list of maximal intervals has these properties: the sweep is determined by what is shown when |
| Sweep.DisjointSweep | packages/shared/video_service/subtitles.py:61-74 | cues that are already in order and disjoint are swept to themselves |
| Layout.Normalize | packages/shared/video_service/subtitles.py:44-52 | rejects exactly the lists with an invalid interval, and otherwise keeps the nonblank captions with their words joined by single blanks |
| Layout.BoundaryRoom | packages/shared/video_service/subtitles.py:85-92 | the clamped proportional boundaries of n blocks over at least n milliseconds start at the first, end at the last millisecond and always leave room for the blocks to come |
| Layout.BoundaryIncreasing | packages/shared/video_service/subtitles.py:85-92 | these boundaries are strictly increasing for every weighting |
| Layout.ShareTime | packages/shared/video_service/subtitles.py:80-92 | the loop over the blocks, with its running weight and cursor, produces exactly the boundaries that `LayoutProportional` describes |
| Layout.SegmentSubtitles | packages/shared/video_service/subtitles.py:40-93 | the whole function, loop by loop, computes `LayOut` or its error |
| LayoutProofs.TimedTiles | packages/shared/video_service/subtitles.py:80-92 | the blocks of one interval tile it: in order, disjoint, every millisecond shown |
| LayoutShares.LayoutProportional | packages/shared/video_service/subtitles.py:77-92 | in every layout each interval is split among its blocks in proportion to their characters: a boundary lies within half a millisecond of its exact share, ties going to the even one, unless that leaves less than a millisecond behind the boundary before it or for a later block; then it is that bound |
| LayoutShares.WeightOfText | packages/shared/video_service/subtitles.py:80 | the weight of a block is the number of characters of its lines |
| LayoutText.BlocksContract | packages/shared/video_service/subtitles.py:77-79 | each block has at most the allowed lines, each line is nonempty and within the width, and the blocks together are the wrapped lines in order |
| LayoutText.WrapAllSolid | packages/shared/video_service/subtitles.py:77-78 | wrapping loses, adds and reorders no character other than white space |
| Wrap.WrapContract | packages/shared/video_service/subtitles.py:77-78 | a wrapped line is nonempty, within the width and keeps its characters |
| Wrap.TidyLineAlone | packages/shared/video_service/subtitles.py:77-78 | a normalized line that fits is returned alone |
| Wrap.BlankKeptExample | packages/shared/video_service/subtitles.py:77-78 | a long word met with no room left leaves a blank at the end of the line before it: "abcd efghijk" at width 5 |
| TextMeanings.WrapExactly | packages/shared/video_service/subtitles.py:77-78 | wrapping is greedy: its lines are the only ones that are made one after the other, each with as many whole words as fit, and with as much as fits of a word too long for any line |
| TextMeanings.WordsExactly | packages/shared/video_service/subtitles.py:49 | the words of a text are the only whole runs without white space that spell it, with white space around them |
| TextMeanings.LinesExactly | packages/shared/video_service/subtitles.py:49 | the lines joined by line ends are the text, up to a line end behind the last one |
| TextMeanings.NormalExactly | packages/shared/video_service/subtitles.py:49 | normal text has a line for each line that is not white, in order, with single blanks between its words |
| TextMeanings.StripExactly | packages/shared/video_service/subtitles.py:26-28 | stripping takes the white space off both ends and nothing else |
| LayoutTheorems.LayoutPointwise | packages/shared/video_service/subtitles.py:40-93 | the result is pointwise exact: something is shown at t iff an input caption is active at t, and then a block of lines of exactly the active captions, with the speaker of a lone one |
| LayoutTheorems.ShownSpeaker | packages/shared/video_service/subtitles.py:66-68 | a caption shown alone has its own speaker, captions shown together have none |
| LayoutTheorems.ActiveCaptions | packages/shared/video_service/subtitles.py:44-74 | the captions active at t are exactly those not blank whose rounded times cover t, with normal text, in the stable order of their starts |
| LayoutTheorems.LayoutKeepsLines | packages/shared/video_service/subtitles.py:75-93 | all wrapped lines of all intervals appear, in order, and within the width |
| LayoutTheorems.Relayout | packages/shared/video_service/subtitles.py:40-93 | laying a result out again always succeeds, at the same times, with every line normalized |
| LayoutTheorems.LayoutFixedPoint | packages/shared/video_service/subtitles.py:40-93 | laying a result out again returns it unchanged iff no line met a long word with no room left |
| LayoutSuccess.LayoutSucceeds | packages/shared/video_service/subtitles.py:40-93 | a layout succeeds iff dimensions and times are valid, every spoken caption lasts on the millisecond clock and every interval has a millisecond for each of its blocks; it makes one caption for each of those blocks |
| LayoutSuccess.LayoutErrors | packages/shared/video_service/subtitles.py:42-84 | otherwise the error is, in this order: the dimensions, an invalid time, a caption whose ends go to the same millisecond, too little room |
| LayoutSuccess.LayoutNotFinal | packages/shared/video_service/subtitles.py:75-93 | for every width: a word one shorter than the line, a blank and a word one longer, shown for ten seconds, are laid out, and laying the layout out gives something else |
| LayoutSuccess.LayoutNotFinalAt24 | packages/shared/video_service/review.py:53-55 | so at width 24, which the program uses, some layout is not final |
| Outputs.StampRoundTrip | packages/shared/video_service/subtitles.py:10-20 | an SRT time stamp is read back as the milliseconds it was made from |
| Outputs.StampShape | packages/shared/video_service/subtitles.py:14-20 | a stamp is digits, two colons and a comma at their places, with no padding beyond two digits of hours |
| Outputs.SegmentsToSrt | packages/shared/video_service/subtitles.py:23-37 | succeeds iff every nonblank cue has a nonnegative time, a later end and a stamp of its own; otherwise the first cue at fault decides the error |
| Outputs.EntriesExactly | packages/shared/video_service/subtitles.py:25-36 | there is one entry for each cue that is not blank, in order, numbered from one, with its stripped text and stamps that read back as its rounded times |
| Outputs.SegmentsToSami | packages/shared/video_service/sami.py:9-22 | the event dictionary overwritten in the loop is `SamiOf`, or its error |
| Outputs.SamiAcceptance | packages/shared/video_service/sami.py:9-22 | SAMI output succeeds iff all times are valid and a millisecond apart, and no cue begins before an earlier nonblank one has ended |
| Outputs.SamiExact | packages/shared/video_service/sami.py:9-22 | replaying the events shows, at every millisecond, the text of the cue that covers it or the clear marker |
| Consumers.ValidateCues | workers/media/media_worker/validation.py:13-27 | accepts exactly the nonempty, ordered, two-line tracks within the media; otherwise the first cue at fault decides the error |
| Consumers.CuesValidExactly | workers/media/media_worker/validation.py:13-27 | in numbers: a nonempty track, each cue nonblank, of at most two lines, ending at most 0.05 s past the media and overlapping its predecessor by at most a millisecond |
| Consumers.ValidateTracks | packages/shared/video_service/review.py:14-35 | accepts exactly the drafts with the tracks named, each valid: count, times, order, text limits, writable as SRT; imported captions may overlap and have more lines |
| Consumers.TrackValidExactly | packages/shared/video_service/review.py:14-35 | in numbers: at most 10000 cues of 1000 characters and two lines, the same times, different stamps; imported cues need only start in order |
| Consumers.WriteDraft | packages/shared/video_service/review.py:48-60 | a draft is stored iff its tracks are valid, can all be laid out at the width of their language, and are valid again; what is stored are the layouts, with revision, duration and languages |
| Consumers.WidthExactly | packages/shared/video_service/review.py:53-55 | the line width is 24 for the language codes auto, ko, ja and zh, with or without a region, and 42 for all others |
| Consumers.LayoutAccepted | workers/media/media_worker/validation.py:13-27 | every successful layout of captions that end within the media passes the worker's validator, the editor's checks and both writers |
| Consumers.DraftSecondValidation | packages/shared/video_service/review.py:48-56 | for a track that can be laid out the second validation succeeds iff the layout needs at most 10000 captions and no end passes the limit once rounded |
| Consumers.DraftStored | packages/shared/video_service/review.py:48-56 | a valid draft is stored iff every track can be laid out, needs at most 10000 captions and has no end rounded past the limit |
| Consumers.RoundedPastLimit | packages/shared/video_service/review.py:48-56 | a valid cue ending at 1.0507 s of 1.0007 s of media is laid out at every width from 2 to 499, and is not valid any more |
| Consumers.SamiMatchesSrt | packages/shared/video_service/sami.py:9-30 | whenever SAMI output succeeds so does SRT output, and both show the same at every millisecond |
| QueueLoop.Queue.constructor | workers/media/media_worker/transcription_queue.py:38-66 | loading revalidates the saved results one by one and drops what is out of range or rejected |
| QueueLoop.Queue.AdmitTurn | workers/media/media_worker/transcription_queue.py:111-128 | the admission loop: smallest due retry before first untouched index, while slots are free |
| QueueLoop.Queue.SettleTask | workers/media/media_worker/transcription_queue.py:138-180 | one finished operation: result, placeholder, retry with backoff, or halt |
| QueueOutcomes.AgainSettled | workers/media/media_worker/transcription_queue.py:160-175 | after the k-th attempt of an operation that may be repeated, with k below the limit: it is due exactly at now + max(2^(k-1), delay), the cooldown rises to that if it is shared, and nothing else changes; at the limit it fails |
| QueueOutcomes.OtherSettled | workers/media/media_worker/transcription_queue.py:138-180 | an accepted result and an accepted placeholder are stored, storage failure and fatal errors fail at once, and nothing else changes |
| QueueLoop.Queue.Run | workers/media/media_worker/transcription_queue.py:106-187 | the whole loop over any turns of the clock and of finished operations, with every snapshot it publishes |
| QueueLoop.RunEnds | workers/media/media_worker/transcription_queue.py:108-187 | a run ends with a result for every index, or with a nonempty sorted list of failures that have none and the sorted content blocks, each naming a result or a failure, and none twice if the first snapshot had none twice |
| QueueOutcomes.FailedForAReason | workers/media/media_worker/transcription_queue.py:108-182 | over all interleavings: a segment has failed iff one of its operations met a full disk, a fatal error or a refusal without placeholder, or its repeatable failures used up every attempt |
| QueueOutcomes.PartialForAReason | workers/media/media_worker/transcription_queue.py:108-187 | so every failure that a run reports has such a reason among the operations of that run |
| QueueOutcomes.CompletesIfAnswered | workers/media/media_worker/transcription_queue.py:108-187 | a run in which no segment meets one ends complete, with a result for every segment, once its script is longer than two turns for each attempt and its idle turns |
| QueueOutcomes.EndOfLast | workers/media/media_worker/transcription_queue.py:183-187 | and the end is decided by the state after the last turn |
| QueueOutcomes.SnapshotCurrent | workers/media/media_worker/transcription_queue.py:80-182 | whenever the process is between turns the snapshot on disk is that of its state |
| QueueOutcomes.LoadMeaning | workers/media/media_worker/transcription_queue.py:41-66 | loading keeps exactly the results in range that pass the validator, as it returns them, the blocks of those, and starts with all other segments pending in order |
| QueueOutcomes.PublishRoundTrip | workers/media/media_worker/transcription_queue.py:41-66 | what was published is loaded again: all results, and the content blocks of the segments that have one |
| QueueOutcomes.AdmitOneMeaning | workers/media/media_worker/transcription_queue.py:113-128 | one admission starts the smallest due retry, or else the first pending segment, and changes nothing else |
| QueueOutcomes.AdmitAllFull | workers/media/media_worker/transcription_queue.py:113-128 | admission goes on until all slots are in use or nothing may start |
| QueueTermination.LoadedTerminates | workers/media/media_worker/transcription_queue.py:108-187 | from any snapshot the loop is not cut short by a script of more than two turns for each attempt of each segment besides its idle turns, in which no running operation finished and nothing could start |
| QueueTermination.ProductiveEnds | workers/media/media_worker/transcription_queue.py:108-187 | in particular a script without idle turns that is longer than the measure of the remaining attempts is never used up |
| QueueTermination.LoopCanEnd | workers/media/media_worker/transcription_queue.py:108-187 | from every state, and whatever each operation answers in each turn, such scripts exist in every length: it is enough that what runs settles and time passes |
| QueueTermination.SettlingIsProductive | workers/media/media_worker/transcription_queue.py:108-137 | a turn in which every running operation has finished, past cooldown and backoff if none ran, is productive |
| QueueRefinement.ProcessIsRun | workers/media/media_worker/transcription_queue.py:64-187 | a process from loading to its end, publishing included, is a run of the steps of `QueueRuns`, so what holds of all interleavings holds of the loop |
| QueueProofs.LoadInv | workers/media/media_worker/transcription_queue.py:38-66 | from any snapshot the loaded state satisfies the invariant: partition, concurrency, attempts, halting, content blocks |
| QueueProofs.AdmitAllInv | workers/media/media_worker/transcription_queue.py:111-128 | admission keeps the invariant and changes nothing but what waits, runs and is counted |
| QueueProofs.SettleInv | workers/media/media_worker/transcription_queue.py:138-180 | settling an operation keeps the invariant, unless a rejected placeholder ends the run |
| QueueRuns.BlockedOnce | workers/media/media_worker/transcription_queue.py:53-66 | over any run with crashes and restarts, from a first snapshot without repetitions, process and snapshot report every blocked segment at most once |
| QueueProofs.SettleKeeps | workers/media/media_worker/transcription_queue.py:138-180 | results are only added, and successes are still stored while draining |
| QueueProofs.HaltedAdmitsNothing | workers/media/media_worker/transcription_queue.py:111 | after halting nothing is admitted |
| QueueRuns.AdmitChange | workers/media/media_worker/transcription_queue.py:111-128 | what is admitted had no result, its retry was due and the shared cooldown was over; nothing else is counted as an attempt |
| QueueProofs.AdmitProgress | workers/media/media_worker/transcription_queue.py:108-135 | a queue with work left and a free slot admits something once its delays are over |
| QueueProofs.AdmitAllDrops | workers/media/media_worker/transcription_queue.py:113-128 | a measure of the remaining attempts pays for every admission |
| QueueProofs.SettleDrops | workers/media/media_worker/transcription_queue.py:138-180 | the same measure drops with every settled operation |
| QueueProofs.FinishedOutcome | workers/media/media_worker/transcription_queue.py:183-187 | at the end every index has a result, or some have failed, and every content block names one of them |
| QueueRuns.SettleDelays | workers/media/media_worker/transcription_queue.py:160-175 | a retry waits for its backoff and the delay asked for, and a shared delay raises the cooldown |
| QueueRuns.PublishedForever | workers/media/media_worker/transcription_queue.py:41-59 | over any run with crashes and restarts, an index with a published result is never invoked again and published results only grow |
| QueueRuns.ReachableSafe | workers/media/media_worker/transcription_queue.py:106-182 | in every state reachable with any validator the invariant holds, no index is started more often than allowed, and no start precedes a delay that concerns it |
| QueueRuns.BoundedWork | workers/media/media_worker/transcription_queue.py:108-182 | one process starts and settles at most twice as many operations as it has attempts |
| Sentences.ValidateSentences | workers/media/media_worker/sentence_transcription.py:42-68 | accepts exactly the legal replies, with the first fault deciding the error, and returns the cleaned sentences in a stable order of their starts |
| Sentences.AcceptableExactly | workers/media/media_worker/sentence_transcription.py:42-60 | in numbers: at most 1000 sentences, each beginning in the clip and ending at most 0.1 s behind it, with at most 4000 characters that are not all white |
| Sentences.CleanedExactly | workers/media/media_worker/sentence_transcription.py:57-60 | each sentence keeps its start, ends with the clip at the latest, and is stripped |
| Sentences.AcceptedTidy | workers/media/media_worker/sentence_transcription.py:57-60 | accepted lists are ordered, within the clip, stripped, and a permutation of the reply's sentences |
| Sentences.AcceptedUnchanged | workers/media/media_worker/sentence_transcription.py:42-68 | a list the validator has returned is accepted again, unchanged |
| Sentences.TranscriptionPublishedForever | workers/media/media_worker/providers.py:366-397 | so a resumed transcription never sends a published window again and never changes its sentences |
| Sentences.NoEscape | workers/media/media_worker/transcription_queue.py:153-154 | when placeholders pass the validator no run ends with a stray exception |
| Sentences.TranscriptionEnds | workers/media/media_worker/providers.py:393-408 | besides idle turns a transcription takes at most six turns for each window, and one; it ends with sentences for every window or with its failures and each refused window once |
| Sentences.TranscriptionLimits | workers/media/media_worker/transcription_queue.py:35-37 | in every reachable state at most three windows are being sent, and none has been sent more than three times |
| Sentences.RefusedWindow | workers/media/media_worker/providers.py:394-395 | a refused window is stored as one sentence from the beginning to the end of its clip |
| TranslationGroups.Origins | workers/media/media_worker/translation_inputs.py:5-12 | the dictionary of origins gives, for every key, exactly the sentences that have a piece with it |
| TranslationGroups.GroupSegments | workers/media/media_worker/translation_inputs.py:14-25 | the loop computes `GroupsOf` |
| TranslationGroups.GroupsContract | workers/media/media_worker/translation_inputs.py:14-25 | groups flatten back to the input, are chained by the joining rule and are as long as it allows |
| TranslationGroups.JoinsExactly | workers/media/media_worker/translation_inputs.py:14-25 | the joining rule in numbers: same text, and parts of one cut sentence or at most 0.3 s apart within a group of eight seconds |
| TranslationGroups.GroupText | workers/media/media_worker/translation_inputs.py:14-25 | all captions of a group have the text that is sent |
| TranslationGroups.IdsDiffer | workers/media/media_worker/translation_requests.py:10 | different targets have different ids |
| TranslationGroups.IdShape | workers/media/media_worker/translation_requests.py:10 | an id is "cue-" and the number of its target from one, in at least six digits |
| TranslationGroups.RequestExactly | workers/media/media_worker/translation_requests.py:13-19 | a request asks for the next forty groups and shows the two before and the two behind them, cut to 1000 characters |
| TranslationGroups.Requests | workers/media/media_worker/translation_requests.py:9-26 | one request for each batch of forty, with its ids and its neighbouring context |
| TranslationGroups.RequestsAskOnce | workers/media/media_worker/translation_requests.py:9-26 | every group is a target of exactly one request, and context entries are never targets of the same request |
| Translation.AlignResult | workers/media/media_worker/translation_requests.py:29-39 | an answer is taken iff it has one usable item per target and no id twice; every target then gets the text with its id |
| Translation.MatchesExactly | workers/media/media_worker/translation_requests.py:29-38 | in plain terms: as many items as targets, each with one of their ids, none twice, and a text that is not blank |
| Translation.PermutedAnswer | workers/media/media_worker/translation_requests.py:29-39 | every permutation of one nonblank text per id is taken, with the same result |
| Translation.Merge | workers/media/media_worker/providers.py:495-497 | the nested comprehension over sorted batches, as loops |
| Translation.RetextShape | workers/media/media_worker/providers.py:495-497 | putting texts onto groups changes no time, speaker or position; every caption gets its group's text |
| Translation.CompleteKeepsTiming | workers/media/media_worker/providers.py:495-516 | a complete translation is the input's captions in order, with nothing but texts changed |
| Translation.TransparentMerge | workers/media/media_worker/providers.py:490-516 | whatever the order of each batch's answer, every caption carries the text answered for its own group's id |
| TranslationQueue.RunAccepted | workers/media/media_worker/transcription_queue.py:138-187 | every result a run ends with passes its validator unchanged |
| TranslationQueue.CheckExactly | workers/media/media_worker/providers.py:484-488 | the result of a batch is taken, as it is, iff it has one text for each group and none is blank |
| TranslationQueue.TranslationEnds | workers/media/media_worker/providers.py:484-516 | besides idle turns a translation takes at most six turns for each batch, and one; it ends with its failures named or complete and timing-neutral |
| TranslationQueue.TranslationLimits | workers/media/media_worker/transcription_queue.py:35-37 | in every reachable state at most three batches are being sent, and none has been sent more than three times |
| TranslationQueue.RefusedBatch | workers/media/media_worker/providers.py:500-504 | a refused batch is stored with the placeholder text for each of its groups |
| Placeholders.Select | workers/media/media_worker/providers.py:411-413 | the comprehensions that take placeholders out and keep the others |
| Placeholders.BackInPlace | workers/media/media_worker/providers.py:411-424 | sorting a mixed list by start puts every caption back at its position iff starts never decrease and no placeholder precedes another caption with the same start |
| Placeholders.StrictStarts | workers/media/media_worker/providers.py:410-424 | strictly increasing starts always meet the condition |
| TranslationWhole.TranslateWhole | workers/media/media_worker/providers.py:410-516 | from the answers to the outcome: every caption has its own group's text and the input's time and speaker, placeholders are as they were, and all keep their positions iff the list is not mixed or meets the condition |
| RestoredOrder.PlaceholdersReorder | workers/media/media_worker/providers.py:410-424 | a list that restoring produces, with one placeholder, comes back in another order |
| AudioMeanings.RemovedExactly | workers/media/media_worker/media.py:50-64 | an instant is removed iff some silence of the log, with its ends a and b clamped to the clip, has b - a >= minimum and a + padding <= t < b - padding |
| AudioMeanings.QuietExactly | workers/media/media_worker/media.py:48-64 | as preprocessing calls it: 0.2 s inside silences of at least 3, 5 or 10 s, by filter |
| AudioMeanings.MarginSurvives | workers/media/media_worker/media.py:60-64 | no instant within 0.2 s of audio outside all silences is removed as silence |
| Preprocess.AllRemovedMeaning | workers/media/media_worker/media.py:50-64 | the removed intervals are those of the long silences of the log, one each |
| Preprocess.KeptIntervals | workers/media/media_worker/media.py:48-73 | kept intervals are exactly the rest of the clip, in order and disjoint |
| Intervals.Complement | workers/media/media_worker/media.py:65-73 | the cursor loop computes the exact complement of sorted cuts |
| Intervals.Protect | workers/media/media_worker/vocalizations.py:142-154 | the exact union of kept and widened protected intervals, with gaps between the results |
| Intervals.Exclude | workers/media/media_worker/vocalizations.py:131-139 | a removal stays iff no protected instant lies in it |
| Intervals.SubtractOne | workers/media/media_worker/vocalizations.py:161-172 | one kept interval without all cuts, for cuts that overlap in any way |
| Preprocess.Subtract | workers/media/media_worker/vocalizations.py:157-173 | exact set difference, keeping order and disjointness |
| Preprocess.IntersectTidy | workers/media/media_worker/media.py:123-124 | the intersection comprehension keeps order and disjointness |
| Preprocess.PreprocessIntervals | workers/media/media_worker/media.py:97-124 | the composition, instant by instant: silence out, protected audio in, vocalizations out, detected speech only |
| AudioMeanings.BoundsExactly | workers/media/media_worker/vocalizations.py:120-147 | with a filter on, preprocessing refuses exactly the protected ranges and vocalizations that are empty or not within the clip |
| Preprocess.ProtectedSurvives | workers/media/media_worker/vocalizations.py:131-173 | with detection off no instant within 0.3 s of a protected interval is lost |
| AudioMeanings.RetainedExactly | workers/media/media_worker/media.py:97-124 | the whole of preprocessing in plain numbers: an instant is retained iff it is not deep in a long silence or lies within 0.3 s of a protected range, lies in no vocalization clear of those, and is detected speech if detection is on |
| Vad.ScanIsLoopExactly | scripts/sweep-vad-config.py:16-21 | the last-decisive-event scan is the hysteresis loop for all values iff the offset is not above the onset |
| Vad.QuietMaskIsLoop | scripts/sweep-vad-config.py:16-21 | the mask marks exactly the frames in which every channel's loop is off |
| Vad.RetainedIntervals | workers/media/media_worker/nvidia_vad.py:13-41 | rejects exactly the wrong frame counts and non-probabilities, and otherwise keeps exactly what is not dropped |
| Vad.MergeNear | workers/media/media_worker/nvidia_vad.py:35-41 | the final merge fills exactly the gaps of at most 0.4 s, and changes nothing when there are none |
| Vad.BridgesAreWide | workers/media/media_worker/nvidia_vad.py:35-41 | kept intervals always are: the final merge is the identity |
| Vad.DroppedMeaning | workers/media/media_worker/nvidia_vad.py:16-27 | an instant is dropped iff it lies in a run of at least 3 s without speech, more than the padding away from its ends |
| AudioMeanings.VadDropsExactly | workers/media/media_worker/nvidia_vad.py:13-34 | in numbers: speech switches on at 0.3 and off below 0.15, frames last 80 ms, and what lies 0.3 s inside three seconds without speech is dropped |
| AudioMeanings.FramesExactly | workers/media/media_worker/nvidia_vad.py:13-18 | accepted are probabilities, one for each 80 ms that begin before the end |
| Vad.SpeechSurvives | workers/media/media_worker/nvidia_vad.py:16-34 | no speech frame and nothing within 0.3 s of one is dropped |
| AudioCopy.CopyIntervals | workers/media/media_worker/media.py:76-94 | the chunked copy concatenates the frame ranges and returns their timeline |
| AudioCopy.GridInOrder | workers/media/media_worker/media.py:81-85 | rounding to frames keeps sorted, disjoint intervals sorted and disjoint |
| AudioCopy.GridNearest | workers/media/media_worker/media.py:82-85 | an interval is copied from the frame nearest to its start up to the frame nearest to its end, ties to the even one, as far as there is audio |
| AudioCopy.GridAllExactly | workers/media/media_worker/media.py:81-93 | the frames copied are those of every interval and no others |
| AudioCopy.CopyRefinesMap | workers/media/media_worker/media.py:82-93 | every output frame is the source frame that the timeline maps it to |
| AudioCopy.TidyCopy | workers/media/media_worker/media.py:76-94 | for sorted, disjoint intervals the later sort is the identity, the map is as long as the output, and it maps every frame correctly |
| AudioCopy.CopySpaced | packages/shared/video_service/timeline.py:105 | spans of a copy touch or are at least a frame apart, so the contiguity test is equality |
| Timeline.BuildTimeline | packages/shared/video_service/timeline.py:40-56 | the loop computes the spans of the sorted intervals |
| Timeline.TidyChained | packages/shared/video_service/timeline.py:40-56 | spans of sorted, disjoint intervals run without gaps on the processed clock, in order on the original one |
| Timeline.MapStart | packages/shared/video_service/timeline.py:71-80 | a start is mapped by the span it begins in; a boundary belongs to the later span |
| Timeline.MapEnd | packages/shared/video_service/timeline.py:71-80 | an end is mapped by the span it closes in; a boundary belongs to the earlier span |
| Timeline.MapOutside | packages/shared/video_service/timeline.py:71-85 | before the first span everything is mapped to its start, behind the last one time goes on from its end, and without spans it is kept |
| Timeline.Project | packages/shared/video_service/timeline.py:96-109 | the projection loop, extending its last piece in place |
| Timeline.PiecesExact | packages/shared/video_service/timeline.py:96-109 | the pieces are separate and are exactly the image of the cue |
| Timeline.ProjectionConserves | packages/shared/video_service/timeline.py:88-109 | the pieces of a cue are as long as the cue, lie in order inside kept audio, and their hull is `map_segment_to_original` |
| Windows.TranscriptionWindows | workers/media/media_worker/providers.py:547-564 | accepts exactly the gapless timelines that fit the audio, and cuts each region into windows; otherwise the first span at fault decides the error |
| Windows.FitsExactly | workers/media/media_worker/providers.py:549-561 | in numbers: spans that follow each other from zero, up to 1e-8 s, within the audio, the last one ending at the last frame |
| Windows.CopyFits | workers/media/media_worker/providers.py:547-561 | the timeline of a copy is never rejected |
| Windows.CopyWindows | workers/media/media_worker/providers.py:547-564 | its windows tile the copied audio |
| Windows.PackedWindows | workers/media/media_worker/providers.py:345-346 | the windows actually sent tile the packed audio exactly |
| Windows.PackedMinutes | workers/media/media_worker/providers.py:562-564 | they are the minutes of the packed audio, the last one up to its end |
| Transcripts.Segments | workers/media/media_worker/providers.py:382-390 | the nested loops over the windows answered, in ascending order, give each sentence its place on the processed clock |
| Transcripts.TranscriptExactly | workers/media/media_worker/providers.py:382-390 | there is one caption for each sentence of each answered window, in order, with its own text and with its times shifted to where the window begins |
| Transcripts.TranscriptWithin | workers/media/media_worker/providers.py:382-390 | whatever windows have been answered with validated sentences, every caption lies within the processed clock, and the limit at its end changes nothing |
| Pipeline.TranscriptionProjects | packages/shared/video_service/timeline.py:88-109 | from any snapshot and along any turns: every caption with which a transcription of a copy ends, complete or not, is projected whole: as long as before, in separate pieces of kept audio, with its ends where they are mapped |
| PackedTimeline.RestoreSegments | workers/media/media_worker/packed_timeline.py:5-15 | the loop returns the pieces that last at least a millisecond, and the crossings |
| PackedTimeline.RestoredExactly | workers/media/media_worker/packed_timeline.py:13 | a caption comes back once for each piece whose ends differ on the millisecond clock, in order, with its text and speaker |
| PackedTimeline.VisibleMeaning | workers/media/media_worker/packed_timeline.py:13 | that is so for every piece longer than a millisecond |
| PackedTimeline.CrossingsExactly | workers/media/media_worker/packed_timeline.py:8-12 | there is one crossing for each caption with removed audio inside it, in order, with its text and the separate parts of its image |
| PackedTimeline.RestoredAllPlaced | workers/media/media_worker/packed_timeline.py:8-13 | every restored cue is nonnegative, forward and a millisecond long on the output clock |
| PackedTimeline.RestoredLaysOut | packages/shared/video_service/subtitles.py:46-58 | after restoring, and any filter, translation or reordering, the layout can fail for lack of room only, never for a time |
| Pipeline.RestoredAccepted | workers/media/media_worker/worker.py:259-318 | restored captions, filtered, translated and reordered in any way, are too crowded for their texts or laid out, and then every consumer accepts the result for the length of the media |
| Pipeline.CaptionsAccepted | workers/media/media_worker/worker.py:259-318 | for any ranges copied from any audio and any captions of the copy, the same for the length of the audio |
| LeaseLocks.Exclusion | packages/shared/video_service/locking.py:33-70 | in any run with crashes no process is inside the execution lock while a reader is inside its download, and no reader is refused its own lease |
| LeaseLocks.RefusedByLiveReader | packages/shared/video_service/locking.py:43-46 | looking through the leases is refused only by the lease of a reader that is alive |
| LeaseLocks.AbandonedNeverBlock | packages/shared/video_service/locking.py:42-47 | with the lock free and no reader alive, a process left to itself gets in and clears all abandoned leases |
| LeaseLocks.ReadersOverlap | packages/shared/video_service/locking.py:51-64 | any number of readers can be inside a download at once |
| JobHandlers.Repository.UpdateStatus | packages/shared/video_service/repository.py:105-124 | reads the record again, changes the status and saves it |
| JobHandlers.Repository.Heartbeat | packages/shared/video_service/repository.py:131-134 | reads the record again and saves it with nothing but the heartbeat changed |
| JobHandlers.Repository.StartJob | apps/api/app/api/routes.py:200-217 | queues exactly a ready job with its complete file and with room |
| JobHandlers.Repository.CancelJob | apps/api/app/api/routes.py:313-324 | cancels a waiting job, requests the cancellation of a processed one, leaves a finished one |
| JobHandlers.Repository.DeleteJob | apps/api/app/api/routes.py:327-333 | removes exactly finished jobs |
| JobHandlers.Repository.RetryJob | apps/api/app/api/routes.py:336-353 | clears the request in a first save, then queues |
| JobHandlers.Repository.EditSubtitles | apps/api/app/api/routes.py:260-310 | saves or queues for rendering, after the revision check |
| JobHandlers.AnswerIsTrue | apps/api/app/api/routes.py:200-353 | each request is accepted exactly under its condition on the job, lacks room exactly when room is all that is missing, and the answer is the truth about the record that is left |
| JobHandlers.EdgeTaken | apps/api/app/api/routes.py:200-353 | every edge of the legal status graph is taken by some handler |
| JobHandlers.Repository.MoveTo | workers/media/media_worker/worker.py:53-61 | a transition raises instead of changing a job that is to stop |
| JobHandlers.Repository.Settle | workers/media/media_worker/worker.py:369-382 | the failure handler: cancelled if interrupted or requested, else failed |
| JobHandlers.Repository.CollectOne | workers/media/media_worker/worker.py:403-439 | collection of one job by status and age |
| JobLifecycle.LegalHistory | workers/media/media_worker/worker.py:53-84 | along every run of handlers, workers and crashes the status moves along the legal graph only, and only a finished job is removed |
| JobLifecycle.CompletedByWorker | workers/media/media_worker/worker.py:334-366 | a job is completed only by its worker, out of a processing state, with the execution lock held and no cancellation requested |
| JobLifecycle.QueuedByUser | apps/api/app/api/routes.py:200-353 | a job is queued only from ready, after review, or by a retry after failure or cancellation, never with a request pending |
| JobLifecycle.CompletedStays | workers/media/media_worker/worker.py:403-439 | a completed job stays completed until it is removed |
| JobCollection.CollectionExactly | workers/media/media_worker/worker.py:403-439 | in every run, by what a collection finds: a finished, uploading or reviewed job that is fresh, or met without the wish to expire, stays as it is, as do ready and queued ones; an expired finished job is saved once more, an ancient one removed; other uploads and reviews are cancelled; a processed job, of which no worker is alive, fails as interrupted |
| JobCollection.RemovedExactly | workers/media/media_worker/worker.py:408-411 | in every run a job disappears in a step iff it is finished and a user deletes it or a collection finds it ancient |
| JobCollection.CompletedKept | workers/media/media_worker/worker.py:403-439 | so a completed job stays completed through every run without such a step |
| JobCollection.StatusExactly | workers/media/media_worker/worker.py:53-84 | in every run a status comes about in a step iff the handler that writes has that status's reason; a recorded request makes a failure a cancellation |
| JobCollection.FieldsAccounted | packages/shared/video_service/repository.py:105-134 | every other field changes only for its own reasons, and a retry clears request and interruption |
| JobCollection.HandlerAlone | apps/api/app/api/routes.py:200-353 | a handler that nobody disturbs, step by step under its locks, leaves what the same handler leaves when it is called, and gives its locks back |
| JobCollection.ClaimAlone | workers/media/media_worker/worker.py:74-84 | a worker that nobody disturbs gets a queued job and keeps the execution lock, and lets go of any other |
| JobCollection.TransitionAlone | workers/media/media_worker/worker.py:53-61 | its transitions change the status and nothing else, and after one that ends the processing it is done |
| JobCollection.LetsGo | packages/shared/video_service/locking.py:15-30 | whoever fails, is refused or dies leaves the record as it is and holds no lock any more |
| JobLifecycle.CancellationKept | workers/media/media_worker/worker.py:53-61 | once requested, and until a retry clears it, a cancellation stands at every moment of every run, and the job is processing, failed, cancelled or deleted |
| JobLifecycle.CancellationKeptFrom | apps/api/app/api/routes.py:313-353 | so it is never completed and never up for review |
| JobLifecycle.CancellationTakesEffect | workers/media/media_worker/worker.py:54-61 | the worker's next transition turns a request into a cancelled job with both locks released |
| JobLifecycle.StatusOwned | workers/media/media_worker/worker.py:76-84 | while a job is processed only the process with the execution lock changes its status or removes it |
| JobLifecycle.InterruptedOnlyDead | workers/media/media_worker/worker.py:437-439 | a job is declared interrupted only when no worker is alive at it |
| JobLifecycle.NoLostUpdate | packages/shared/video_service/repository.py:105-134 | whoever is about to save has read exactly what is on disk |
| JobLifecycle.WorkerFindsJob | workers/media/media_worker/worker.py:74-84 | while a worker is alive its job exists and is in a processing state |
| UploadServer.Upload.WriteBody | apps/api/app/services/upload_service.py:48-76 | whatever happens to body, capacity and disk, the file holds the old content and a part of the body, growing by at most a batch at a time |
| UploadServer.Upload.AppendChunk | apps/api/app/services/upload_service.py:37-87 | the whole body behind the old content, as the last state of the disk, and the record updated, or file and record as before; without a failing flush the outcome is exactly too large, broken off or stored, and a failing one is reported as a full disk or an error for what it was |
| UploadServer.Upload.Complete | apps/api/app/services/upload_service.py:93-105 | accepts exactly a file of the declared size |
| UploadClient.VerifyPrefix | apps/web/src/upload-verification.ts:8-27 | the verification loop asks for every block of the prefix in order, before anything is sent |
| UploadClient.SendChunks | apps/web/src/api.ts:123-140 | the chunk loop sends from the last acknowledged offset and resets the retries on progress |
| UploadClient.ResumeUpload | apps/web/src/api.ts:89-168 | the nested loops with offset and retry counter are the client machine, for any replies |
| UploadClient.DriveProper | apps/web/src/api.ts:96-155 | offsets stay within the file, and at most four failures in a row are retried |
| UploadRetries.Replied | apps/web/src/api.ts:96-155 | one more reply after any others: a lost reply, 409 or a status from 500 makes the client ask again, until the fifth failure since the last stored chunk, which resets the count; another refusal, another exception or a useless reply makes it throw; a useful one brings it one request further |
| UploadRetries.ThrowsForAReason | apps/web/src/api.ts:96-155 | the client throws iff one of the replies is such a reason |
| UploadRetries.LostRepliesSurvived | apps/web/src/api.ts:142-155 | four lost replies in a row between any two stored chunks do no harm |
| UploadProtocol.StepForward | apps/api/app/services/upload_service.py:37-87 | every step only extends what is committed, and touches a complete file no more |
| UploadProtocol.QuiescentExtended | apps/api/app/services/upload_service.py:42-87 | between two quiescent moments of any run the file is only extended |
| UploadProtocol.UploadAgreement | apps/web/src/api.ts:97-142 | when a client's own completion was accepted, the server's bytes are that client's file |
| UploadProgress.UploadCompletes | apps/web/src/api.ts:96-142 | left alone with an idle server that has any first part of its file, a client finishes with one request for the state, one for each four mebibytes that are there, one for each four that are not, and one to complete: then the server has exactly its file |
| UploadProgress.FreshUploadCompletes | apps/web/src/api.ts:96-142 | in particular from nothing, for every file |
| UploadProgress.BusyAsksAgain | apps/api/app/services/upload_service.py:37-47 | while a chunk for which the client does not wait is being written, each of its requests makes it ask again, or throw at the fifth failure |
| UploadProgress.OtherBytesThrow | apps/web/src/upload-verification.ts:8-27 | a block that the server has in another form makes the client throw, a size that has changed makes it ask again |
| UploadProgress.OutOfStepAsksAgain | apps/api/app/services/upload_service.py:42-47 | a chunk at another offset than the size of the file, and a completion too early, make it ask again |
| UploadProgress.ClosedEnds | apps/web/src/api.ts:104-109 | when the upload is closed a poll returns, and a chunk or a completion throws |
| UploadProtocol.CompleteIsSomeones | apps/api/app/services/upload_service.py:93-105 | a complete upload is exactly one client's file, never a mixture |
| UploadProtocol.MisledFoundClosed | apps/web/src/api.ts:97-142 | in every run a client that returns normally while other bytes than its own are on the server has found the upload closed; an accepted completion of its own never misleads |
| UploadProtocol.ReturnMeansMyBytes | apps/web/src/api.ts:97-142 | in runs without cancellation and expiry of the job: every normal return means that the client's own bytes are on the server iff no client has a file of the declared size that differs from another client's file |
| UploadProtocol.ClosedReturnMeansNothing | apps/web/src/api.ts:104-109 | in all runs, cancellation and expiry included: every normal return means so iff there are no bytes to upload |
| UploadProtocol.ClosingMisleads | apps/api/app/api/routes.py:313-320 | any client with a nonempty file, whose job is cancelled or expires before it asks, returns normally with nothing on the server |
| UploadProtocol.OtherFileMisleads | apps/web/src/api.ts:104-109 | if one has, there is a run: one client uploads its whole file chunk by chunk, and the other finds the upload closed and returns |
| UploadProtocol.NotResumableSaysNothing | apps/web/src/api.ts:104-109 | in particular with two files of one byte each |
| UploadProtocol.AppendIsWrites | apps/api/app/services/upload_service.py:48-87 | the disk states of a whole append are `Write` steps of the protocol ended by its commit or its rollback |
| UploadProtocol.CrashLeaves | apps/api/app/services/upload_service.py:48-76 | a crash after any of those disk states leaves exactly that state |
| UploadPump.UploadQueue.AddFile | apps/web/src/upload-queue.ts:30-47 | adds a waiting item unless its job is already listed, and starts the pump |
| UploadPump.UploadQueue.PauseItem | apps/web/src/upload-queue.ts:48-58 | pauses the item and aborts its transfer |
| UploadPump.UploadQueue.ResumeItem | apps/web/src/upload-queue.ts:59-68 | makes a paused or failed item with a file wait again, and starts the pump |
| UploadPump.UploadQueue.SetSuspended | apps/web/src/upload-queue.ts:74-81 | suspends and aborts, or lets the pump run again |
| UploadPump.UploadQueue.TransferSettled | apps/web/src/upload-queue.ts:112-131 | the continuation after a transfer, up to the next one or the end of the pump |
| UploadPump.PumpSafe | apps/web/src/upload-queue.ts:96-135 | after every step a waiting item means a running pump, at most one transfer is in flight, and only its item is uploading |
| PumpMeanings.StopsTransfers | apps/web/src/upload-queue.ts:48-85 | in every run a transfer that is not being aborted is that of a listed item of a queue that is neither suspended nor disposed |
| PumpMeanings.StateChanges | apps/web/src/upload-queue.ts:30-131 | in every run an item's state changes only for its own reason, and the next transfer is that of the first waiting item |
| PumpMeanings.StateMust | apps/web/src/upload-queue.ts:48-131 | pausing, going on and the end of a transfer always have their effect |
| PumpMeanings.DataExactly | apps/web/src/upload-queue.ts:107-131 | job, progress and file of an item change only by what its own transfer reports and by its success |
| PumpMeanings.ListExactly | apps/web/src/upload-queue.ts:30-95 | the list loses exactly the items removed, or finished and forgotten, and gains what is added and not yet asked for |
| PumpMeanings.AddExactly | apps/web/src/upload-queue.ts:30-47 | what is added is the user's file, waiting or the first to go |
| UploadPump.DoneOnlyBySuccess | apps/web/src/upload-queue.ts:113-118 | an item is done only by its own unaborted success, and stays so unchanged |
| UploadPump.Drains | apps/web/src/upload-queue.ts:100-131 | left alone, one settled transfer for each waiting item and one more end the pump, whether they succeed or fail: nothing is pending, every item that was is done or has failed, and no other has changed |

## Left out

- Remote providers, prompts, tracing and diagnostics: an operation is an outcome (returned, blocked, storage full, retryable with a delay, fatal).
- FFmpeg, FFprobe and model inference: the silence log and the speech probabilities are inputs.
- Floating-point error: seconds are exact reals, so `0.08 * index`, sums of durations and divisions by the frame rate are exact.
- Infinite and undefined times: the guards against them are not modelled, since reals are finite.
- White space other than blank, tab and newline, and line breaks other than newline.
- The text of the SRT file around its entries, and the XML of the SAMI file: the entries and the event map are modelled.
- JSON encoding of snapshots, drafts and records, and the hashes that name cache files.
- `transcription_queue.py` history, progress callbacks and operation deadlines; a deadline is a retryable outcome.
- SHA-256: a digest function under which different blocks differ is assumed by the upload results.
- The disk-quota ledger of `capacity.py`: capacity is a yes or no that a step is given.
- Windows locking: locks are the advisory file locks of Unix, and listing the lease files is one step.
- `wait_for_job_lock` as a timed loop: a process waits for the state lock, or gives up.
- Job metadata beyond status, cancellation request, interruption, review flag, retries, sizes and a count of other saves.
- A keyboard interrupt in the instant after a worker's last transition.
- The `/video-uploads` variant of `resumeUpload`, the backoff timers, and reading a file that changes under the browser.
- Calls into the upload queue from its own change callback.
- React components, authentication, settings, workflow tables, thumbnails, encoder arguments and output probing.
- JobHandlers.Repository.UpdateStatus: the time of queueing, message, error, completion time and metadata that it also saves are not part of the record.
- JobHandlers.Repository.EditSubtitles: a missing or expired draft, an invalid track and a failed write are one answer, no success in storing.
- JobHandlers.Repository.Settle: the failure metadata, the failed stage and the message are not part of the record.
- JobHandlers.Repository.CollectOne: deleting files, and the save that marks a pending cleanup, are not modelled.
- UploadProtocol.ReturnMeansMyBytes: assumes, as all upload results do, that different blocks have different digests.
- UploadProtocol.ClosingMisleads: a deleted job, whose requests are answered with 404, and the retry of a cancelled one are not steps of the protocol.
- Pipeline.CaptionsAccepted: the length of the media is the length of its extracted audio, and a line width of at most 499 is assumed.
- QueueTermination.LoadedTerminates: assumes a concurrency of at least one; that operations finish and time passes is not proved but counted, as the turns that are not idle.
- TranslationWhole.TranslateWhole: follows a translation that succeeds; the captions attached to the error of a partial one are merged and sorted in the same way, but not followed to the end.
- Intervals.Protect: types of the bounds in a decoded reply are not modelled, only their order and range.
- Preprocess.KeptIntervals: assumes a minimum of at least twice the padding, as all callers pass.
- AudioCopy.CopySpaced: assumes a frame rate of at most 100 MHz, below which a frame is longer than the contiguity tolerance.
- Consumers.LayoutAccepted: assumes a line width of at most 499, because of the editor's limit of 1000 characters; the widths in use are 24 and 42.

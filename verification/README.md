# A verified model of the voice assistant's state machines

The assistant listens for a wake word, turns speech into a transcript, hands the transcript to
terminal sessions, and speaks what comes back. This project models the parts in which the order of
events decides whether that works, and proves what holds over all their runs:

- **Listening** (`VadChunker`, `Dictation`, `StopPhrase`, `Controller`, `ControllerRuns`, `Hearing`,
  `WholeReports`, `Silence`, `Repetition`). Frames are chunked, transcribed and assembled; the live controller and the simulation
  are two copies of one machine.
- **The cancel window** (`CancelWindow`): a request arms the controller, frames decide, a handler polls.
- **Speaking** (`Speech`, `ReturnQueue`, `ReturnQueueRuns`, `ReturnQueueHold`): a priority queue with one
  worker, and a batching queue in a file that several processes share under a lock.
- **Typing** (`PaneStates`, `Transport`, `Delivery`, `Keystrokes`, `KeystrokeRuns`, `Picker`, `BlockedAnswer`): keys
  go into panes that may change at any moment.
- **Handing over** (`DispatchStore`, `Handoff`, `Batch`): dispatch records, dictation files, batches.

Objects that the program updates in place are classes whose methods are proved against specification
functions (`PushSpec`, `FeedSpec`, `LiveFrame`, `DeliverSpec`, ...); the lemmas are about runs of those
functions. What threads and processes interleave is a step system whose runs are all sequences of steps.
Audio is counted in frames of 512 samples at 16 kHz, time in milliseconds. The voice detector, wake and
cancel scores, the transcriber, the similarity measure and the patterns that classify a screen are
arbitrary functions. A pane's screen is an arbitrary function of everything seen and typed before.

Where the code does less than its comments or canaries say, the model follows the code and says so:

- Four copies of a phrase of two or more words can be jumped over by the repetition detector
  (`Repetition.FourCopiesOfPairMissed` and its two companions); 5n - 1 words of period n cannot.
- The 50 s that l1_wakeword/hold_phrase_canary.py:102-104 expects to end a held dictation are never
  reached, because the chunker cuts its buffer at 30 s (`Silence.HoldLimitUnreachable`).
- The range of `chunk_pcm` may begin before its audio does (`VadChunker.ChunkPcm` says exactly when).
- A dash or other token without a word character shifts the words cut off with a stop phrase
  (`StopPhrase.DashShiftsTheCut`).
- A failure to write the speech log leaves a caller with a cancel window waiting for good
  (`Speech.NeverArmsIff` says that nothing else does).
- Overlapping cancel requests can lose a cancel (`CancelWindow.OverlapLosesCancel`; `ReplyRightIff` says when).
- An Escape may go to a pane whose view has closed by itself (`Keystrokes.EscapeAfterViewIsGone`).
- A numbered description line shifts the options after it (`Picker.NumberedDescriptionShifts`), and an
  option beyond the ninth cannot be selected by its number (`BlockedAnswer.KeySelectsOption`).

## Model

| member | source | states |
|---|---|---|
| Repetition.HasDegenerateRepetition | l2_transcription/hallucination_filter.py:70-90 | Terminates; a reported phrase of one to four words stands at least four times back to back; something is reported if and only if four copies start where the skipping scan looks. |
| Repetition.LongStretchReported | l2_transcription/hallucination_filter.py:76-89 | Any 5n - 1 consecutive words of period n (n at most 4) are reported, wherever the skips land. |
| Repetition.EnoughCopiesReported | l2_transcription/hallucination_filter.py:70-90 | Five copies of a phrase are always reported, and four of a single word. |
| Repetition.FourCopiesOfPairMissed | l2_transcription/hallucination_filter.py:89 | Four copies of a pair, in a text of eleven words, are jumped over and not reported. |
| Repetition.FourCopiesOfTripleMissed | l2_transcription/hallucination_filter.py:89 | So are four copies of three words, in 13 words of period three: 5n - 1 cannot be lowered. |
| Repetition.FourCopiesOfFourMissed | l2_transcription/hallucination_filter.py:89 | So are four copies of four words, in 18 words of period four. |
| Repetition.JumpLandsEarly | l2_transcription/hallucination_filter.py:89 | A skip from before a stretch of 5n - 1 periodic words lands among its first n words, unless the skipped run is itself reportable. |
| Repetition.FilterTranscript | l2_transcription/hallucination_filter.py:93-111 | A transcript is kept unchanged, or dropped exactly when it is blank, matches a known hallucination or repeats itself. |
| VadChunker.StreamingChunker.Push | l2_transcription/vad_chunker.py:119-140 | The new buffer and what comes out are those of the specification, with the counters still determined by the buffer. |
| VadChunker.StreamingChunker.Flush | l2_transcription/vad_chunker.py:142-153 | What is buffered comes out if it holds speech and passes the gate; the buffer is empty afterwards. |
| VadChunker.CutDecision | l2_transcription/vad_chunker.py:131-139 | The code's conditions in samples cut exactly when 21 silent frames follow speech, or at 938 frames. |
| VadChunker.PauseCutIsLongEnough | l2_transcription/vad_chunker.py:132-134 | The minimum-length conjunct of the silence cut never decides anything. |
| VadChunker.FramesConserved | l2_transcription/vad_chunker.py:119-181 | After any frames, the chunks that left, kept or dropped, and then the buffer are exactly the frames pushed, in order. |
| VadChunker.FramesConservedToTheEnd | l2_transcription/vad_chunker.py:142-161 | With the final flush, everything that went in has come out, in order. |
| VadChunker.EmissionShape | l2_transcription/vad_chunker.py:131-181 | A kept chunk has at least 5 speech frames; a silence cut is speech and then exactly 21 frames without; a maximum-length cut has exactly 938 frames; a dropped chunk has too little speech. |
| VadChunker.HeldFramesBounded | l2_transcription/vad_chunker.py:119-140 | The buffer and the silence run never exceed 937 frames, and the run never 20 while there is speech in the buffer. |
| VadChunker.ChunkPcm | l2_transcription/vad_chunker.py:184-210 | One range for every chunk let through, in order, the final flush included; the ranges are adjacent from the start; each one's audio lies at its end, and fills it if and only if no chunk was dropped within. |
| VadChunker.FlushShape | l2_transcription/vad_chunker.py:142-181 | The final flush lets through exactly a buffer of at least half a second with 5 speech frames, and drops any other. |
| StopPhrase.StopVariantUnique | l1_wakeword/daemon.py:184-233 | At most one stop variant ends a text. |
| StopPhrase.SearchMeaning | l1_wakeword/daemon.py:214-233 | The search matches if and only if some variant ends the normalised text, and the remainder is that variant's. |
| StopPhrase.OrderIrrelevant | l1_wakeword/daemon.py:226-233 | The result does not depend on the order in which the set of variants is walked. |
| StopPhrase.RemainderExact | l1_wakeword/daemon.py:187-194 | The normalised remainder followed by the variant is the normalised text if and only if each of the words cut off keeps a character (or the text is nothing but the variant). |
| StopPhrase.DashShiftsTheCut | l1_wakeword/daemon.py:229-232 | After "go that's it -" the remainder is "go that's". |
| StopPhrase.NeverStopAndHold | l1_wakeword/daemon.py:197-233 | No text matches both a stop and a hold phrase. |
| StopPhrase.NormalizeIgnores | l1_wakeword/daemon.py:187-194 | Neither punctuation nor the case of a letter changes what a text normalises to. |
| StopPhrase.NormalStays | l1_wakeword/daemon.py:187-194 | Small words with single spaces between them normalise to themselves. |
| StopPhrase.KeepsTable | l1_wakeword/daemon.py:192 | What survives normalisation: letters, digits, the underscore, the apostrophe and white space. |
| Text.LowerTable | l1_wakeword/daemon.py:191 | Capitals become the small letters of the same place in the alphabet; nothing else changes. |
| Text.SpaceTable | l1_wakeword/daemon.py:193 | White space is tab to carriage return, the four separators and the space. |
| Dictation.DictationSession.Feed | l1_wakeword/daemon.py:589-598 | One frame is pushed once; a chunk that comes out is transcribed, logged and, if it passes, appended. |
| Dictation.DictationSession.FlushFinal | l1_wakeword/daemon.py:600-606 | What is still buffered is transcribed and logged. |
| Dictation.DictationSession.StripStopPhrase | l1_wakeword/daemon.py:608-634 | The last chunk and its record are replaced by the remainder, or emptied. |
| Dictation.DictationSession.SilenceExceedsSafetyNet | l1_wakeword/daemon.py:510-534 | Silence is measured against 50 s, 10 s or 2.7 s: 1563, 313 or 85 frames. |
| Dictation.FeedKeeps | l1_wakeword/daemon.py:543-598 | One more frame keeps the transcript equal to the kept texts of the log, and each record where its audio lies in the feed, disjoint and increasing. |
| Dictation.FlushKeeps | l1_wakeword/daemon.py:600-606 | So does the final flush. |
| Dictation.StripKeeps | l1_wakeword/daemon.py:608-634 | So does stripping the stop phrase. |
| Controller.LiveController.OnFrame | l1_wakeword/daemon.py:1055-1139 | The controller's whole new state after a frame is the specification's, and a session exists exactly while capturing. |
| Controller.LiveController.ArmCancel | l1_wakeword/daemon.py:996-1010 | Arms only from idle, and otherwise changes nothing. |
| Controller.Simulate | l1_wakeword/daemon.py:805-909 | The simulation's loop hands on what its specification does; the assertion in strip_stop_phrase holds where it is called. |
| ControllerRuns.EveryRunFits | l1_wakeword/daemon.py:1012-1139 | Over every run, cancel windows included: a session exists exactly while capturing; every transcript handed on is what its log kept; every record names where its audio lies in the stream. |
| ControllerRuns.WakeModelContiguous | l1_wakeword/daemon.py:1012-1139 | The frames given to the wake model since its last reset are contiguous in the stream; while idle they are its latest. |
| ControllerRuns.LiveAgreesWithSimulation | l1_wakeword/daemon.py:818-889 | Without cancel windows the live controller and the simulation hand on the same transcripts, reset the wake model at the same frames and are in the same state, though they spend the hold at different points. |
| ControllerRuns.TextKeeps | l1_wakeword/daemon.py:1085-1112 | A transcribed chunk, stopping or not, leaves the session in step with its log, and the stripped chunk is the one just appended. |
| Hearing.RunningTells | l1_wakeword/daemon.py:543-598 | In every reachable state the log of a running dictation has one record for each chunk let through since it began, in order, with its audio, the text the transcriber made of it, and kept exactly if it passed. |
| Hearing.LogIsComplete | l1_wakeword/daemon.py:543-598 | The audios of such a log are exactly the audios the chunker let through. |
| WholeReports.EveryReportWhole | l1_wakeword/daemon.py:1055-1125 | Over every run every transcript handed on is whole: it joins what its log kept; the log has every chunk let through, placed where it was in the stream; and it ends with what a stop variant left of its text, or with what the final flush let through. |
| WholeReports.SilenceTellsAllKept | l1_wakeword/daemon.py:600-606 | A dictation that ended in silence has logged all kept audio, the final flush included. |
| WholeReports.EndOfFileIsWhole | l1_wakeword/daemon.py:891-896 | What the simulation hands on for a recording that ends mid-dictation is whole, and one more report. |
| Hearing.StopEnds | l1_wakeword/daemon.py:1085-1112 | From any reachable capturing state, a text in a chunk closed by a pause that ends with a stop variant makes the controller idle, without a session and with the wake model reset, and hands on exactly one more transcript: the earlier chunks and the remainder. |
| Hearing.OtherTextGoesOn | l1_wakeword/daemon.py:1085-1112 | Any other text is appended and the dictation goes on, held if and only if the chunk was closed by a pause and the text ends with a hold variant; a near miss is marked only then. |
| Hearing.SilenceDecides | l1_wakeword/daemon.py:1113-1123 | A frame without a text ends the dictation if and only if the silence has reached 50 s with a hold, 10 s before any text and 2.7 s otherwise; then the flushed rest is handed on. |
| Hearing.WakeDecides | l1_wakeword/daemon.py:1068-1084 | While idle every frame goes to the wake model, which is not reset, and a new dictation begins if and only if the wake word is scored and verified. |
| Hearing.PrerollIsRecent | l1_wakeword/daemon.py:1059-1066 | What a wake word is verified against is the last 62 frames heard outside cancel windows since the last dictation began. |
| Silence.SilenceEndsDictation | l1_wakeword/daemon.py:510-534 | From any reachable capturing state without a hold, 334 silent frames (106 once something is transcribed) end the dictation, unless a chunk closed on the way arms a hold. |
| Silence.EndsExactly | l1_wakeword/daemon.py:510-534 | With too little speech waiting to be transcribed it ends with exactly the frame the countdown says, so that both bounds are met. |
| Silence.HoldLimitUnreachable | l1_wakeword/daemon.py:510-534 | In every reachable state the silence run is at most 937 frames; so whatever the next frame of a held dictation is, unless a transcript comes out of it, the dictation goes on, held and with the transcript it had. |
| Silence.HoldOutlastsSilence | l1_wakeword/daemon.py:506-534 | Over any events from any reachable held state, the dictation is still held with the transcript it had, unless a transcript came out of one of them. |
| Silence.SilenceLeavesHoldAlone | l1_wakeword/daemon.py:506-534 | From a hold with no speech waiting, any number of silent frames leave the log as it was, too. |
| Silence.HoldStartsWithoutSpeech | l1_wakeword/daemon.py:1089-1097 | A chunk that arms a hold leaves no speech waiting. |
| CancelWindow.ReplyIsTrue | l1_wakeword/daemon.py:1149-1174 | In every run an answer tells whether the window of the last request accepted before it was hit. If none was accepted since its own, it says cancelled if and only if, in the whole run, some frame after the request and before its deadline hit, and not cancelled only once the deadline is past. |
| CancelWindow.ReplyRightIff | l1_wakeword/daemon.py:996-1010 | An answer is right for its own window if and only if no other request was accepted in between, or the last one's window came out the same. |
| CancelWindow.EveryRequestHandled | l1_wakeword/daemon.py:1149-1167 | Every request has a handler of its own: refused exactly when the controller was not idle, answered at once if unreadable, and otherwise waiting or answered for the deadline it asked for. |
| CancelWindow.OverlapLosesCancel | l1_wakeword/daemon.py:996-1010 | Two overlapping requests: the first window is hit and answered with not cancelled. |
| CancelWindow.AnsweredInTime | l1_wakeword/daemon.py:1169-1174 | A handler that polls at least every d still waits no later than d past the moment it gives up, 0.5 s after its deadline (or past its request, if that is later). |
| CancelWindow.HandshakeRunsController | l1_wakeword/daemon.py:1141-1178 | Under every interleaving of handlers the controller goes through one of its own runs; it captures exactly while a session exists. |
| CancelWindow.ListenForCancel | l4_controller/cancel_listener.py:54-72 | A missing socket, a failure or an unreadable answer means no window; otherwise the answer is what all pieces together say. |
| CancelWindow.AnyCutGathers | l4_controller/cancel_listener.py:63-68 | An answer cut in two is gathered to the same answer, and a failure to nothing. |
| CancelWindow.ClientLearnsOutcome | l4_controller/cancel_listener.py:54-72 | However an answer is cut into pieces: an available window means exactly that an answer arrived whole; it says cancelled exactly when the window was hit, unless another request was accepted in between; a refused request always means no window. |
| CancelWindow.SpeakWithCancelWindow | l4_controller/say_feedback.py:280-309 | Without a window the text alone is spoken and nothing is unavailable; with one, the hint is spoken, the client's result is returned, and a window that was not real is announced. |
| ReturnQueue.SortedIsStableSort | l4_controller/return_queue.py:224-228 | Sorting is a permutation, ordered by tier and then time, and stable. |
| ReturnQueue.StableSortUnique | l4_controller/return_queue.py:224-228 | There is only one stable sort of a list. |
| ReturnQueue.TierThenArrival | l4_controller/return_queue.py:224-228 | Of items that arrived in order, the blocked questions come first and then the completions, each in order of arrival. |
| ReturnQueue.SortedIdempotent | l4_controller/return_queue.py:319-334 | Sorting again when composing the text changes nothing. |
| ReturnQueue.NothingRemains | l4_controller/return_queue.py:366-368 | What is left by removing the taken keys from the same file is nothing. |
| ReturnQueue.Queue.Enqueue | l4_controller/return_queue.py:285-309 | Appends the stripped text with its time, or refuses the wrong kind or an empty text. |
| ReturnQueue.Queue.FlushNow | l4_controller/return_queue.py:337-379 | The file is empty afterwards and all of it was spoken as one utterance in (tier, arrival) order, a sentence for each item: its stripped text, with a full stop unless it ends in one of . ! ?; urgent if and only if a blocked question is in it. |
| ReturnQueue.TextsAreSpoken | l4_controller/return_queue.py:319-334 | Every text taken stands in the utterance whole, and they stand one after the other. |
| ReturnQueue.Queue.JarvisSay | l4_controller/tools_voice.py:99-169 | Refuses exactly an unknown kind or an empty message; otherwise the text, at most 301 characters, is queued or spoken, never dropped. |
| ReturnQueue.SaidIsClean | l4_controller/tools_voice.py:128-160 | The queue cannot refuse what jarvis_say passes on: stripping it again changes nothing. |
| ReturnQueue.SaidMeaning | l4_controller/tools_voice.py:128-139 | A message of up to 300 characters is said as it is, stripped; of a longer one the first 300 characters, without white space at their end, and a full stop. |
| Text.StripMeaning | l4_controller/tools_voice.py:128 | Stripping takes white space from both ends and nothing else. |
| ReturnQueueRuns.EveryRun | l4_controller/return_queue.py:285-379 | Under every interleaving of any number of threads and crashes: one thread holds the lock, what it read is what the file holds, the batches and then the file are the arrivals in order, and each batch is spoken, lost or owed by exactly one thread. |
| ReturnQueueRuns.ItemsConserved | l4_controller/return_queue.py:302-368 | Every enqueued item is either still queued or in a batch: as multisets, enqueued = queued + taken. |
| ReturnQueueRuns.FlushTakesAll | l4_controller/return_queue.py:352-368 | While the lock is held, the remainder to be written is empty. |
| ReturnQueueRuns.SpokenExactlyOnce | l4_controller/return_queue.py:352-377 | No batch is spoken twice; once nobody owes one and nobody died between writing and speaking, each was spoken exactly once. |
| ReturnQueueRuns.NothingLost | l4_controller/return_queue.py:368-377 | Only a thread that dies between writing the remainder and speaking loses a batch. |
| ReturnQueueRuns.LockIsLetGo | l4_controller/return_queue.py:144-189 | In every reachable state, crashes included, the lock is free or its holder is alive and lets go of it within four steps of its own. |
| ReturnQueueRuns.AddsAlone | l4_controller/return_queue.py:285-309 | A thread nobody interrupts adds its stripped item at the end of the file, or does nothing if its kind or text is refused. |
| ReturnQueueRuns.FlushesAlone | l4_controller/return_queue.py:352-377 | A thread nobody interrupts takes the whole file as one batch in speaking order, leaves it empty and speaks the batch. |
| ReturnQueueRuns.BatchOrder | l4_controller/return_queue.py:224-228 | If the clock does not go back, each batch is a stretch of consecutive arrivals, blocked questions first, each kind in arrival order. |
| ReturnQueueHold.ReadyToFlush | l4_controller/return_queue.py:382-435 | Speaks if and only if some item has waited 12 s, or nobody is mid-sentence and every item has waited 2.5 s. |
| ReturnQueueHold.HoldIsBounded | l4_controller/return_queue.py:382-446 | If after an arrival or a tick the next tick is at most D away, no item queued or being taken is as old as 12 s + D, whatever the wake file says and however often arrivals restart the settling. |
| Speech.EveryRun | l4_controller/say_feedback.py:121-217 | Under every interleaving: at most one worker, numbers given out once and in each caller's order, no item served twice, the least served first, and listeners armed only for items started, logged and served. |
| Speech.OneAtATime | l4_controller/say_feedback.py:138-150 | The double-checked start never makes a second worker, so two items never play at once. |
| Speech.NoOvertaking | l4_controller/say_feedback.py:153-166 | No item is served twice, and none is served before one that was waiting and has a lower priority number, or the same and a lower sequence number. |
| Speech.ThreadOrderKept | l4_controller/say_feedback.py:215-217 | What one thread submits at one priority is spoken in the order it was submitted. |
| Speech.LeastExists | l4_controller/say_feedback.py:164-165 | While something waits, there is a least item to serve. |
| Speech.AskedIsQueued | l4_controller/say_feedback.py:215-228 | Nothing asked for is lost, changed or made up: what a caller has in the queue, in order, and then what it is about to queue is what it asked for. |
| Speech.ServedIsSpoken | l4_controller/say_feedback.py:153-180 | Every item served has been spoken to its end, or a worker is at it, or a worker failed on it. |
| Speech.SpokenWasStarted | l4_controller/say_feedback.py:165-176 | Nothing is spoken to its end before it was logged and, if it has a window, its start signalled. |
| Speech.ServesToTheEnd | l4_controller/say_feedback.py:163-180 | An idle worker that takes the least item logs it, signals its start and speaks it, if left alone. |
| Speech.ArmsAfterItsOwnItem | l4_controller/say_feedback.py:287-301 | A listener arms only after its own item was taken off the queue and logged. |
| Speech.FailureBeforeStartNeverArms | l4_controller/say_feedback.py:166-180 | If a worker fails on an item before signalling its start, the item's listener never arms, however the run goes on. |
| Speech.StartedOrFailed | l4_controller/say_feedback.py:153-180 | In every run, an item with a window that was served has been signalled, or a worker is about to signal it, or a worker failed when it was. |
| Speech.NeverArmsIff | l4_controller/say_feedback.py:153-180 | In every run, an item with a window has left the queue and the worker without ever being signalled if and only if a worker failed on it before signalling its start. |
| Speech.FailureIsReached | l4_controller/say_feedback.py:163-180 | A run of ten steps reaches that failure. |
| PaneStates.ReadyMeaning | l4_controller/pane_state.py:183-294 | A pane counts as ready if and only if nothing on it asks, works or covers it and its last prompt is empty or holds dimmed text. |
| PaneStates.ClassifyMeaning | l4_controller/pane_state.py:183-240 | When each verdict is given: permission before question before busy, in the last ten lines that are not blank; then a view anywhere; then a prompt that holds nothing. |
| PaneStates.NonBlankMeaning | l4_controller/pane_state.py:188 | The lines that are looked at are those that are not blank. |
| PaneStates.AnsiKeepsVerdict | l4_controller/pane_state.py:270-275 | With escape codes only ready and unknown are looked at again. |
| PaneStates.AfterGlyphMeaning | l4_controller/pane_state.py:279-286 | What is looked at is what follows the last glyph, up to the end of its line. |
| PaneStates.PromptMeaning | l4_controller/pane_state.py:225-231 | The prompt line is the last of those lines that starts with the glyph. |
| Transport.NoEnterInside | l4_controller/transport.py:384-390 | What is typed contains no line break. |
| Delivery.CollapseMeaning | l4_controller/transport.py:384-390 | A run of line breaks becomes one space, and everything else stays. |
| Delivery.SlashMeaning | l4_controller/slash_guard.py:90-121 | A command is refused if and only if it is blocked, or known neither in general nor for the target; it opens a view if and only if it is known to. |
| Transport.Pane.DeliverLocked | l4_controller/transport.py:378-436 | What a delivery does to the trace of captures and keys, and its result, are the specification's. |
| Transport.Pane.RecoverStuckView | l4_controller/transport.py:314-365 | Four looks, positive identification, one Escape, six looks; announced exactly when a key was sent. |
| Transport.Pane.HandleReadonlyView | l4_controller/transport.py:438-492 | Six looks for the view, its text, one Escape, six looks for a ready pane. |
| Transport.Pane.HandleBusyTolerantView | l4_controller/transport.py:653-735 | The same by the view's own marker, with up to ten looks for a pending answer. |
| Transport.Pane.AnswerBlockedQuestionLocked | l4_controller/transport.py:533-572 | One option key after one look that showed the question. |
| Transport.Pane.ApprovePermissionPromptLocked | l4_controller/transport.py:614-651 | The key 1 after one look that showed the prompt. |
| Delivery.ReadyPaneGetsPayload | l4_controller/transport.py:399-436 | A live pane that is ready at the first look gets every payload that is no command: exactly one look, the payload and Enter, and ok. |
| Delivery.BusyPaneGetsTolerated | l4_controller/transport.py:405-421 | A busy pane gets a command that may be queued, in the same way. |
| Delivery.RefusedIff | l4_controller/transport.py:379-413 | When each refusal comes: no session; a refused command; and the state of the pane if and only if the last look shows it neither ready nor busy with /compact or /btw, and it names that state. |
| Delivery.NotRefusedIsTyped | l4_controller/transport.py:415-436 | A delivery that is not refused types its payload and enters it, unless the terminal multiplexer fails. |
| Delivery.GateMeaning | l4_controller/transport.py:399-404 | There is one look, and if the pane is covered by a view another after the recovery. |
| Delivery.RecoverMeaning | l4_controller/transport.py:341-365 | A view that was open already is escaped from, and that announced, if and only if four more looks all show it and its text is that of a known one; dismissed says that one of six looks showed the pane ready. |
| Delivery.ReadonlyViewMeaning | l4_controller/transport.py:460-492 | Not opened if and only if none of six looks shows the view; else its text is the answer, and ok says that one of six looks after the Escape showed the pane ready. |
| Delivery.BusyViewMeaning | l4_controller/transport.py:688-735 | The same by the marker. |
| Delivery.SettleMeaning | l4_controller/transport.py:706-712 | The answer is the last reading that showed the marker; waiting ends when it is not pending, when the view is gone, or after ten readings. |
| Delivery.AskingPaneGetsKey | l4_controller/transport.py:533-572 | A live asking pane gets its option's number after one look, and every other case names what is missing; ok says that one of six later looks no longer shows it asking. |
| Delivery.DeliveryTruthful | l4_controller/transport.py:378-436 | Every capture of a delivery is what the pane shows at that moment. |
| Keystrokes.DeliveryAllowed | l4_controller/transport.py:378-436 | Whatever the pane shows, a delivery does only what is allowed, in at most 39 events; its result says whether the payload was entered; a refusal for the pane's state means nothing was typed. |
| Keystrokes.RecoverAllowed | l4_controller/transport.py:314-365 | The healing Escape is sent only after five looks at a covered screen and the text of a known view. |
| Keystrokes.ReadonlyViewAllowed | l4_controller/transport.py:438-492 | An Escape follows only a look that showed the view; ok means that the pane was ready again. |
| Keystrokes.BusyViewAllowed | l4_controller/transport.py:653-735 | An Escape follows only if the marker was seen since Enter; ok means that the marker was gone. |
| Keystrokes.PressAllowed | l4_controller/transport.py:533-651 | Answering and approving press at most one key, after a look that showed the question; ok means that it was gone later. |
| Keystrokes.KeysOfCall | l4_controller/transport.py:378-651 | The keys of a call are [Esc] [payload [Enter [Esc]]] or one option key. |
| Keystrokes.EscapeAfterViewIsGone | l4_controller/transport.py:714-720 | When the view closes while its answer is pending, the Escape is sent to a pane last seen without it. |
| Keystrokes.EscapeSeesView | l4_controller/transport.py:706-720 | The look before that Escape shows the view if and only if no look of the wait found it gone. |
| KeystrokeRuns.EveryRun | l4_controller/transport.py:38-47 | Under every interleaving of calls of the code, each doing next what `DeliverSpec` or `PressSpec` does next and stopping early or returning: each target has one lock, one thread is inside for it at most, and its trace is whole calls and the beginning of one. |
| KeystrokeRuns.KeysAreWholeBlocks | l4_controller/transport.py:367-376 | Calls that are over lie end to end in their target's trace; each did what the code does, all of it and with the code's result unless it stopped early, with keys of the allowed shape only. |
| KeystrokeRuns.EveryKeyJustified | l4_controller/transport.py:378-651 | For every interleaving of calls of the code and every target: a payload comes right after a look that showed the pane ready (or busy with /compact or /btw), an option's number right after one that showed a question or, for 1, a permission prompt, Enter right after a payload, and Escape right after a reading. |
| Keystrokes.TypedAfterLook | l4_controller/transport.py:399-421 | A payload that a delivery types is the normalised one, and is typed right after a look that showed the pane ready, or busy with /compact or /btw. |
| KeystrokeRuns.CallRunsInside | l4_controller/transport.py:367-376 | Under every interleaving, what a thread inside has done is the beginning of what the code does alone from where it started, and no other thread touches its target meanwhile. |
| KeystrokeRuns.CallCompletes | l4_controller/transport.py:367-376 | A call to a target nobody holds, by a thread nobody interrupts, does all that the code does and returns its result. |
| Picker.ParseBlockedQuestion | l4_controller/providers.py:95-158 | The loops compute the specification of the reading. |
| Picker.ParseUndoesRender | l4_controller/providers.py:126-158 | Reading a drawn picker gives exactly its question and options, in order, if and only if no line of a description is numbered. |
| Picker.RenderReads | l4_controller/providers.py:126-158 | What is read in any case: the question, and each option followed by the numbered lines of its description. |
| Picker.ScreenReads | l4_controller/providers.py:126-158 | The same of its whole screen as one text. |
| Picker.NumberedDescriptionShifts | l4_controller/providers.py:146-156 | A numbered description line is read as an option; the option that shows 2 is then read third. |
| BlockedAnswer.MatchOption | l4_controller/blocked_answer.py:73-96 | The loop finds the number of the match, or none. |
| BlockedAnswer.TheMatchMeaning | l4_controller/blocked_answer.py:73-96 | An option is chosen if and only if it is the only one that matches. |
| BlockedAnswer.MatchesMeaning | l4_controller/blocked_answer.py:82-92 | An option matches if and only if one of the two texts stands in the other and neither is shorter than three characters. |
| BlockedAnswer.NormOfWords | l4_controller/blocked_answer.py:83-87 | Small words with single spaces between them are compared as they are. |
| BlockedAnswer.AddressedMeaning | l4_controller/blocked_answer.py:119-128 | Without a target every pending question is meant; with one, exactly those whose team or terminal it names. |
| BlockedAnswer.KeyIsNumberShown | l4_controller/blocked_answer.py:140-167 | For a well-formed picker, the key sent is the number shown beside the matching choice and beside no other. |
| BlockedAnswer.KeySelectsOption | l4_controller/transport.py:547-553 | The keys sent for option n select option n if and only if n is at most 9. |
| BlockedAnswer.AnswerSendsOneOption | l4_controller/transport.py:533-572 | One answer sends at most one option. |
| BlockedAnswer.BlockedState.PendingQuestions | l4_controller/providers.py:173-210 | Exactly the questions of live sessions are returned, and exactly the others are dropped from the record. |
| BlockedAnswer.BlockedState.MarkBlocked | l4_controller/blocked_state.py:50-66 | Starts an episode, and says so, exactly if there is none; otherwise the first one stands. |
| BlockedAnswer.BlockedState.AnswerBlockedSession | l4_controller/blocked_answer.py:99-190 | A key is sent if and only if one session is addressed, one option matches and the session is still pending; no other pane is touched; the record is cleared exactly when the answer was confirmed. |
| BlockedAnswer.EpisodeIsFirstMark | l4_controller/blocked_state.py:50-85 | What is recorded for a session is what the first mark since the last clear said, whatever was done to others. |
| DispatchStore.Store.MarkDispatchForwarded | l4_controller/dispatch_state.py:84-94 | Writes a fresh record for its own dictation only. |
| DispatchStore.Store.MarkDispatchComplete | l4_controller/dispatch_state.py:97-118 | Closes its own record, keeping when it was forwarded. |
| DispatchStore.Store.MarkDispatchFailed | l4_controller/dispatch_state.py:121-143 | Marks its own record failed, keeping when it was forwarded. |
| DispatchStore.Store.HealAndMaybeWrite | l4_controller/dispatch_state.py:217-234 | Returns every record healed, and writes only if something was healed or migrated. |
| DispatchStore.Store.AnyForwarded | l4_controller/dispatch_state.py:203-214 | True if and only if some record is still forwarded once healed. |
| DispatchStore.Store.LatestDispatch | l4_controller/dispatch_state.py:185-192 | None without records; otherwise a record no other is more recent than. |
| DispatchStore.LazyRefinesEager | l4_controller/dispatch_state.py:84-234 | With a clock that does not go back, what is read for a dictation is a function of its own writes and the time, however often and whenever anything was read. |
| DispatchStore.ForwardedForThreeMinutes | l4_controller/dispatch_state.py:79-94 | A dispatch forwarded and not heard of since is read as forwarded up to and including 180 s, and as abandoned after that. |
| DispatchStore.ForwardedIsFresh | l4_controller/dispatch_state.py:84-94 | A forwarded dispatch is a fresh record, whatever was there before. |
| DispatchStore.CompleteStays | l4_controller/dispatch_state.py:97-118 | A completed dispatch is read as complete at any later time, with its summary and time, keeping when it was forwarded and its note, and is not in flight. |
| DispatchStore.FailedStays | l4_controller/dispatch_state.py:121-143 | A failed dispatch is read as failed with its reason, and is not in flight. |
| DispatchStore.ReportChangesNote | l4_controller/dispatch_state.py:146-156 | A report changes the note and nothing else. |
| DispatchStore.OldShapeIsRead | l4_controller/dispatch_state.py:237-256 | A record of the old shape is read under its own reference or a fixed one; an unusable file reads as empty. |
| DispatchStore.AnyForwardedIsEager | l4_controller/dispatch_state.py:203-214 | Whether anything is in flight has the eager answer. |
| DispatchStore.ReadingIsIdempotent | l4_controller/dispatch_state.py:217-256 | Reading twice changes no more than once, and a migrated file stays migrated. |
| Handoff.WriteDictation | l4_controller/l2_l3_handoff.py:188-199 | Terminates with the first name that is free, and writes the text there. |
| Handoff.RefsNeverShared | l4_controller/l2_l3_handoff.py:188-199 | Handoffs one after the other never share a reference. |
| Handoff.PointerIsPlain | l4_controller/l2_l3_handoff.py:373-400 | Whatever was dictated, the message starts with the same word, is no command, and is never typed into a busy pane. |
| Handoff.PointerHolds | l4_controller/l2_l3_handoff.py:384-400 | The message holds the whole dictation if it has at most 1200 characters, and always where its file is. |
| Handoff.ReasonsDiffer | l4_controller/l2_l3_handoff.py:414-424 | The reason in the record tells which failure it was. |
| Handoff.Desk.DeliverTranscript | l4_controller/l2_l3_handoff.py:210-424 | A result without a delivery has spoken and left pane and record alone; ok leaves the reference forwarded; not ok leaves it failed and has spoken. |
| Handoff.RecordTellsOutcome | l4_controller/l2_l3_handoff.py:401-424 | The record says forwarded or failed as the delivery went, and other dictations' records are untouched. |
| Handoff.DeliveredIsTyped | l4_controller/l2_l3_handoff.py:401-424 | The handoff is ok if and only if its message was typed and entered. |
| Batch.DeliverBatch | l4_controller/tools_write.py:82-217 | One result for each instruction, in order; as many failures as results not ok; at most 3 retries and 9 s of sleep, and each instruction may be retried exactly while fewer than three were; while the cancel socket is down nothing is done to a session that is not a test target; what is spoken is a turn for each instruction, about its own target and ending with how it went, and then the summary; the dispatch is recorded complete; no session is typed more payloads than instructions for it; each attempt lies in its own span of its session's trace, in turn, and an ok result means that the payload was typed and entered there. |
| Batch.OkWasEntered | l4_controller/tools_write.py:144-165 | An instruction whose result is ok was typed and entered within its own span. |
| Batch.DeliverOne | l4_controller/tools_write.py:114-197 | A refused instruction touches no pane; a delivered one only its own, by exactly one attempt, repeated only when busy and allowed; it is spoken of by its own target. |
| Batch.PayloadTypedOnce | l4_controller/tools_write.py:144-155 | However often a delivery is tried, its payload is typed at most once, and exactly once if it went through. |
| Batch.AttemptMeaning | l4_controller/tools_write.py:144-155 | A delivery is repeated if and only if it may be and the pane was busy; then the second time decides. |
| Batch.BusyOnceIsDelivered | l4_controller/tools_write.py:144-155 | A pane that is busy at the first look and ready at the second gets its payload. |

## Left out

- Exceptions from the transcriber, from files and from the terminal multiplexer, except where the code catches them; in `KeystrokeRuns` a call may stop at any point instead.
- Characters beyond ASCII: white space, digits, lower case and word characters are those of ASCII, and a screen is split into lines at line feeds only.
- Positions in seconds rounded to two digits in the chunk log, and the prompts, timings and wave files recorded there.
- Verification of the wake word, the near-miss similarity, pattern lists of the hallucination filter and of the screen classifier, and view parsers: arbitrary functions.
- VadChunker.ChunkPcm: ranges are in frames; the code's last range ends with the recording, which may hold less than a frame more.
- Silence.SilenceEndsDictation: a chunk closed on the way may arm a hold; then the dictation goes on, as the code has it.
- Repetition.HasDegenerateRepetition: the words are given already split and in lower case; FilterTranscript splits them.
- CancelWindow: an answer that is JSON but not an object makes the client raise an exception; readers that cannot happen with this server are not modelled.
- ReturnQueueRuns.SpokenExactlyOnce: spoken means handed to the speech service of the thread's process; what that process still had to play when it dies is not counted.
- ReturnQueueHold.HoldIsBounded: a tick, its reading of the queue and its flush are one step.
- Speech: synthesis, the fallback voice and mute mode.
- Transport: waiting times, messages spoken about a recovered view, and the lookup of friendly names.
- BlockedAnswer.BlockedState.AnswerBlockedSession: the record of blocked sessions is changed by this call alone while it runs.
- DispatchStore: concurrent writers of the file, which takes no lock; each operation is atomic. Which of several equally recent records dispatch_state() returns.
- Handoff: a router that completes a dispatch while its handoff is still running.
- Picker.ParseUndoesRender: a description with a numbered line that reads "Type something." itself, which ends the reading there.
- Batch: the identity check of a restarted session, which may itself type a command, is an answer of the surroundings.
- The console, server registration, team discovery, the concierge, instant acknowledgements and latency logs.

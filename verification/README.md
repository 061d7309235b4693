# A verified model of the desktop shell's core

The desktop shell in `maddog/desktop` hand-writes a number of protocols, caches,
pagers and file operations. This project models them in Dafny and proves what they
are there for. `dafny verify dfyconfig.toml` checks everything.

State that the source updates in place is a class whose methods keep the source's
loops and early returns. Each method is proved against a specification function,
and the properties are lemmas about those functions: over every input, every run, or
every interleaving of steps. Concurrent parts are step systems in which each critical
section is one atomic step and any number of callers interleave.

## What is modelled

| file | subject |
|---|---|
| `HistoryPaging.dfy`, `HistoryShown.dfy`, `HistoryPager.dfy` | rendering a transcript and paging it, before or after rendering; what pages and bubbles hold |
| `Autosave.dfy` | the per-tab snapshot loop and its teardown |
| `RuntimeEmitter.dfy` | the asynchronous event queue |
| `TabsFile.dfy` | versioned writes of the tab file |
| `SessionListCache.dfy` | the listing cache and its version tokens |
| `SessionTrash.dfy`, `SessionRoundTrip.dfy`, `SessionEffects.dfy`, `SessionStore.dfy` | trashing and restoring sessions, step by step, and what comes of it |
| `PromptTape.dfy` | the lazily loaded prompt history |
| `Calendar.dfy`, `Gregorian.dfy`, `WeeklySearch.dfy`, `Heartbeat.dfy`, `HeartbeatIntervals.dfy`, `HeartbeatFlights.dfy`, `HeartbeatRepeats.dfy`, `FreshTopics.dfy`, `TopicCallers.dfy` | the scheduler: calendar searches, due decisions, runs, merging, fresh conversations, ticks and triggers at the same time |
| `MediaTokens.dfy` | the expiring media tokens |
| `Utf8Clip.dfy` | cutting UTF-8 text |
| `TabOrder.dfy`, `TabRuntimes.dfy`, `TabInvariant.dfy`, `TabRuns.dfy`, `TabBuilds.dfy`, `TabRegistry.dfy` | open tabs, their order, the controllers behind them and the leases of their sessions |
| `StringLists.dfy`, `ProjectsFile.dfy`, `ProjectTree.dfy` | the projects file and the order of the project tree |
| `Download.dfy` | the resumable download |
| `GitStatus.dfy` | the parser of `git status --porcelain -z` |
| `Common.dfy` | shared vocabulary |

## Where the code differs from what it promises

* `quiesceTabAutosave` is documented to leave no snapshot running. During a tab's
  first iteration it returns at once, because `saveCond` does not exist yet
  (tabs.go:2529-2534, 2557). `Autosave.TeardownPromiseExactly` says in which states
  the promise holds, and `Autosave.SnapshotAfterTeardown` is a run that breaks it.
* Cutting a transcript before rendering it is meant to give the page that rendering it
  first gives. A prompt that is repeated with different planner records breaks this;
  `HistoryPaging.PagingIsExactWhenRepeatsAgree` is the exact condition.
* The monthly search goes back with `AddDate(0, -1, 0)`, which normalises into the same
  month when the previous one is shorter. `Calendar.PreviousMonthlyExactly` gives the
  condition, `Gregorian.MonthlySearchCanMiss` a date on which it fails.
* A weekly schedule whose only day is today, before its time, yields no occurrence, and
  the decision then falls through to the plain interval. `Heartbeat.DueWithoutOccurrence`
  shows a run without an occurrence. `Heartbeat.DueExactly` covers every state of a
  calendar task: it says when being due is what it should be and when it is not.
* Weeks are counted through a saturating duration, so an anchor more than 15250 weeks
  away makes every week count as even (`WeeklySearch.BiweeklyExactly`,
  `WeeklySearch.FarAnchorMisleads`).
* A manual trigger works on a copy of the task and merges its stamp whatever happened
  meanwhile. One that is under way while a tick submits the task can put the old stamp
  back, and the occurrence is run for again (`HeartbeatFlights.LateTriggerRepeats`;
  `HeartbeatRepeats.SubmittedTwiceExactly` is the exact condition).
* Dropping the in-memory guard of a fresh-conversation task while its conversation runs
  lets the next one overlap it (`FreshTopics.OverlapExactly`, `FreshTopics.PruningForgets`),
  and so does letting in an execution before another has noted its submission
  (`TopicCallers.EarlyLookOverlaps`, `TopicCallers.TwoCallersOverlap`).
* A refused restore that first discarded an empty live session has changed the directory
  (`SessionRoundTrip.ConflictIsCleanExactly`, `SessionRoundTrip.ConflictAfterDiscard`).
* Normalising the projects file is not idempotent: a root is trimmed before it is cleaned,
  so "/a /" becomes "/a " and then "/a" (tabs.go:2917-2926). `ProjectsFile.NormalizingTwice`
  is the exact condition, `ProjectsFile.UnsettledRoot` the instance.
* A tab on a session whose runtime is parked or open elsewhere is meant to take that
  runtime over (tabs.go:359-411; desktop/tabs_order_test.go:595-637 and 640-680 show it,
  with controllers that never took a lease). A build binds its own controller first, and the
  open runtime holds the session's lease, so the build is refused; when the lease is free,
  what the look finds does not run (`TabRuns.NeverReattached`).
* The end of a build does not look whether its tab has got a controller meanwhile. Turning
  a tab to another session while its first build is under way starts a second one, and the
  controller that comes first is lost with its lease (`TabRuns.RuntimesAreConserved`,
  `TabRuns.SecondBuildLoses`, `TabRuns.TwoBuildsForOneTab`).

## Model

| member | source | states |
|---|---|---|
| HistoryPaging.SlicingCommutesWithRendering | maddog/desktop/app.go:2971-3231 | for every transcript, request and checkpoint table, if each repeat of a prompt has the planner record of its first occurrence, the page cut before rendering has the messages, turn bounds, `HasOlder` and stamped checkpoint times of the page cut from the full rendered history |
| HistoryPaging.PagingIsExactWhenRepeatsAgree | maddog/desktop/app.go:3020-3130 | the two ways of paging agree on every request if and only if repeats of a prompt have the same planner record |
| HistoryPaging.DesktopPagesAreCutsOfTheFullHistory | maddog/desktop/app.go:3020-3130 | with the desktop's own renderer, prompts with distinct display keys and planner records without user entries, fast pages are cuts of the full history |
| HistoryPaging.DistinctKeysAgree | maddog/desktop/app.go:3083-3085 | prompts that never repeat satisfy the condition |
| HistoryPaging.RepeatedPromptDisagrees | maddog/desktop/app.go:3029-3085 | the same prompt sent twice with one planner record makes the two pages differ |
| HistoryPaging.RenderingIsShaped | maddog/desktop/app.go:3020-3090 | a visible user message renders to one user bubble first and nothing else renders to a user bubble, which is what turn counting relies on |
| HistoryPaging.CutAfterRender | maddog/desktop/app.go:2971-3012 | cutting the rendered history by turns is rendering message by message and keeping those whose turn is in range |
| HistoryPaging.StampCommutes | maddog/desktop/app.go:3132-3148 | stamping checkpoint times and cutting turns commute |
| HistoryPaging.WalkCoversHistory | maddog/desktop/app.go:2971-3012 | following `StartTurn` back from the newest page shows a history with a user turn exactly once, in order, for every page size |
| HistoryPaging.WalksAgree | maddog/desktop/app.go:3092-3130 | the walk over fast pages is the walk over full-history pages |
| HistoryPaging.ProviderWalkCoversHistory | maddog/desktop/app.go:3092-3130 | paging a transcript back to its start shows the whole rendered and stamped history once |
| HistoryPager.PlannerTurnsByUserHash | maddog/desktop/app.go:3222-3231 | the loop builds the queues by user digest |
| HistoryPager.HistoryMessagesWithLookups | maddog/desktop/app.go:3020-3090 | the rendering loop, with its planner queue consumed on the way, renders as specified |
| HistoryPager.VisibleHistoryUserTurns | maddog/desktop/app.go:3166-3174 | counts the visible user turns |
| HistoryPager.ProviderMessagesForVisibleTurnRange | maddog/desktop/app.go:3186-3207 | selects the window of turns together with the original index of each message kept |
| HistoryPager.CheckpointTurnsForProviderWindow | maddog/desktop/app.go:3209-3220 | remapped checkpoint turns belong to the same messages as before |
| HistoryPager.ApplyHistoryCheckpointTimes | maddog/desktop/app.go:3132-3148 | in place, gives each user bubble the time of its checkpoint and changes nothing else |
| HistoryPager.HistoryPageFromMessages | maddog/desktop/app.go:2971-3012 | the loops compute the specified page; it ends at the turn asked for, or the last, goes back as many turns as asked for (60 when none were, at most 200) or to the start, counts the user bubbles of the whole history, and holds one for each of its turns |
| HistoryPager.HistoryPageFromProviderMessages | maddog/desktop/app.go:3092-3130 | count, window, remap, render and stamp compute the specified fast page, of the same size: it counts the visible user messages of the transcript and holds one bubble for each in its range |
| HistoryShown.MessagesPageSized | maddog/desktop/app.go:2971-3012 | for every rendered history, turn and limit, the end, length and turn count of the page, with one user bubble for each turn |
| HistoryShown.ProviderPageSized | maddog/desktop/app.go:3092-3130 | for every transcript and request, the same for the page cut before rendering |
| HistoryShown.ProviderPageBubbles | maddog/desktop/app.go:3092-3130 | a page cut before rendering holds one user bubble for each of its turns |
| HistoryShown.DesktopPageSized | maddog/desktop/app.go:3092-3130 | both, with the desktop's own renderer |
| HistoryShown.WindowUsers | maddog/desktop/app.go:2985-3005 | a window of turns holds as many users as turns, wherever it lies in the history |
| HistoryShown.PromptShows | maddog/desktop/app.go:3020-3090 | a prompt shows as its resolved text with its checkpoint, and with the text sent if that was another one and no compiler block; a steer note as a notice; a synthetic prompt not at all |
| HistoryShown.AnswerShows | maddog/desktop/app.go:3233-3274 | an answer shows its text, reasoning, citations and tool calls in order; arguments in place only for a todo list or when nothing could fetch them |
| HistoryShown.ResultShows | maddog/desktop/app.go:3287-3306 | a tool result is shown in full when it cannot be fetched, clipped when it is a failure, and otherwise only announced |
| HistoryShown.StampShows | maddog/desktop/app.go:3132-3148 | a message without a time gets that of the last checkpoint at or before it, unless a prompt without a checkpoint has come since; nothing else changes |
| HistoryShown.QueuedUnder | maddog/desktop/app.go:3222-3231 | the planner turns queued under a digest are those recorded under it, in order, and none under a blank one |
| HistoryShown.RecordsFollow | maddog/desktop/app.go:3075-3089 | in the whole history every prompt is followed by the records of the planner turn of its own number among those under its digest |
| Autosave.SavingMeansOneLoop | maddog/desktop/tabs.go:2496-2577 | in every reachable state `saving` holds exactly when one snapshot loop is live, never two, and a sleeping teardown always has a loop that will wake it |
| Autosave.RequestIsServed | maddog/desktop/tabs.go:2496-2577 | while the tab is not closing, after every request an iteration starts or is still ahead of a live loop |
| Autosave.PendingIterationStarts | maddog/desktop/tabs.go:2543-2577 | a pending iteration starts within three steps of the loop, whatever requests interleave |
| Autosave.ClosingAllowsOneIteration | maddog/desktop/tabs.go:2524-2577 | once closing, no new loop starts and at most the iteration already due begins |
| Autosave.ClosedAndIdleForever | maddog/desktop/tabs.go:2496-2541 | closed with no loop live, no snapshot work ever happens again |
| Autosave.TeardownPromiseExactly | maddog/desktop/tabs.go:2518-2541 | after the teardown returns no snapshot work happens, exactly when on entry no loop was live, `saveCond` existed, or the first iteration only waited for its lock |
| Autosave.CondMeansIterated | maddog/desktop/tabs.go:2556-2559 | over every run, `saveCond` exists if and only if an iteration has ended |
| Autosave.SnapshotAfterTeardown | maddog/desktop/tabs.go:2529-2557 | a concrete run in which a write starts after the teardown returned |
| Autosave.WorkspaceTab.ScheduleTabSnapshot | maddog/desktop/tabs.go:2496-2516 | the request's critical section is the step of the system |
| Autosave.WorkspaceTab.QuiesceTabAutosave | maddog/desktop/tabs.go:2524-2541 | the teardown's critical section is the step of the system |
| Autosave.WorkspaceTab.FinishIteration | maddog/desktop/tabs.go:2556-2577 | the end of an iteration is the step of the system |
| RuntimeEmitter.EmitterIsFifo | maddog/desktop/tabs.go:818-888 | over every interleaving, delivered, in-flight and queued events together are the emitted ones in order minus those dropped by `Clear`; one runner at a time; the head stays within the compaction bound; compaction copies no more than was dequeued |
| RuntimeEmitter.AtMostOneLateDelivery | maddog/desktop/tabs.go:853-888 | after `Clear`, at most the one event in flight is still delivered from before it |
| RuntimeEmitter.RunnerDrains | maddog/desktop/tabs.go:861-888 | left alone, the runner delivers everything queued in order and stops |
| RuntimeEmitter.TakeRemoves | maddog/desktop/tabs.go:861-888 | taking an event, with or without compaction, removes exactly the first pending one |
| RuntimeEmitter.EmitAppends | maddog/desktop/tabs.go:835-851 | emitting adds exactly the event at the end |
| RuntimeEmitter.AsyncRuntimeEmitter.Emit | maddog/desktop/tabs.go:835-851 | the method is the step, including when it starts a runner |
| RuntimeEmitter.AsyncRuntimeEmitter.Take | maddog/desktop/tabs.go:861-888 | the method is the step, including compaction |
| RuntimeEmitter.AsyncRuntimeEmitter.Clear | maddog/desktop/tabs.go:853-859 | the method is the step |
| TabsFile.DiskHoldsNewestWritten | maddog/desktop/tabs.go:2735-2800 | over every interleaving of collects and failing writes, the file holds the state collected under the newest version written without error |
| TabsFile.VersionNeverDecreases | maddog/desktop/tabs.go:2776-2800 | the version on disk never goes down |
| TabsFile.NewestSnapshotStays | maddog/desktop/tabs.go:2776-2800 | once the newest snapshot is written, no late writer replaces it |
| TabsFile.WriteOrderIsIrrelevant | maddog/desktop/tabs.go:2735-2800 | two runs with the same snapshots and the same successful writes leave the same file, whatever the order |
| TabsFile.TabStore.SaveTabsCollectLocked | maddog/desktop/tabs.go:2744-2771 | collects the state under a new version |
| TabsFile.TabStore.SaveTabsWrite | maddog/desktop/tabs.go:2776-2800 | writes only a version newer than the last one, and records it only on success |
| SessionListCache.NoStaleListing | maddog/desktop/tabs.go:5530-5567 | over every interleaving, once an invalidation has returned every listing found has a token no older than it and was read from disk after all changes before it |
| SessionListCache.InvalidatedCacheIsCurrent | maddog/desktop/tabs.go:4698-4711 | if the last disk change was followed by an invalidation that returned, a lookup yields nothing or the current listing |
| SessionListCache.StaleBeforeClear | maddog/desktop/tabs.go:5550-5567 | between raising the version and taking the lock an old listing can still be stored and found |
| SessionListCache.ListCache.Put | maddog/desktop/tabs.go:5550-5560 | each of its critical sections is a step of the system the theorems are about; called alone, it is a run that ends with the listing found if its token was current, and with nothing changed if not |
| SessionListCache.ListCache.Invalidate | maddog/desktop/tabs.go:5562-5567 | its two sections are steps of the system; called alone, it is a run that ends with the returned invalidation the theorems speak of |
| SessionListCache.ListCache.Get | maddog/desktop/tabs.go:5536-5544 | finds what the step system finds |
| SessionListCache.ListCache.VersionToken | maddog/desktop/tabs.go:5546-5548 | hands a reader the token its step gives it |
| SessionTrash.ChecksRefuseAlike | maddog/desktop/sessions.go:193-255 | the dry check and the clearing check refuse in the same states for the same reason, and a refusal takes no step |
| SessionTrash.TrashKeepsTranscripts | maddog/desktop/sessions.go:296-337 | trashing, stopped after any number of steps, loses and duplicates no transcript with content |
| SessionTrash.RestoreKeepsTranscripts | maddog/desktop/sessions.go:381-439 | restoring, stopped after any number of steps, loses and duplicates no transcript with content |
| SessionTrash.TranscriptsAreConserved | maddog/desktop/sessions.go:193-439 | over any sequence of such operations, the transcripts with content of a session not marked cleanup-pending stay stored, once each, in its live and trash places together |
| SessionRoundTrip.TrashParks | maddog/desktop/sessions.go:296-337 | after any prefix of the trash steps that includes the transcript, exactly the artifacts moved so far are in the trash item and all others are where they were |
| SessionRoundTrip.RestoreUnparks | maddog/desktop/sessions.go:381-439 | from such a state with no live transcript a restore refuses nothing and puts every artifact back |
| SessionRoundTrip.RestoreUndoesTrash | maddog/desktop/sessions.go:296-439 | restoring after a trash that stopped anywhere past the transcript brings the directory back to what it was |
| SessionRoundTrip.ConflictIsCleanExactly | maddog/desktop/sessions.go:381-439 | a conflict refusal leaves the file system unchanged if and only if there was no live transcript |
| SessionRoundTrip.ConflictAfterDiscard | maddog/desktop/sessions.go:381-439 | whenever a discardable live session meets a subagent transcript of a listed name that it does not own, the restore is refused and the live session is gone |
| SessionEffects.TrashMoves | maddog/desktop/sessions.go:296-337 | told from the directory alone: with a readable live transcript and a free place in the trash, or one without a transcript file, a trash refuses nothing and moves the session's artifacts, the named subagent files and its raw results into its item, each gone from where it was, and nothing else |
| SessionEffects.TrashOutcome | maddog/desktop/sessions.go:193-337 | for every well-formed directory, which of nothing, a refusal without a change, a discard and a move a trash comes to |
| SessionEffects.DiscardLeavesNothing | maddog/desktop/sessions.go:257-279 | throwing a live session away removes all its artifacts, the named subagent files and its mark, and changes nothing else |
| SessionEffects.RestoreGivesBack | maddog/desktop/sessions.go:296-439 | in a tidy directory, by the same condition: a restore after a trash that stopped anywhere past the transcript gives the directory back without the item |
| SessionEffects.RestoreRefuses | maddog/desktop/sessions.go:381-439 | in a readable directory a restore is refused exactly for a live session worth keeping, which it leaves alone, or for a file in its way |
| SessionStore.SessionDirectory.TrashSessionArtifacts | maddog/desktop/sessions.go:296-337 | the method, with early returns between its steps, does what the plan says up to the first I/O error; an ordinary session, with steps enough, is in the trash afterwards and nothing is refused |
| SessionStore.SessionDirectory.RestoreTrashedSessionFile | maddog/desktop/sessions.go:381-439 | the same for restoring |
| SessionStore.SessionDirectory.RemoveDesktopSessionArtifacts | maddog/desktop/app.go:1369-1386 | removes a session's artifacts in order up to the first error |
| SessionStore.SessionDirectory.LiveDiscardable | maddog/desktop/sessions.go:257-279 | decides as specified when a live session holds nothing worth keeping |
| SessionStore.SessionDirectory.Prepare | maddog/desktop/sessions.go:224-255 | clears the way for a trash or refuses, as specified; it lets the trash go on exactly for a session with a readable transcript and a place in the trash that is free or without a transcript file |
| SessionStore.SessionDirectory.Validate | maddog/desktop/sessions.go:193-222 | refuses without changing anything |
| SessionStore.ArtifactNamesAreDistinct | maddog/desktop/sessions.go:125-135 | no two artifacts of any two sessions share a file name |
| PromptTape.PromptHistoryTape.ReadOlder | maddog/desktop/prompt_history.go:182-226 | for every positive limit and every cursor the page is the next entries of the concatenated sessions, short only at the end, with a cursor strictly further on for exactly what is left |
| PromptTape.PromptHistoryTape.ScanPromptHistory | maddog/desktop/prompt_history.go:75-118 | for every limit asked for, zero and negative too, the same page with the limit brought into bounds; nothing for an old caller that names this tape |
| PromptTape.PromptHistoryTape.ReadAll | maddog/desktop/prompt_history.go:228-239 | terminates with the concatenation of all sessions; for a new tape, with the prompts on disk |
| PromptTape.NewTapeIsPrompts | maddog/desktop/prompt_history.go:182-264 | a new tape shows the prompts of the files on disk, session after session, and nothing for files that are absent or cannot be read |
| PromptTape.PromptHistoryTape.EntriesForSession | maddog/desktop/prompt_history.go:241-264 | loads a session once and never changes what the tape shows |
| PromptTape.WalkIsConcatenation | maddog/desktop/prompt_history.go:182-239 | following cursors with any page size gives every prompt once and in order, in pages that are full but for the last |
| PromptTape.MoveCurrentFirst | maddog/desktop/prompt_history.go:155-171 | the shift inside the slice computes the specified order |
| PromptTape.ListedComesFirst | maddog/desktop/prompt_history.go:155-168 | the first listed session with the current path comes first, nothing is lost or repeated, and the others keep their order |
| PromptTape.UnlistedComesFirst | maddog/desktop/prompt_history.go:155-171 | a current file that is not listed comes before all the others; without a current file the order stays |
| Calendar.DateRoundTrip | maddog/desktop/heartbeat.go:735-737 | reading the date of a day and making the day of the date are inverse |
| Calendar.DaysInMonthIsItsLength | maddog/desktop/heartbeat.go:749-751 | day 0 of the next month gives the length of this one |
| Calendar.CandidateOfMonth | maddog/desktop/heartbeat.go:739-747 | a candidate lies in its month on the named day, clamped to the month's length |
| Calendar.WeekStartIsMonday | maddog/desktop/heartbeat.go:753-757 | the week start is the Monday at midnight on or before the day |
| Calendar.PreviousDailyIsLatest | maddog/desktop/heartbeat.go:608-613 | the daily search returns an occurrence not after now with no later one up to now |
| Calendar.PreviousMonthlyExactly | maddog/desktop/heartbeat.go:651-658 | the monthly search returns the last occurrence if and only if this month's has come or today's day number exists in the previous month; otherwise it returns a future time |
| Calendar.CandidateBeforeIsLatest | maddog/desktop/heartbeat.go:651-658 | before this month's time the last occurrence is the previous month's candidate, also when the search misses it |
| Calendar.MonthBefore | maddog/desktop/heartbeat.go:654 | where going back one month lands, including normalisation |
| Calendar.PreviousYearlyIsLatest | maddog/desktop/heartbeat.go:660-667 | the yearly search always returns the last occurrence |
| Gregorian.MonthsFollow | maddog/desktop/heartbeat.go:739-751 | each Gregorian month starts where the one before ends, across leap days and centuries |
| Gregorian.GregorianIsConsistent | maddog/desktop/heartbeat.go:602-667 | the Gregorian months are an instance of the calendar the searches are proved for |
| Gregorian.UnixEpoch | maddog/desktop/heartbeat.go:476-489 | stamps count from Thursday, 1 January 1970, and the zero time is Monday, 1 January of year 1 |
| Gregorian.MonthlySearchCanMiss | maddog/desktop/heartbeat.go:651-658 | on 31 March 2025 at eight the monthly search for the 31st at nine answers with the future |
| WeeklySearch.PreviousWeekly | maddog/desktop/heartbeat.go:628-649 | the nested loops over the window and the listed days, keeping the best candidate, find what looking back day by day finds first |
| WeeklySearch.WeeksBetweenStarts | maddog/desktop/heartbeat.go:752-764 | counting weeks by duration is exact between week starts up to the longest duration |
| WeeklySearch.ParityExactly | maddog/desktop/heartbeat.go:759-764 | the even-weeks test decides the parity of the week if and only if the duration does not saturate or the parities agree anyway |
| WeeklySearch.FarAnchorMisleads | maddog/desktop/heartbeat.go:759-764 | an anchor 15251 weeks back in a week of the other parity: the search answers with a day that is no occurrence |
| WeeklySearch.WeeklyIsLatest | maddog/desktop/heartbeat.go:614-615 | the weekly search returns the last occurrence, and none exactly when the only listed day is today before its time |
| WeeklySearch.BiweeklyExactly | maddog/desktop/heartbeat.go:616-618 | for every anchor, or none, what the fortnightly search returns is the last occurrence if and only if the last listed day has the anchor's parity or lies within 15250 weeks of the anchor; otherwise it returns that last listed day |
| WeeklySearch.BiweeklyIsLatest | maddog/desktop/heartbeat.go:616-618 | for an anchor within reach the search returns the last occurrence, and none exactly when the only listed day is today, in a week that counts, before its time |
| WeeklySearch.FortnightIsEmpty | maddog/desktop/heartbeat.go:616-618 | the fortnightly search comes up empty if and only if the only listed day is today, before its time, and the week before does not count |
| WeeklySearch.LastFortnightlyIsLatest | maddog/desktop/heartbeat.go:616-618 | for every anchor there is a last fortnightly occurrence within fifteen days; two weeks back on such an empty day |
| Heartbeat.ScheduleIsLatest | maddog/desktop/heartbeat.go:602-626 | whatever the rule, a search comes up empty exactly on the one listed day before its time, and what it returns is the last occurrence if and only if its guard holds |
| Heartbeat.FindPreviousSchedule | maddog/desktop/heartbeat.go:602-677 | the dispatch, with its anchor, computes the specified search |
| Heartbeat.DueExactly | maddog/desktop/heartbeat.go:461-499 | in every state of a calendar task: it is due just when an occurrence not before its creation and after its last run has passed, if and only if, on an empty day, the interval says of the last occurrence what the stamps say; when the monthly search looks into the future, nothing is owed; with an anchor too far, the last listed day and the last occurrence are both unserved or both not; and always otherwise |
| HeartbeatIntervals.IntervalDueExactly | maddog/desktop/heartbeat.go:471-533 | a task without a schedule, or with nothing scheduled today, is due if and only if it has a positive period that has passed since its last run, or since its creation when it never ran, unless it has neither; and the clock is in its window, which may have one end only and may go over midnight |
| HeartbeatIntervals.RunsAreApart | maddog/desktop/heartbeat.go:164-186 | over any run of ticks and triggers with a clock that does not go back, a tick runs an interval task at least its period after any earlier run |
| HeartbeatIntervals.StepRecords | maddog/desktop/heartbeat.go:164-186 | what an event records: the topic of an execution, its time unless it gave up, a missing creation time when it submits, and nothing else |
| Heartbeat.LastOccurrenceIsLatest | maddog/desktop/heartbeat.go:602-667 | every schedule has a last occurrence up to now, named for each rule, against which being due is judged |
| Heartbeat.LastBeforeEmptyDay | maddog/desktop/heartbeat.go:614-618 | on an empty day it lies one week back, for fortnights two |
| Heartbeat.MissedMonth | maddog/desktop/heartbeat.go:461-470 | when the monthly guard fails nothing is due, so an occurrence is missed if and only if the previous month's is unserved |
| Heartbeat.DueWithoutOccurrence | maddog/desktop/heartbeat.go:461-499 | a weekly task can be due by its interval although no occurrence has come since its creation |
| Heartbeat.WindowIsAnArc | maddog/desktop/heartbeat.go:504-533 | a time window with both ends is the arc of the day's circle from start to end, across midnight too |
| Heartbeat.StampRoundTrip | maddog/desktop/heartbeat.go:343 | stamping a time in Unix milliseconds and reading it back drops what is below a millisecond |
| HeartbeatFlights.StartsIncrease | maddog/desktop/heartbeat.go:164-439 | however ticks and manual triggers interleave, the occurrences submitted for strictly increase, so each is run for at most once, as long as no trigger's merge writes a stamp older than one of them |
| HeartbeatFlights.LosesExactly | maddog/desktop/heartbeat.go:417-439 | a trigger's merge loses a start if and only if it writes a stamp before it: its own, or the one it copied when it gave up |
| HeartbeatFlights.ApartRunsOnce | maddog/desktop/heartbeat.go:164-439 | triggers that are not under way when a tick merges a submission leave each occurrence to run at most once |
| HeartbeatFlights.RunsAgainExactly | maddog/desktop/heartbeat.go:461-470 | a started occurrence that is still the last is run for again by the next tick if and only if the store has lost its stamp |
| HeartbeatFlights.LateTriggerRepeats | maddog/desktop/heartbeat.go:396-439 | any due task that has run before can be submitted twice for one occurrence: a trigger copies it before the tick and gives up after it |
| HeartbeatRepeats.SubmittedTwiceExactly | maddog/desktop/heartbeat.go:164-470 | however ticks and triggers interleave, the occurrences submitted for never go back, and one is submitted for twice if and only if a tick that submits began when the store had lost the last start's stamp and no occurrence had come since |
| HeartbeatRepeats.SearchesGoOn | maddog/desktop/heartbeat.go:602-677 | whatever the rule, a search made later finds no earlier occurrence |
| Heartbeat.EachOccurrenceRunsOnce | maddog/desktop/heartbeat.go:164-186 | over any run of ticks and manual triggers one after another, with a clock that does not go back, the occurrences run for strictly increase and none is before the creation |
| Heartbeat.StartsAfter | maddog/desktop/heartbeat.go:461-470 | nothing runs again for an occurrence already served, nor for an earlier one |
| Heartbeat.UpdatesById | maddog/desktop/heartbeat.go:164-181 | with distinct identifiers a tick's results are the executions of exactly the enabled due tasks |
| Heartbeat.HeartbeatEngine.MergeRunUpdates | maddog/desktop/heartbeat.go:417-439 | on a list edited meanwhile, merging changes only `TopicID`, `LastRunAt` and an unset `CreatedAt`, only of tasks that ran and are still listed |
| Heartbeat.HeartbeatEngine.RunDue | maddog/desktop/heartbeat.go:164-181 | executes the enabled due tasks of the copy and collects their results; `HeartbeatIntervals.IntervalDueExactly` and `Heartbeat.DueExactly` say which those are |
| Heartbeat.HeartbeatEngine.RunTick | maddog/desktop/heartbeat.go:164-186 | a whole tick takes each task through the step the run theorems are about; `HeartbeatIntervals.StepRecords` says what that leaves |
| FreshTopics.OverlapExactly | maddog/desktop/heartbeat.go:214-394 | over any run of passes and prunings, two conversations of a task overlap, the second submitted without the first seen idle, if and only if a topic is submitted after the guard of a running one was forgotten |
| FreshTopics.RunsNeverOverlap | maddog/desktop/heartbeat.go:214-394 | as long as no list forgets the guard, between two submitted conversations of a task the earlier one was seen idle |
| FreshTopics.RunKeepsGuard | maddog/desktop/heartbeat.go:214-394 | over any run of passes and prunings the guard in memory is the one the log of events calls for; topics are created and submitted one at a time |
| FreshTopics.ExecutionIsPasses | maddog/desktop/heartbeat.go:307-315 | an execution is one pass, or two when the first finds the earlier run over |
| FreshTopics.StartsOverOnce | maddog/desktop/heartbeat.go:307-315 | the recursion is one level deep |
| FreshTopics.PassSays | maddog/desktop/heartbeat.go:214-348 | by what a pass meets: a topic is created exactly without a guard; with the controller found idle, a conversation submitted before is seen to be over, and else the next one is submitted if accepted; never otherwise |
| FreshTopics.PassGuards | maddog/desktop/heartbeat.go:214-348 | the guard after a pass is what was submitted, nothing once a conversation is seen over, else as it was or for the topic just created |
| FreshTopics.BusyPassWaits | maddog/desktop/heartbeat.go:294-317 | while the controller is busy nothing is seen to be over and nothing is submitted |
| FreshTopics.PruningForgets | maddog/desktop/heartbeat.go:359-394 | a run with a pruning while a conversation is running, in which the next one is submitted over it |
| TopicCallers.OneAtATimeIsRun | maddog/desktop/heartbeat.go:214-394 | cut at the places where the guard is read and written, executions one after another do what the runs just spoken of do |
| TopicCallers.SerialOverlapExactly | maddog/desktop/heartbeat.go:214-394 | over every run of the guard's readings and writings that lets executions in one after another, wherever each gives up, conversations overlap if and only if a topic is submitted after the guard of a running one was forgotten |
| TopicCallers.TwoAtOnceExactly | maddog/desktop/heartbeat.go:214-348 | two executions of one pass each, in any interleaving of their readings and writings, overlap if and only if both submit |
| TopicCallers.LateLookWaits | maddog/desktop/heartbeat.go:229-341 | of two, one that reads the guard after the other has noted its submission does not submit |
| TopicCallers.EarlyLookOverlaps | maddog/desktop/heartbeat.go:229-341 | in every state, an execution let in while another has its topic and has not noted a submission can submit over it |
| TopicCallers.TwoCallersOverlap | maddog/desktop/heartbeat.go:229-341 | a tick and a trigger that both read the empty guard submit two conversations at once, with no pruning, and the guard remembers only one |
| FreshTopics.Engine.ExecuteTask | maddog/desktop/heartbeat.go:214-348 | the recursive method does the specified execution and leaves other tasks' guards alone |
| FreshTopics.Engine.PrunePendingTopics | maddog/desktop/heartbeat.go:379-394 | keeps exactly the guards of identifiers that some listed task with fresh conversations has |
| MediaTokens.MediaTokenStore.Get | maddog/desktop/app.go:245-257 | answers as a log of all creations would, limited to the newest ones and to unexpired entries, except that a token may be gone at the very moment it expires |
| MediaTokens.MediaTokenStore.Create | maddog/desktop/app.go:210-243 | adds exactly one creation to the log, whatever has to go to make room |
| MediaTokens.MediaTokenStore.Cleanup | maddog/desktop/app.go:187-208 | keeps the agreement with the log; afterwards the oldest listed token is live |
| MediaTokens.DropKeepsAgreement | maddog/desktop/app.go:187-208 | dropping an expired or surplus oldest token keeps `order` a suffix of the log, live tokens listed and missing ones expired |
| MediaTokens.TokenLifetime | maddog/desktop/app.go:166-257 | the store answers with a token's own entry if and only if fewer than the maximum are newer and it has not expired, or is still listed at the very moment it expires |
| Utf8Clip.ClipStringBytes | maddog/desktop/app.go:3444-3455 | for valid text, the longest valid prefix within the limit; for any bytes, a cut before a start byte |
| Utf8Clip.TrimUTF8PartialSuffix | maddog/desktop/app.go:6867-6881 | drops the end exactly when it is a partial character after valid text, and otherwise leaves the bytes alone |
| Utf8Clip.TrimMendsAnyCut | maddog/desktop/app.go:6867-6881 | valid text cut at any byte trims to its longest valid prefix and loses at most three bytes |
| Utf8Clip.PartialIsNotFull | maddog/desktop/app.go:6875 | bytes can be completed to a character of section 4 of RFC 3629 if and only if Go's `FullRune` says they are not full |
| Utf8Clip.ValidIsText | maddog/desktop/app.go:6868 | the standard's octet sequences are those decoded by first-byte sizes |
| Utf8Clip.ValidAppend | maddog/desktop/app.go:6875 | valid text followed by more is valid exactly when the more is |
| Utf8Clip.LongestBeforePartial | maddog/desktop/app.go:3444-3455 | valid text before a partial character is the longest valid prefix |
| TabOrder.OrderedTabIds | maddog/desktop/tabs.go:2810-2828 | the loops compute the repair, and it is needed exactly when it differs from the order |
| TabOrder.RepairIsListing | maddog/desktop/tabs.go:2810-2828 | a repaired order lists every open tab exactly once |
| TabOrder.RepairIsNeeded | maddog/desktop/tabs.go:2827 | the source's length test tells exactly whether the order listed the open tabs |
| TabOrder.RepairIsUnique | maddog/desktop/tabs.go:2820-2826 | sorting makes the repair independent of map iteration order |
| TabOrder.KeptLists | maddog/desktop/tabs.go:2813-2818 | what is kept of an order is duplicate-free and names exactly the open tabs it named |
| TabOrder.WithoutAt | maddog/desktop/tabs.go:2830-2838 | removing a tab from a duplicate-free order closes its gap |
| TabOrder.RemoveTabOrder | maddog/desktop/tabs.go:2830-2838 | the loop filters as specified |
| TabRuns.RuntimesAreUnique | maddog/desktop/tabs.go:2220-2331 | in every reachable state of opening, building, binding, looking, installing, closing, switching, parking and deleting sessions, interleaved, no two controllers not yet closed have the same session, each is held by at most one tab, and a parked one is filed under its session |
| TabInvariant.RefusedExactly | maddog/internal/agent/session_lease.go:57-83 | a controller is refused a session exactly as long as another open one is bound to it |
| TabRuns.NeverReattached | maddog/desktop/tabs.go:2248-2309 | in every reachable state a session with an open runtime, parked or in view, is refused to a build, and what a build takes over never runs |
| TabRuns.RuntimesAreConserved | maddog/desktop/tabs.go:241-411 | over any run, every controller not yet closed is being built, in view, parked or on its way out, throughout, if and only if no build ends in a tab that has a running controller |
| TabRuns.LostExactly | maddog/desktop/tabs.go:2304-2331 | one step loses an open controller if and only if it puts another, or a find, over it |
| TabRuns.OneBuildLosesNothing | maddog/desktop/tabs.go:2046-2063 | when every build begins for a tab without a running controller and without another build, no run loses a controller |
| TabRuns.SecondBuildLoses | maddog/desktop/tabs.go:2318-2329 | in every state with two builds about to end in one tab, the first controller is lost, still open and with its lease |
| TabRuns.TwoBuildsForOneTab | maddog/desktop/tabs.go:1295-1312 | such a state is reachable: a tab is turned to another session while its first build is under way |
| TabBuilds.GoneForGood | maddog/desktop/tabs.go:2304-2331 | a build whose tab has gone out of view never ends in a tab over any run, not even in a later one with the same identifier |
| TabBuilds.SerialsTellTabsApart | maddog/desktop/tabs.go:1314-1330 | in every reachable state the tabs in view are told apart by numbers that are never given out twice |
| TabBuilds.LookTakesOver | maddog/desktop/tabs.go:359-411 | what a look finds moves whole into the tab it looks for and is gone from its place, and the build is given up; finding nothing changes only how far the build is |
| TabBuilds.OpenedOrTurned | maddog/desktop/tabs.go:1314-1358 | a tab opened for or turned to a session stands for it, with no runtime yet, and the busy runtime it gives up is parked under the session it stood for |
| TabBuilds.BuildEndsInItsTab | maddog/desktop/tabs.go:2304-2331 | a build that ends in its tab leaves its controller running there, bound and with the lease |
| TabBuilds.OthersStay | maddog/desktop/tabs.go:241-411 | a tab that a step does not open, turn or build stays as it is while in view |
| TabRegistry.App.ReorderTabs | maddog/desktop/tabs.go:1806-1827 | accepts an order if and only if it lists every open tab exactly once |
| TabRegistry.App.OpenTopicTab | maddog/desktop/tabs.go:1273-1358 | reuses the tab that shows the session or topic, else appends a new one; the order stays a listing and the active tab open |
| TabRegistry.App.CloseTab | maddog/desktop/tabs.go:1832-1903 | refuses exactly unknown tabs and the last one; takes the tab from the view under the lock and tears it down after it; the active place goes to the tab that moves in, or the last |
| TabRegistry.App.TearDown | maddog/desktop/tabs.go:1881-1898 | the teardown of a tab out of the view is a run of the steps: parking, or unbinding, closing and dropping |
| TabRegistry.ClosingParksOrFrees | maddog/desktop/tabs.go:1881-1898 | closing a tab leaves its busy runtime open, parked under its session and with the lease, and closes an idle one and frees its session |
| TabRegistry.App.KeepOnlyVisibleTab | maddog/desktop/tabs.go:1905-1980 | leaves one active tab; of the others, taken out first and torn down then, exactly the idle runtimes are closed and the busy ones parked, and what was parked stays |
| TabRegistry.App.RemoveSessionRuntimeBindings | maddog/desktop/app.go:1940-1981 | takes exactly the tabs and parked runtimes of the session out, keeps the active tab if it stays, else takes the first |
| TabRegistry.App.AttachExistingSessionRuntime | maddog/desktop/tabs.go:359-411 | is the step of the look: finds a parked entry, else another tab of the session, exactly if there is one and the tab is still there, and takes it over |
| TabRegistry.App.BuildTabController | maddog/desktop/tabs.go:2196-2331 | in the order of the source: makes, binds, looks, installs; the controller is in place exactly when it could be made, nobody holds the lease, and nothing stands for the session; otherwise it is closed |
| TabRegistry.App.SetSessionPath | maddog/internal/control/session_lease_keeper.go:18-39 | refused exactly when another controller owns the session; else the new lease is taken and the old one given up |
| TabRegistry.App.ReleaseForSwitch | maddog/desktop/app.go:2533-2556 | turns a tab to another session, parking its busy runtime; refused exactly for a busy runtime without a session |
| TabRegistry.App.RebindTab | maddog/desktop/app.go:2498-2567 | releasing, then building, as runs of the steps; it is fine exactly when the tab ends with a controller, and that one runs exactly when it could be made, nobody holds the lease, and nothing stands for the session |
| TabRegistry.App.DetachSessionRuntime | maddog/desktop/tabs.go:241-258 | files a tab under its session, and refuses exactly without one |
| TabRegistry.App.OrderedIds | maddog/desktop/tabs.go:2802-2808 | repairs the order only when it does not list the open tabs |
| StringLists.UniqueStrings | maddog/desktop/tabs.go:3002-3014 | the loop collects the trimmed, non-empty, first occurrences, as `StringLists.UniqueIsFirsts` tells from the list alone |
| StringLists.CollectedMembers | maddog/desktop/tabs.go:3002-3014 | a collection has no repeats and exactly the things the values stand for |
| StringLists.UniqueTwice | maddog/desktop/tabs.go:3002-3014 | doing it twice changes nothing |
| StringLists.UniqueIsFirsts | maddog/desktop/tabs.go:3002-3014 | what comes out is what the values trim to, blanks left out, once each and in the order of first appearance |
| StringLists.TrimIsMiddle | maddog/desktop/tabs.go:3006 | trimming takes white space off both ends and nothing else |
| StringLists.ContainsString | maddog/desktop/tabs.go:3038-3049 | finds exactly the trimmed members |
| ProjectsFile.NormalizeProjectsFile | maddog/desktop/tabs.go:2928-2972 | the loops compute the normalised file, which keeps, in the order of first appearance: the trimmed title and topics, a project for every non-empty root, every pin of a known project (the first of those alike up to surrounding space), and every place in the order that names a known project or the global folder |
| ProjectsFile.NormalizingTwice | maddog/desktop/tabs.go:2917-3000 | normalising the file again changes nothing if and only if normalising each listed root once more would not change it |
| ProjectsFile.NormalizedTwiceExactly | maddog/desktop/tabs.go:2935-2959 | the same for the projects, by the roots that came out |
| ProjectsFile.UnsettledRoot | maddog/desktop/tabs.go:2917-2926 | a project at "/a /" comes out at "/a ", which normalises to "/a": the second normalisation changes the file |
| ProjectsFile.RootsAreKept | maddog/desktop/tabs.go:2935-2959 | the roots that come out are the normal forms of those that went in |
| ProjectsFile.NormalizedIsNormal | maddog/desktop/tabs.go:2935-2959 | whatever the root normaliser, and for a colour normaliser that settles, projects come out with distinct, non-empty roots and normal fields |
| ProjectsFile.TopicsAreKept | maddog/desktop/tabs.go:2945-2955 | merging projects of one root keeps exactly the topics, and the pinned topics, listed under any spelling of it, in the order of first appearance |
| ProjectsFile.TitlesAndColoursAreFirst | maddog/desktop/tabs.go:2946-2951 | a merged project has the first non-empty title and colour given |
| ProjectsFile.NamesAreKnown | maddog/desktop/tabs.go:2960-3000 | pins and sidebar order have no repeats, pins not even up to surrounding space, and name only known roots or the global token |
| ProjectsFile.FileIsKept | maddog/desktop/tabs.go:2928-3000 | for every file: told from the file given and the projects that come out, what its title, topics, pins and order are |
| ProjectsFile.OrderHasExactly | maddog/desktop/tabs.go:2974-3000 | a name is in the sidebar order if and only if it is the token and some entry trims to it, or it is a known root and some other entry normalises to it |
| ProjectsFile.RootsAreFirsts | maddog/desktop/tabs.go:2935-2959 | the roots come out in the order in which some spelling of each first appears |
| ProjectsFile.PinsAreFirsts | maddog/desktop/tabs.go:2960-2969 | the pins are the known roots that the given pins name, of those alike up to surrounding space the first, in the order of first appearance |
| ProjectsFile.NormalizeProjects | maddog/desktop/tabs.go:2935-2959 | one pass with an index map computes the merge |
| ProjectsFile.NormalizePins | maddog/desktop/tabs.go:2960-2969 | the pin loop keeps the known roots, the first of those alike up to surrounding space |
| ProjectsFile.NormalizeSidebarOrder | maddog/desktop/tabs.go:2974-3000 | the order loop keeps exactly the known roots and the token, once each |
| ProjectTree.TreeIsPermutedAsAsked | maddog/desktop/tabs.go:3107-3177 | with distinct keys, both orders together are a permutation: pinned projects first in pin order, then the sidebar order, then the rest as they were |
| ProjectTree.MovedIsPermutation | maddog/desktop/tabs.go:3107-3177 | moving keyed nodes first loses and repeats none |
| ProjectTree.MovedKeys | maddog/desktop/tabs.go:3107-3177 | the first nodes carry the keys in order and no later node carries one |
| ProjectTree.OrderKeysAreFirsts | maddog/desktop/tabs.go:3107-3134 | the nodes put first are all those that a name in the order is the token or the normalised root of, once each, in the order of first appearance |
| ProjectTree.PinKeysAreFirsts | maddog/desktop/tabs.go:3148-3170 | the pinned ones are all projects with a root that a pin normalises to, once each, in the order of first appearance |
| ProjectTree.RestIsInOrder | maddog/desktop/tabs.go:3135-3177 | the others are exactly the nodes not put first, in their order |
| ProjectTree.ApplyProjectTreeOrder | maddog/desktop/tabs.go:3107-3146 | the loops compute the sidebar order, for repeated keys too |
| ProjectTree.ApplyPinnedProjectOrder | maddog/desktop/tabs.go:3148-3177 | the loops compute the pinned order |
| Download.DownloadExactly | maddog/desktop/updater.go:395-468 | against any honest server at most three attempts run; the download succeeds if and only if one of them ends properly before a cancellation, and then returns the file |
| Download.BufferIsPrefix | maddog/desktop/updater.go:475-505 | whatever mix of errors, whole answers and partial answers came, the buffer is a prefix of the file |
| Download.TryFromExactly | maddog/desktop/updater.go:405-421 | against any server the attempts return what the first that ends properly left in the buffer |
| Download.NextOffset | maddog/desktop/updater.go:475-505 | where the next attempt asks to continue: after a refusal where the last did, after a whole answer, complete or cut, at the number of bytes it brought, after a partial one that many further on |
| Download.OffsetIsTotal | maddog/desktop/updater.go:405-505 | over any attempts the offset is the total received since the latest whole answer |
| Download.RestCompletes | maddog/desktop/updater.go:405-505 | against an honest server, after attempts that were cut short or refused a partial answer that ends properly brings just the rest, and the download succeeds with the file |
| Download.ReceivedInOrder | maddog/desktop/updater.go:502-505 | what is received of a body is its pieces in order |
| Download.Transfer.Run | maddog/desktop/updater.go:405-468 | the retry loop computes the specified attempts, each asking from where `Download.NextOffset` says, and the total stays as given or becomes the file's size |
| Download.Transfer.DownloadInto | maddog/desktop/updater.go:475-505 | a whole answer starts the buffer over and keeps what arrived also when it is cut short, a partial one continues it, a refusal leaves it alone; the last report of a complete body is its size |
| Download.Transfer.CopyBody | maddog/desktop/updater.go:502-540 | appends the body; reports are at least a step apart, none is ahead, and less than a step stays unreported |
| Download.ProgressReader.Read | maddog/desktop/updater.go:531-540 | reports when a step has been received, and always at the end |
| GitStatus.ParseInvertsPrint | maddog/desktop/workspace_changes.go:180-198 | for every list of well-formed records, parsing the NUL-separated printing gives the records back with trimmed statuses |
| GitStatus.SplitPrinted | maddog/desktop/workspace_changes.go:181 | splitting at NUL recovers the fields of a printed record whatever follows |
| GitStatus.StatusLetters | maddog/desktop/workspace_changes.go:188-191 | a status keeps its letters in their order and loses its blanks, and carries a second path if and only if a letter is R or C |
| GitStatus.ParseGitStatusPorcelainZ | maddog/desktop/workspace_changes.go:180-198 | the loop, which skips ahead over old paths, parses as specified |

## Left out

- The runtime, windows, menus, dialogs, HTTP, telemetry, bots and installers: calls into foreign code.
- The packages under `internal`: they appear as parameters (whether a session has content or loads, cleanup marks, steer and synthetic predicates, digests, path and colour normalisation).
- JSON, base64 and hash encodings; parsing interval, schedule and clock strings: tasks carry the parsed values.
- Time zones and daylight saving: one fixed offset per run.
- Panic recovery, logging, settings, mode normalisers, shared-host counts, metrics: single-branch code.
- Lock fairness and wall-clock progress: progress is stated as steps of the loop concerned.
- Symbolic links, and the copy-then-remove fallback of a move (maddog/desktop/sessions.go:508-517): moves are atomic.
- Purging trashed sessions for good, and sessions outside the directory they are trashed from.
- TabsFile.TabStore.SaveTabsCollectLocked: versions are unbounded; the wrap-around of a 64-bit counter is not modelled.
- TabRuns.RuntimesAreUnique: a controller's session and its lease change in one step; only open controllers have work; leases taken by other processes are not modelled.
- TabRuns.RuntimesAreConserved: rebuilding a controller in place for another model, effort, token mode or settings (maddog/desktop/app.go:1281-1366, 6461-6737; maddog/desktop/settings_app.go:1109-1186) is left out; it closes the old controller, takes the lease like a build, and installs.
- TabRegistry.App.AttachExistingSessionRuntime: tabs are values with serial numbers, so two names for one mutable tab object are not captured; display fields copied along are left out.
- TabRegistry.App.RebindTab: filing the copy of a busy tab and clearing the tab are one step; two calls that switch or close the same tab at once are not modelled.
- MediaTokens.MediaTokenStore.Create: assumes that a random token never repeats and that the clock does not go back.
- SessionListCache.ListCache.Put: the whole method is stated for a call that nothing interrupts; its sections are steps that interleave in the theorems.
- Heartbeat.EachOccurrenceRunsOnce: takes each tick and each trigger as one event; `HeartbeatFlights.StartsIncrease` lets them interleave. Both assume that nobody edits the task in between.
- HeartbeatFlights.StartsIncrease: for one task; that a tick works through several tasks before it merges shows as time between a stamp and its merge. The run law that goes both ways is `HeartbeatRepeats.SubmittedTwiceExactly`.
- HeartbeatRepeats.SubmittedTwiceExactly: fortnightly tasks have a creation time, without which their anchor moves with each run.
- Heartbeat.ScheduleIsLatest: asks for a clock more than two weeks after Go's zero time.
- FreshTopics.Engine.ExecuteTask: the waits for a controller are one observation, and nothing else touches the guard meanwhile.
- FreshTopics.OverlapExactly: for executions one after another; `TopicCallers.TwoAtOnceExactly` is the law for two at once, and three or more have only `TopicCallers.EarlyLookOverlaps`.
- TopicCallers.OneAtATimeIsRun: creating a topic and noting it in the guard are one step, and so are seeing a topic idle and letting its guard go.
- Utf8Clip.TrimUTF8PartialSuffix: a byte is a number below 256; Go's decoding tables are modelled as size and second-byte ranges.
- ProjectsFile.NormalizeProjectsFile: what pins are kept is stated for root normalisers as described for `ProjectsFile.NormalizingTwice`.
- HeartbeatIntervals.RunsAreApart: a trigger runs a task whenever it is asked to, so only the runs of ticks are spaced; events come one after another.
- SessionEffects.RestoreRefuses: for a directory in which everything can be read.
- ProjectsFile.NormalizingTwice: the root normaliser is a parameter that ignores surrounding space and is empty exactly for blank paths; joining a path with the working directory is not modelled.
- Download.DownloadExactly: servers that cut a body short without an error are outside the honest ones.
- GitStatus.ParseInvertsPrint: making paths relative to the workspace afterwards is not part of this model.

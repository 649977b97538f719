# Navidrome: verified models of its stateful cores

This project models, in Dafny, the parts of Navidrome whose correctness depends on more
than one function: protocols that run under any interleaving, scans that must survive
crashes, SQL statements that pass through intermediate states, and algorithms whose result
is promised to equal a simpler one. `dafny verify dfyconfig.toml` checks all of it.

Where the program changes state step by step, the model does too: a class holds the fields
and table rows, its methods change them, and each method's contract ties the new state to a
specification function or to the events of a transition system, and says what it is in terms
of the rows before. What the program promises is then proved about those functions and
systems, for every input and every run. What each of them computes is also stated without
it: as an if-and-only-if, row by row, or by the events of a run.

## What is modelled

**The persistent task queue of plugins** (`TaskQueueModel`, `TaskQueueOwnership`,
`TaskQueueEffects`, `TaskQueueHistory`, `TaskQueueAttempts`, `TaskQueueWakeup`,
`TaskQueueService`, `Backoff`). One event is one SQL statement, one channel operation or one
worker step; runs interleave any number of workers, callers, timers, clean-ups, shutdowns,
crashes and restarts. The writes that end an attempt name a task by id only. They are shown to
be safe: a task in a worker's hands is running and in no other worker's hands. Nothing runs
unattended but for a write that failed, a completed task had a callback that returned success,
no wake-up is lost, attempts are accounted for exactly, and the backoff computed in 64-bit
arithmetic is the intended one except in one exactly described case.

**The crash-resumable library scan** (`ScanModel`, `ScanEffects`, `ScanSafety`, `ScanRuns`,
`ScanImports`, `ScanLimits`, `ScanService`). The state is what survives a crash (scan columns,
folder rows, album rows) and the process that does not. A full scan that is eventually marked
as completed has imported every folder its last walk passed on, whichever of the crashed
processes did it, and of all present folders exactly those with a row as recent as its
beginning. The folders marked missing are exactly the known ones the walk never entered, no
touched album escapes the refresh phase, and a scan that has ended leaves nothing to resume.
Two runs show scans that are marked as completed without having imported everything.

**Playlist positions under a UNIQUE index** (`PlaylistRows`, `PlaylistPositions`,
`PlaylistTracks`). SQLite checks the index after every single row of an UPDATE. Reorder,
renumber, delete, append and orphan removal are shown to succeed whatever order rows are
visited in, and to give the list one expects; with the exact conditions for arguments that no
caller should pass.

**The directory walk with its stack of ignore patterns** (`WalkModel`, `WalkRules`,
`WalkSelective`, `WalkChecker`, `Text`). The walk of a selected folder has different patterns
on its stack than the full walk has there. Both give the same entries in the same order,
exactly when the full walk visits the folder or there is nothing that can be loaded. What the
ignore files, names and directory contents come to, and the order of the entries, is stated
apart from the functions that compute them.

**Matching moved tracks** (`MovesModel`, `MovesMatching`, `MovesPhase`, `MovesService`). The
streaming group-by gives the groups it should; the greedy matching is one to one, at every
point at which it may stop, and maximal in the end; no missing track loses its identity, and
no two rows get the same path.

**Plugin permissions** (`PluginsModel`, `PluginsService`). Loaded plugins are always enabled
ones. Enabled plugins have the access their manifest asks for as long as packages do not
change behind their rows' backs, with the exact condition where they do. A deleted user is
taken off every list exactly when no list is malformed, or the user was on none.

**The key-value store of plugins** (`KVStoreModel`, `KVStoreService`), **LRC lyrics**
(`LyricsModel`, `LyricsStamps`, `LyricsRules`, `LyricsReference`, `LyricsRoundTrip`,
`LyricsService`) and **two query rewrites** (`Queries`): a quota that holds in every run,
clean-ups that no answer shows, a parser that gives what a description line by line says for
any text, and reads back what was written in every form of a time stamp, and rewritten queries
that keep their result, with the exact conditions.

## Conventions

Times are integers that never go back. A hash (folder ids, SHA-256 of packages, the hash of a
media file's fields) is taken to be injective. Library calls whose code is elsewhere are
parameters: the effect of one ignore pattern on one path, the classification of file names,
LIKE matching, whether a package's code can be instantiated, whether a transaction commits.

Strings are sequences of characters; where the code counts bytes, a character stands for one
byte, except in lyrics, where a stamp tells characters of one byte from longer ones.

Where the code and its comments disagree, the model follows the code. `ClearQueue` is
documented to remove pending tasks; it marks them as cancelled. `syncPlugins` is documented to
remove plugins no longer on disk; it also removes one whose file cannot be read. The time
pattern of lyrics accepts any character before the fraction, not only a dot; with one of
several bytes the stamp is matched but cannot be read, and a stamp without a fraction takes
its own closing bracket for the dot if a digit and a bracket follow. The clean-up after the
deletion of a user or library is documented to maintain referential integrity; when it fails,
the deletion has still happened.

## Model

| member | source | states |
|---|---|---|
| Backoff.DelayIsIdealIff | plugins/host_taskqueue.go:472-476 | for every positive 64-bit backoff and every attempt: the computed delay is the capped exponential one unless, and only unless, high bits are shifted out and the rest passes for a short delay |
| Backoff.RetryDelay | plugins/host_taskqueue.go:472-476 | for every backoff and attempt the delay lies between 1 ms and one hour |
| Backoff.DelayIsIdeal | plugins/host_taskqueue.go:472-476 | for backoffs below 2^43 ms the delay is always the ideal one, overflow or not |
| Backoff.DelayBoundIsSharp | plugins/host_taskqueue.go:472-476 | the bound 2^43 cannot be raised |
| Backoff.LateAttemptsAreCapped | plugins/host_taskqueue.go:472-476 | from the 23rd attempt on the delay is the maximum, whatever the shift loses |
| Backoff.DelayNeverShrinks | plugins/host_taskqueue.go:472-476 | in the safe range a later attempt never waits less than an earlier one |
| Backoff.ShiftKeepsLowBits | plugins/host_taskqueue.go:473 | a 64-bit left shift is the multiplication of the bits that remain |
| TaskQueueModel.WithDefaults | plugins/host_taskqueue.go:153-174 | a configuration ends up with a concurrency of at least 1, a backoff of 1 second by default, and a retention of one hour by default and otherwise clamped to between one minute and one week |
| TaskQueueOwnership.OwnershipInEveryRun | plugins/host_taskqueue.go:394-498 | at every moment of every run a task is in at most one worker's hands, is running until Close resets it, and the callbacks in flight are within the budget |
| TaskQueueOwnership.OwnershipStep | plugins/host_taskqueue.go:198-591 | every atomic action keeps the ownership invariant |
| TaskQueueOwnership.HeldBefore | plugins/host_taskqueue.go:394-442 | a worker gets hold of a task by dequeuing it and in no other way |
| TaskQueueOwnership.QueuesStep | plugins/host_taskqueue.go:179-262 | workers and queues always match, and the concurrency handed out stays within the budget |
| TaskQueueOwnership.InFlightIsBounded | plugins/host_taskqueue.go:179-196 | callbacks in flight never exceed a queue's clamped concurrency, nor the plugin's maximum overall |
| TaskQueueOwnership.RowsChangeLegally | plugins/host_taskqueue.go:307-561 | rows change status along the intended moves only, terminal rows stay as they are, and only terminal rows past retention are deleted |
| TaskQueueOwnership.TerminalIsForever | plugins/host_taskqueue.go:446-498 | completed, failed and cancelled are absorbing over whole runs |
| TaskQueueOwnership.IdsAreNotReused | plugins/host_taskqueue.go:264-290 | a deleted task does not come back |
| TaskQueueOwnership.InvariantsAreWellDefined | plugins/host_taskqueue.go:473 | the shift count of the backoff is never negative in a reachable state |
| TaskQueueEffects.CreateQueueRecovers | plugins/host_taskqueue.go:234-241 | creating a queue puts every row of it that a crash left running back to pending, attempt, retries and date kept, and touches no other row |
| TaskQueueEffects.RunningIsHeld | plugins/host_taskqueue.go:394-498 | in every run a running task of an existing queue is in some worker's hands, unless since the last start an outcome could not be written, a task could not be put back, or the answer to a dequeue was lost |
| TaskQueueEffects.FinishWritesOutcome | plugins/host_taskqueue.go:446-488 | a success and only that completes the task; a failure beyond the last retry, and only that, fails it; any other failure puts it back with the date its backoff gives; all other fields and rows stay |
| TaskQueueEffects.EndedTasksHaveReturned | plugins/host_taskqueue.go:418-488 | in every run a completed task had a callback that returned success in its last attempt, and a failed one a callback that returned an error there |
| TaskQueueEffects.RevertTakesBack | plugins/host_taskqueue.go:491-498 | a task put back at shutdown has its attempt taken back and keeps its date; no other row changes |
| TaskQueueEffects.CloseResets | plugins/host_taskqueue.go:564-591 | shutdown puts back every running row, in the attempt it is in, and no other row |
| TaskQueueEffects.WorkersMoveOn | plugins/host_taskqueue.go:369-498 | the steps a worker takes, and that no event but its own moves it |
| TaskQueueEffects.EventsWrite | plugins/host_taskqueue.go:264-561 | for every event, which rows it inserts, changes and deletes, and to what; all others stay |
| TaskQueueEffects.RestartStartsAfresh | plugins/host_taskqueue.go:104-120 | a new process has an open database, no queues and no workers; the rows are as the old one left them |
| TaskQueueEffects.ProcessStays | plugins/host_taskqueue.go:564-591 | within a process the database is open until closed, and a shutdown is for good |
| TaskQueueEffects.ChannelsAre | plugins/host_taskqueue.go:264-391 | a signal stays until a worker of its queue takes it, a timer until it fires, and an Enqueue is under way until it has notified |
| TaskQueueEffects.WorkerMayIff | plugins/host_taskqueue.go:369-498 | a worker may take exactly the steps its phase leaves open, with a dequeue only for the first due task and none only if nothing is due |
| TaskQueueEffects.WorkersAreNeverStuck | plugins/host_taskqueue.go:369-498 | a worker that has not exited can always go on |
| TaskQueueEffects.CallsMayIff | plugins/host_taskqueue.go:198-591 | exactly when the calls from outside, the clean-up and the steps of Close have an effect |
| TaskQueueHistory.CountersTally | plugins/host_taskqueue.go:394-498 | the recorded numbers of callback starts, resets and reverts of a task are the numbers of such events in the run |
| TaskQueueHistory.MarksHold | plugins/host_taskqueue.go:264-488 | a recorded fact of the past is recorded exactly if an event set it and none since has ended it |
| TaskQueueAttempts.AttemptsInEveryRun | plugins/host_taskqueue.go:454-498 | in every run a running task is in an attempt between 1 and max(max_retries,0) + 1 plus the number of resets it has had, and a task fails only with an attempt beyond max_retries |
| TaskQueueAttempts.CallbackRunsAtMost | plugins/host_taskqueue.go:394-488 | in a run without resets and put-backs of a task its callback is started at most max(max_retries,0) + 1 times |
| TaskQueueAttempts.AccountingStep | plugins/host_taskqueue.go:394-498 | every atomic action keeps the account of attempts, resets, reverts and starts |
| TaskQueueWakeup.NoLostWakeup | plugins/host_taskqueue.go:264-488 | while the process is up and dequeuing works, a due task of a created queue has a full signal slot, an Enqueue about to notify, a worker about to poll, or a timer armed or about to be |
| TaskQueueWakeup.SleepingQueueIsLateBy | plugins/host_taskqueue.go:369-391 | when all workers sleep and nothing is about to wake them, a task that is due, unless inherited with a later time, has its own timer set and has been due for less than the longest time that passes between computing a retry and starting its timer; so with no such lag nothing is due |
| TaskQueueWakeup.RetryTimerLag | plugins/host_taskqueue.go:474-487 | the timer of a retry fires later than the retry is due by exactly the time it took to start the timer |
| TaskQueueWakeup.AwakeStep | plugins/host_taskqueue.go:264-488 | every atomic action keeps the wake-up invariant |
| TaskQueueService.TaskQueue.ClampConcurrency | plugins/host_taskqueue.go:179-196 | the loop over the queues grants what is asked for or what is left of the budget |
| TaskQueueService.TaskQueue.CreateQueue | plugins/host_taskqueue.go:198-262 | succeeds exactly for a fitting new name with budget left; then no row of the queue is running, those that were are pending with attempt, retries and date kept, all other rows and queues stay, and the new queue has the clamped configuration; otherwise changes nothing |
| TaskQueueService.TaskQueue.Enqueue | plugins/host_taskqueue.go:264-290 | succeeds exactly for an existing queue and a payload within the limit, and is an insert followed by a notification |
| TaskQueueService.TaskQueue.CancelTask | plugins/host_taskqueue.go:307-336 | cancels pending tasks only and tells missing tasks from others |
| TaskQueueService.TaskQueue.ClearPending | plugins/host_taskqueue.go:340-366 | leaves no pending task in the queue and reports how many there were |
| TaskQueueService.TaskQueue.DequeueTask | plugins/host_taskqueue.go:398-417 | takes the first eligible task by due time and creation, if there is one |
| TaskQueueService.TaskQueue.FinishTask | plugins/host_taskqueue.go:446-488 | in terms of the row, the outcome and the attempt: completed, failed, or pending with the date the backoff gives, and nothing else changed; or an unchanged table if the write fails |
| TaskQueueService.TaskQueue.ArmTimer | plugins/host_taskqueue.go:484-487 | starts the timer of a retry for the end of its backoff |
| TaskQueueService.TaskQueue.ProcessTask | plugins/host_taskqueue.go:394-444 | processes a task exactly if one is eligible, through a legal sequence of events; the row ends as the outcome of the callback says |
| TaskQueueService.TaskQueue.RunCleanup | plugins/host_taskqueue.go:540-561 | the loop deletes exactly the terminal rows past the retention of their queue |
| TaskQueueService.TaskQueue.Close | plugins/host_taskqueue.go:564-591 | shuts down, puts all running tasks back and closes the database, in this order |
| PlaylistRows.AnyOrderSucceeds | persistence/playlist_track_repository.go:216-246 | an UPDATE without collisions keeps the index valid after every single row update, in any row order |
| PlaylistRows.SomeOrderFails | persistence/playlist_track_repository.go:216-246 | an UPDATE with a collision fails for some row order |
| PlaylistRows.SafeInEveryOrderIff | persistence/playlist_track_repository.go:216-246 | an UPDATE succeeds in every row order if and only if no row moves to the old or new place of another |
| PlaylistPositions.ReorderIsMove | persistence/playlist_track_repository.go:210-248 | with both positions in range the four statements remove the track and insert it at the new position, numbered 1..n |
| PlaylistPositions.ReorderSafe | persistence/playlist_track_repository.go:210-248 | each of the four statements is free of collisions |
| PlaylistPositions.SentinelBlocks | persistence/playlist_track_repository.go:216-221 | with a track at the sentinel's magnitude a statement does collide |
| PlaylistPositions.ReorderDenseIff | persistence/playlist_track_repository.go:210-248 | on lists shorter than the sentinel (fewer than 999998 tracks) and for any two arguments: the numbering stays dense if and only if both are in range or nothing moves; SentinelBlocks is about longer lists |
| PlaylistPositions.ReorderLeavesGap | persistence/playlist_track_repository.go:210-248 | one position in range and one out of range leave a gap |
| PlaylistPositions.RenumberedIsNumbered | persistence/playlist_repository.go:519-541 | negating and numbering by descending id gives 1..n in the original order |
| PlaylistTracks.PlaylistTable.Execute | persistence/playlist_track_repository.go:216-246 | a statement ends as it does in some order of its rows; without a collision it succeeds, whatever the order, and a failure changes nothing |
| PlaylistTracks.PlaylistTable.Reorder | persistence/playlist_track_repository.go:210-248 | the index stays valid throughout; in range the call succeeds exactly off the sentinel and moves one track |
| PlaylistTracks.PlaylistTable.Renumber | persistence/playlist_repository.go:519-541 | succeeds exactly if no two rows stand at opposite positions, and keeps the order |
| PlaylistTracks.PlaylistTable.Delete | persistence/playlist_track_repository.go:191-198 | a numbered list becomes the numbered list of the survivors |
| PlaylistTracks.PlaylistTable.AddTracks | persistence/playlist_repository.go:359-376 | inserting in chunks of 200 equals one insert, and succeeds exactly if the positions are free |
| PlaylistTracks.PlaylistTable.Add | persistence/playlist_track_repository.go:143-159 | a numbered list becomes itself followed by the new tracks |
| PlaylistTracks.PlaylistTable.UpdatePlaylist | persistence/playlist_repository.go:348-357 | the list becomes the given one, and other playlists are untouched |
| PlaylistTracks.PlaylistTable.RemoveOrphans | persistence/playlist_repository.go:483-514 | every list keeps exactly its tracks that still exist, numbered 1..m |
| PlaylistTracks.SurvivorsAt | persistence/playlist_track_repository.go:191-198 | the survivors are the tracks at the remaining positions, in order |
| PlaylistTracks.NegationSafeIff | persistence/playlist_repository.go:521-525 | the negation collides exactly for rows at opposite positions |
| PlaylistTracks.AppendedInTurn | persistence/playlist_repository.go:363-373 | two chunks appended in turn are one longer append |
| ScanSafety.ScanStep | scanner/scanner.go:57-330 | every transaction and process step keeps the scan invariants |
| ScanSafety.SkippedIsImported | scanner/phase_1_folders.go:165-184 | a folder that a full scan finds up to date was imported since the scan began |
| ScanEffects.BeginTakesUp | scanner/scanner.go:57-128 | a new process takes up the libraries asked for, or all, in full mode exactly if that was requested or one of them has an interrupted full scan |
| ScanEffects.PrepareRecords | scanner/scanner.go:199-232 | a start is recorded exactly in a library that is not virtual and has no scan in progress; no other row changes |
| ScanEffects.PrepareKeeps | scanner/scanner.go:191-232 | the process keeps exactly the libraries that are resumed, or begun and read back |
| ScanEffects.JobIsCreated | scanner/phase_1_folders.go:29-92 | a job knows exactly the folders of its library that are not missing and in scope, and is full if the library or the process is |
| ScanEffects.VisitIs | scanner/phase_1_folders.go:165-184 | a folder met by the walk is put down the pipeline exactly if it can be read and is changed or, in full mode, older than the start, and is not new, empty and met by a quick scan; what the job holds afterwards |
| ScanEffects.PersistWrites | scanner/phase_1_folders.go:329-432 | the row of the folder and those of its albums after a transaction that succeeds, and none changed by one that fails |
| ScanEffects.FinalizeMarksAndTouches | scanner/phase_1_folders.go:477-505 | exactly the leftover folders are marked, and if there are any, exactly the albums with a missing folder are imported again |
| ScanRuns.FullScanCompletes | scanner/scanner.go:114-330 | from the beginning of a full scan through any crashes and restarts: when it is ended, every folder that the walk passed on was imported in full mode after it began |
| ScanRuns.RestartsAreFull | scanner/scanner.go:114-128 | until a full scan has ended, every process that takes up the library runs in full mode, whatever was requested, and the recorded start is kept |
| ScanRuns.WholeLibraryIsImported | scanner/scanner.go:296-330 | if the library was walked as a whole and every entered folder was readable, all its present folders have been imported |
| ScanRuns.MissingIsExact | scanner/phase_1_folders.go:477-505 | phase 1 marks exactly the folders its job knew and its walk never entered, and changes no other row |
| ScanRuns.PresentIsEntered | scanner/phase_1_folders.go:477-505 | after phase 1 over whole libraries, the present folders are those the walk entered |
| ScanRuns.FoundIsMarkedIff | scanner/phase_1_folders.go:477-505 | also when phase 1 has failed: a folder that is there to be found is marked as missing if and only if it was known and the walk had not come to it; without a failure the walk has come to all |
| ScanImports.ImportedIff | scanner/scanner.go:114-330 | when a full scan ends, whatever processes worked on it, a present folder has been imported since it began if and only if its row is as recent as the beginning |
| ScanImports.FullProcessImportsIff | scanner/folder_entry.go:65-70 | a process in full mode that gets through phase 1 has imported a folder if and only if its walk read it and found it older than the recorded start or changed |
| ScanImports.NoJobImportsNothing | scanner/phase_1_folders.go:40-45 | a process whose job for a library could not be created imports nothing there |
| ScanImports.FullScanPutsIff | scanner/phase_1_folders.go:165-184 | during a full scan a readable folder is put down the pipeline unless it was known, has been imported since the scan began, and is unchanged |
| ScanRuns.TouchIsNeverLost | persistence/album_repository.go:273-316 | an album put or touched by phase 1 is offered to phase 3 after that, before the next end of a scan of its library, across crashes |
| ScanRuns.TouchIsRecorded | persistence/album_repository.go:273-300 | putting and touching set the import time to the time of the event |
| ScanRuns.NothingIsDueAfterEnd | persistence/library_repository.go:169-178 | right after a scan has ended no album of the library is due |
| ScanRuns.EndClears | persistence/library_repository.go:169-174 | the end of a scan clears the start and the full flag of every library of the process, sets the time of the last scan, and changes no other library |
| ScanRuns.EndedStaysEnded | scanner/scanner.go:199-232 | with no new beginning a library that has ended stays ended, whatever happens |
| ScanRuns.NextScanIsNew | scanner/scanner.go:199-232 | after an end, the next process that takes up the library records a new start |
| ScanRuns.NextScanIsQuick | scanner/scanner.go:57-128 | after an end, a process that was not asked for a full scan and finds no other interrupted one runs in quick mode |
| ScanRuns.CrashLosesProcess | scanner/scanner.go:57-330 | a crash loses the process and nothing else |
| ScanRuns.EventsAreOpenIff | scanner/scanner.go:57-330 | which events can happen next, in each stage of the process |
| ScanRuns.ProcessIsNeverStuck | scanner/scanner.go:137-174 | a process that has not failed can always go on; phase 1 is finalized also after a failure, and then only a crash is left |
| ScanRuns.ImportsAreEvents | scanner/phase_1_folders.go:329-432 | the recorded import time of a folder is that of the last transaction that wrote its row |
| ScanRuns.OffersAreEvents | persistence/album_repository.go:303-316 | an album was offered to phase 3 since a moment exactly if an event since then read it |
| ScanLimits.SelectiveScanEndsFullScan | scanner/scanner.go:296-302 | a run in which a selective scan ends an interrupted full scan although a present folder's row is older than its beginning |
| ScanLimits.FullScanResumesQuickScan | scanner/scanner.go:199-220 | a run in which a requested full scan finds up to date, and skips, what an interrupted quick scan had persisted |
| ScanService.Scanner.InterruptedFullScan | scanner/scanner.go:114-128 | the loop finds an interrupted full scan exactly if there is one |
| ScanService.Scanner.Begin | scanner/scanner.go:57-128 | takes up the libraries asked for, or all, in full mode exactly if that was requested or one of them has an interrupted full scan |
| ScanService.Scanner.PrepareLibraries | scanner/scanner.go:191-232 | keeps exactly the libraries that are not virtual and are resumed, or begun and read back; begun ones record mode and time, resumed ones are unchanged |
| ScanService.Scanner.CreateJobs | scanner/phase_1_folders.go:29-92 | a job per library that did not fail, in full mode if the library or the process is, knowing the present folders in scope |
| ScanService.Scanner.PopLastUpdate | scanner/phase_1_folders.go:96-103 | hands out a folder's last update once |
| ScanService.Scanner.VisitNext | scanner/phase_1_folders.go:165-184 | an entered folder is taken off the known ones, and put down the pipeline exactly if outdated and not new, empty and quick |
| ScanService.Scanner.PersistChanges | scanner/phase_1_folders.go:329-432 | folder and albums are written in one transaction or not at all |
| ScanService.Scanner.FinalizeFolders | scanner/phase_1_folders.go:477-505 | going through the jobs one by one equals marking all leftovers and touching the albums once |
| ScanService.Scanner.UpdateLibraries | scanner/scanner.go:296-330 | every library of the process has no start and no full flag any more and its last scan now; every other library is unchanged |
| ScanService.MarkMissingInChunks | persistence/folder_repository.go:197-210 | updating in chunks of 200 equals one update |
| ScanService.NextJobFinalized | scanner/phase_1_folders.go:477-505 | one more job leaves what finalizing all jobs so far at once leaves |
| WalkSelective.SelectiveRefinesFull | scanner/walk_dir_tree.go:21-91 | for a target the full walk visits, the selective walk gives exactly the full walk's entries at and below it, in order |
| WalkSelective.SelectiveRefinesFullIff | scanner/walk_dir_tree.go:21-91 | for any target the two agree if and only if the full walk visits it, or it does not exist or cannot be loaded |
| WalkSelective.SelectiveIsSilentIff | scanner/walk_dir_tree.go:31-91 | the selective walk gives nothing exactly for targets that do not exist or cannot be loaded |
| WalkSelective.IgnoredTargetIsWalked | scanner/walk_dir_tree.go:31-57 | a readable folder named by the root's ignore file: the full walk leaves it out, the selective walk does not |
| WalkSelective.SelectiveTargetsRefineFull | scanner/walk_dir_tree.go:31-57 | several targets give the concatenation |
| WalkSelective.RepeatedBlock | scanner/ignore_checker.go:148-163 | a block of patterns repeated right after itself changes no decision |
| WalkSelective.StacksAlike | scanner/ignore_checker.go:56-81 | the full walk's stack and the selective walk's decide alike on every path |
| WalkSelective.WalkAlike | scanner/walk_dir_tree.go:64-162 | the walk depends on the patterns only through their decisions |
| WalkRules.LoadDescribes | scanner/walk_dir_tree.go:93-162 | an entry has the names of the audio and image files counted, the number of playlists, the children walked into in their order, the time of the latest file, and that time as it was at the last image; loading fails exactly if a counted file cannot be inspected |
| WalkRules.LoadIs | scanner/walk_dir_tree.go:93-117 | a readable folder is loaded by its contents, a file as an empty folder, and anything else fails |
| WalkRules.PatternsOfFile | scanner/ignore_checker.go:106-145 | the patterns are the trimmed lines that are neither blank nor comments, in order; everything is ignored for a file without any, and nothing without a readable file |
| WalkRules.IgnoredIff | scanner/ignore_checker.go:85-101 | a path is ignored if and only if it is not the root and the last pattern with a say on it says so |
| WalkRules.DirIgnoredIff | scanner/walk_dir_tree.go:231-250 | the folders left out by name: those with one leading dot, and six special ones in any spelling of their letters |
| WalkRules.EntryIgnoredIff | scanner/walk_dir_tree.go:252-254 | the names left out: those that start with one dot |
| WalkRules.WalkHasIff | scanner/walk_dir_tree.go:64-91 | the walk has an entry for a path if and only if it gets there and the folder can be loaded; the entry is what is loaded with the patterns of all folders on the way |
| WalkRules.WalkIsInOrder | scanner/walk_dir_tree.go:64-91 | every folder is reported once and after all folders below it, and folders next to each other in the order of the listing |
| Text.TrimSplits | scanner/ignore_checker.go:126 | trimming takes the white space at both ends of a text and nothing else |
| WalkChecker.IgnoreChecker.LoadPatternsFromFolder | scanner/ignore_checker.go:106-145 | the patterns of a folder, none without a file, everything for an empty one |
| WalkChecker.IgnoreChecker.RebuildCurrentPatterns | scanner/ignore_checker.go:148-163 | the current patterns are the flattened stack, with no matcher for none |
| WalkChecker.IgnoreChecker.Push | scanner/ignore_checker.go:35-40 | pushes the folder's patterns |
| WalkChecker.IgnoreChecker.Pop | scanner/ignore_checker.go:44-49 | removes the last block, if there is one |
| WalkChecker.IgnoreChecker.PushAllParents | scanner/ignore_checker.go:56-81 | pushes one block for every folder from the root to the target |
| WalkChecker.IgnoreChecker.ShouldIgnore | scanner/ignore_checker.go:85-101 | the last matching pattern decides, and the root is never ignored |
| WalkChecker.IgnoreChecker.LoadDir | scanner/walk_dir_tree.go:93-162 | the loop gives the entry and the children of the specification |
| WalkChecker.IgnoreChecker.WalkFolder | scanner/walk_dir_tree.go:64-91 | gives the entries of the specification and restores the stack it found |
| WalkChecker.WalkDirTree | scanner/walk_dir_tree.go:21-62 | walks all targets, or the root if there are none |
| MovesMatching.PairsAreInjective | scanner/phase_2_missing_tracks.go:115-191 | after any number of turns every missing and every matched track is in at most one pair |
| MovesMatching.IdentitiesSurvive | scanner/phase_2_missing_tracks.go:275-298 | after any number of turns: consumed rows are gone and no others, every missing track is still there, a paired one with its match's data under its own id and age, and rows removed equal pairs |
| MovesMatching.MovedRows | persistence/sql_base_repository.go:411-452 | one move: the missing row has its match's data with its own id, creation and birth time, the match's row is gone, and every other row is unchanged |
| MovesMatching.PathsStayDistinct | scanner/phase_2_missing_tracks.go:275-298 | no two rows of a library ever share a path |
| MovesMatching.ExactMatchWins | scanner/phase_2_missing_tracks.go:127-154 | an unused match with equal contents is taken whenever there is one at the track's turn |
| MovesMatching.ExactMatchIsFirst | scanner/phase_2_missing_tracks.go:127-140 | the exact match is the first unused one with equal contents |
| MovesMatching.EquivalentMatchIsLast | scanner/phase_2_missing_tracks.go:127-140 | the equivalent match is the last unused one with the same base name |
| MovesMatching.UnmatchedIff | scanner/phase_2_missing_tracks.go:127-184 | exactly when a track stays unmatched |
| MovesMatching.EveryTurnIsTaken | scanner/phase_2_missing_tracks.go:122-181 | at its turn a missing track stays as it is if nothing left over suits it, and otherwise is paired with the match that suits it best and moved there, row and annotations included |
| MovesMatching.NothingSuitableIsLeft | scanner/phase_2_missing_tracks.go:115-191 | the matching is maximal: when the group is worked off, no unused match has the contents or the name of an unpaired track |
| MovesMatching.AnnotationsMoveOnce | scanner/phase_2_missing_tracks.go:300-333 | an album takes over annotations once, from the album of the first track that moved into it |
| MovesPhase.PhaseKeepsIdentities | scanner/phase_2_missing_tracks.go:61-191 | over groups with distinct pids, of one or several libraries, wherever the phase stops: missing rows survive, rows removed equal tracks moved, paths stay distinct, other rows are untouched |
| MovesPhase.NextLibraryIsDrawn | scanner/phase_2_missing_tracks.go:75-105 | the groups of one more library keep the pids distinct, as a track's pid contains its library (model/metadata/persistent_ids.go, line 83) |
| MovesPhase.GroupsOfAreDrawn | scanner/phase_2_missing_tracks.go:61-106 | the groups of a cursor are rows of the table, each once |
| MovesPhase.HavingInOrder | scanner/phase_2_missing_tracks.go:91-95 | a group's tracks are all rows of its pid, in the order of the cursor |
| MovesService.Produce | scanner/phase_2_missing_tracks.go:61-106 | on a clustered cursor: one group per pid with a missing row, holding all and only its rows, split and in order, and the groups in the order of the cursor |
| MovesService.MissingTracks.FindMatches | scanner/phase_2_missing_tracks.go:127-140 | the loop finds the two candidates, an exact one ending the search |
| MovesService.MissingTracks.MoveMatched | scanner/phase_2_missing_tracks.go:275-336 | the move happens as a whole or not at all |
| MovesService.MissingTracks.ProcessMissingTracks | scanner/phase_2_missing_tracks.go:115-191 | ends with the moves of all turns, or of those before the first failing transaction, and counts them |
| MovesService.MissingTracks.ProcessAll | scanner/phase_2_missing_tracks.go:108-191 | works off all groups, or those before the first failing transaction and its own group in part |
| PluginsModel.LoadedAreAlwaysEnabled | plugins/manager.go:325-626 | at every moment of every run, drift on disk included, what is loaded is enabled |
| PluginsModel.GrantsHoldInRuns | plugins/manager.go:478-684 | in runs without drift every enabled and every loaded plugin has the access that its manifest asks for |
| PluginsModel.GrantsStayIff | plugins/manager.go:478-652 | for every event: the grants are kept if and only if the gate has not looked past the row's own manifest |
| PluginsModel.DriftExample | plugins/manager.go:630-652 | a package that dropped its wish since the last sync can be enabled without a grant |
| PluginsModel.InstancesStayGranted | plugins/manager_loader.go:245-395 | what is loaded has what its own package asks for |
| PluginsModel.SyncEndsDrift | plugins/manager_sync.go:120-231 | after a sync an enabled plugin's package is the one its row was made from |
| PluginsModel.SyncTwice | plugins/manager_sync.go:120-231 | a second sync changes nothing |
| PluginsModel.UserDeletion | persistence/plugin_cleanup.go:10-47 | if no list is malformed, deleting a user takes it off every list, and disables and unloads exactly the plugins left without a user they want |
| PluginsModel.LibraryDeletion | persistence/plugin_cleanup.go:52-86 | the same for libraries, with numbers in quotes removed as well |
| PluginsModel.UserIsGoneIff | persistence/user_repository.go:334-352 | a deleted user is off every list if and only if no list is malformed or it was on none |
| PluginsService.PluginManager.EnablePlugin | plugins/manager.go:325-369 | enables and loads, with the access in the row, exactly the plugin whose package opens, compiles and asks for no more than is granted; otherwise changes nothing |
| PluginsService.PluginManager.DisablePlugin | plugins/manager.go:373-405 | an enabled plugin is disabled and unloaded, and nothing else changes |
| PluginsService.PluginManager.UpdateSettings | plugins/manager.go:478-548 | the row holds exactly the users or libraries given and keeps the rest; it is enabled afterwards if and only if it was, the package opens and compiles, the lists can be read and it asks for no more than is granted, and is then loaded with that access; every other row and instance is unchanged |
| PluginsService.PluginManager.SyncPlugins | plugins/manager_sync.go:120-231 | for every name: what a sync makes of its row and package, which plugins it unloads, and that the loops do so |
| PluginsService.PluginManager.UnloadDisabledPlugins | plugins/manager.go:588-626 | the loop unloads exactly the disabled plugins |
| PluginsService.PluginManager.LoadEnabledPlugins | plugins/manager_loader.go:175-241 | the loop loads the enabled plugins and disables those it cannot load |
| PluginsService.PluginManager.Start | plugins/manager.go:106-177 | synchronizes before loading |
| PluginsService.PluginManager.DeleteUser | persistence/plugin_cleanup.go:10-47 | unless a list is malformed: the user is off every list, all other entries stay, and exactly the plugins left without a user they want are disabled; in either case disabled plugins are unloaded |
| PluginsService.PluginManager.DeleteLibrary | persistence/plugin_cleanup.go:52-86 | the same for libraries, whose numbers may be in quotes |
| KVStoreModel.RowsRefineView | plugins/host_kvstore.go:137-297 | every call changes the map of live keys as it should |
| KVStoreModel.QuotaHoldsInRuns | plugins/host_kvstore.go:109-180 | in every run the live bytes are within the quota, at the end and ever after |
| KVStoreModel.CleanupsChangeNoAnswer | plugins/host_kvstore.go:196-367 | with clean-ups anywhere in a run, the caller gets the answers of the run without them |
| KVStoreModel.CleanupIsInvisible | plugins/host_kvstore.go:358-367 | a clean-up changes nothing that can be seen from then on |
| KVStoreModel.SetThenGet | plugins/host_kvstore.go:137-208 | until exactly when a stored value can be read, years beyond 9999 included |
| KVStoreModel.LastWriteIsRead | plugins/host_kvstore.go:137-297 | in every run a stored value is read until it is overwritten, deleted or past its last second, whatever other calls and clean-ups come in between |
| KVStoreModel.DeletedIsGone | plugins/host_kvstore.go:278-297 | in every run a deleted key is not there until it is stored again |
| KVStoreModel.OneMoreAnswer | plugins/host_kvstore.go:137-339 | the answers of a run are those that each call gets on the rows it finds |
| KVStoreModel.DeletedCountIff | plugins/host_kvstore.go:278-297 | the number DeleteByPrefix reports is independent of clean-ups if and only if no expired key matches |
| KVStoreService.KVStore.StorageUsed | plugins/host_kvstore.go:109-116 | the sum over the rows is the number of live bytes |
| KVStoreService.KVStore.CheckStorageLimit | plugins/host_kvstore.go:119-133 | a change that does not grow the store passes, others up to the limit |
| KVStoreService.KVStore.StoreValue | plugins/host_kvstore.go:137-180 | stores exactly what fits key length and quota, and otherwise changes nothing |
| KVStoreService.KVStore.StoreWithTTL | plugins/host_kvstore.go:188-193 | refuses a time to live that is not positive |
| KVStoreService.KVStore.LookupMany | plugins/host_kvstore.go:300-339 | looking up in batches equals looking up every key |
| KVStoreService.KVStore.Exists | plugins/host_kvstore.go:222-230 | tells exactly the keys that can be read |
| KVStoreService.KVStore.ListKeys | plugins/host_kvstore.go:233-265 | gives exactly the keys that can be read and match the prefix |
| KVStoreService.KVStore.RemoveByPrefix | plugins/host_kvstore.go:278-297 | removes the matching rows and counts them, expired ones included |
| KVStoreService.KVStore.CleanupExpired | plugins/host_kvstore.go:358-367 | removes exactly the expired rows |
| LyricsService.RoundTrip | model/lyrics.go:42-181 | lines written with one stamp each, in any of its forms ([mm:ss], [mm:ss.x], [mm:ss.xx], [mm:ss.xxx], with or without hours, any number of digits), are accepted and read back with their times and texts, in the order written |
| LyricsService.RoundTripRepeated | model/lyrics.go:91-170 | texts of one or more lines with several stamps, in any forms, come back once per stamp, sorted |
| LyricsService.LinesAreTimedIffSynced | model/lyrics.go:72-170 | every line of synced lyrics has a start, so sorting never meets one without; unsynced lyrics have none and are not sorted |
| LyricsService.ToLyrics | model/lyrics.go:42-181 | refuses exactly the synced texts with a line that begins with a stamp that cannot be read; otherwise synced lyrics have, in order or sorted, the entries of all stamped lines with the lines that go on with them, and the fields of the last tags; unsynced ones have their trimmed lines |
| LyricsService.ResultIsReading | model/lyrics.go:42-181 | for any text the result is the reading of its lines: entries of stamped lines, sorted exactly if some line has several stamps, and fields of tags |
| LyricsReference.SyncedLines | model/lyrics.go:63-162 | for any synced text: the lines are the entries of all stamped lines in order, each with the text behind its stamps and of the lines up to the next stamped one |
| LyricsReference.FieldsAreRead | model/lyrics.go:72-93 | artist, title, language and offset are those of the last tags that set them |
| LyricsService.FailsIff | model/lyrics.go:119-144 | the text is refused if and only if it is synced and some line begins with stamps of which one cannot be read |
| LyricsService.AccentedFails | model/lyrics.go:183-227 | a stamp with an accented letter for the dot is matched but cannot be read |
| LyricsService.SortByStart | model/lyrics.go:164-170 | a sorted arrangement of the same lines |
| LyricsService.ReadStamps | model/lyrics.go:119-144 | the stamps before any text, and where they end, unless one cannot be read |
| LyricsStamps.StampMatches | model/lyrics.go:183-227 | every written form of a stamp (hours absent or of one or two digits, minutes and seconds of one or two, fraction absent or of one to three, any character but a digit, colon or newline for the dot) is matched as written, with the time ((h*60+m)*60+s)*1000 plus the fraction in thousandths, and can be read exactly if it has no fraction or the dot is one byte; only without a fraction must what follows not look like one |
| LyricsRules.MatchIff | model/lyrics.go:28-29 | a stamp is matched at the start of a text if and only if one is written there |
| LyricsRules.MatchIsWritten | model/lyrics.go:183-227 | what is matched is a written stamp, with its own length and time |
| LyricsRules.StampsAreLeftmost | model/lyrics.go:96-99 | every stamp found is matched where it stands, and at no place outside of them is anything matched |
| LyricsRules.LeadingIs | model/lyrics.go:119-133 | the stamps taken are those with nothing but white space between them |
| LyricsRules.FindTagIs | model/lyrics.go:72-74 | the tag found is the leftmost [ar:..], [ti:..], [offset:..] or [lang:..] with something in it |
| LyricsRules.SyncedIff | model/lyrics.go:31-55 | lyrics are synced if and only if some line starts with a stamp, behind white space or none |
| LyricsStamps.StampIsMatched | model/lyrics.go:28-29 | a written stamp is matched in some way, whatever follows |
| LyricsRoundTrip.ParseInt64Iff | model/lyrics.go:82-87 | an offset is read exactly if it is a row of digits, behind a sign or none, whose value fits into 64 bits |
| LyricsStamps.BracketIsTaken | model/lyrics.go:28-29 | a stamp without a fraction before a text that begins with a digit and a bracket: the pattern takes the closing bracket for the dot |
| LyricsRoundTrip.StampsOfRendered | model/lyrics.go:96-144 | the stamps found in a line are those written, with their times, whatever their forms |
| LyricsRoundTrip.ParseRendered | model/lyrics.go:42-181 | the entries of written lyrics, in order, with their times and their texts over several lines |
| LyricsRoundTrip.TagIsRead | model/lyrics.go:72-93 | a tag sets the field it names and no other |
| LyricsRoundTrip.OffsetIsRead | model/lyrics.go:80-88 | every 64-bit offset is read back as written |
| LyricsRoundTrip.ParsePlain | model/lyrics.go:145-152 | lines without stamps are read back without times |
| Queries.PaginationIff | persistence/sql_base_repository.go:367-376 | with any limit or none, excluding the first rows by rowid gives the same page as OFFSET if and only if no skipped rowid comes back on the page |
| Queries.PaginationKeepsPages | persistence/sql_base_repository.go:367-376 | with one row per rowid every page is the same |
| Queries.TwoPhasesIff | persistence/sql_search_fts.go:275-322 | ranking and paging before fetching agrees with one query on every page if and only if every ranked row has one full row, down to a rank after which none has any |
| Queries.TwoPhasesOfSingles | persistence/sql_search_fts.go:275-322 | in that case each page is the same |

## Left out

- SQLite, the query builder, WebAssembly, HTTP, zip files and logging: a statement is one atomic step on a map of rows.
- Database and file system errors beyond those that decide a branch: a failing statement of the task queue's callers is an error return that changes nothing; a dequeue that fails, an outcome that is not written and a transaction that does not commit are modelled.
- Calls on a task queue or key-value store whose database is closed: the class methods are about an open one.
- The rate limiter's timing: waiting is one step that may be cancelled. The 32-bit width of attempt numbers is not modelled.
- TaskQueueService.TaskQueue.ProcessTask: one undisturbed pass through the worker's steps; every interleaving is covered by the transition system, whose events the methods perform.
- TaskQueueService.TaskQueue.CreateQueue: the reset of stale tasks and the installation of the queue are one event, as both happen under the service's mutex.
- Task messages and payload contents, and the table of queue configurations, which is written but never read.
- The float statistics of playlists, smart playlists and their refresh, and playlist permissions.
- Folder rows of the virtual Tidal library; adding, moving and deleting libraries while a scan is under way.
- Two scanning processes at a time: the scan lock is taken to hold.
- Tags, artists and tracks of a scanned folder: importing is the transaction that writes the folder row. A folder whose tags cannot be read is persisted without its tracks; the model counts it as imported.
- Cancellation of a scan: it is a crash, as no later statement of the process succeeds.
- The lookup of known folders by LIKE in selective scans: any subset of the library's folders may be in scope.
- Symbolic links that form cycles: the tree is finite. The sorting of directory listings by name: a folder's children are given in the order of its listing.
- The pattern language of ignore files: each pattern sets, clears or keeps the decision for a path, and the last one that does not keep it wins.
- An album is recorded as having taken over annotations while the transaction is still open; the model records it when the transaction commits. After one that does not, the stage ends, so no later move of it reads the record.
- Moves between libraries: matched tracks are not marked as used there, so nothing is claimed about them. The purge of missing files after phase 2.
- Lists of users and libraries that are valid JSON but no array, and null elements in them.
- The file watcher of plugins, configuration values beyond their effect on loading, and plugin instances at work.
- Two readings of the clock within one key-value call, and calls that overlap.
- The order of keys that List returns.
- HTML sanitizing of lyrics, and white space outside Latin-1.
- LyricsService.SortByStart: the library's sort is not stable; the model promises no order of lines with equal starts.
- The text of full-text search queries, their ranking, and everything else the query builder can do.

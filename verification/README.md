# orrchestrator: a verified model of its control logic

orrchestrator runs teams of coding agents over a set of projects. Its control logic decides when a loop may spawn
or must park, which agent owns a file, what a `PLAN.md` says and how an edit rewrites it, what a remote shell really
answered, and how files are moved without losing any. This project models that logic in Dafny and proves what it
promises, for every input and every run.

The form follows the source. What the source does step by step is a class or a method with the source's loops; each
is proved to compute a specification function (the `...Model` functions, `ScanAll`, `Blocks`, `Strip` and so on), and
the theorems are lemmas about those functions: over all runs, all documents, all faults.

| module | models |
|---|---|
| `LoopControllers` | the six-state loop controller, its retry budget, its cursor and the runs it spawns and closes |
| `FileRegistries` | the file ownership protocol, its pending edits, crash marks and audit log |
| `PlanText`, `PlanLines` | a PLAN.md line, and what each kind of line means |
| `PlanParser`, `PlanMeaning`, `PlanRows` | the region/phase automaton of the parser and of the linter, what a document means without it, and the rows it reads |
| `PlanMove`, `PlanAppend`, `PlanVerify`, `PlanMarked` | moving, appending and verifying features, and parsing the rewritten file |
| `PlanPanic` | documents on which a move panics |
| `Remote` | stripping escape sequences and finding balanced JSON objects in shell noise |
| `Feedback`, `Mentions` | splitting, trimming and truncating an inbox; whole-word mentions of a project name |
| `LoopReview` | ranking candidate tasks, printing the ranked plan and parsing it again |
| `ContextMigrate`, `Hide` | moving files, with any step failing or the process dying between two steps |
| `ErrorStores` | the error index in memory against the log it is loaded from |
| `Watchdog` | classifying loops, and the escalation ladder kept across calls |
| `Slug`, `Calendar` | the two slug algorithms; day numbers to dates |
| `Text`, `Options` | the string operations the source takes from its standard library |

Clocks, runners, work evaluators, file metadata, fresh ids, energies and I/O faults are arbitrary inputs.

## What the proofs found

- The doc comment of the controller (`crates/orrch-core/src/loop_controller.rs:105`) lets a user-gated loop pause after K
  attempts; the code pauses on the assessment alone, always with fewer than K attempts behind it:
  `GatedPauseExactlyWhen`, and `GatedPauseWithoutAttempt` for an input. The model follows the code.
- Moving a feature can insert past the end of the line vector and panic. `MovePanicsExactlyWhen` gives the exact
  condition: the first feature of a phase is moved up, and its title and that of the last feature of the phase before
  are both first found on the last line. `MoveCanPanic` is such a document.
- `parse_plan` drops empty phases (`PlanRows.NonEmptyHoldFeatures`), so the branches of the move and append functions for
  an empty phase never run.
- An interrupted copy of the loop registry changes what readers get, for good: `ReadersSeeAChangeExactlyWhen`,
  `BadCopyIsPermanent`, and `ReadersCanSeeAChange` for an input.
- When saving the file registry or writing its audit entry fails, a change of owner stays in memory and never reaches
  the audit log: `ReplaySurvivesExactlyWhen`, and `LostAcquireIsNotLogged` for an input.
- An error record appended behind an unfinished line is lost on reload, and that line with it: `AnswersAgree`, and
  `UnfinishedLineLosesBoth` for an input.
- `get_resolution` can answer differently before and after a reload: `MarkKeepsResolutionsExactlyWhen`.
- The whole ranked plan is not a round trip: every line of its ranking table is read as one more task
  (`WholePlanRepeatsEachRankedTask`). The section after `---` is one exactly for printable tasks
  (`TaskSectionRoundTrip`), and every task the parser returns is printable.
- Scoring a project name panics exactly when the name starts with a character that is not ASCII and the text contains
  it (`ScoringPanicsExactlyWhen`, `ScoringCanPanic`).
- A project name that holds `## Entry:` spoils a truncated inbox (`TruncatedSplitsByName`).
- The watchdog documents exponential back-off (`crates/orrch-core/src/loop_watchdog.rs:263`), but its ladder backs off on
  the first strike alone, so every wait is the base: `LadderByStrikes` (the doubling itself is `WaitDoubles`).
- After 2^32 strikes the watchdog's ladder starts again (`LadderWrapsAround`).

## Model

| member | source | states |
|---|---|---|
| `LoopControllers.ReachableInv` | crates/orrch-core/src/loop_controller.rs:446-619 | after any mix of ticks, feedback and stops against any runner, a handle is held exactly in Running and AdvancingWorkforce, the cursor is the number of advances modulo the schedule length, and the attempts equal the strikes since the last completed poll or resolving feedback |
| `LoopControllers.EveryRunClosedExactlyOnce` | crates/orrch-core/src/loop_controller.rs:446-619 | the handles spawned, in order, are the handles closed followed by the one still held, so each run is closed once and at most one is open |
| `LoopControllers.AdvancesAndClosesAreEarned` | crates/orrch-core/src/loop_controller.rs:462-511 | until a stop, the completed polls are the advances, plus one exactly while advancing; each advance follows a completed poll with no other advance in between, and each close a last answer of that run that is not "in progress" |
| `LoopControllers.StopAddsOneClose` | crates/orrch-core/src/loop_controller.rs:613-619 | a stop adds the close of the run still open to the trace and nothing else, now or later |
| `LoopControllers.RunInProgressIsLeftAlone` | crates/orrch-core/src/loop_controller.rs:462-465 | a run polled as in progress keeps state, handle, cursor and attempts |
| `LoopControllers.RunsSinceItsSpawn` | crates/orrch-core/src/loop_controller.rs:543-568 | a loop starts to run in the tick whose spawn succeeded, with that handle, that time and the workflow at the cursor |
| `LoopControllers.ParksForItsAnswer` | crates/orrch-core/src/loop_controller.rs:462-533 | the reason a loop is parked for holds the question or error got in that tick, the workflow it came from and the attempts |
| `LoopControllers.EscalatesExactlyAtBudget` | crates/orrch-core/src/loop_controller.rs:462-500 | until it is stopped, the loop is parked for exhausted attempts if and only if the strikes have reached max(K,1); they never go beyond it, so the counter cannot overflow, and the reason shown is accurate |
| `LoopControllers.GatedPauseExactlyWhen` | crates/orrch-core/src/loop_controller.rs:517-533 | from every reachable deciding state, one tick pauses the loop for user-gated work if and only if the schedule can run and the assessment is fully user-gated; the attempts are then always below max(K,1), so the documented "after K retries" never holds |
| `LoopControllers.GatedPauseWithoutAttempt` | crates/orrch-core/src/loop_controller.rs:105-105 | a fresh loop with K = 3 that pauses on its first tick with no attempt made |
| `LoopControllers.EverySpawnDisciplined` | crates/orrch-core/src/loop_controller.rs:517-568 | every spawn of a run happens with no other run open, below the capacity seen, on a runnable schedule, and for the workflow at the cursor |
| `LoopControllers.StoppedOnlyByStop` | crates/orrch-core/src/loop_controller.rs:446-619 | a loop is Stopped if and only if stop was called at some time |
| `LoopControllers.NothingAfterStop` | crates/orrch-core/src/loop_controller.rs:446-457 | whatever is fed after a stop, nothing is spawned, polled, closed or changed |
| `LoopControllers.FailingRunsParkAtTwiceBudget` | crates/orrch-core/src/loop_controller.rs:462-500 | when every run fails at its first poll, the loop parks at tick 2·max(K,1) and no sooner, after that many spawns and closes, with the last error |
| `LoopControllers.LoopController.Tick` | crates/orrch-core/src/loop_controller.rs:446-515 | one tick reaches exactly the specified state, counters and call trace, without an index out of range |
| `LoopControllers.LoopController.Evaluate` | crates/orrch-core/src/loop_controller.rs:517-568 | the decision hub idles, waits, pauses or spawns exactly as specified for every assessment and capacity |
| `LoopControllers.LoopController.Feed` | crates/orrch-core/src/loop_controller.rs:593-609 | feedback resumes the loop and clears the attempts exactly when it resolves the reason it is parked for |
| `LoopControllers.FeedbackEndsPauseExactlyWhen` | crates/orrch-core/src/loop_controller.rs:593-609 | reason by reason: new inbox work ends every pause, an answer only the wait for a decision and only with its own question; then the attempts are cleared, otherwise nothing changes |
| `LoopControllers.LoopController.Stop` | crates/orrch-core/src/loop_controller.rs:613-619 | stopping closes the run still open |
| `FileRegistries.CanonicalizeTwice` | crates/orrch-core/src/file_registry.rs:372-402 | a path the registry has canonicalized canonicalizes to itself, whatever its symbolic links resolve to, provided resolving twice is resolving once |
| `FileRegistries.ParentUndoesName` | crates/orrch-core/src/file_registry.rs:380-390 | wherever they stand in a path, a name and the `..` after it cancel out, and `.` means nothing |
| `FileRegistries.RefusedExactlyWhen` | crates/orrch-core/src/file_registry.rs:380-390 | normalizing refuses a path if and only if some beginning of it holds more `..` than there are names to undo |
| `FileRegistries.ClimbingPathExactlyWhen` | crates/orrch-core/src/file_registry.rs:372-402 | without links, a relative path that climbs n levels is accepted if and only if it comes back through the last n names of the root, and then to the same place; anything else above the root is refused |
| `FileRegistries.ReplayYieldsOwners` | crates/orrch-core/src/file_registry.rs:443-745 | after any operations from the empty registry on a disk that takes every save and every audit entry, replaying the audit log alone yields exactly the path-to-owner map |
| `FileRegistries.ReplaySurvivesExactlyWhen` | crates/orrch-core/src/file_registry.rs:336-745 | where the log tells the owners, it still does after one more call, whatever fails on the disk, if and only if every change of owner in it was saved and its entry written; the calls that log before saving need the entries alone |
| `FileRegistries.ReplayYieldsOwnersAfterFailures` | crates/orrch-core/src/file_registry.rs:336-745 | over any calls, saves and audit entries failing at will, the log tells the owners as long as no change of owner lost its entry |
| `FileRegistries.LostAcquireIsNotLogged` | crates/orrch-core/src/file_registry.rs:336-493 | one acquisition whose save fails or whose entry is lost: the path is owned and the log is empty |
| `FileRegistries.OwnersAfterAnyCall` | crates/orrch-core/src/file_registry.rs:443-745 | after any call, whatever fails on the disk, who owns any path is told by who owned it before: a free path goes to the agent that acquires it, and an owned one is freed or handed on only by its owner's own call, by a transfer from its owner, or by a sweep five minutes after its owner crashed |
| `FileRegistries.AnswersExactlyWhen` | crates/orrch-core/src/file_registry.rs:443-580 | acquiring, releasing and transferring answer with the owner in the way, or that there is none, and succeed otherwise if and only if the save does |
| `FileRegistries.RecordAfterCall` | crates/orrch-core/src/file_registry.rs:443-580 | a path taken gets a new record, one taken again is only touched, one handed on keeps its edit count; no other record changes |
| `FileRegistries.LogAfterAcquire` | crates/orrch-core/src/file_registry.rs:443-493 | which entry an acquisition adds to the log: for a free path, an own one, and another's, with double reads allowed or blocked |
| `FileRegistries.LogAfterRelease` | crates/orrch-core/src/file_registry.rs:503-580 | which entries a release and a transfer add to the log |
| `FileRegistries.TryingAcquires` | crates/orrch-core/src/file_registry.rs:495-501 | trying changes nothing of an owned path and does for a free one what acquiring does |
| `FileRegistries.EditIsPosted` | crates/orrch-core/src/file_registry.rs:604-634 | an edit is posted behind all others, pending, to the owner of its path, and refused without one |
| `FileRegistries.EditIsSettled` | crates/orrch-core/src/file_registry.rs:636-679 | applying marks the first edit with the id, counts and touches the present record of its path, and does nothing the second time; rejecting marks it with the reason and counts nothing |
| `FileRegistries.EditIsMissing` | crates/orrch-core/src/file_registry.rs:636-679 | without an edit of that id both refuse and change nothing |
| `FileRegistries.EditsFollowTransfer` | crates/orrch-core/src/file_registry.rs:566-575 | a transfer hands on exactly the pending edits of the path that were posted to its old owner |
| `FileRegistries.CustodyFollowsOwner` | crates/orrch-core/src/file_registry.rs:540-658 | through any operations, whatever fails on the disk, every edit posted since a path was last taken and still pending names the current owner, and the edit count is the number of edits applied since then, saturated at the u32 maximum |
| `FileRegistries.CrashReleaseHonoursGrace` | crates/orrch-core/src/file_registry.rs:707-745 | after any operations, whatever fails on the disk, every CRASH_RELEASE written comes from a sweep at least five minutes after that owner's last crash mark |
| `FileRegistries.SweepReleasesExactlyTheExpired` | crates/orrch-core/src/file_registry.rs:716-745 | a sweep frees exactly the paths of agents whose grace has run out, leaves every other owner as it was and forgets just those marks |
| `FileRegistries.MarksAreLatest` | crates/orrch-core/src/file_registry.rs:707-745 | whatever fails on the disk, the crash mark kept for an agent is the time of its latest crash report |
| `FileRegistries.WinnerIndependentOfOrder` | crates/orrch-core/src/file_registry.rs:753-763 | two orders of the same candidates have the same winner |
| `FileRegistries.PickSameWaveWinner` | crates/orrch-core/src/file_registry.rs:753-763 | the winner is a candidate that beats all others by time, then role, then id; none only without candidates |
| `FileRegistries.BeatsExactlyWhen` | crates/orrch-core/src/file_registry.rs:50-61 | of two requests the earlier wins; at one time the role that comes first in PM, software engineer, developer, researcher, UI designer, tester, any other, under each of their names; in one role the smaller id |
| `FileRegistries.RoleIsBeforeColon` | crates/orrch-core/src/file_registry.rs:45-47 | the role is what stands before the first colon of the id, or the whole id |
| `FileRegistries.StringLessIs` | crates/orrch-core/src/file_registry.rs:759-759 | ids are ordered by the first place where they differ, a beginning before the whole |
| `FileRegistries.FileRegistry.Acquire` | crates/orrch-core/src/file_registry.rs:443-493 | acquiring gives a free path to the agent, refreshes its own path, refuses another's, and logs each verdict; when the save fails the change stays in memory, unlogged, and a lost entry is passed over |
| `FileRegistries.FileRegistry.TryAcquire` | crates/orrch-core/src/file_registry.rs:495-501 | answers the current owner of an owned path and changes nothing, and acquires a free path, saved or not |
| `FileRegistries.FileRegistry.Release` | crates/orrch-core/src/file_registry.rs:503-519 | only the owner frees a path; when the save fails it is freed in memory, unlogged |
| `FileRegistries.FileRegistry.ReleaseAll` | crates/orrch-core/src/file_registry.rs:521-538 | the agent's paths, each once and no others, are freed, each with its own entry; they are returned unless the save then fails |
| `FileRegistries.FileRegistry.Transfer` | crates/orrch-core/src/file_registry.rs:540-580 | ownership and the pending edits of the path move together, and the edit count is carried over, also when the save fails and nothing is logged |
| `FileRegistries.FileRegistry.TransferAllFrom` | crates/orrch-core/src/file_registry.rs:582-602 | the agent's paths, each once, are transferred up to the first transfer that fails, whatever the links on the disk have become |
| `FileRegistries.TransfersAllSucceed` | crates/orrch-core/src/file_registry.rs:582-602 | while every path still canonicalizes to itself and every save succeeds, no transfer in between fails and all paths are returned |
| `FileRegistries.FileRegistry.RequestEdit` | crates/orrch-core/src/file_registry.rs:604-634 | an edit is posted to the path's current owner, saved or not |
| `FileRegistries.FileRegistry.ApplyEdit` | crates/orrch-core/src/file_registry.rs:636-658 | applying an edit that is not applied counts it and saturates, applying it again does nothing; an edit rejected in between counts again |
| `FileRegistries.FileRegistry.RejectEdit` | crates/orrch-core/src/file_registry.rs:660-679 | rejecting changes only the status of the named edit, saved or not |
| `FileRegistries.FileRegistry.SweepCrashed` | crates/orrch-core/src/file_registry.rs:716-745 | the loops over expired agents and their paths drop exactly the specified paths, in some order |
| `PlanParser.ParsePlanLines` | crates/orrch-core/src/plan_parser.rs:197-298 | the parser's four variables follow one automaton; it returns the opened phases that hold a feature |
| `PlanParser.LintPlanLines` | crates/orrch-core/src/plan_parser.rs:301-400 | the linter's variables follow the same automaton and report what it says |
| `PlanParser.ParserAndLinterAgree` | crates/orrch-core/src/plan_parser.rs:197-400 | for every document, the phases the linter reports empty are exactly those the parser opens and drops, in order; every other phase is returned with the count the linter kept; no roadmap region means no phases |
| `PlanMeaning.RegionsOfPlan` | crates/orrch-core/src/plan_parser.rs:197-298 | after any line, the region is the explicit one if and only if a level-2 region heading is followed, up to there, by no level-2 heading that is neither one nor phase-like; the implicit one is told the same way, without reference to the automaton, and so is whether a phase is open |
| `PlanMeaning.PlanIsItsEntries` | crates/orrch-core/src/plan_parser.rs:197-298 | the plan is exactly the feature lines inside a phase, in order, each under the heading that opened its phase and with the text of the lines that continue it |
| `PlanMeaning.DescriptionIsJoined` | crates/orrch-core/src/plan_parser.rs:268-287 | a description is the feature's own and its continuation lines, joined by single blanks |
| `PlanMeaning.LinterReports` | crates/orrch-core/src/plan_parser.rs:301-400 | the missing roadmap region is reported if and only if no heading starts a region; an ignored list is reported under a heading if and only if a numbered line outside every region stands under it |
| `PlanLines.HeadingExactlyWhen` | crates/orrch-core/src/plan_parser.rs:425-437 | a heading has two to six number signs and a blank behind them |
| `PlanLines.HeadingIsNormalized` | crates/orrch-core/src/plan_parser.rs:439-446 | blanks, a strike through the whole and closing number signs do not change what a heading says |
| `PlanLines.RegionHeadingExactlyWhen` | crates/orrch-core/src/plan_parser.rs:448-478 | a heading opens a roadmap region if and only if it is a numbered feature roadmap, or one of seven phrases, alone or before a colon, a dash or a parenthesis |
| `PlanLines.PhaseLikeExactlyWhen` | crates/orrch-core/src/plan_parser.rs:480-486 | a heading is phase-like if and only if it starts with "phase " or says "critical path", "cross-cutting" or "cross cutting" |
| `PlanLines.PhaseNameReads` | crates/orrch-core/src/plan_parser.rs:503-539 | a phase is named by what follows the first em dash, else the first en dash, else a colon before any parenthesis |
| `PlanLines.WholeHeadingIsName` | crates/orrch-core/src/plan_parser.rs:503-539 | without those the whole heading is the name |
| `PlanLines.PhaseNumberReads` | crates/orrch-core/src/plan_parser.rs:503-539 | the digits after "phase " are its number up to 255, and no number above |
| `PlanLines.UnnumberedReads` | crates/orrch-core/src/plan_parser.rs:503-539 | a heading of another kind has no number and is its own name |
| `PlanText.MarkerMeans` | crates/orrch-core/src/plan_parser.rs:144-164 | which status every marker names, by the character between its brackets, and that nothing else names one |
| `PlanLines.LeadStrips` | crates/orrch-core/src/plan_parser.rs:689-722 | a dash, a number or a checkpoint label goes; only a plain number within u32 numbers the feature |
| `PlanLines.BulletReads` | crates/orrch-core/src/plan_parser.rs:542-616 | a bullet with a marker has its status, one without is planned, and words in title or description that retire it make only a planned feature deprecated |
| `PlanLines.NoBullet` | crates/orrch-core/src/plan_parser.rs:574-586 | a bullet of section metadata is no feature |
| `PlanLines.TitleReads` | crates/orrch-core/src/plan_parser.rs:725-745 | a bold title ends at its own asterisks, and blanks and dashes between it and the description go |
| `PlanLines.PlainTitleReads` | crates/orrch-core/src/plan_parser.rs:725-745 | without bold the title ends at the first em dash, or is the whole text |
| `PlanLines.LeadIsBullet` | crates/orrch-core/src/plan_parser.rs:542-558 | a line with a lead is neither a heading nor a table row |
| `PlanLines.ContinuesExactlyWhen` | crates/orrch-core/src/plan_parser.rs:267-287 | which lines go on with the description above them, and which are steps of a numbered list |
| `PlanLines.RowReads` | crates/orrch-core/src/plan_parser.rs:618-627 | a table row is read cell by cell |
| `PlanLines.MarkedRowReads` | crates/orrch-core/src/plan_parser.rs:618-681 | the first marker cell behind them gives the status, the second cell the title, and all other cells that are not empty the description, unless the title cell has its own |
| `PlanLines.MarkerFirstReads` | crates/orrch-core/src/plan_parser.rs:618-681 | with the marker in the first cell, the title is in the first cell after it that is not empty |
| `PlanLines.MarkerSecondReads` | crates/orrch-core/src/plan_parser.rs:650-681 | with the marker in the second cell, the title is that cell, marker and all |
| `PlanLines.NoRow` | crates/orrch-core/src/plan_parser.rs:629-648 | fewer than three cells, the row of column names and rows without a marker are no features |
| `PlanLines.StatusCellReads` | crates/orrch-core/src/plan_parser.rs:683-686 | a marker cell may stand in back quotes |
| `PlanMove.MoveFeatureInPlan` | crates/orrch-core/src/plan_parser.rs:761-885 | swaps, or removes and inserts, the specified lines, and otherwise reports that nothing moved |
| `PlanMove.FirstWithBold` | crates/orrch-core/src/plan_parser.rs:1047-1054 | the search returns the first line that has the title in bold |
| `PlanMove.BoldOnceIsFound` | crates/orrch-core/src/plan_parser.rs:1047-1054 | a title in bold on one line alone, the only line read as a feature of it, is found there |
| `PlanMove.LineSaysExactlyWhen` | crates/orrch-core/src/plan_parser.rs:1047-1067 | which lines the two searches take for the line of a title or the header of a phase |
| `PlanMove.FirstHeader` | crates/orrch-core/src/plan_parser.rs:1057-1067 | the header search returns the first such line, and none without one |
| `PlanMove.MovePermutesLines` | crates/orrch-core/src/plan_parser.rs:761-885 | every rewrite is a permutation of the lines |
| `PlanMove.MovePanicsExactlyWhen` | crates/orrch-core/src/plan_parser.rs:800-880 | the exact condition under which a move panics |
| `PlanPanic.MoveCanPanic` | crates/orrch-core/src/plan_parser.rs:800-880 | a document of six lines, "- Alpha" and "- Beta" in two phases and "**Alpha** **Beta**" at the end, on which moving up panics |
| `PlanMove.MoveWithinPhaseReparses` | crates/orrch-core/src/plan_parser.rs:761-885 | when the search by title finds the own lines of the two features, moving up inside a phase (or the neighbour down) makes the parse swap just these two; nothing is asked of the other features |
| `PlanMove.MoveUpAcrossReparses` | crates/orrch-core/src/plan_parser.rs:761-885 | when the search finds the two features at a phase boundary, moving the first feature up makes it the last of the phase before in the parse; a phase left empty disappears |
| `PlanMove.MoveDownAcrossReparses` | crates/orrch-core/src/plan_parser.rs:761-885 | when the search finds the two features at a phase boundary, moving the last feature down makes it the first of the next phase in the parse |
| `PlanMove.SwapUpTransposes` | crates/orrch-core/src/plan_parser.rs:761-885 | an in-phase move is one adjacent transposition of the flattened features |
| `PlanMove.AcrossKeepsOrder` | crates/orrch-core/src/plan_parser.rs:761-885 | a cross-phase move keeps the flattened order of the features |
| `PlanRows.RowsMirrorScan` | crates/orrch-core/src/plan_parser.rs:197-298 | without description text, a parse depends only on what each line is, not on what continues it |
| `PlanAppend.AppendFeatureToPlan` | crates/orrch-core/src/plan_parser.rs:891-947 | the numbered line goes below the last feature of the phase, or nothing is written |
| `PlanAppend.NextIdIsFresh` | crates/orrch-core/src/plan_parser.rs:907-914 | below the u32 limit the new number is larger than every number in the plan |
| `PlanAppend.NextIdFollows` | crates/orrch-core/src/plan_parser.rs:907-914 | the new number follows one that is taken, or is 1 in a plan without numbers, or has wrapped to 0 |
| `PlanAppend.NewLineParses` | crates/orrch-core/src/plan_parser.rs:541-616 | for a title and a description without line feeds, the formatted text is one line and is read back as exactly the feature it was written for |
| `PlanAppend.AppendReparses` | crates/orrch-core/src/plan_parser.rs:891-947 | when the search finds the last feature of the phase and neither title nor description holds a line feed, parsing the rewritten file returns the same plan with the new feature as the last of its phase |
| `PlanAppend.PlainDescriptionIsKept` | crates/orrch-core/src/plan_parser.rs:725-745 | a description without dashes and spaces around it is read as it was written |
| `PlanVerify.MarkVerifiedInPlan` | crates/orrch-core/src/plan_parser.rs:955-1000 | the loop rewrites only the first line that holds both `[x]` and the trimmed title, or nothing |
| `PlanVerify.MarksExactlyWhen` | crates/orrch-core/src/plan_parser.rs:955-1000 | the first line that says both `[x]` and the trimmed title is marked; a blank title, or no such line, marks nothing |
| `PlanVerify.OneCharacterChanges` | crates/orrch-core/src/plan_parser.rs:949-1000 | of the whole file exactly one character changes, an `x` into a `v`, on a line that holds the title |
| `PlanVerify.MarkedLineParses` | crates/orrch-core/src/plan_parser.rs:541-722 | the rewritten line of any done bullet, numbered or checkpoint item, however it is indented, is read as the same feature, verified by the user |
| `PlanMarked.MarkedRowParses` | crates/orrch-core/src/plan_parser.rs:618-690 | the rewritten line of any table row whose status cell is not its title cell and holds the first `[x]` is read as the same feature, verified by the user |
| `PlanMarked.VerifyReparses` | crates/orrch-core/src/plan_parser.rs:955-1000 | when the line read as the feature is the first that holds `[x]` and the trimmed title, in bold or not, and is a done bullet or done table row, parsing the rewritten file returns the same plan, descriptions included, with just that feature verified |
| `Remote.StripAnsi` | crates/orrch-core/src/remote.rs:24-83 | the index loop drops exactly the escape sequences and bells |
| `Remote.StripIdempotent` | crates/orrch-core/src/remote.rs:24-83 | stripping twice is stripping once |
| `Remote.FindJsonObject` | crates/orrch-core/src/remote.rs:89-122 | finds the first balanced object with depth, string and escape tracking |
| `Remote.IterJsonObjects` | crates/orrch-core/src/remote.rs:127-140 | the shrinking rest yields every balanced object in turn |
| `Remote.ScanObject` | crates/orrch-core/src/remote.rs:89-122 | from its opening brace the scanner stops exactly at the end of any JSON object of RFC 8259, whatever follows |
| `Remote.ReadsBackPrintedObjects` | crates/orrch-core/src/remote.rs:24-140 | any list of printed JSON objects, interleaved with complete escape sequences of ECMA-48 and brace-free text, comes back as exactly those objects in order |
| `Remote.UnfinishedSwallowsTheRest` | crates/orrch-core/src/remote.rs:33-58 | a control sequence without a final byte, or a control string without a terminator, takes the rest of the text with it |
| `Remote.EscapesAtTheEnd` | crates/orrch-core/src/remote.rs:30-71 | at the very end a lone escape stays, and a designation without its byte goes |
| `Remote.UnclosedBraceHidesObjects` | crates/orrch-core/src/remote.rs:89-140 | an opening brace that is never closed hides every object behind it, so the noise must not hold one |
| `Feedback.SplitEntries` | crates/orrch-core/src/feedback.rs:996-1014 | the search loop cuts the text at every marker |
| `Feedback.SplitJoins` | crates/orrch-core/src/feedback.rs:996-1022 | the preamble followed by the entries is the whole file |
| `Feedback.JoinSplits` | crates/orrch-core/src/feedback.rs:996-1022 | any marker-free preamble with any list of entries after it splits back into that preamble and that list |
| `Feedback.MarkerHasNoBorder` | crates/orrch-core/src/feedback.rs:996-1014 | no proper prefix of the marker is its suffix, so no marker can arise where two parts meet |
| `Feedback.TrimRemovesExactlyCompleted` | crates/orrch-core/src/feedback.rs:872-904 | trimming keeps the preamble and exactly the entries not completed, counts the others, and a second call removes none |
| `Feedback.EntryGoesExactlyWhen` | crates/orrch-core/src/feedback.rs:1024-1026 | an entry goes if and only if the text "Executed: complete" or "Executed: done" stands anywhere in it |
| `Feedback.KeptIsLongestSuffix` | crates/orrch-core/src/feedback.rs:811-867 | the kept entries are the longest run of newest entries that fits beside header and marker, or the newest alone when none fits |
| `Feedback.TruncatesExactlyWhen` | crates/orrch-core/src/feedback.rs:818-826 | a file is rewritten if and only if it is over the limit and holds an entry; one of just the limit is left alone |
| `Feedback.HeaderIsSpelledOut` | crates/orrch-core/src/feedback.rs:834-836 | the header and the marker comment above the kept entries, letter by letter |
| `Feedback.TruncatedFits` | crates/orrch-core/src/feedback.rs:811-867 | the truncated file never exceeds the limit unless its newest entry does, together with header and marker |
| `Feedback.TruncatedSplits` | crates/orrch-core/src/feedback.rs:811-867 | splitting the truncated file gives back exactly the kept entries if and only if the new header does not hold the entry marker |
| `Feedback.TruncatedSplitsByName` | crates/orrch-core/src/feedback.rs:811-867 | for a timestamp without `#`, as the source writes it, the kept entries come back if and only if the project name does not hold the entry marker |
| `Feedback.NameWithMarkerSpoilsEntries` | crates/orrch-core/src/feedback.rs:811-867 | a project name that holds the entry marker makes the kept entries come back different |
| `Feedback.Inbox.TruncateIfLarge` | crates/orrch-core/src/feedback.rs:811-867 | rewrites the file exactly when it is too large and has entries |
| `Feedback.Inbox.TrimCompleted` | crates/orrch-core/src/feedback.rs:872-904 | rewrites the file exactly when an entry is completed |
| `Mentions.CountWordBoundaryMatches` | crates/orrch-core/src/feedback.rs:149-168 | counts every place where the name stands as a whole word, or panics exactly when the search goes on inside a character |
| `Mentions.WordBoundaryMatch` | crates/orrch-core/src/feedback.rs:171-194 | answers by whichever comes first, a whole-word place or a cut character |
| `Mentions.MentionExactlyWhen` | crates/orrch-core/src/feedback.rs:149-194 | an occurrence is a mention if and only if neither of the two bytes next to it is an ASCII letter or digit |
| `Mentions.MatchIsPositiveCount` | crates/orrch-core/src/feedback.rs:149-194 | the two loops agree: there is a match exactly when the count is not zero |
| `Mentions.ScoringPanicsExactlyWhen` | crates/orrch-core/src/feedback.rs:96-194 | the exact condition, on name and text, under which scoring a name panics |
| `Mentions.ScoringCanPanic` | crates/orrch-core/src/feedback.rs:96-194 | name and text both the letter e with an acute accent: scoring panics |
| `LoopReview.ParseTaskBlocks` | crates/orrch-core/src/loop_review.rs:576-644 | from one text, cut at line feeds: one task per header line with the fields up to the next header |
| `LoopReview.HeaderStarts` | crates/orrch-core/src/loop_review.rs:583-602 | a header names the task before its first colon and describes it after; all fields start empty, the edit factor at 0.25 and the risk open |
| `LoopReview.HeaderWithoutColon` | crates/orrch-core/src/loop_review.rs:585-588 | without a colon the whole rest is the name, also an empty one |
| `LoopReview.FieldLineSets` | crates/orrch-core/src/loop_review.rs:609-638 | for each of the seven labels, what a line with it sets, whatever its indent; `Risk:` and `EditFactor:` only when the number can be read |
| `LoopReview.OtherLinesAreSkipped` | crates/orrch-core/src/loop_review.rs:603-640 | a line with none of the seven labels sets nothing |
| `LoopReview.FieldsInOrder` | crates/orrch-core/src/loop_review.rs:603-640 | the lines of a block apply in order, so an `EditFactor:` line counts over an earlier `Work:` line and the other way round |
| `LoopReview.EditFactorMeans` | crates/orrch-core/src/loop_review.rs:648-667 | which words of the work text, in either case, make an edit 1.0, 0.6, 0.05 or else 0.25, the larger before the smaller |
| `LoopReview.RenderTaskSection` | crates/orrch-core/src/loop_review.rs:715-745 | appends to one text a block per ranked id that has a step, in rank order |
| `LoopReview.TaskSectionRoundTrip` | crates/orrch-core/src/loop_review.rs:576-745 | parsing the text after `---` gives back, in rank order, every task with all its printed fields, its edit factor inferred again, if and only if every ranked task is printable: its fields trimmed and without line feeds, its id without a colon, its items neither empty nor `none` and without commas |
| `LoopReview.ParsedTasksSurvivePrinting` | crates/orrch-core/src/loop_review.rs:576-745 | whatever text tasks are parsed from, printing them and parsing again gives the same tasks |
| `LoopReview.RenderRankedPlan` | crates/orrch-core/src/loop_review.rs:683-745 | writes the title, one line per ranked step, `---` and the task section into one text |
| `LoopReview.WholePlanRepeatsEachRankedTask` | crates/orrch-core/src/loop_review.rs:683-745 | parsing the whole file gives one task without fields for each ranked step, its id the text of that step's ranking line, and then the real tasks, when the steps are printable and name and numbers are plain text on one line |
| `LoopReview.RankingIsUnique` | crates/orrch-core/src/loop_review.rs:864-871 | a list in ascending energy, then id, of given candidates is the only one, so any sort gives the ranking the model computes |
| `LoopReview.RankSteps` | crates/orrch-core/src/loop_review.rs:858-881 | for any scorer the result ranks every candidate once, by energy and then id; for distinct printable candidates the file written is read as one shadow per ranking line and then each candidate once, in the order of the ranking |
| `LoopReview.RankedPlanReadsBack` | crates/orrch-core/src/loop_review.rs:576-881 | however printable candidates with distinct ids are ranked by energy and id, printing the section and parsing it gives back exactly the candidates, in that order |
| `ContextMigrate.Migration.MigrateContext` | crates/orrch-core/src/context_migrate.rs:24-123 | one run, with any file step failing or the process dying after any step, leaves the specified files and report |
| `ContextMigrate.NothingIsLost` | crates/orrch-core/src/context_migrate.rs:24-123 | over any number of interrupted runs an existing canonical or backup file never changes, the legacy bytes stay at the legacy or the backup path, and leave the legacy path only when canonical holds them |
| `ContextMigrate.DeathAfterEachStep` | crates/orrch-core/src/context_migrate.rs:62-123 | what a run that dies after none, one, two or three of its steps leaves, and what a whole one reports, when the copy is good, bad or failed |
| `ContextMigrate.RenameIsFinished` | crates/orrch-core/src/context_migrate.rs:37-60 | the run after a death between copy and rename finishes the rename |
| `ContextMigrate.ReadersSeeAChangeExactlyWhen` | crates/orrch-core/src/loops.rs:133-148 | one run changes what readers get if and only if it leaves a copy that differs from legacy |
| `ContextMigrate.ReadersCanSeeAChange` | crates/orrch-core/src/context_migrate.rs:65-83 | a process that dies after copying one byte of two: readers now get that one byte |
| `ContextMigrate.ReadersOverRuns` | crates/orrch-core/src/loops.rs:133-148 | the same over any number of runs |
| `ContextMigrate.BadCopyIsPermanent` | crates/orrch-core/src/context_migrate.rs:37-45 | once canonical differs from legacy no later run changes anything or reports a move |
| `ContextMigrate.MovedKeepsReaders` | crates/orrch-core/src/context_migrate.rs:104-123 | a run that reports a move leaves what readers get, with the legacy bytes at both new places |
| `ContextMigrate.FaultFreeRunFinishes` | crates/orrch-core/src/context_migrate.rs:45-60 | after any interrupted runs that left no bad copy, one run without faults completes the move, and any run after it changes nothing |
| `Hide.Project.HideContext` | crates/orrch-core/src/hide.rs:29-99 | leaves the specified files, also when any step fails, and reports what moved |
| `Hide.Project.RevealContext` | crates/orrch-core/src/hide.rs:102-142 | leaves the specified files, also when any step fails, and reports what came back |
| `Hide.HidingHides` | crates/orrch-core/src/hide.rs:29-99 | when hiding ends without an error, none of the three files is at the root and each that was is under `.orrch/`; a root `CLAUDE.md` is exactly the stub, its old body under `.orrch/`; nothing else changed, and `moved` lists exactly what moved |
| `Hide.HidingFailsExactlyWhen` | crates/orrch-core/src/hide.rs:29-99 | without faults hiding fails if and only if a file is there in two versions or a `CLAUDE.md` it would copy is not text |
| `Hide.RevealingReveals` | crates/orrch-core/src/hide.rs:102-142 | when revealing ends without an error, every hidden file whose place is free is back, a readable stub has made way for the hidden `CLAUDE.md`, nothing else changed, and the report lists exactly that |
| `Hide.StubText` | crates/orrch-core/src/hide.rs:14-14 | the stub is the line `@.orrch/CLAUDE.md` |
| `Hide.NothingIsLost` | crates/orrch-core/src/hide.rs:29-142 | after any calls, each ended by any fault or none, every file body but the stub is still at the root or under `.orrch/` |
| `Hide.RevealUndoesHide` | crates/orrch-core/src/hide.rs:29-142 | without hidden counterparts, revealing after hiding restores every file |
| `Hide.HideIsIdempotent` | crates/orrch-core/src/hide.rs:29-99 | hiding again changes nothing and ends the same way, also after an error |
| `ErrorStores.ErrorStore.Load` | python-prototype/orrchestrator/retrospect.py:197-213 | loading gives the index of the lines that can be read and changes nothing the store stands for |
| `ErrorStores.ErrorStore.Append` | python-prototype/orrchestrator/retrospect.py:215-221 | the record joins the index and is written behind the text of the log, whatever that text ends in |
| `ErrorStores.ErrorStore.HasFingerprint` | python-prototype/orrchestrator/retrospect.py:223-226 | answers whether the index knows the fingerprint |
| `ErrorStores.ErrorStore.MarkResolved` | python-prototype/orrchestrator/retrospect.py:242-269 | the index resolves the open records in place; one marker is written behind the text of the log, and none for an unknown fingerprint |
| `ErrorStores.ErrorStore.GetResolution` | python-prototype/orrchestrator/retrospect.py:233-240 | the newest resolution that is not empty |
| `ErrorStores.ErrorStore.UnresolvedFingerprints` | python-prototype/orrchestrator/retrospect.py:271-278 | the fingerprints without any resolved record, in insertion order |
| `ErrorStores.ErrorStore.GetStats` | python-prototype/orrchestrator/retrospect.py:280-293 | the four statistics of the index |
| `ErrorStores.LineEndsExactlyAt` | python-prototype/orrchestrator/retrospect.py:197-213 | a line feed or a carriage return ends a line of the log, and nothing else does |
| `ErrorStores.LoadKeepsRecords` | python-prototype/orrchestrator/retrospect.py:197-213 | a load keeps, for each fingerprint, exactly its records in order |
| `ErrorStores.LoadKnows` | python-prototype/orrchestrator/retrospect.py:223-226 | a fingerprint is known after a load if and only if some record has it |
| `ErrorStores.LoadCountsRecords` | python-prototype/orrchestrator/retrospect.py:280-293 | the total counts every record a load finds |
| `ErrorStores.UnresolvedExactlyWhen` | python-prototype/orrchestrator/retrospect.py:271-293 | a fingerprint is listed if and only if it is known and no record of it is resolved, once and in order of first appearance; the statistics count the known, the resolved and the unresolved ones |
| `ErrorStores.NewestResolutionIs` | python-prototype/orrchestrator/retrospect.py:233-240 | the answer is the resolution of the newest resolved record with a text, and none when there is none |
| `ErrorStores.ResolveAllAt` | python-prototype/orrchestrator/retrospect.py:242-254 | marking resolves each open record with the given text and leaves each resolved one as it is |
| `ErrorStores.MarkWritesOneRecord` | python-prototype/orrchestrator/retrospect.py:256-269 | marking a known fingerprint adds one resolved record of the first one's category to a clean log, and an unknown one changes nothing |
| `ErrorStores.AnswersAgree` | python-prototype/orrchestrator/retrospect.py:197-293 | after any calls the live index and a fresh reload agree on the known fingerprints, the unresolved ones and every statistic but the total, which differs by exactly the markers written, if and only if the file was empty or ended in a line break (blanks aside) or nothing was written |
| `ErrorStores.UnfinishedLineLosesBoth` | python-prototype/orrchestrator/retrospect.py:197-221 | a log of one record without a line feed at its end: after one append the store knows both records, a reload neither |
| `ErrorStores.MarkKeepsResolutionsExactlyWhen` | python-prototype/orrchestrator/retrospect.py:233-269 | on a file that ends clean, marking keeps live and reloaded resolutions equal if and only if the resolution is empty, is the current one, or an unresolved record is the newest to speak; on another file, if and only if the complete lines alone already tell the resolutions after marking |
| `ErrorStores.AppendKeepsResolutions` | python-prototype/orrchestrator/retrospect.py:215-240 | appending keeps them equal if and only if the file ends clean or the lost line and record tell no resolution that the complete lines do not |
| `ErrorStores.MarkingTwiceDisagrees` | python-prototype/orrchestrator/retrospect.py:242-269 | a concrete store where they differ |
| `Watchdog.Classify` | crates/orrch-core/src/loop_watchdog.rs:147-184 | the first of the sessions silent the longest makes a loop hung; otherwise thrash, then stuck |
| `Watchdog.OneClassification` | crates/orrch-core/src/loop_watchdog.rs:147-184 | there is only one such verdict |
| `Watchdog.SilenceCountsFrom` | crates/orrch-core/src/loop_watchdog.rs:151-160 | silence counts from the last output, and from the spawn only without one; dead sessions are never silent |
| `Watchdog.HungNamesLongestSilence` | crates/orrch-core/src/loop_watchdog.rs:149-165 | a hung verdict names the first of the live sessions last heard longest ago, and how long ago |
| `Watchdog.ClassExactlyWhen` | crates/orrch-core/src/loop_watchdog.rs:147-184 | hung, thrash, stuck and healthy, each if and only if the view says so: the thresholds, the wrapped sum, and what goes first |
| `Watchdog.StrikesStep` | crates/orrch-core/src/loop_watchdog.rs:189-262 | a thrash or stuck verdict is a strike, a healthy one clears the loop's strikes, hung verdicts and other loops leave them |
| `Watchdog.ReasonsNameTheFault` | crates/orrch-core/src/loop_watchdog.rs:200-245 | every response names its loop and the fault: the whole seconds of silence, or the view's own counts |
| `Watchdog.WaitDoubles` | crates/orrch-core/src/loop_watchdog.rs:263-266 | the wait doubles with the streak up to the eleventh strike and then stays |
| `Watchdog.LoopWatchdog.Evaluate` | crates/orrch-core/src/loop_watchdog.rs:189-252 | classifies every loop of the view once, in order, each by its own clock reading, keeps every streak equal to the loop's strikes since it was last healthy, and emits the responses |
| `Watchdog.OneInterventionPerUnhealthyLoop` | crates/orrch-core/src/loop_watchdog.rs:189-252 | exactly one intervention per unhealthy loop, in view order |
| `Watchdog.LadderByStrikes` | crates/orrch-core/src/loop_watchdog.rs:205-245 | escalation only for thrashing and from the third strike on, every back-off waits exactly the base, and the full ladder below 2^32 strikes |
| `Watchdog.LadderWrapsAround` | crates/orrch-core/src/loop_watchdog.rs:254-261 | the step a strike takes depends on its number n modulo 2^32 alone: a thrashing loop is escalated if and only if n % 2^32 is neither 1 nor 2, a stuck one paused if and only if it is neither 0 nor 1 |
| `Watchdog.StrikesReach` | crates/orrch-core/src/loop_watchdog.rs:254-261 | every number of strikes is reached, so the wrapped steps are as well |
| `Slug.SlugifyProjectName` | crates/orrch-core/src/project.rs:726-743 | the single pass with its flag and trailing pops computes the split, filter and join of the other algorithm |
| `Slug.PassSoFar` | crates/orrch-core/src/loops.rs:202-216 | after any prefix the pass holds the words so far and knows whether a word is open |
| `Slug.SlugifyGivesSlugs` | crates/orrch-core/src/loops.rs:202-216 | only lower-case letters, digits and single inner dashes |
| `Slug.SlugsAreTheFixedPoints` | crates/orrch-core/src/loops.rs:202-216 | exactly the strings of that form are left unchanged, so both algorithms are idempotent |
| `Slug.SlugKeepsLetters` | crates/orrch-core/src/loops.rs:202-216 | a slug has the letters and digits of the name, in order |
| `Slug.BreakPartsSlug` | crates/orrch-core/src/loops.rs:202-216 | any character that is no ASCII letter or digit parts a name: the slugs of both sides with one dash between them, or the only one that is not empty |
| `Slug.WordIsLowered` | crates/orrch-core/src/loops.rs:202-216 | a word of letters and digits is its own slug, with each capital made its small letter |
| `Text.CaseFolding` | crates/orrch-core/src/loops.rs:205-206 | the two alphabets, letter by letter, and what counts as a letter or digit |
| `Calendar.DaysToYmd` | crates/orrch-core/src/release.rs:109-145 | terminates for every day number with the one valid date whose Gregorian day count is that number |
| `Calendar.OrderIsKept` | crates/orrch-core/src/release.rs:109-149 | later dates have larger day counts and the other way round, and no count is negative |
| `Calendar.LeapYearCounts` | crates/orrch-core/src/release.rs:147-149 | the leap rule of Appendix C of RFC 3339 is the closed count of leap years |

## Left out

- Processes, terminals, tmux, ssh, git, systemd and HTTP calls, and the user interfaces around this logic.
- The file registry's persistence: what is saved and loaded, and file hashes. Whether a save succeeds and whether an
  audit entry can be read back are inputs, and so is what the links on the disk are during a call. Paths are component
  lists; ids and hashes are inputs; audit entries carry no time stamp.
- ErrorStores.AnswersAgree: how records are written as JSON is left open but for what JSON guarantees of a record behind
  other text. A write that raises in the middle is not modelled; what it leaves is covered as the text at the start.
- Remote.StripAnsi: bytes in, bytes out; the lossy UTF-8 decoding of the bytes kept is not modelled.
- The controller's poll log and its other best-effort I/O.
- Lines ended by CR LF and the final line feed of a PLAN.md file: there a document is its list of lines. Case folding is
  ASCII only. Text is characters, except in `Remote`, `Mentions` and `Feedback`, where it is bytes (one character for
  each byte in `Feedback`).
- The brace depth of the JSON scanner is unbounded instead of 32-bit; lengths and times are unbounded.
- Energies, factors and risks are reals, and the number parser of `Risk:` and `EditFactor:` lines is arbitrary. The two
  scorers are not modelled: ranking is proved for every scorer. The standard library's sort is taken to sort.
- LoopReview.WholePlanRepeatsEachRankedTask: how the numbers of the ranking table are formatted is left open, but for
  holding neither colons nor line feeds.
- The history log and the manifest of moved files.
- PlanAppend.AppendReparses: leaves description text out, because the continuation lines of the feature above the new
  line come to follow the new feature.
- PlanMove.MoveWithinPhaseReparses: leaves description text out, because a move takes only the feature's own line and
  not the lines that continue it. The same holds for the two moves across phases.
- PlanMarked.VerifyReparses: leaves out table rows whose status cell is also their title cell (marking them changes the
  title) and lines with an earlier `[x]`, where the source rewrites another place than the status.
- `rename_feature_in_plan` and `update_feature_status_in_plan`: they edit one title or marker inside one line, as
  `mark_verified_in_plan` does.
- Two stores writing one error log, a caller changing a record after appending it, and the trackers around the store
  (`SolutionTracker`, `SessionAnalyzer`).
- `upsert_loop`, `toggle_loop`, `delete_loop`: list updates followed by an atomic save; they would add easy members.
- Existence tests answer truthfully in `ContextMigrate` and `Hide`, and directories are not modelled there.
- The score of a mention beyond its two loops: a table of bonuses and penalties.

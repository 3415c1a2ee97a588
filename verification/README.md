# Verified model of the judge's stateful core

This project models the parts of the online judge in which a mistake corrupts data or shows the
wrong result, and proves what those parts are for. It is one Dafny program; `dafny verify
dfyconfig.toml` checks all of it.

- **Source renaming.** Changing the submission format of a Communication problem renames the stored
  sources of every challenge, through staged names, inside a database transaction
  (`SubmissionFormat`, `SourceRename`, `ConfigTransaction`). Any call of `os.rename` may fail.
- **Subtask dependencies.** A three-colour search keeps dependency cycles out of a problem
  (`Subtasks`, `SubtaskCycles`), and a pretest run selects and prunes subtasks (`SubtaskPrune`,
  `PretestSelection`, `PretestEmit`).
- **Delayed scoreboard.** In a flexible contest each viewer sees results on the viewer's own clock.
  `ScoreboardConnection` holds the handlers of one connection. `ScoreboardReveal` runs them
  atomically and proves that every result is shown or waits for a timer that is not too late.
  `ScoreboardTasks` splits them at every await and proves that timers are safe; `ScoreboardCoverage`
  adds results, messages and the open page with what it has shown to the split handlers, and proves
  exactly which moves lose a reveal of the open page (while a result is unshown, an init or a lookup
  ends with nothing armed: a query or the contest load fails, or the page is older than the lookup; or
  a result arrives for a page that has nothing behind it) and which make one late.
- **Scoring.** The ICPC, IOI2013 and IOI2017 queries as relations over rows, each equal to a
  left-to-right fold (`Scoring`, `IcpcScoring`, `IoiScoring`); between two reveal points the board
  of what had been submitted is steady (`RevealPoints`).
- **Sessions and access.** Start and Edit transactions interleaved statement by statement
  (`FlexibleSessions`), and the rights derived from the stored session (`ContestAccess`).
- **Smaller protocols.** The range-list parser and printer (`RangeParser`, `RangeGrammar`,
  `RangePrinter`, `RangeRoundTrip`, `RangeWhiteSpace`), the chunked upload with both ends
  (`PackUpload`), the topcoder query (`Topcoder`) with its cache (`TopcoderCache`), and the contest
  tables after an update (`ContestTables`).

Code that changes state is modelled by methods and classes whose contracts name a function of the
old state; the theorems are lemmas about those functions and about all runs built from them, and
what a function computes is stated once more in terms of the rows, lists and fields themselves. SQL
queries are relations over sets of rows, so that nothing about evaluation order is assumed.
`Wrappers`, `Text` and `Collections` hold what several modules need.

Where the code does not do what one might expect of it, the failing input or run is a lemma, and the
exact condition is a theorem:

- Pruning runs after every subtask that is appended, so a dependency on a later subtask is pruned
  even when a single prune at the end would keep it (`ForwardDependencyIsPruned`; exactly when:
  `NestedPruneIsOneShot`).
- A testdata of a kept subtask may go unjudged because a later pruned subtask contains it
  (`SharedTestdataIsTakenAway`; exactly when: `TakenAwayExactly`, `NeedWithinKept`).
- A list with a negative number does not survive printing and parsing (exactly when: `RoundTrip`).
- The docstring of `parse_str_to_list` says that white space is ignored; the code removes only the
  space character, and `int` strips some white space next to a bound of a range. The model follows
  the code (`TabBeforeNumber`, `WhiteSpaceBesideBound`; exactly when: `WhiteSpaceIgnoredExactly`).
- Renaming two files of a challenge to one name loses the first one; no caller asks for that
  (`SharedTargetLosesAFile`; exactly when: `RenameSubmissionFiles`, `FileNamesArePlain`).
- With interleaved handlers an update that arrives while the next reveal is looked up takes its
  place, and an earlier reveal becomes late (`UpdateDuringQueryDiscardsAnswer`; exactly when:
  `AlwaysOnTimeExactly`). A reveal of an open page is lost when the query of an init fails, when the
  query of a timer fails and the server gives up the connection state, when the contest load of an
  init fails, or when the page is older than the lookup (`FailedLookupLosesReveal`,
  `FailedTimerQueryLosesReveal`, `FailedLoadLosesReveal`, `StalePageLosesReveal`; exactly when:
  `NeverLostExactly`).
- A page load takes its own time as the cut-off, so a challenge submitted after the lookup of the next
  reveal can appear before it (`SubmittedInBetween`; exactly when: `OnlyUnjudgedAppearExactly`,
  `IcpcRowIsSteadyExactly`, `Ioi2013IsSteadyExactly`, `Ioi2017IsSteadyExactly`).
- An upload connection that is lost while the server looks up the token leaves an empty file behind
  (`LostDuringLookupLeavesEmptyFile`; exactly when: `CompleteOrGoneExactly`), and a header that
  announces no bytes leaves a file whose hash was never compared (`EmptyAnnouncementIsNotCompared`).
- A topcoder lookup that queried before a result and stores after its refresh leaves the old answer in
  the cache (`StaleAnswerStays`; exactly when: `CachedIsCurrentExactly`).

## Model

| member | source | states |
|---|---|---|
| SubmissionFormat.NormalizeSubmissionFormat | src/services/prospec/communication.py:24-51 | accepted exactly when the raw value names, up to outer white space, a nonempty list of distinct valid names; the result is that list; otherwise the error is that of the first offending entry |
| SubmissionFormat.NormalizedNamesItself | src/services/prospec/communication.py:33-51 | a stored normalized format normalizes to itself and to nothing else |
| SubmissionFormat.AcceptedNamesAreTrimmed | src/services/prospec/communication.py:33 | accepted names carry no outer white space |
| Text.StripExactly | src/services/prospec/communication.py:33 | strip removes all white space at both ends of a text and nothing else |
| SubmissionFormat.ValidNameExactly | src/services/prospec/communication.py:34-47 | the valid names are exactly a stem followed by .%l, the stem without another placeholder, separator, backslash or NUL and not beginning like an option |
| SubmissionFormat.FileNameShape | src/services/prospec/communication.py:189-192 | replacing the one placeholder changes only the suffix, so the stem survives |
| SubmissionFormat.FileNameIsSafe | src/services/prospec/communication.py:34-47 | a resolved name stays in its directory, keeps the extension and cannot be read as an option |
| SubmissionFormat.FileNamesDistinct | src/services/prospec/program.py:175-176 | resolving a normalized format with any extension keeps its names apart |
| SourceRename.TemporaryInjective | src/services/prospec/program.py:113-115 | staging names of different files differ |
| SourceRename.RenamesArePlanned | src/services/prospec/program.py:90-99 | the planned renames share no source and no target, start from existing files and avoid staging names |
| SourceRename.PlanPositions | src/services/prospec/program.py:90-99 | the plan holds exactly the pairs of different names whose old name is an existing file, in the order of the lists |
| SourceRename.AcceptedExactly | src/services/prospec/program.py:103-118 | the checks refuse exactly a new name that is in use and does not become free, and a needed staging name that is in use |
| SourceRename.RenamedPointwise | src/services/prospec/program.py:90-143 | each target shows its source's content, freed sources disappear, every other name is untouched, for cycles too |
| SourceRename.RenamedExactly | src/services/prospec/program.py:90-143 | told of the lists: every wanted file is found under its new name, freed names are free, all other names are as before |
| SourceRename.SwapExchangesContents | src/services/prospec/program.py:103-132 | the pair of renames a to b and b to a exchanges the two contents |
| SourceRename.SwapIsAccepted | src/services/prospec/program.py:103-118 | exchanging the names of two files passes the checks |
| SourceRename.SharedTargetLosesAFile | src/services/prospec/program.py:90-132 | two files sent to one new name pass all checks and all renames, and the first one is gone |
| SourceRename.ReversedIsAccepted | src/services/prospec/program.py:186-188 | after a success the call with the lists exchanged plans exactly the reversed pairs, passes all checks and restores the directory |
| SourceRename.Disk.Rename | src/services/prospec/program.py:127-141 | one os.rename, failing without effect, with a record of whether it hit an existing entry |
| SourceRename.StageAndFinalize | src/services/prospec/program.py:122-143 | for a plan that shares no names: succeeds exactly when none of the 2n renames fails and is then the simultaneous renaming; after a single failure every directory is restored; no rename lands on an existing entry whatever fails. For any pairs, while no call fails by itself: succeeds exactly when no source is repeated, restores otherwise, and overwrites exactly when it succeeds and names collide |
| SourceRename.Stage | src/services/prospec/program.py:125-128 | the files staged so far wait under their temporary names; for any pairs, without failing calls, it stops exactly at a repeated source |
| SourceRename.Finalize | src/services/prospec/program.py:130-133 | every staged file reaches its target; for any pairs, without failing calls, a file is overwritten exactly when two targets are equal or a target is the temporary name of a later pair |
| SourceRename.Undo | src/services/prospec/program.py:134-142 | from every point at which staging or finalizing can stop, the rollback restores the directory; so it does when staging has stopped at a repeated source |
| SourceRename.RenameSubmissionFiles | src/services/prospec/program.py:82-143 | for any lists: the call is refused exactly for a new name that is in use and does not become free, or for a needed staging name that is in use; rejected calls and dry runs touch nothing, no other directory is touched, and while no call fails by itself an accepted call succeeds exactly when no planned source is repeated, restores the directory otherwise, and overwrites a file exactly when it succeeds and two planned targets are equal or one is the temporary name of a later pair; for distinct names that are not staging names: after a success every wanted file is under its new name and nothing else has changed; all or nothing under any single fault at any of the 2n renames, and never overwriting |
| ConfigTransaction.FileNamesArePlain | src/services/prospec/communication.py:24-51 | resolved names of an accepted format are distinct and never a staging name |
| ConfigTransaction.CollectPlans | src/services/prospec/program.py:171-180 | succeeds exactly when every challenge's rename is accepted, and changes nothing on disk |
| ConfigTransaction.PlanReady | src/services/prospec/program.py:181-182 | a plan made before the earlier challenges were renamed is still what the call plans, and still accepted |
| ConfigTransaction.ApplyPlans | src/services/prospec/program.py:181-183 | succeeds exactly when no rename of any challenge fails; after a failure exactly the completed challenges are renamed |
| ConfigTransaction.UndoLast | src/services/prospec/program.py:186-188 | undoing the last completed challenge leads back to the disk before it |
| ConfigTransaction.UndoCompleted | src/services/prospec/program.py:185-191 | undoing in reverse order restores every directory; if one of its renames fails, no directory is half renamed |
| ConfigTransaction.AppliedIsAllRenamed | src/services/prospec/program.py:167-183 | applying the collected plans renames every challenge of the problem and nothing else |
| ConfigTransaction.SameFormatPlansNothing | src/services/prospec/program.py:166 | between equal formats no challenge needs a rename, so skipping them loses nothing |
| ConfigTransaction.AllAcceptedExactly | src/services/prospec/program.py:171-180 | all dry runs succeed exactly when in no challenge directory a new name is taken by a file that stays, or a staging name is taken |
| ConfigTransaction.ProgramConfigTransaction | src/services/prospec/program.py:146-191 | committed: no challenge stood in the way and every directory is the renamed one, told of the old and new names; aborted by any single failure (format, dry run, one rename, body, commit): every directory is what it was; aborted although nothing failed by itself: a format is invalid or a challenge stands in the way; body or commit failure plus a failing rename: each directory old or new; never overwrites |
| ConfigTransaction.CommittedFilesFollowFormat | src/services/prospec/program.py:172-182 | after a commit the file of the i-th old name is found, unchanged, under the i-th new name |
| SubtaskCycles.OrderExcludesCycle | src/handlers/manage/pro/subtask.py:248-258 | a relation with a topological order has no cycle |
| SubtaskCycles.CloseCycle | src/handlers/manage/pro/subtask.py:252-253 | an edge from the end of the path of ids in progress back into it closes a cycle |
| SubtaskCycles.FinishNode | src/handlers/manage/pro/subtask.py:257 | finishing an id whose successors are finished extends the dependencies-first order |
| SubtaskCycles.CyclesAreCircular | src/handlers/manage/pro/subtask.py:240-258 | a cycle of the graph is a chain of dependencies of the configuration that leads back to its start, a self-dependency included |
| SubtaskCycles.BuildGraph | src/handlers/manage/pro/subtask.py:241-246 | the adjacency lists contain exactly the dependency edges |
| SubtaskCycles.CycleSearch.Dfs | src/handlers/manage/pro/subtask.py:248-258 | terminates; success finishes the id and leaves the ids in progress as they were; failure means a cycle |
| SubtaskCycles.HaveCycle | src/handlers/manage/pro/subtask.py:240-265 | true exactly when the configured dependencies lead back from some subtask to itself, unknown ids included; false comes with a topological order |
| SubtaskCycles.ProblemStore.SetDepSubtasks | src/handlers/manage/pro/subtask.py:61-98 | saves exactly when the ids exist and the changed configuration is not circular; what is saved has a topological order and no self-dependency; otherwise nothing changes, with the error of the first check that fails |
| SubtaskPrune.GreatestClosedByReachability | src/services/prospec/program.py:292-318 | the greatest closed set is the listed ids from which no unlisted id can be reached |
| SubtaskPrune.Prune | src/services/prospec/program.py:292-318 | terminates with the greatest closed set; pruned subtasks are JE, their testdata SKIPPED and not due |
| SubtaskPrune.Drop | src/services/prospec/program.py:306-318 | one round removes exactly the newly invalid subtasks and their testdata |
| PretestSelection.KeptExactly | src/services/prospec/program.py:262-324 | a subtask is kept exactly when each other dependency is kept and processed before it |
| PretestSelection.KeptIsClosed | src/services/prospec/program.py:292-324 | the kept subtasks are closed under dependencies |
| PretestSelection.NestedPruneIsOneShot | src/services/prospec/program.py:263-324 | what is kept lies in the greatest closed set, and equals it exactly when no member depends on a later subtask |
| PretestSelection.ForwardDependencyIsPruned | src/services/prospec/program.py:292-324 | a concrete list on which nested and one-shot pruning differ |
| PretestSelection.NeedExactly | src/services/prospec/program.py:278-309 | a testdata is due exactly when the last subtask containing it is kept and contains it |
| PretestSelection.TakenAwayExactly | src/services/prospec/program.py:278-309 | a testdata of a kept subtask is not due exactly when a pruned subtask after its last kept owner contains it |
| PretestSelection.NeedWithinKept | src/services/prospec/program.py:278-309 | the due testdata lie in the union over kept subtasks, with equality exactly when no testdata is taken away like that |
| PretestSelection.NeedWithoutSharing | src/services/prospec/program.py:278-309 | in particular with equality when no testdata is shared by a kept and a pruned subtask |
| PretestSelection.SharedTestdataIsTakenAway | src/services/prospec/program.py:306-309 | a concrete list in which a subtask is kept and none of its testdata is judged |
| PretestEmit.MarkSystemTests | src/services/prospec/program.py:246-259 | system-test subtasks and all their testdata become SKIPPED, nothing else changes |
| PretestEmit.FilterTestdata | src/services/prospec/program.py:265-274 | tagged testdata become SKIPPED, the others are listed in order |
| PretestEmit.PruneAfterAdd | src/services/prospec/program.py:292-324 | pruning a closed list with one more subtask removes at most that subtask |
| PretestEmit.ProcessSubtask | src/services/prospec/program.py:263-324 | the three outcomes of one round, on the list, the due testdata and both result tables |
| PretestEmit.DueOrSkipped | src/services/prospec/program.py:243-328 | a mentioned testdata that is not due has been marked SKIPPED |
| PretestEmit.KeptInConfiguration | src/services/prospec/program.py:262-324 | a configured subtask is kept exactly when it is no system test, has a testdata that is none, and each of its other dependencies is kept and configured before it |
| PretestEmit.NeedInConfiguration | src/services/prospec/program.py:262-309 | a testdata is due exactly when the last configured pretest subtask with it is kept |
| PretestEmit.KeptAsConfigured | src/services/prospec/program.py:263-285 | the kept subtasks are sent in the order of the configuration, each with its dependencies and its own untagged testdata in order |
| PretestEmit.EmitPretest | src/services/prospec/program.py:225-328 | told of the configuration: which subtasks are kept, in which order and with which testdata they are sent, and which testdata are due; every subtask ends in exactly one of JUDGE, SKIPPED, JE, with the condition of each; every mentioned testdata ends JUDGE when due and SKIPPED otherwise; other testdata rows stay |
| ScoreboardConnection.ConnectionState.CancelTimer | src/handlers/contests/scoreboard.py:54-60 | a new generation without timer; the old task is the one cancelled |
| ScoreboardConnection.ConnectionState.ArmElapsed | src/handlers/contests/scoreboard.py:75-93 | arms exactly for an elapsed time inside the session and earlier than the scheduled one: new generation, a new task that wakes no earlier than session start plus elapsed and no later than needed; otherwise nothing changes |
| ScoreboardConnection.ConnectionState.Message | src/handlers/contests/scoreboard.py:170-193 | forwards exactly what the viewer may see now; what it keeps back and the session can still show has a timer no later than it; forwarding changes nothing |
| ScoreboardConnection.ConnectionState.TakeTimer | src/handlers/contests/scoreboard.py:121-128 | goes on only for the registered connection and its current generation, and then clears the timer |
| ScoreboardConnection.ConnectionState.BeginConfigure | src/handlers/contests/scoreboard.py:138-142 | the connection before its contest is loaded: no timer, new generation, not viewer-relative |
| ScoreboardConnection.ConnectionState.FinishConfigure | src/handlers/contests/scoreboard.py:143-168 | updates are forwarded afterwards exactly when the contest was loaded and is not flexible, or has ended, or the account is an admin or an approved contestant with a session; a reveal is looked up, on that session, exactly in the last case when none of the others holds |
| ScoreboardConnection.ConfiguredExactly | src/handlers/contests/scoreboard.py:137-168 | the same for the whole of a configuration: who sees everything at once, who sees results later, who sees nothing |
| ScoreboardConnection.EverythingIsForwarded | src/handlers/contests/scoreboard.py:149-184 | a viewer of a fixed or ended contest and an admin get every update of the contest, whenever and with whatever elapsed time |
| ScoreboardConnection.VisibleIsForwarded | src/handlers/contests/scoreboard.py:156-191 | any other viewer gets exactly the updates already visible on the own session, and none without one |
| ScoreboardReveal.ScheduledCovers | src/handlers/contests/scoreboard.py:95-109 | after a refresh and the scheduling that follows it, every result is shown or waits for a timer that is not too late |
| ScoreboardReveal.MessageCovers | src/handlers/contests/scoreboard.py:185-191 | delivering a result shows it or arms a timer no later than it |
| ScoreboardReveal.StepKeepsCovered | src/handlers/contests/scoreboard.py:75-193 | every step keeps coverage, clock ticks, new results, rejudges and other messages included |
| ScoreboardReveal.ReachableStatesCover | src/handlers/contests/scoreboard.py:75-193 | in every reachable state each finished result inside the viewer's session was refreshed at viewer time at least e, or its message is in flight, or a timer is armed at some elapsed time no greater than e |
| ScoreboardReveal.NextElapsedExists | src/services/contest_scoreboard.py:93-127 | the query for the next reveal has an answer for every set of results |
| ScoreboardReveal.DueTimerReveals | src/handlers/contests/scoreboard.py:111-135 | once the clock passes e a delivered, uncovered result has a due timer; that timer can fire, and however it fires it covers the result |
| ScoreboardReveal.FireIsNotEarly | src/handlers/contests/scoreboard.py:84-93 | a timer fires only when the viewer has reached its elapsed time |
| ScoreboardReveal.NothingIsShownEarly | src/handlers/contests/scoreboard.py:75-193 | in every reachable state what has been shown had become visible on the viewer's own clock |
| ScoreboardReveal.PostShowsViewerElapsed | src/handlers/contests/scoreboard.py:301-315 | the page load after a refresh shows exactly the elapsed time the callback computes with |
| ScoreboardTasks.StepPreserves | src/handlers/contests/scoreboard.py:50-235 | the invariant over generations, timers, tasks and the log of refreshes survives every interleaved step |
| ScoreboardTasks.AtMostOneHolder | src/handlers/contests/scoreboard.py:54-135 | in every reachable state at most one task per connection works with its current generation |
| ScoreboardTasks.RefreshesAreTimely | src/handlers/contests/scoreboard.py:84-128 | no refresh is sent before session start plus elapsed, and none twice for one generation |
| ScoreboardTasks.LoggedIsDone | src/handlers/contests/scoreboard.py:75-132 | a logged refresh is that of a due timer of the registered connection at its generation, with session start plus elapsed as its bound; a logged arming creates the task for the answer |
| ScoreboardTasks.PlainPageGetsEverything | src/handlers/contests/scoreboard.py:170-182 | a page of another kind gets every update of its contest and no other |
| ScoreboardTasks.ScheduledIsBacked | src/handlers/contests/scoreboard.py:78-93 | a scheduled elapsed time always has a sleeping current task behind it, so ignoring a later one is safe |
| ScoreboardTasks.StaleTaskStaysSilent | src/handlers/contests/scoreboard.py:108-132 | in every run a task that is superseded or whose connection is gone never again starts a refresh or arms a timer |
| ScoreboardTasks.WhatSupersedes | src/handlers/contests/scoreboard.py:50-60 | registering again, unregistering, reconfiguring and arming all supersede |
| ScoreboardTasks.SupersededTasksAreStale | src/handlers/contests/scoreboard.py:54-60 | after that every older task holding a generation is stale |
| ScoreboardTasks.BusyExactly | src/handlers/contests/scoreboard.py:95-132 | a task that sends, queries or has its answer is still current exactly when since then no update was held back and armed and the connection was neither reconfigured nor dropped |
| ScoreboardTasks.QueryStartsExactly | src/handlers/contests/scoreboard.py:126-132 | after the refresh of a timer the next reveal is looked up exactly when nothing like that happened while it was being sent |
| ScoreboardTasks.AnswerArmsExactly | src/handlers/contests/scoreboard.py:102-109 | an answer that can be armed is armed exactly when nothing like that happened since the timer woke up |
| ScoreboardCoverage.IsBaseStep | src/handlers/contests/scoreboard.py:50-235 | with results, messages and page loads added, every move is still a step of the interleaved handlers |
| ScoreboardCoverage.SoundStep | src/handlers/contests/scoreboard.py:95-135 | every move keeps, among others, that a current answer names the first unshown result after the time asked for |
| ScoreboardCoverage.MoveExactly | src/handlers/contests/scoreboard.py:75-235 | the exact moves that make a reveal of the open page late, and the exact moves that lose one, whether or not a connection is still registered |
| ScoreboardCoverage.NeverLostExactly | src/handlers/contests/scoreboard.py:75-235 | in every run an open page with a delivered, unshown, revealable result always has a timer, an init or a lookup behind it, exactly when no init and no lookup ends or fails with nothing armed while a result is unshown, and no result is delivered to a page that misses it because nothing is behind it |
| ScoreboardCoverage.AlwaysOnTimeExactly | src/handlers/contests/scoreboard.py:75-235 | in every run each such result of an open page has a timer that is not too late, or an init or a lookup is under way, exactly when moreover no update overtakes a lookup of an earlier result and no answer overlooks a result |
| ScoreboardCoverage.NoRevealIsLost | src/handlers/contests/scoreboard.py:75-235 | no interleaving loses a reveal of an open page when the page is up to date at every lookup and neither a query nor a contest load fails; then reveals are on time exactly as long as no update overtakes a lookup |
| ScoreboardCoverage.NothingIsShownEarly | src/handlers/contests/scoreboard.py:75-235 | in every run, whatever fails, the open page has shown only results of its contest that had become visible on the viewer's own clock |
| ScoreboardCoverage.UpdateDuringQueryDiscardsAnswer | src/handlers/contests/scoreboard.py:102-109 | a run from the start, with an up-to-date page and no failure, in which the found reveal at 10 is discarded for the update at 20 |
| ScoreboardCoverage.FailedLookupLosesReveal | src/handlers/contests/scoreboard.py:168-235 | a run from the start, with an up-to-date page and no other failure, in which the failing query of an init leaves a result that nothing will reveal |
| ScoreboardCoverage.FailedTimerQueryLosesReveal | src/handlers/contests/scoreboard.py:111-135 | the same for the failing query of a timer: the connection state is given up while the page stays open |
| ScoreboardCoverage.FailedLoadLosesReveal | src/handlers/contests/scoreboard.py:137-168 | the same for a contest load of an init that raises or returns an error |
| ScoreboardCoverage.StalePageLosesReveal | src/handlers/contests/scoreboard.py:95-109 | a run from the start in which a page older than the lookup does the same |
| Scoring.RowNumbersIncrease | src/services/contests.py:745-753 | row numbers follow the timestamps |
| Scoring.Enumerate | src/services/contests.py:752 | rows with distinct timestamps have a chronological list, so the folds apply to every table |
| Scoring.CountsExactly | src/services/contests.py:54-82 | a challenge counts exactly when it lies inside the window of an approved contestant or admin, before the cut-off, and is visible already; the ICPC query drops the seven states without a verdict |
| Scoring.RoundMonotone | src/services/contests.py:844 | rounding to any precision keeps the order |
| Scoring.RoundIsNearest | src/services/contests.py:844 | the rounded value is a nearest multiple of 10^-digits, and of two equally near ones that away from zero |
| IcpcScoring.FoldIsQuery | src/services/contests.py:719-798 | the fold that counts failures up to the first accepted challenge returns a row of the query |
| IcpcScoring.RowUnique | src/services/contests.py:780-798 | the outer join returns one row per account |
| IcpcScoring.QueryIsFold | src/services/contests.py:719-798 | for every set of valid challenges the query's row is exactly the fold's |
| IcpcScoring.SolvedProblemCosts | src/services/contests.py:755-792 | a solved problem costs the whole minutes from the start to the first accepted challenge and the penalty once for each valid challenge before it |
| IcpcScoring.UnsolvedProblem | src/services/contests.py:771-798 | an unsolved problem scores nothing; its row counts all valid challenges and names the highest id and the latest time |
| IcpcScoring.FailuresBeforeFirstAc | src/services/contests.py:755-770 | fail_cnt is the number of valid non-accepted challenges before the first accepted one |
| IcpcScoring.LaterChallengesDoNotMatter | src/services/contests.py:755-798 | challenges after the first accepted one never change the row |
| IcpcScoring.MinutesAreWhole | src/services/contests.py:787-790 | the score counts whole minutes of the elapsed time rounded to the second |
| IoiScoring.RunningBestIsRankOne | src/services/contests.py:846-849 | keeping the first strictly better challenge finds the row with rank 1, for totals and subtasks |
| IoiScoring.Query2013IsFold | src/services/contests.py:836-880 | the IOI2013 row is exactly the fold's: first best challenge, rounded rate, number of challenges before it |
| IoiScoring.Row2013Exactly | src/services/contests.py:836-880 | the row is that of the earliest challenge with the highest rate, with the number of challenges before it and the rounded rate |
| IoiScoring.BestPerSubtaskUnique | src/services/contests.py:943-964 | the best result of every subtask is determined |
| IoiScoring.BestPerSubtaskIsFold | src/services/contests.py:943-964 | one pass over the challenges finds it |
| IoiScoring.HighestIsMax | src/services/contests.py:965-974 | the fold over the subtasks computes MAX over the best results |
| IoiScoring.Query2017IsFold | src/services/contests.py:911-996 | the IOI2017 row is exactly the fold's: sum of best rates, latest id and time, number of distinct challenges up to that id |
| IoiScoring.Row2017Exactly | src/services/contests.py:911-996 | the row told of rates, ids and times: for every subtask the earliest challenge with its highest rate, the rounded sum of these rates, their highest id and latest time, the number of challenges up to that id |
| IoiScoring.SumBestIsSum | src/services/contests.py:965-974 | the sum is that of the parts of the single subtasks |
| IoiScoring.Score2017Grows | src/services/contests.py:943-974 | the IOI2017 score never falls when challenges are added |
| IoiScoring.InContestGrows | src/services/contests.py:54-82 | more rows, a later cut-off or a larger visible time only add challenges |
| IoiScoring.Score2017AtLeast2013 | src/services/contests.py:836-996 | IOI2017 is never below IOI2013, after rounding, when total rates are sums of non-negative subtask rates |
| RevealPoints.PublishedAgreesWithQuery | src/services/contest_scoreboard.py:60-127 | a judged challenge carries an elapsed time exactly when the query can find it, and the query's answer is no later |
| RevealPoints.PublishedExactly | src/services/contest_scoreboard.py:60-91 | an update carries when its challenge was submitted on the clock of its own session, and nothing for a challenge outside any session |
| RevealPoints.NextElapsedExactly | src/services/contest_scoreboard.py:93-127 | the next reveal point is the least elapsed time, after the one asked for and within the limit, at which an approved contestant submitted a challenge that has a verdict |
| RevealPoints.OnlyUnjudgedAppearExactly | src/handlers/contests/scoreboard.py:301-315 | what a later page load with its later cut-off adds before the next reveal point is unjudged exactly when no judged challenge lies between the cut-offs at an elapsed time already visible |
| RevealPoints.IcpcRowIsSteadyExactly | src/services/contest_scoreboard.py:93-127 | until the next reveal point the ICPC row of an approved contestant is the same exactly when the problem was solved before or no valid challenge lies between the cut-offs |
| RevealPoints.Ioi2013IsSteadyExactly | src/services/contest_scoreboard.py:93-127 | the IOI2013 score is the same exactly when no judged challenge between the cut-offs scores higher, if unjudged results have rate 0 |
| RevealPoints.Ioi2017IsSteadyExactly | src/services/contest_scoreboard.py:93-127 | the sum behind the IOI2017 score is the same exactly when no judged challenge between the cut-offs beats the best result of a subtask, if unjudged results have rate 0 |
| RevealPoints.SubmittedInBetween | src/handlers/contests/scoreboard.py:310-315 | a concrete challenge that appears between two reveal points because it was submitted after the first page load |
| RevealPoints.IcpcCostOfAccount | src/services/contests.py:54-82 | the score of an account counts from the start of its own window: contest start, or the start of its session |
| RevealPoints.TotalScore | src/handlers/contests/scoreboard.py:383-399 | the loop adds up the scores of the problems the account has a row for, and nothing when the score start time is unknown |
| RevealPoints.ScoresAddUp | src/handlers/contests/scoreboard.py:383-399 | the total of two parts of a line is the sum of their totals, and that of one problem its score |
| RevealPoints.TotalsAreSteady | src/handlers/contests/scoreboard.py:383-399 | the total over all problems, of any score types, is the same until the next reveal point when no judged challenge lies between the cut-offs |
| RevealPoints.BoardIsSteadyForViewer | src/handlers/contests/scoreboard.py:301-315 | computed from what had been submitted when the reveal was looked up, every approved contestant has the same ICPC rows and the same total on each page load before that reveal |
| FlexibleSessions.StepPreserves | src/services/contests.py:333-376 | every statement of every interleaved transaction keeps the session ends and what open transactions have written consistent |
| FlexibleSessions.SessionEndsAreCurrent | src/services/contests.py:333-465 | in every reachable state of a flexible contest every official session ends at min(start + duration, contest end) |
| FlexibleSessions.StartTimeIsFixed | src/services/contests.py:342-376 | a session stays and keeps its start while its membership row exists |
| FlexibleSessions.SessionsWereStarted | src/services/contests.py:341-376 | over every run each stored session began at the time of an accepted start: approved, without a session, contest flexible and running |
| FlexibleSessions.SessionsBelongToMembers | src/services/contests.py:333-376 | in every reachable state each stored session, and each one about to be stored, belongs to a member |
| FlexibleSessions.LockIsExclusive | src/services/contests.py:342-345 | at most one Start or Edit is past the row lock |
| FlexibleSessions.UnlockedStartBreaksEnds | src/services/contests.py:341-345 | a run of the same statements without the lock after which all transactions have ended and a session end is wrong |
| ContestAccess.SubmitExactlyInSession | src/services/contest_access.py:44-74 | over every run a non-admin account holds SUBMIT exactly when approved, started, and start <= now < min(start + duration, contest end) |
| ContestAccess.ViewRightsExactly | src/services/contest_access.py:59-95 | the exact conditions of the viewing and asking rights of non-admins in a flexible contest |
| ContestAccess.RolesExactly | src/services/contest_access.py:44-57 | the three roles in stored rows; the creator is an admin without being a member |
| ContestAccess.FixedRightsExactly | src/services/contest_access.py:59-95 | the exact conditions of every right of non-admins in a fixed contest |
| ContestAccess.AdminRightsExactly | src/services/contest_access.py:59-95 | the rights of an admin, which do not depend on the time |
| ContestAccess.SubmissionsCount | src/services/contests.py:54-82 | a non-admin account may submit exactly at the moments its submissions fall into its scoring window |
| ContestAccess.PhaseOnlyAdvances | src/services/contest_session.py:111-121 | an activated session only moves BEFORE, RUNNING, ENDED, with the exact bounds of each phase |
| ContestAccess.CanStartMatchesInsert | src/services/contest_access.py:104-112 | the start button is offered exactly when the insert would succeed, given a positive duration |
| ContestAccess.CanStartExactly | src/services/contest_access.py:104-112 | the start button in stored rows |
| ContestAccess.StartGrantsSubmit | src/services/contest_access.py:73-112 | an accepted start grants SUBMIT from that moment and cannot be repeated |
| RangeParser.ParseStrToList | src/utils/numeric.py:3-62 | the loop with its running total refuses exactly when all valid segments together exceed the limit, and otherwise returns their expansion |
| RangeParser.ParserIsBounded | src/utils/numeric.py:52-62 | never more than max_items numbers; raises exactly when the valid segments total more or the limit is negative |
| RangeParser.ParsedNumbersAreNatural | src/utils/numeric.py:31-50 | no ASCII text yields a negative number |
| RangeGrammar.NumberExactly | src/utils/numeric.py:34-43 | the texts int() reads and their values: white space, a sign, digits with single underscores, white space |
| RangeGrammar.ItemExactly | src/utils/numeric.py:32-50 | the items: digits alone, or two numbers around the only hyphen, in either order |
| RangeGrammar.ParsedExactly | src/utils/numeric.py:26-62 | the result is what the comma-separated items contribute from left to right, unless that is more than allowed; a text that is no item contributes nothing |
| RangeGrammar.ShownReadsBack | src/utils/numeric.py:65-101 | what str() prints for a number int() reads back, below zero too |
| RangePrinter.SortedSorts | src/utils/numeric.py:81 | the list printed is an ascending permutation of the argument |
| RangePrinter.PrintRuns | src/utils/numeric.py:82-99 | the loop prints the maximal runs of successors, duplicates starting a new run |
| RangePrinter.MergeListToStr | src/utils/numeric.py:65-101 | the text of the sorted list, which also replaces the caller's list |
| RangeRoundTrip.NaturalSegmentParses | src/utils/numeric.py:32-50 | a printed segment of naturals parses back to itself |
| RangeRoundTrip.NegativeSegmentIsSkipped | src/utils/numeric.py:39-45 | a printed segment that starts below zero is skipped |
| RangeRoundTrip.OnlySpacesAreIgnored | src/utils/numeric.py:31-45 | a single number preceded by a space is parsed, one preceded by any other white space is skipped |
| RangeWhiteSpace.WhiteSpaceIgnoredExactly | src/utils/numeric.py:7-62 | a text is read as if it had no white space exactly when it is refused anyway or the white space of every item is harmless: the item is invalid anyway, or has none besides spaces, or is a range with other white space only at the ends of its bounds, of the kind int() strips |
| RangeWhiteSpace.ItemReadExactly | src/utils/numeric.py:31-45 | one item is read without its white space exactly when that is harmless, and is skipped otherwise |
| RangeWhiteSpace.WhiteSpaceBesideBound | src/utils/numeric.py:41-43 | a tab or another character int() strips is ignored in front of the second bound of a range |
| RangeWhiteSpace.TabBeforeNumber | src/utils/numeric.py:32-45 | a tab in front of a single number makes it invalid |
| RangeRoundTrip.RoundTrip | src/utils/numeric.py:3-101 | parsing the printed list gives the sorted list exactly when no number is negative and the length is within the limit, duplicates included |
| RangeRoundTrip.PrintedIsShortest | src/utils/numeric.py:86-99 | without duplicates no list of segments with the same numbers is shorter |
| RangeRoundTrip.PrintedTextIsShortest | src/utils/numeric.py:3-101 | no text that parses to the same numbers has fewer items than the printed one |
| PackUpload.PackHandler.OnMessage | src/handlers/pack.py:46-84 | each branch of the server for every message, up to the end or to the token lookup |
| PackUpload.PackHandler.OnLookupAnswer | src/handlers/pack.py:84-102 | each branch after the token lookup, for every answer of token store and file system and for headers without size or hash |
| PackUpload.PackHandler.OnClose | src/handlers/pack.py:104-112 | an unfinished file is removed |
| PackUpload.ChunkOutcome | src/handlers/pack.py:46-80 | a data message is taken exactly when it has at most 65536 bytes, at most the remaining ones, and the right hash if nothing remains; otherwise the file is removed |
| PackUpload.FirstMessageOutcome | src/handlers/pack.py:81-84 | before a header is accepted another header is looked up and everything else ends the connection |
| PackUpload.HeaderOutcome | src/handlers/pack.py:84-102 | which answer a header gets, and that without S nothing is stored and the connection is closed |
| PackUpload.Upload.OnMessage | src/static/pack.js:73-96 | the next chunk, the end of the upload, or its rejection, with the new offset |
| PackUpload.StepPreserves | src/handlers/pack.py:46-112 | client, server and the messages between them stay in step |
| PackUpload.WrittenPlusRemain | src/handlers/pack.py:61-63 | in every reachable connected state with an opened file, bytes written plus remain is the file size, and what is written is a prefix of the file |
| PackUpload.NoChunkRejected | src/handlers/pack.py:49-60 | no chunk is rejected, neither for its size nor for the hash |
| PackUpload.ResolvedMeansStored | src/static/pack.js:92-95 | when the client resolves, the stored file is the source and ceil(size / 65536) data messages were sent |
| PackUpload.CompleteOrGoneExactly | src/handlers/pack.py:81-112 | after a disconnect the stored file is complete or gone exactly when the source is empty, or the disconnect did not find the server in the token lookup, or that lookup has not gone on to open the file |
| PackUpload.LostDuringLookupLeavesEmptyFile | src/handlers/pack.py:84-112 | a run for every nonempty file in which a disconnect during the lookup leaves an empty file |
| PackUpload.WhatDisconnectLeaves | src/handlers/pack.py:46-112 | whatever a client sends after its file was opened: a disconnect leaves nothing, or a file with the announced hash, or the empty file of a header that announced no bytes |
| PackUpload.EmptyAnnouncementIsNotCompared | src/handlers/pack.py:88-112 | a run for every header that announces no bytes and a wrong hash, after which the file is there |
| PackUpload.CompletedOnlyIfHashMatches | src/handlers/pack.py:67-80 | whatever a client sends, a completing message is answered S only if the stored bytes have the announced hash |
| Topcoder.FirstIsBest | src/services/rate.py:247-248 | ordering and taking one row yields the row that precedes all others |
| Topcoder.PerAccountRepresents | src/services/rate.py:228-245 | every account is represented by its best accepted row |
| Topcoder.TwoStagesFindGlobalBest | src/services/rate.py:222-253 | the winner of the two stages is exactly the best accepted row outside contests |
| Topcoder.QueryNamesLeader | src/services/rate.py:222-253 | the answer is the account of the accepted challenge with the highest rate, of those the shortest time, then the least memory, then the least id; none exactly when nobody has solved the problem |
| Topcoder.RateService.GetProTopcoder | src/services/rate.py:218-265 | without interruption: a cached answer, no-topcoder included, is returned unchanged; otherwise the leading account, spelled out, is returned and stored |
| Topcoder.RateService.RefreshProTopcoder | src/services/rate.py:267-269 | exactly the entry of that problem is cleared |
| TopcoderCache.StoreExactly | src/services/rate.py:218-262 | a get stores an answer that is out of date exactly when it had queried before the last result |
| TopcoderCache.CachedIsCurrentExactly | src/services/rate.py:218-269 | with calls interleaved at every await: once the last result has been followed by its refresh, the cached entry has seen every result exactly unless the last write since was such a store; and then it is what the query answers |
| TopcoderCache.StaleAnswerStays | src/services/rate.py:218-269 | a run in which an old topcoder stays cached although all refreshes are done |
| ContestTables.WithCreatorEntries | src/services/contests.py:520-523 | the creator is listed once, as admin; all other entries are kept |
| ContestTables.OneErrorPerDroppedProblem | src/services/contests.py:484-494 | each dropped problem is named by exactly one error, of the kind that fits it, and every error names a dropped problem |
| ContestTables.OneErrorPerDroppedUser | src/services/contests.py:545-548 | each dropped account is named by exactly one error, and every error names a dropped account |
| ContestTables.Tables.UpdateProblems | src/services/contests.py:467-517 | exactly the listed problems that exist and are not hidden are stored, each numbered by the number of such problems listed before it; each other one is reported once, as missing or hidden; other contests keep their rows |
| ContestTables.Tables.UpdateUsers | src/services/contests.py:519-556 | exactly the existing accounts among the listed ones and the creator are stored, the creator as admin and the others with the listed status; each missing one is reported once; other contests keep their rows |

## Left out

- SourceRename.RenameSubmissionFiles: for lists with repeated or staging names, which neither caller passes (`ConfigTransaction.FileNamesArePlain`), nothing is claimed about the directory after a rename has failed by itself; when a rename of the rollback itself fails too, only the absence of overwriting is claimed for that directory.
- ConfigTransaction.ProgramConfigTransaction: with two or more failing renames only the absence of overwriting and the conditions of a commit are claimed; other processes changing the directories, and the renaming of directories, are not modelled.
- SubmissionFormat.NormalizeSubmissionFormat: text is ASCII, so white space is the ASCII white space `str.strip` removes; the default format used when none is stored is part of the input.
- RangeParser.ParseStrToList: text is ASCII; the interpreter's limit on the number of digits of an `int` is not modelled.
- SubtaskCycles.ProblemStore.SetDepSubtasks: says nothing about the other actions; deleting a subtask renumbers ids without remapping dependencies, so acyclicity is claimed for this action only.
- PretestEmit.EmitPretest: the branch that includes system tests, the scores sent to the judge and the separate connections of the update helpers are left out; an update of a row that does not exist does nothing.
- ScoreboardReveal.ReachableStatesCover: handlers are atomic, session bounds are fixed, no published message is lost, and results shown by the page load that goes with an init count as covered.
- ScoreboardTasks.StepPreserves: one websocket's own messages are handled one after the other; the order in which ready tasks run is arbitrary; several contests and connections are independent.
- ScoreboardCoverage.NoRevealIsLost: says that something is pending for every unshown result, not how long a query, a send or a page load may take; published messages are delivered at some time or stay in flight, a page load shows what is visible at one moment, the session bounds stay while a page is open, and one page is open at a time.
- IcpcScoring.QueryIsFold: timestamps of one account are distinct, every challenge has a total result, and half seconds round up.
- IoiScoring.Query2017IsFold: rates are never NULL and subtask results carry the problem of their challenge.
- RevealPoints.Ioi2013IsSteadyExactly: rates are non-negative and unjudged results have rate 0; the tie-breaking columns (challenge id, timestamp, number of attempts) are not claimed steady for IOI.
- RevealPoints.Ioi2017IsSteadyExactly: is exact for the sum before rounding; that the rounded score is steady follows, the converse does not.
- FlexibleSessions.SessionEndsAreCurrent: the row lock, unique keys and visibility of committed rows are part of the step relation; the checks before the transaction and the returned session row are left out.
- ContestAccess.SubmitExactlyInSession: the contest object is loaded from one committed state; the pickled contest cache may be older.
- PackUpload.PackHandler.OnMessage: MD5 is an arbitrary function; text frames after the header are left out; a connection is lost at both ends at once.
- Topcoder.RateService.GetProTopcoder: challenge ids are distinct; database errors and the join with the account table, which every challenge's account is in, are left out.
- TopcoderCache.CachedIsCurrentExactly: is about one problem, since the keys of the cache are independent, and counts results, so that an old answer which happens to be right still counts as old.
- ContestTables.Tables.UpdateUsers: deleting a membership row also deletes its sessions by cascade; that is the RemoveMember step of FlexibleSessions.
- Score caching in Redis, scoreboard freezing, and virtual or other stored session types.
- The rules about whose challenges an account may open (visible_challenge_accounts and its relatives).
- HTTP handlers, argument parsing, logging, passwords, permissions of global roles, and the network protocol of the judge cluster.

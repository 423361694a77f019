# ShiftMind: verified model of its solve, agent, evidence and release logic

ShiftMind plans shifts with an AI agent, a lexicographic CP-SAT solve and a set of release gates.
This project models the parts of its backend whose correctness spans several functions or a whole run,
and proves what the code and its documentation promise about them.

- **Solving.** `GovernedSolve` is the two-round solve under one budget: minimise unmet hours, lock that
  value, minimise cost, fall back to the round-one snapshot. CP-SAT is any sound oracle, the clock any
  monotone clock.
- **Talking.** `Transcript` translates framework messages to owned transcripts and back. `AgentTurn` is one
  agent turn as a machine over model replies, tool rounds, output attempts and validator verdicts.
  `MultiTurn` chains turns and recovers each turn's own messages by count.
- **Proving provenance.** `Migrations` is the migration-graph walk; `Evidence` audits evidence files
  against a growing repository and searches the first-parent line for the nearest code commit.
- **Measuring and releasing.** `Routing` is the budgeted routing measurement and its thresholds, `Suite`
  the bounded live suite, `JUnit` the reading of test reports, `GateB` the release report built from all
  of them.
- **Preparing data.** `ShortInput` cuts a small coherent instance out of a full week; `Anonymise` rewrites
  the names of a fixture.

Code that updates objects, lists or dictionaries in place is a class or a method with loops, proved equal
to a specification function; the lemmas are about those functions. `Basics` holds shared helpers.

## What the proofs found

- The solve reports the second round's status. `OPTIMAL` alone means least cost under the lock; it means a
  lexicographic minimum exactly when the first solve was `OPTIMAL` too (`OptimalStatusIsLexMinimumIff`).
- A draft returned after the planner's prompt is lost when the run is suspended for approval: it comes back as
  text (`SuspensionLosesADraft`). A suspended prompt is safe to resume, however it goes on, exactly when no run
  so far returned a draft (`SuspendedPromptCarriesADraftIff`). The baseline capability refuses to ask for
  approval after a draft of the same turn (backend/application/capabilities/scheduling_baseline.py:75-78); a
  draft returned beside the request is not covered by that.
- Trimming gives a suspended turn its tool results back when history was injected and leaves them empty when
  none was (`SuspendedFirstTurnLosesItsToolResults`); so a turn is sure to be judged by its own tool results
  exactly when history is injected (`JudgedByItsToolResultsIff`).
- The evidence audit's documentation says a file that audits clean stays clean. That holds along linear
  migration appends, and in general exactly when the old migration head stays on the new chain, which on sound
  graphs with one head means that no merge migration was added (`CleanSurvivesIffNoMerge`). A merge truncates
  the chain and unbinds old evidence (`MergeMigrationUnbindsEvidence`).
- Git lists a detected rename under its new path only. A commit that moves code to `docs/` lists no code, so the
  search for the nearest code commit can return one whose code differs (`RenamedCodeIsMissed`); it has the same
  code exactly when no skipped commit renames code away (`NearestHasTheSameCodeIff`).
- The chain walk rejects cycles the head reaches, and silently leaves out cycles it does not
  (`UnreachableCycleIsAccepted`).
- The 90 % routing bar first admits less than nine tenths at 2009 counted cases
  (`OverallBarFirstFailsAt2009`); the protected bar is exact below 20000.
- The bounded suite's documentation mentions a ceiling check after the loop. The code has none and needs
  none: the check after each turn, the last one included, already decides (`EligibleIff`).
- The short-input builder emits outbound rows it did not count: rows with an unparsable end or without
  positive volume. So the written instance can ask for more than the load it was scaled to
  (`UnparsedEndsOverloadTheWeek`); it never does when every end parses (`ParsedWeekMeetsTheLoad`).
- `anonymise` is not idempotent when a contact has a "Test Member" row before its first real one and another
  renamed contact's first row falls between them (`MixedContactIsRenamedTwice`).
- Generated task names are distinct for the shipped areas and not for all rules: two areas with one initial can
  run into the duty (`SharedInitialsCollide`).
- Gate B gathers file outcomes for three of its four runners, so a whole-file check on the PostgreSQL run
  could never pass (`PostgresFilesNeverPass`). Its verdict agrees with its rows only because the row that
  run-level blockers are filed under is registered (`UnregisteredBindingRowHidesABlocker`).

## Model

| member | source | states |
|---|---|---|
| `GovernedSolve.Solver.ApplyRemainingBudget` | backend/engine/governed_adapter.py:213-232 | grants what is left of the wall and deterministic budgets, wall ceiling first, or names the spent ceiling |
| `GovernedSolve.Solver.SolveLexicographicGoverned` | backend/engine/governed_adapter.py:199-272 | result and sequence of solver calls are those of the run `LexRun` for every oracle and clock |
| `GovernedSolve.Solver.SolveForCost` | backend/engine/governed_adapter.py:248-272 | lock, second objective, hint, second solve and fallback, as `RoundTwo` |
| `GovernedSolve.LockIsExact` | backend/engine/governed_adapter.py:248-255 | the rounded lock admits exactly the feasible schedules no worse than the round-one value; the snapshot satisfies it and is the hint |
| `GovernedSolve.EveryExitPublishesAFeasibleSchedule` | backend/engine/governed_adapter.py:193-272 | on every exit with a round-one value, what `value` reads is feasible, has no more unmet hours than that value, and `round2_value` is its cost; otherwise both values are NaN |
| `GovernedSolve.RoundTwoIsNeverInfeasible` | backend/engine/governed_adapter.py:253-266 | a sound solver never proves round two infeasible, and its hint satisfies its model |
| `GovernedSolve.EveryStepIsTaken` | backend/engine/governed_adapter.py:233-262 | how many rounds a run got to: it stops at a refused budget or an unsolved first solve, and not otherwise |
| `GovernedSolve.ReportedStatusIsTheLastSolves` | backend/engine/governed_adapter.py:233-272 | the status is the last solve's, UNKNOWN when a round was refused its budget; the time reported runs from the start to the reading after the last step |
| `GovernedSolve.InfeasibleIsReportedIff` | backend/engine/governed_adapter.py:242-247 | INFEASIBLE is reported iff the first solve answered it, and then no feasible schedule exists |
| `GovernedSolve.BothRoundsOptimalIsLexMinimum` | backend/engine/governed_adapter.py:199-272 | both rounds OPTIMAL: a lexicographic minimum of (unmet, cost) over all feasible schedules |
| `GovernedSolve.OptimalStatusMinimisesCostUnderTheLock` | backend/engine/governed_adapter.py:263-272 | reported OPTIMAL: least cost among schedules meeting the lock |
| `GovernedSolve.OptimalStatusIsLexMinimumIff` | backend/engine/governed_adapter.py:242-272 | over all problems, sound solvers, clocks and budgets: a reported OPTIMAL after a first solve of status `s` is always a lexicographic minimum iff `s` is OPTIMAL |
| `GovernedSolve.OptimalStatusCanMissTheLexMinimum` | backend/engine/governed_adapter.py:263-272 | a sound run that reports OPTIMAL without a lexicographic minimum |
| `GovernedSolve.TheTwoRoundsShareOneBudget` | backend/engine/governed_adapter.py:213-262 | every wall grant ends at start plus limit; round two is granted exactly the deterministic time round one left |
| `GovernedSolve.DeterministicTimeIsConserved` | backend/engine/governed_adapter.py:213-262 | with a solver that stays within every positive grant, all rounds together stay within the deterministic limit |
| `GovernedSolve.DeterministicReasonOnlyWhileWallTimeRemains` | backend/engine/governed_adapter.py:221-262 | the deterministic-exhausted reason is reported iff a round was due, wall time remained and the allowance was used up |
| `GovernedSolve.SelectedIsExact` | backend/engine/governed_adapter.py:314-316 | the rows selected are exactly the task variables set to 1 |
| `GovernedSolve.ExtractRows` | backend/engine/governed_adapter.py:310-326 | no round-one value, no rows; otherwise the selected rows of a feasible schedule |
| `Transcript.FromRequest` | backend/agent/translate.py:132-168 | request parts become one owned message per visible part |
| `Transcript.FromResponse` | backend/agent/translate.py:171-187 | response parts become owned text and tool-call parts, anything else dropped |
| `Transcript.ToOwnedTurn` | backend/agent/translate.py:41-57 | computes the owned transcript, which is always in normal form |
| `Transcript.ToFrameworkMessages` | backend/agent/translate.py:60-114 | rebuilds the messages or reports the first refusal |
| `Transcript.FirstRefusalExists` | backend/agent/translate.py:60-114 | a refusal exists exactly for transcripts that are not accepted |
| `Transcript.RefusalNamesTheFirstMisfit` | backend/agent/translate.py:60-114 | refused iff a message holds a part its role does not admit; the first such message's role decides the error |
| `Transcript.OwnedIsNormal` | backend/agent/translate.py:41-57 | every translation of framework messages is in normal form |
| `Transcript.RoundTripIsNormalization` | backend/agent/translate.py:60-187 | owned to framework and back is normalisation: messages split, fields defaulted, empty assistant messages dropped |
| `Transcript.NormalFormIsTheFixedPoints` | backend/agent/translate.py:60-187 | normal form is exactly what is accepted and comes back unchanged |
| `Transcript.NormalizeReachesNormalForm` | backend/agent/translate.py:60-187 | one trip reaches the normal form, more trips change nothing |
| `Transcript.ResumeIsStable` | backend/agent/translate.py:41-114 | what the translator produced is accepted and is a fixed point |
| `Transcript.HiddenContentDoesNotInterfere` | backend/agent/translate.py:48-57 | histories that differ only in hidden parts, or in responses made only of them, translate alike |
| `Transcript.TranscriptReadsAsItsHistory` | backend/agent/translate.py:41-187 | the transcript lists every visible part in order, each with its role, printed content, tool, call id and JSON arguments |
| `Transcript.TranslateAlikeIff` | backend/agent/translate.py:41-187 | two histories translate alike iff their visible parts read alike |
| `Transcript.RebuildingKeepsTheReading` | backend/agent/translate.py:60-114 | rebuilding an accepted transcript keeps every part readable as it was |
| `Transcript.NormalizingKeepsTheReading` | backend/agent/translate.py:60-187 | a trip to the framework and back loses no part and changes no content |
| `AgentTurn.MessagesThisRun` | backend/agent/runtime.py:190-197 | the messages from the last user prompt on |
| `AgentTurn.DraftIdsThisRun` | backend/agent/runtime.py:200-215 | draft ids returned by scheduling_draft in this run, in order |
| `AgentTurn.ResultIdsThisRun` | backend/agent/runtime.py:138-158 | result ids of citable tools in this run |
| `AgentTurn.RecordHandlesThisRun` | backend/agent/runtime.py:161-173 | record handles in the rows tools returned in this run |
| `AgentTurn.RunStartsAtTheLastPrompt` | backend/agent/runtime.py:190-197 | a message is in this run iff no message after it holds a user prompt |
| `AgentTurn.DraftIdsAreExact` | backend/agent/runtime.py:200-215 | an id is listed iff a structured scheduling_draft result of this run holds it under `draft_id` |
| `AgentTurn.ResultIdsAreExact` | backend/agent/runtime.py:138-158 | the validators see a result id iff a structured result of a citable tool in this run holds it under `result_id`, non-empty |
| `AgentTurn.RecordHandlesAreExact` | backend/agent/runtime.py:161-173 | they see a handle iff a row of a structured result in this run holds it under `ev` |
| `AgentTurn.CurrentPromptIsTheLast` | backend/agent/runtime.py:179-187 | the prompt asked about is the first text prompt of the last message that has one |
| `AgentTurn.Runtime.CheckClaims` | backend/agent/runtime.py:443-527 | first claim rule that fires, remembered as the retry rule |
| `AgentTurn.Runtime.CheckDraft` | backend/agent/runtime.py:530-574 | draft rule: retry, rebind to the latest draft, or accept |
| `AgentTurn.Runtime.RunSync` | backend/agent/runtime.py:605-643 | the retry loop over a script of events ends as `Drive` does, with the last rule remembered |
| `AgentTurn.Runtime.RunTurn` | backend/agent/runtime.py:605-830 | the reply is a function of history, opening and events alone, whatever rule an earlier turn left |
| `AgentTurn.RebuiltHistoryIsPlain` | backend/agent/translate.py:85-93 | a rebuilt history holds text results only, so it supplies no draft |
| `AgentTurn.DraftsAreThisTurns` | backend/agent/runtime.py:190-221 | drafts the validators see are exactly those this turn's tools returned |
| `AgentTurn.DriveAppends` | backend/agent/runtime.py:200-215 | a run only appends, adds no prompt, and carries exactly the drafts its tool rounds returned |
| `AgentTurn.DriveCites` | backend/agent/runtime.py:530-574 | every delivered output cites a draft of the run, or the run has none |
| `AgentTurn.CompletedTurnCarriesADraftIff` | backend/agent/runtime.py:529-574 | a completed run carries a draft iff scheduling_draft returned one in that run, through retries, rebinding and recovery: the one the delivered output cited if it exists, else the latest |
| `AgentTurn.SuspendedPromptCarriesADraftIff` | backend/agent/runtime.py:200-221 | known before resuming: however a prompt suspended any number of times is resumed and completes, the turn carries a draft iff one was returned since the prompt, exactly when no run so far returned one |
| `AgentTurn.SuspensionLosesADraft` | backend/application/capabilities/scheduling_baseline.py:33-41 | in every configuration, a prompt that drafts before or beside its request for approval, is resumed with the call decided, and completes without the draft |
| `AgentTurn.NothingShownNothingLost` | backend/agent/runtime.py:779-797 | suspended transcripts that show no scheduling_draft result mean nothing was drafted before, which a caller can check before resuming |
| `AgentTurn.EarlierMessagesCannotChangeATurn` | backend/agent/runtime.py:190-221 | whatever precedes the prompt, and for a resumed run any two histories that agree from their last prompt on, give replies that differ in the carried transcript only |
| `AgentTurn.LastAttemptDeliversIff` | backend/agent/runtime.py:443-574 | on the last attempt an answer is delivered iff no draft waits, it is not blank, and it cites a handle or needs none; otherwise the run ends, and a waiting draft completes the turn in its place |
| `AgentTurn.FirstClaimRuleAsksAgain` | backend/agent/runtime.py:443-527 | on every attempt an answer is asked for again by the first of the seven claim rules that fires, under that rule's name, and delivered iff none does |
| `AgentTurn.OtherOutputsAreAskedAgainIff` | backend/agent/runtime.py:443-574 | only answers meet the claim rules; a draft without a draft call, and anything else while a draft waits, are asked again, each under its own name |
| `AgentTurn.RunEndsBecause` | backend/agent/runtime.py:605-643 | a run that delivers nothing met the deadline, met a fault, or spent its last retry, asked exactly once more than there are retries, and names the rule last broken |
| `AgentTurn.DeliveredOutputFillsItsField` | backend/agent/runtime.py:769-830 | a delivered output sets exactly the field of its kind and holds its text; only a request for approval suspends, with its calls; the tool results are the readable ones; what is not recognised raises |
| `AgentTurn.FaultsAreMappedByKind` | backend/agent/runtime.py:653-767 | what each fault becomes: timed out, failed with `budget_exhausted` or the declared code, completed with the latest draft, or raised under its own type |
| `AgentTurn.RejectedHistoryRunsNothing` | backend/agent/runtime.py:605-643 | the history is refused iff it cannot be rebuilt |
| `AgentTurn.TranscriptTellsTheTurn` | backend/agent/runtime.py:769-830 | the transcript of a delivered turn reads as its history, the opening, what every event said in order, and the closing notices |
| `AgentTurn.ToolResultsAreShown` | backend/agent/runtime.py:935-948 | the tool results reported are the readable tool results of the transcript, in order, without the excluded names |
| `AgentTurn.AsksAtMost` | backend/agent/runtime.py:443-574 | the model is asked for output at most one more time than there are retries |
| `AgentTurn.TranscriptExtendsTheHistory` | backend/agent/runtime.py:769-830 | a returned transcript is empty or the normalised history plus what was added, and resumes unchanged |
| `MultiTurn.IterTurnEvaluations` | backend/evals/report.py:1089-1204 | full outcomes are kept, each turn is scoped by the injected count, and its scoped messages are exactly those it added |
| `MultiTurn.EveryOutcomeIsNormal` | backend/evals/report.py:786-813 | every outcome of every case is in normal form |
| `MultiTurn.EachTurnIsJudgedOnItsOwnMessages` | backend/evals/report.py:851-889 | injected history is normal and accepted, dropping its count leaves this turn's messages, the tool results are theirs iff the turn was not suspended without history, the double's index counts from zero |
| `MultiTurn.JudgedByItsToolResultsIff` | backend/evals/report.py:872-889 | known before a turn: it is judged by its own tool results whatever it does iff history is injected |
| `MultiTurn.SuspendedFirstTurnLosesItsToolResults` | backend/evals/report.py:872-889 | in every configuration, a first turn the runtime suspends after a tool round, judged without the tool result |
| `MultiTurn.RuntimeTurnIsARun` | backend/agent/runtime.py:779-830 | whatever the runtime replies in a turn is one of the runs the case model ranges over, with the same transcript and tool results |
| `MultiTurn.RuntimeDrivesTheCase` | backend/evals/report.py:1089-1204 | a whole case driven by the runtime, turn after turn, is one of the cases the other results are about |
| `MultiTurn.OffsetCountsRebuiltResponses` | backend/evals/doubles.py:103-113 | the offset equals the number of responses rebuilt from any accepted history |
| `MultiTurn.TurnExtendsItsHistory` | backend/evals/report.py:1172-1190 | a turn with a transcript leaves its injected history followed by what it added |
| `MultiTurn.ResumingCarriesTheWholeConversation` | backend/evals/report.py:789-801 | resuming turn by turn carries everything added so far, failed turns skipped, while it fits the bound |
| `MultiTurn.ResumedTurnIsGiven` | backend/evals/report.py:786-813 | message by message: the last hundred of the last transcript that holds anything, followed by the filler; an independent turn gets nothing |
| `MultiTurn.LastTranscriptHolds` | backend/evals/report.py:796-801 | the transcript resumed from is the last non-empty one, and empty only when all are |
| `MultiTurn.RehydratedTurnIsGiven` | backend/application/use_cases/execute_turn.py:474-496 | a rehydrated history says what the last hundred activities said, filler prompts first |
| `MultiTurn.ActivitiesAlternate` | backend/evals/report.py:824-849 | each earlier turn gives its prompt and then what was shown for it |
| `MultiTurn.TrimmingByCountIsExactIff` | backend/evals/report.py:872-876 | trimming by count is right for every continuation iff normalising the history keeps its length |
| `MultiTurn.TrimmingFailsOutsideNormalForm` | backend/evals/report.py:872-876 | a history outside normal form for which trimming is wrong |
| `Migrations.ResolveHead` | backend/scripts/evidence_binding.py:373-402 | the single head, or why there is none |
| `Migrations.ResolveChain` | backend/scripts/evidence_binding.py:343-370 | the walk from the head, on every finite map |
| `Migrations.NoHeadIff` | backend/scripts/evidence_binding.py:373-402 | no head iff there is no revision or not exactly one that nothing names as a parent, and which of the two |
| `Migrations.RefusalNamesItsCause` | backend/scripts/evidence_binding.py:343-370 | a refusal names an undeclared parent or a revision on a cycle, reached from the head |
| `Migrations.ChainIsThePathOfTheHead` | backend/scripts/evidence_binding.py:343-370 | an accepted chain is the whole single-parent path of the only head |
| `Migrations.ChainIsAcceptedIff` | backend/scripts/evidence_binding.py:343-370 | accepted iff the head reaches neither a cycle nor an undeclared parent |
| `Migrations.ChainIsCompleteIff` | backend/scripts/evidence_binding.py:343-402 | with single parents and one head, every revision is listed once iff parents are declared and nothing descends from itself |
| `Migrations.UnreachableCycleIsAccepted` | backend/scripts/evidence_binding.py:343-370 | a cycle the head does not reach is accepted and left out |
| `Migrations.OldChainSurvivesIff` | backend/scripts/evidence_binding.py:343-370 | a grown graph keeps the old chain, as its tail, iff the old head is on the new chain |
| `Migrations.OldHeadStaysIff` | backend/scripts/evidence_binding.py:343-402 | with declared parents, no cycle and one new head, the old head stays on the chain iff no merge was added |
| `Migrations.AppendGoesInFront` | backend/scripts/evidence_binding.py:343-370 | a migration appended to the head goes in front and disturbs nothing |
| `Migrations.MergeTruncatesTheChain` | backend/scripts/evidence_binding.py:343-370 | a merge drops what is below it from the chain |
| `Evidence.AuditEvidenceFile` | backend/scripts/evidence_binding.py:795-880 | every violation in order, or the migration graph's error |
| `Evidence.CleanIffWellBound` | backend/scripts/evidence_binding.py:819-880 | clean iff all bindings are there, the schema is on the chain, and the commit is a code-touching ancestor of HEAD |
| `Evidence.ViolationsAreExact` | backend/scripts/evidence_binding.py:819-880 | each violation is reported iff what it names is wrong with the document, the chain or the commit |
| `Evidence.ViolationsComeInOrder` | backend/scripts/evidence_binding.py:819-880 | violations come in the order keys, schema, code, commit, and only missing keys come more than once |
| `Evidence.OtherDocumentsAre` | backend/scripts/evidence_binding.py:819-845 | a file that is not a bindings document is reported as what it is; the audit raises iff the chain does |
| `Evidence.CodePathIff` | backend/scripts/evidence_binding.py:741-747 | a path is code iff, stripped, it is not empty, lies in none of the record directories and is not Markdown |
| `Evidence.BackslashesAreSlashes` | backend/scripts/evidence_binding.py:741-747 | a path written with backslashes is judged as with slashes |
| `Evidence.WellBoundPersists` | backend/scripts/evidence_binding.py:800-820 | a forward move that keeps the old migration head on the chain keeps clean evidence clean |
| `Evidence.CleanStaysClean` | backend/scripts/evidence_binding.py:800-820 | clean stays clean over any history of new commits and linear migration appends |
| `Evidence.CleanSurvivesIff` | backend/scripts/evidence_binding.py:846-857 | a forward move keeps all clean evidence clean iff the new graph still has a chain and the old migration head is on it |
| `Evidence.CleanSurvivesIffNoMerge` | backend/scripts/evidence_binding.py:800-857 | on sound migration graphs with one head, a forward move keeps all clean evidence clean iff it adds no merge migration |
| `Evidence.MergeMigrationUnbindsEvidence` | backend/scripts/evidence_binding.py:800-820 | a merge migration unbinds clean evidence |
| `Evidence.CodeIsUnchangedAlongTheLineIff` | backend/scripts/evidence_binding.py:771-792 | along first-parent commits that list no code, the code part of the tree is identical at both ends iff none of them renames a code path to one that is not |
| `Evidence.NearestCodeCommit` | backend/scripts/evidence_binding.py:771-792 | the search over the first-parent line and its closing comparison, as `Search` |
| `Evidence.NearestHasTheSameCodeIff` | backend/scripts/evidence_binding.py:771-792 | the commit found is the nearest to list code, and has the same code iff no skipped commit renames code away; nothing is found iff nothing lists code, and a find is refused iff the comparison lists code, which then did change |
| `Evidence.RenamedCodeIsMissed` | backend/scripts/evidence_binding.py:750-792 | a code file moved to `docs/` in one commit: its parent is returned although the code differs |
| `Routing.RoundedReaches` | backend/evals/live_golden_routing.py:152-154 | a rounded percentage reaches a whole bar iff the exact one is within half a hundredth |
| `Routing.ProtectedBarIsExactIff` | backend/evals/live_golden_routing.py:424-465 | the protected bar means every case iff there are fewer than 20000 |
| `Routing.OverallBarIsExactIff` | backend/evals/live_golden_routing.py:424-465 | the overall bar means nine tenths iff the population is below 2000 times its smallest shortfall, in particular below 2000 |
| `Routing.OverallBarFirstFailsAt2009` | backend/evals/live_golden_routing.py:424-465 | for every population below 2009 the overall bar means nine tenths; 1808 of 2009 reaches it with less |
| `Routing.RunRoutingPass` | backend/evals/live_golden_routing.py:268-421 | one pass: records, spend, stop reason, shares, as `RunPass`, whose records `PassesDescribeTheirCases` ties to the cases and runs |
| `Routing.GenerateRuns` | backend/evals/live_golden_routing.py:595-614 | the pass loop and the recorded spend it carries |
| `Routing.PassStartsCasesBelowTheCeiling` | backend/evals/live_golden_routing.py:303-308 | every case starts below the ceiling, the pass stops unpriced iff its last case ran without a price, complete iff not stopped |
| `Routing.PassSpendIsBounded` | backend/evals/live_golden_routing.py:303-384 | a pass overruns the ceiling by less than its dearest case |
| `Routing.RecordedSpendDrifts` | backend/evals/live_golden_routing.py:417 | recording drifts by at most half a unit of 1e-6 per pass |
| `Routing.InvocationSpendIsBounded` | backend/evals/live_golden_routing.py:595-614 | true spend of an invocation is below ceiling plus one dearest case plus half a unit per earlier pass |
| `Routing.EarlyStopNeverPasses` | backend/evals/live_golden_routing.py:436-439 | any early stop rules out `passed` |
| `Routing.PassesDescribeTheirCases` | backend/evals/live_golden_routing.py:371-421 | record `i` of every pass is case `i`: its id, protection and eligibility, and the verdict and cost of run `i` where the case was offered; the shares are theirs |
| `Routing.NoReasonIff` | backend/evals/live_golden_routing.py:424-465 | no blocking reason iff every rule holds of the runs |
| `Routing.RoutingVerdict` | backend/evals/live_golden_routing.py:424-465 | appends the reasons rule by rule, as `Reasons` |
| `Routing.ReasonsAreExact` | backend/evals/live_golden_routing.py:424-465 | each of the eight reasons is given iff its own rule is broken, said of the passes |
| `Routing.CodesDisagreeIff` | backend/evals/live_golden_routing.py:424-465 | the code bindings disagree iff two passes, or a pass and the bound one, differ |
| `Routing.PopulationsDisagreeIff` | backend/evals/live_golden_routing.py:424-465 | the populations disagree iff two passes recorded different ids or numbers of them |
| `Routing.IdsAreCounted` | backend/evals/live_golden_routing.py:424-465 | a population holds each id as often as it was recorded |
| `Routing.VerdictIs` | backend/evals/live_golden_routing.py:468-531 | passed without a reason; otherwise excepted under a valid exception and blocked without one |
| `Routing.PassedMeansTheThresholdsHold` | backend/evals/live_golden_routing.py:424-465 | no reason means the required complete passes, and in each, counted over cases and runs by index, every protected case passed and nine tenths of the offered and allowed ones |
| `Suite.RunCase` | backend/evals/report.py:1562-1625 | one case: use added turn by turn, cut at the first ceiling reached |
| `Suite.RunBoundedSuite` | backend/evals/report.py:1501-1636 | the suite's totals, results, stop reason and readiness |
| `Suite.CasePassesIff` | backend/evals/report.py:1599-1611 | a case passes iff every turn ran, passed and left the budget open |
| `Suite.EligibleIff` | backend/evals/report.py:1465-1476 | eligible iff there are cases, the limit admits them all, every turn of every case ran and passed, and no ceiling was reached |
| `Suite.EveryTurnStartsBelowTheCeilings` | backend/evals/report.py:1540-1607 | every turn of every run, raising ones included, starts with each total below its ceiling and time left, and the final totals are what the turns used |
| `Suite.SuiteOverrunsByLessThanOneTurn` | backend/evals/report.py:1532-1633 | every total overruns its ceiling by less than one turn; recorded cases never exceed the limit |
| `Suite.RecordedPassesAreComplete` | backend/evals/report.py:1599-1611 | a recorded pass is never partial |
| `Suite.ResultsRecordTheirTurns` | backend/evals/report.py:1562-1625 | each result records the verdicts of its case's turns in order, whether it was cut short or raised and at which turn, and passes iff complete with every verdict true |
| `Suite.StopReasonIs` | backend/evals/report.py:1532-1633 | why the suite stopped: not at all with every case recorded, at the case limit, out of time, or over a total with time left |
| `Suite.NotEligibleIs` | backend/evals/report.py:1465-1476 | what is not eligible is excepted under a valid exception and blocked otherwise |
| `JUnit.ParseJUnit` | backend/scripts/junit_ingest.py:214-243 | records every suite's direct test cases in document order, each with its first word |
| `JUnit.EachCaseIsCountedOnce` | backend/scripts/junit_ingest.py:214-243 | at any nesting depth, each identified test case under a suite is recorded exactly once and nothing else is |
| `JUnit.StatusIsTheFirstWord` | backend/scripts/junit_ingest.py:187-194 | passed iff no child is skipped, failure or error; otherwise the first such child decides, failure and error alike |
| `JUnit.RecordedIff` | backend/scripts/junit_ingest.py:214-243 | a record stands iff some test case directly under a suite has its identity, name, status and project |
| `JUnit.FileOutcomes` | backend/scripts/junit_ingest.py:342-406 | one outcome per declared file, refused when strict and a file has no case |
| `JUnit.FileOutcomeIsHonest` | backend/scripts/junit_ingest.py:369-405 | totals add up; missing iff no case; passed iff there are cases and all passed; failed iff one failed |
| `JUnit.OutcomeCountsItsRecords` | backend/scripts/junit_ingest.py:369-405 | each number counts the records of the file with that status, by index, and the projects are those it ran under |
| `GateB.TestCasesResult` | backend/scripts/gate_b_readiness.py:373-396 | worst status over the named cases and their parametrised forms |
| `GateB.TestFilesResult` | backend/scripts/gate_b_readiness.py:399-446 | worst status over the files, missing when a required project did not run one |
| `GateB.JudgeCheck` | backend/scripts/gate_b_readiness.py:663-675 | one check's result and binding, by kind of source |
| `GateB.BuildReport` | backend/scripts/gate_b_readiness.py:608-795 | the whole report: registry and strictness errors, entries, blockers, rows and verdict |
| `GateB.ValidateRegistry` | backend/scripts/gate_b_checks.py:575-605 | the first fault of a registry, in the order of the checks |
| `GateB.NoFaultIffValid` | backend/scripts/gate_b_checks.py:575-605 | no fault iff every check names a known row, a fitting category and a known computation, no id repeats, and every row and category is decided |
| `GateB.FaultNamesItsCause` | backend/scripts/gate_b_checks.py:575-605 | which fault is reported: the first check that does not fit, else repeated ids, else an undecided row, else an undecided category |
| `GateB.EntriesAreTheChecks` | backend/scripts/gate_b_readiness.py:663-705 | the entries are the checks in registry order, each under its own id, row and category |
| `GateB.BlockersAre` | backend/scripts/gate_b_readiness.py:663-739 | a blocker is an entry not proven or not bound, or one of the run's own under the binding row |
| `GateB.RowStatusIsHonest` | backend/scripts/gate_b_readiness.py:742-757 | what each row status says about the row's checks and blockers |
| `GateB.RowListsAreExact` | backend/scripts/gate_b_readiness.py:742-763 | a row lists exactly its own checks, and each of its blockers once |
| `GateB.VerdictAgreesWithRowsIff` | backend/scripts/gate_b_readiness.py:663-776 | the gate passes iff every row is passed or excepted and, where the binding row is not registered, there is no run-level blocker |
| `GateB.ShippedVerdictIsWhatTheRowsShow` | backend/scripts/gate_b_checks.py:91-100 | with the shipped rows, for any checks and results, the gate passes iff every row is passed or excepted |
| `GateB.UnregisteredBindingRowHidesABlocker` | backend/scripts/gate_b_readiness.py:709-739 | a registry without the binding row whose rows all pass while the gate does not |
| `GateB.JudgedProvenIff` | backend/scripts/gate_b_readiness.py:299-460 | a check is judged proven and bound iff its claim holds of the test cases, the evidence and the repository |
| `GateB.EvidenceIsJudged` | backend/scripts/gate_b_readiness.py:253-371 | how evidence is judged, verdict by verdict and by its age against the gate commit; bound iff its audit is clean |
| `GateB.GateAEvidenceIsJudged` | backend/scripts/gate_b_readiness.py:299-371 | how Gate A evidence is judged: by its recorded pass and its manual gates |
| `GateB.NamedTestsAreJudged` | backend/scripts/gate_b_readiness.py:373-396 | failed iff a named test or a parametrised form of it failed; else missing iff one has no case |
| `GateB.FilesAreJudged` | backend/scripts/gate_b_readiness.py:399-446 | all four results of whole files, said of the recorded cases: failed, then absent, then skipped, and a pass that missed a project is missing |
| `GateB.NamedIff` | backend/scripts/gate_b_readiness.py:373-396 | a case counts for a named test iff it is of that file and its name is the test's, or the test's followed by a bracket |
| `GateB.BaseNameIs` | backend/scripts/junit_ingest.py:304-334 | the base name is what stands before the first bracket of a name that closes one, else the name |
| `GateB.GatePassesIff` | backend/scripts/gate_b_readiness.py:608-795 | the gate passes iff every check is well registered and every row and category decided, every check's claim holds, every declared test function left a case and no report is stale |
| `GateB.PassingGateReadsEveryCase` | backend/scripts/junit_ingest.py:214-243 | a passing gate means no test case directly under a suite and identified with a declared file has a skipped, failure or error child, and each such file has a case |
| `GateB.EveryDeclaredTestFunctionPassed` | backend/scripts/junit_ingest.py:304-334 | a passing gate means every test function of a declared Python file has a passing case |
| `GateB.PostgresFilesNeverPass` | backend/scripts/gate_b_readiness.py:650-659 | a whole-file check on the PostgreSQL run keeps the gate from passing |
| `ShortInput.Slice.Pick` | backend/fixtures/build_short_input.py:170-181 | adds exactly the picked tasks, with their family |
| `ShortInput.Slice.GatherMembers` | backend/fixtures/build_short_input.py:190-200 | keeps exactly the gathered members and marks the tasks that have one |
| `ShortInput.Slice.AggregateOutbound` | backend/fixtures/build_short_input.py:271-286 | fills the hourly bands |
| `ShortInput.RankedIsASortedListing` | backend/fixtures/build_short_input.py:170-172 | supplied tasks, once each, in decreasing demand |
| `ShortInput.SortByIsStable` | backend/fixtures/build_short_input.py:170-195 | sorting keeps the order of what ties |
| `ShortInput.DemandOrderGrows` | backend/fixtures/build_short_input.py:96-127 | tasks keep the order they were first counted in |
| `ShortInput.PickTakesTheLargestSupplied` | backend/fixtures/build_short_input.py:170-181 | at most `n` new supplied tasks; one is left out only for `n` others of no less demand |
| `ShortInput.ChoicesAreTheBest` | backend/fixtures/build_short_input.py:193-195 | the choices are candidates, and one is passed over only for a full set of choices, each rated no lower |
| `ShortInput.EveryKeptTaskHasAKeptSupplier` | backend/fixtures/build_short_input.py:190-200 | every kept task keeps a qualified, scheduled, positive-rate supplier |
| `ShortInput.ChosenIsKeptUnlessFull` | backend/fixtures/build_short_input.py:190-200 | a chosen supplier is left out only because the cap was reached |
| `ShortInput.PickedTasksHaveTheirFamily` | backend/fixtures/build_short_input.py:170-181 | every picked task is filed under the family it was picked for |
| `ShortInput.MembersStayNearTheCap` | backend/fixtures/build_short_input.py:190-200 | at most the cap plus one member per task, sixteen with the shipped sizes |
| `ShortInput.SliceIsCoherent` | backend/fixtures/build_short_input.py:156-200 | the whole slice: at most seven tasks, sixteen members, every task supplied |
| `ShortInput.SliceOfAWeekIsCoherent` | backend/fixtures/build_short_input.py:93-200 | the same for the slice cut from any week's rows, qualifications and windows |
| `ShortInput.CandidatesAre` | backend/fixtures/build_short_input.py:131-161 | a task's candidates are exactly its qualifications at a positive rate whose member has a rostered or available window that overlaps the horizon |
| `ShortInput.CountDemand` | backend/fixtures/build_short_input.py:96-103 | measured volume per task in the order first met |
| `ShortInput.DemandIsMeasured` | backend/fixtures/build_short_input.py:96-127 | the count lists each task once with exactly its measured volume, which is positive |
| `ShortInput.MeasureCapacity` | backend/fixtures/build_short_input.py:250-268 | the kept members' deliverable hours in the horizon, capped per member, at least one |
| `ShortInput.InsideIsWhatIsShared` | backend/fixtures/build_short_input.py:250-260 | a window counts exactly the minutes it shares with the horizon |
| `ShortInput.WindowHoursAddUp` | backend/fixtures/build_short_input.py:250-260 | a member's hours add up over their own windows; one that does not parse counts nothing |
| `ShortInput.DeliverableIs` | backend/fixtures/build_short_input.py:262-267 | availability counts only without a rostered hour, and nobody delivers more than 56 hours |
| `ShortInput.ReferenceRateIsTheMean` | backend/fixtures/build_short_input.py:234-237 | the reference rate is the mean of the kept members' positive rates, and 100 without one |
| `ShortInput.WriteInbound` | backend/fixtures/build_short_input.py:296-306 | inbound windows of the horizon pruned to the kept tasks and scaled |
| `ShortInput.WrittenWindowsAre` | backend/fixtures/build_short_input.py:296-306 | a written window is one that starts in the horizon, with its own start and its kept tasks, and is not empty |
| `ShortInput.KeptTasksAreScaled` | backend/fixtures/build_short_input.py:296-306 | its entries are exactly the kept tasks, each with its volume times the scale |
| `ShortInput.RequiredIsCounted` | backend/fixtures/build_short_input.py:238-243 | required hours, summed task by task over the kept tasks at the kept members' mean rates, are the hours of the counted rows |
| `ShortInput.ScaledDemandMeetsTheLoad` | backend/fixtures/build_short_input.py:238-269 | the scale lies in (0, 1] and takes the required hours of the kept tasks to the lesser of themselves and load times capacity |
| `ShortInput.WrittenHoursAreScaled` | backend/fixtures/build_short_input.py:271-306 | the written bands and windows ask for exactly the scaled hours of what was counted plus the surplus |
| `ShortInput.LoadIsMetIff` | backend/fixtures/build_short_input.py:238-306 | written hours stay within load times capacity iff the surplus fits what the counted demand leaves free |
| `ShortInput.ParsedWeekMeetsTheLoad` | backend/fixtures/build_short_input.py:96-103 | if every outbound end in the horizon parses, written hours stay within the load |
| `ShortInput.CountedWeekIsScaledExactly` | backend/fixtures/build_short_input.py:238-306 | if every row in the horizon was counted, written hours are the lesser of the required hours and the load |
| `ShortInput.EachBucketConservesItsRows` | backend/fixtures/build_short_input.py:271-286 | each band holds the scaled volume of the rows starting in its hour |
| `ShortInput.RowsAreFiledByTheHour` | backend/fixtures/build_short_input.py:271-286 | which rows count and which hour they are filed under, in minutes |
| `ShortInput.BucketingConservesVolume` | backend/fixtures/build_short_input.py:271-286 | all bands together hold the scaled volume of the kept rows |
| `ShortInput.EmittedMatchesMeasuredIff` | backend/fixtures/build_short_input.py:97-104 | written volume is the counted volume, scaled, iff the uncounted rows sum to nothing |
| `ShortInput.UnparsedEndsOverloadTheWeek` | backend/fixtures/build_short_input.py:271-306 | a week whose own selection keeps a task for one counted unit and writes it above the load |
| `Anonymise.BuildTaskNames` | backend/scripts/anonymise_fixtures.py:89-99 | the rendered task names with a two-digit ordinal per area, or the missing rule |
| `Anonymise.TaskNameIs` | backend/scripts/anonymise_fixtures.py:89-99 | a task name spelled out: area, duty, activity, initial and the task's place in its area; or the first rule that is missing |
| `Anonymise.FunctionNameIs` | backend/scripts/anonymise_fixtures.py:89-90 | a function id stands for the last row that declares it |
| `Anonymise.TwoDigitsAre` | backend/scripts/anonymise_fixtures.py:98 | an ordinal is written with two digits up to 99 |
| `Anonymise.MemberIdentities` | backend/scripts/anonymise_fixtures.py:102-114 | contacts in order of their first real row, refused beyond the list |
| `Anonymise.RealOrderIsByFirstRealRow` | backend/scripts/anonymise_fixtures.py:102-114 | contacts to rename come in the order of their first real rows |
| `Anonymise.RenamedByPosition` | backend/scripts/anonymise_fixtures.py:113 | the k-th contact takes the k-th synthetic name and number |
| `Anonymise.TestMemberIff` | backend/scripts/anonymise_fixtures.py:102-107 | a name is synthetic already iff it is "Test Member " and digits |
| `Anonymise.Fixture.Apply` | backend/scripts/anonymise_fixtures.py:117-141 | the fixture after the call is the rewritten one, or the first missing rule is reported |
| `Anonymise.RewriteSucceedsIff` | backend/scripts/anonymise_fixtures.py:117-141 | the rewrite succeeds iff every area, agreement, function, member and window has its rule and the synthetic names suffice |
| `Anonymise.RefusalNamesTheFirstMissing` | backend/scripts/anonymise_fixtures.py:80-141 | which refusal is given, table by table in rewriting order: the first area, agreement or task without its rule, too many members, the first member or window without its row |
| `Anonymise.NamesAreTheRules` | backend/scripts/anonymise_fixtures.py:117-141 | every name is the one its rule gives: areas and agreements by id, windows by the last row of their contact |
| `Anonymise.IdempotentIff` | backend/scripts/anonymise_fixtures.py:102-141 | a second run changes nothing iff renamed contacts come in the same order by first real row as by first row |
| `Anonymise.UnmixedIsIdempotent` | backend/scripts/anonymise_fixtures.py:102-141 | no contact mixing synthetic and real rows: idempotent |
| `Anonymise.MixedContactIsRenamedTwice` | backend/scripts/anonymise_fixtures.py:102-141 | a mixed contact that a second run renames again |
| `Anonymise.RenamedContactsAreDistinct` | backend/scripts/anonymise_fixtures.py:102-141 | in the rewritten fixture two rows share a name, or a number, iff they share the contact, and no new name looks synthetic already |
| `Anonymise.OnlyNamesChange` | backend/scripts/anonymise_fixtures.py:117-141 | ids and every other field survive, row by row |
| `Anonymise.TasksShareANameIff` | backend/scripts/anonymise_fixtures.py:89-126 | in the rewritten fixture tasks share the written name iff they share the id, when the beginnings of names can be told apart |
| `Anonymise.NamesDifferIff` | backend/scripts/anonymise_fixtures.py:89-126 | the rules give different tasks different names in every fixture iff no two areas share the beginning of a name and none continues another by a digit from 1 to 9 |
| `Anonymise.ShippedNamesDiffer` | backend/scripts/anonymise_fixtures.py:38-42 | the shipped area names meet that condition |
| `Anonymise.SharedInitialsCollide` | backend/scripts/anonymise_fixtures.py:89-99 | two areas with one initial that do not |

## Left out

- CP-SAT, `CpSatBuilder` and how hints influence search: the solver is a sound oracle over integer objectives, reals stand for its floats, and the budget arithmetic is exact.
- Employment caps, constraint overrides, sorting of the schedule rows and the outcome's summary fields of the governed adapter: field copying.
- PydanticAI: its retry loop, validator order and message capture are the step relation of `AgentTurn`; a run adds no user prompt, its closing request holds text results only unless the reply asked for approval beside other calls, and `all_messages` is the rebuilt history plus what was added.
- Prose rules for claims, placeholders, handles and quantities: predicates on the answer text.
- Runs without a grounded answer type, forced out-of-scope replies, usage limits, telemetry, the deadline timer and correlation: not part of the draft argument. A tool result whose `items` cannot be iterated raises in the source and is read as having no rows here.
- The evaluators that judge a scoped turn, history text checks and the double's history lookups.
- Reading revision files (including two files that declare one revision), names of references and hashing: git's answers are read off a commit graph, which renames it detects is an input, digests are not modelled.
- Evidence drift, dirty-tree resolution and the generation of bindings.
- Case cost estimation, claim judging and the grant filter of routing: a case's cost, verdict and eligibility are inputs. Percentages and spend are exact reals before they are rounded.
- Identity of a class or suite name in JUnit XML: a function of the two names. Timestamps, messages and malformed files.
- Test functions of a Python source, live markers and the commit date of a report: inputs of `GateB`.
- Gate B dataset floors and live-conversation freshness: results of computed checks are inputs. Details, artifacts, the per-category view of the regressions row and release-exception records are dropped, and blockers follow registry order where the source sorts paths. Two named cases whose joined `path::name` keys coincide are kept apart.
- The checks a registry entry makes of itself when constructed; `GateB.ValidRegistry` is the check of the whole registry.
- Written indirect rows, shift templates and table filtering of the short input, and output rounding to four decimals. Of an inbound window only its start, tasks and volumes are kept. A kept contact without a Team Member row is not looked for.
- The pattern for "Test Member" names accepts ASCII digits and no trailing newline, and stripping a path removes ASCII blanks only.
- API routes, sessions, storage, tracing, worker leases, approvals and the grounding gate.

# Verified model of the cluster orchestrator

A Dafny 4.11 model of the parts of the orchestrator and its node client where several pieces of code have to
agree: hiding personal data in prompts and putting it back, planning and dispatching sub-tasks, paying for
them, refusing replayed requests and reading Redis stream replies. `dafny verify dfyconfig.toml` checks
everything.

## How the model is laid out

**Personal data.** `Regex` models the part of Rust's `regex` crate that the five patterns use: which strings
an expression accepts, and the leftmost-first backtracking search, tied together by a theorem. The Unicode
tables behind `\d`, `\s` and `\w` are a parameter constrained only on ASCII, and the patterns carry the two
non-ASCII letters that case folding adds. `PiiPatterns` holds the patterns and placeholders, `Substitution`
the theory of `str::replace` on bracketed placeholders, `Tokeniser` the loops and the map as they update in
place. `PiiTheorems` has the round trip of one run, `PiiLocality` and `PiiRoundTrip` the condition on the text
under which every run can be undone, `PiiOrder` the order of replacements in any other text, `PiiFixedPoint` the
second run, `PiiShapes` and `PiiChains` what the patterns catch, `PiiLists` and `PiiLongest` that a match is the
longest there is, `PiiExtent` and `PiiLabels` where the hidden pieces begin and end and what their labels say.

**Task DAG.** `Graph` is a topological sort with its theory; `Dag` is `build_dag`, `ready_indices` and the
runs they allow; `DispatchRefinement` shows that the dispatcher's SQL condition is `ready_indices` on the DAG
that a job's positions stand for, and `RunRefinement` that runs of the
orchestrator are runs of that DAG.

**Sub-task lifecycle.** `Lifecycle` is a step system in which every step is one SQL or Redis statement, or one
move of a worker, so its runs are the statement-level interleavings of any number of dispatchers, result
handlers, calls of `fail_task` and workers. Pushes can fail, handlers can end with an error after their mark,
workers can start at any time, die at any time and report results for tasks they were never handed. A `Mode` says
which of this is excluded and which statements run together: a handler's guard and mark per task, the statements
of finalising a job, a job's insertion and that of its rows, `fail_task`'s read and update of a row, its update of
the row and that of the job; whether only rows in flight are failed, the consumer group is there before anything
is pushed, every claimed row is pushed, every handler that has marked its task answers, and only workers that were
handed a task report a result. The code as written guarantees none of these. `LifecycleInvariants` holds what
every step keeps. `LifecycleSafety`, `FailureGuard`, `Retries`, `Finalisation`, `Scenarios`, `ExactlyOnce`,
`RunCredits`, `RunPayout`, `FinalCost`, `Termination`, `Progress` and `Redelivery` hold the theorems over reachable
states. `TaskManager` is the same system as the code writes it, a class whose methods update the tables, each
proved to be a run of the step system, so that the theorems hold of what the methods do. `JobPlans` holds the rows of
each tier and the order in which they may go out.

**Requests, credits, replies.** `Replay` models the timestamp window, the nonce table and its cleanup over all
runs, and the middleware as a class whose history is such a run; `Credits` the payout formula over exact reals;
`StreamReply` the flattening of nested replies.

## Where the code does less than its comments say

Each of these is a theorem that says exactly when the code does what is promised, with a concrete run or input
in which it does not.

- Detokenising restores the prompt in every run only if the prompt contains no placeholder for a label that is
  replaced in it (`PiiRoundTrip.RestoredExactlyWhen`). Nothing in the code checks this, and
  `a@b.co [PII_email_00000000]` can be lost (`PiiRoundTrip.PromptSpoiled`).
- Card numbers are taken for phone numbers: the phone pass runs first and any 13 digits are a phone number to it, so
  nothing is ever labelled `cc`, and the digits past the thirteenth of a longer card number stay in the prompt
  (`PiiLabels.HiddenAsLabelled`, `PiiLabels.CardLosesItsTail`; orchestrator/src/privacy.rs:25-31).
- The guard against double submission (orchestrator/src/routes/tasks.rs:82) and the mark
  (orchestrator/src/routes/tasks.rs:100) are separate statements, and a redelivery between them is paid twice;
  so is a task that is failed after it has been paid (`ExactlyOnce.NeverTwiceIff`).
- A handler that ends with an error after its mark is never repeated, because the guard refuses every later answer:
  the task is never paid (`ExactlyOnce.ExactlyOnceIff`, `ExactlyOnce.CrashedUnpaid`), and if it was the last one the
  job is never closed (`Finalisation.NoLostFinalisationIff`, `Finalisation.CrashedNotClosed`).
- The consumer group is created by the first worker that starts, at the end of the stream
  (node-client/src/runner.rs:66-75). What was pushed before is never delivered, its rows stay dispatched, and nothing
  calls `fail_task` (`Progress.NeverStuckIff`, `Progress.MissedRow`, `Redelivery.MissedReachable`). Even if something
  did, three retries can all be used up before the first worker starts (`Progress.MissedForGood`).
- The dispatcher gives up on a batch at the first XADD that fails and leaves the rest dispatched
  (`Progress.NeverStuckIff`, `Progress.ForgottenRow`).
- `fail_task` does not look at the row's status. Failing a complete row reopens it under rows already dispatched
  and entries already acknowledged (`FailureGuard.StreamInOrderIffGuarded`,
  `FailureGuard.AckOnlyCompleteIffGuarded`).
- `fail_task` reads the retry count and updates the row in two statements. Overlapping calls retry a row without
  any bound (`Retries.RetryBoundIff`, `Retries.RetriesUnbounded`, `Termination.RunsSettleIff`).
- `fail_task` fails the row and the job in two statements. The second can overwrite a job that a late result has
  completed in between, and then no continuation closes the job (`Finalisation.NoLostFinalisationIff`,
  `Finalisation.FailedAfterClose`, `Progress.EveryJobCanFinishIff`).
- A job marked failed is not finished in any other case: a late result can still complete and close it
  (`Progress.CanFinishIffNotDead`, `Progress.FailedJobFinishes`).
- `submit_job` inserts a job's rows one statement at a time, so a job whose first row is finished before the
  next is inserted is marked complete (`Scenarios.NoEarlyCloseIffAtomicSeed`, `Scenarios.ClosedEarly`). The
  position order survives this.
- The recorded cost of a job can miss a receipt, because finalising counts, sums and updates in three
  statements (`FinalCost.CostsRightIffAtomic`, `FinalCost.SplitCost`).
- A nonce lifetime of twice the window is exactly enough only if the database clock is as coarse as the
  millisecond clock of the check and no time passes between check and insert. PostgreSQL keeps microseconds
  and the insert comes later, so the margin is short by up to a millisecond plus that delay
  (`Replay.SourceConstants`, `Replay.TooShortIsUnsafe`).
- Receipts are issued against the tasks complete so far, each taken as Edge tier, so what a job pays out is not
  bounded by its executor pool but by that times the number of scored tasks and the nodes' factors, the tier
  multiplier halved on probation (`RunPayout.JobPayout`, `Credits.IncrementalTotal`). No statement of the repository
  writes `nodes.jobs_completed`, so every node is on probation for ever: Pro and Cluster nodes overpay with the first
  scored task, Edge nodes when the score grows by more than two, which takes at least three scored tasks
  (`Credits.NewNodesOverpayIff`, `Credits.ThreeTasksDecideNothing`, `RunPayout.OverpaidReachable`).
- In the release profile the timestamp check lets exactly one timestamp outside the window through, 2^63 ms before
  now, whose distance overflows (`Replay.InWindowExact`).
- A worker that dies between the orchestrator's answer and its ACK leaves an entry that no redelivery can ever
  acknowledge (`Redelivery.AckableIffNotStranded`, `Redelivery.StrandedReachable`).
- The `/admin` routes pass through the request check twice with one nonce, and the second pass always refuses
  (`Replay.NonceStore.AdminRequest`).

## Model

| member | source | states |
|---|---|---|
| PiiTheorems.RoundTrip | orchestrator/src/privacy.rs:39-54 | For every text, id stream and iteration order of the map: if no placeholder stands for two originals, detokenising the tokenised text gives back the text if and only if the text contains none of the generated placeholders |
| PiiTheorems.RoundTripDistinct | orchestrator/src/privacy.rs:46 | Distinct ids are enough: with them a text that avoids the generated placeholders always comes back, in any order of replacements |
| PiiRoundTrip.RestoredExactlyWhen | orchestrator/src/privacy.rs:39-54 | A condition on the text alone: all runs with distinct ids restore it in any order if and only if it contains no placeholder, with any id, for a label replaced in it (or needs more ids than there are); a dry run with one fixed id decides it |
| PiiRoundTrip.UnmarkedRestored | orchestrator/src/privacy.rs:46 | A text without `[PII_` always comes back |
| PiiRoundTrip.PromptSpoiled | orchestrator/src/privacy.rs:39-54 | A concrete prompt and run, with distinct ids, that no order of replacements restores |
| PiiLocality.LogsAlike | orchestrator/src/privacy.rs:43-51 | How many pieces are replaced, their labels and their originals do not depend on the ids drawn |
| PiiLocality.MatchLengthLocal | orchestrator/src/privacy.rs:44 | What the search finds depends only on the text before the next opening bracket |
| PiiTheorems.TokeniseAndRestore | orchestrator/src/privacy.rs:61-68 | Tokenise, then detokenise in whatever order the map chooses: restored exactly when the text holds no generated placeholder |
| PiiTheorems.OriginalsAreThePromptsOwn | orchestrator/src/privacy.rs:44-49 | Every stored original is a non-empty, bracket-free, contiguous piece of the user's own text, never a piece of an earlier placeholder |
| PiiTheorems.TokenisedLifts | orchestrator/src/privacy.rs:43-51 | The output is the input with matched pieces behind placeholders: one reading shows the output, the other the input, and the holes are the map's entries |
| PiiTheorems.PassLifts | orchestrator/src/privacy.rs:44-50 | One pass keeps that relation: it only ever turns untouched user text into holes |
| PiiTheorems.PassSkips | orchestrator/src/privacy.rs:43-51 | A later pass copies a whole placeholder unchanged from any position inside it, whatever follows |
| PiiTheorems.DetokeniseRestores | common/src/types.rs:252-258 | Sequential replacement restores all holes in any order when no placeholder occurs in the original |
| PiiTheorems.DetokeniseSpoils | common/src/types.rs:252-258 | If the original contains one of the placeholders, no order of replacements gives it back |
| PiiOrder.OrderDoesNotMatter | common/src/types.rs:252-258 | For every prompt, every id stream, repeated ids included, and every other text the map is applied to, such as an aggregated output: the result is the same in any two iteration orders of the map |
| PiiOrder.ReplacementsCommute | common/src/types.rs:255 | In any text two replacements of bracketed placeholders commute when neither original is a stretch inside the other placeholder |
| PiiOrder.OrderCanMatter | common/src/types.rs:255 | A text and two replacements without that condition whose order matters |
| PiiFixedPoint.NothingLeftToMatch | orchestrator/src/privacy.rs:13-54 | No pattern matches anywhere in the output, across placeholder edges and at word boundaries included |
| PiiFixedPoint.TokeniseIsIdempotent | orchestrator/src/privacy.rs:39-54 | A second run, with any ids, changes nothing and stores nothing |
| PiiFixedPoint.PassCleans | orchestrator/src/privacy.rs:43-51 | A pass removes all matches of its own pattern and brings back none of an earlier one, provided anchored patterns run last |
| PiiFixedPoint.MatchWasThere | orchestrator/src/privacy.rs:43-51 | A match at the front of a pass's output was already a match in its input, anchors included |
| PiiPatterns.PatternsSeparated | orchestrator/src/privacy.rs:13-51 | No match of any of the five patterns contains a bracket or lies strictly inside any placeholder; anchored patterns begin and end on word characters |
| PiiPatterns.PlaceholderClean | orchestrator/src/privacy.rs:46 | No match of a separated pattern starts anywhere in a placeholder, whatever follows it |
| PiiPatterns.PlaceholderInjective | orchestrator/src/privacy.rs:46 | Equal placeholders have equal ids, whatever their labels |
| PiiShapes.EmailPatternMeans | orchestrator/src/privacy.rs:21-24 | The email expression accepts exactly local part, @, host, dot and a letters-only top level of two or more |
| PiiShapes.NoEmailLeft | orchestrator/src/privacy.rs:39-54 | The output of tokenise contains no such address anywhere |
| PiiShapes.CardPatternMeans | orchestrator/src/privacy.rs:31 | The card expression accepts exactly the runs of 13 to 19 ASCII digits |
| PiiShapes.NoCardLeft | orchestrator/src/privacy.rs:39-54 | The output contains no such run between word boundaries |
| PiiShapes.AddressPatternMeans | orchestrator/src/privacy.rs:33 | The address expression accepts exactly the dotted quads of one to three digits each |
| PiiShapes.NoAddressLeft | orchestrator/src/privacy.rs:39-54 | Every dotted quad left in the output touches a word character |
| PiiShapes.AddressAccepted | orchestrator/src/privacy.rs:33 | Every dotted quad of one to three digits is accepted |
| PiiChains.PhonePatternMeans | orchestrator/src/privacy.rs:28 | The phone expression accepts exactly country code, optionally bracketed area code, exchange and line, with optional plus sign and gaps |
| PiiChains.NoPhoneLeft | orchestrator/src/privacy.rs:39-54 | No stretch of the output is such a number |
| PiiChains.KeyPatternMeans | orchestrator/src/privacy.rs:18 | The key expression accepts exactly an `sk-` or `api key =` prefix in either case, white space, and twenty or more key characters |
| PiiChains.NoKeyLeft | orchestrator/src/privacy.rs:39-54 | No stretch of the output is a key |
| PiiChains.SecretKeyAccepted | orchestrator/src/privacy.rs:18 | `sk-` followed by twenty or more key characters is accepted by the key expression |
| Regex.LengthsExact | orchestrator/src/privacy.rs:44 | The backtracking search lists exactly the accepted prefix lengths of a text |
| Regex.MatchLengthExact | orchestrator/src/privacy.rs:44 | The search answers a length that matches with its anchors, and none only when no length does; it is the longest such length by `PiiLongest.LongestMatch` |
| PiiLongest.LongestMatch | orchestrator/src/privacy.rs:13-44 | For each of the five patterns, in any text: no length that matches with its anchors is greater than the one the search answers, so greed costs nothing |
| PiiLists.RunLengths | orchestrator/src/privacy.rs:18-31 | A greedy repetition of a character class lists the whole run first and then every shorter prefix down to its minimum |
| PiiExtent.TokenisedExtent | orchestrator/src/privacy.rs:39-54 | The output read as kept characters and holes: around every hole the next character could not have continued the match, nor the one before it started it earlier; with the key holes shown alone the text has no key, with the email holes too no address, with the phone holes too no phone number, which fixes the order of the passes |
| PiiExtent.StopsRight | orchestrator/src/privacy.rs:44 | The character after a match: no key character after a key, no letter after an email address, no word character after a card number or IP address |
| PiiExtent.StartsRight | orchestrator/src/privacy.rs:44 | The character before a match: no character of a local part before an email address, no word character before a card number or IP address |
| PiiLabels.HiddenAsLabelled | orchestrator/src/privacy.rs:39-54 | Every hidden piece is a key under `api_key`, an address under `email`, a phone number under `phone` or a dotted quad under `ip`; `cc` is never written, because any 13 digits are taken for a phone number first |
| PiiLabels.AroundEmail | orchestrator/src/privacy.rs:21-24 | After a hidden email address comes no letter, before it no character of a local part |
| PiiLabels.AfterKey | orchestrator/src/privacy.rs:18 | After a hidden key comes no further key character |
| PiiLabels.CardLosesItsTail | orchestrator/src/privacy.rs:28-31 | A text that is a card number of 13 to 19 digits becomes a phone placeholder for the first 13 digits followed by the rest of the number |
| Tokeniser.ReplaceAll | orchestrator/src/privacy.rs:44-50 | One `replace_all` with the inserting closure computes the leftmost non-overlapping pass and inserts its log in order |
| Tokeniser.RunPasses | orchestrator/src/privacy.rs:40-53 | The loop over patterns composes the passes and collects one map |
| Tokeniser.Tokenise | orchestrator/src/privacy.rs:39-54 | The result and the map of the five passes |
| Tokeniser.PiiMap.Insert | common/src/types.rs:248-250 | Adds or overwrites one entry |
| Tokeniser.PiiMap.Detokenize | common/src/types.rs:252-258 | The result of replacing every entry once, in some enumeration of the map |
| Tokeniser.EmptyMatchesEverywhere | common/src/types.rs:255 | An entry with an empty placeholder is written before, between and after all characters of the text |
| Substitution.ReplaceTakesFirst | common/src/types.rs:255 | A text without the pattern is left alone; in any other the first occurrence is replaced and the rest is searched from its end |
| Substitution.ReplaceRestores | common/src/types.rs:255 | Replacing one placeholder restores all its holes and touches nothing else |
| Substitution.ReplaceTakesOpens | common/src/types.rs:255 | Each replacement of a bracketed placeholder by bracket-free text removes exactly one opening bracket |
| Graph.AcyclicIffOrdered | orchestrator/src/dag.rs:77-79 | A graph with edges in bounds has no cyclic path if and only if it has a topological order |
| Graph.OrderedMeansAcyclic | orchestrator/src/dag.rs:77-79 | A topological order rules out every cyclic path |
| Graph.StuckMeansCycle | orchestrator/src/dag.rs:77-79 | If every unplaced vertex waits for another unplaced one, some path returns to its start |
| Graph.Toposort | orchestrator/src/dag.rs:77-79 | Answers yes with a topological order exactly when there is no cycle |
| Dag.BuildDag | orchestrator/src/dag.rs:30-82 | Accepts exactly the plans of 1 to 64 tasks with edges in bounds and no path back to its start; otherwise names the first failed check; accepted tasks are fresh copies of the plan's |
| Dag.AcceptableMeansOrdered | orchestrator/src/dag.rs:34-81 | A plan is acceptable if and only if its sizes and bounds are right and a topological order exists |
| Dag.ReadyIndices | common/src/types.rs:149-160 | Returns, in ascending order, exactly the pending tasks whose predecessors are all complete |
| Dag.NeverStuck | common/src/types.rs:149-160 | In an acyclic DAG with some task unfinished and none in flight or failed, some task is ready |
| Dag.RunStaysClosed | common/src/types.rs:149-160 | A run that starts only ready tasks keeps every started task's predecessors complete |
| Dag.CompletionsExact | common/src/types.rs:149-160 | The tasks complete after a run are those complete before it and those it completed, each once |
| Dag.RunIsTopological | orchestrator/src/dag.rs:77-88 | A run that finishes everything has completed each task exactly once, in a topological order |
| Dag.MaximalRunFinishes | orchestrator/src/dag.rs:84-88 | A run of an acyclic DAG that can go no further with nothing given up has finished, in a topological order |
| Dag.PositionsAreAcceptable | orchestrator/src/dag.rs:34-81 | The DAG with an edge for every pair of rising positions is accepted, for any positions of 1 to 64 sub-tasks |
| DispatchRefinement.EligibleIsReady | orchestrator/src/task_manager.rs:61-70 | For every row of every job the dispatcher's SQL condition holds exactly when the task is ready in its job's position DAG |
| DispatchRefinement.DispatchClaimsReady | orchestrator/src/task_manager.rs:61-74 | One dispatch claims only ready unlocked tasks, and all of them while the limit is not used up |
| RunRefinement.StepIsMoveIff | orchestrator/src/task_manager.rs:61-81 | With only rows in flight failed, what any step of any participant does to the statuses of a fully inserted job is nothing, the start of a ready task of its position DAG, or the completion, retry or giving up of one in flight, if and only if the step is not a result for a row that has been put back or given up |
| RunRefinement.RunRefines | orchestrator/src/task_manager.rs:56-238 | Every run of the orchestrator without such late results, seen through the statuses of one job, is a run of the DAG that starts only ready tasks |
| LifecycleSafety.PositionBarrier | orchestrator/src/task_manager.rs:61-78 | With only rows in flight failed, in every reachable state whatever was ever pushed has every lower position of its job complete, across retries and late results |
| FailureGuard.StreamInOrderIffGuarded | orchestrator/src/task_manager.rs:205-225 | Over all runs that holds if and only if only rows in flight are failed, which `fail_task` does not check |
| FailureGuard.AckOnlyCompleteIffGuarded | node-client/src/runner.rs:113-130 | Over all runs acknowledged entries belong to complete rows if and only if only rows in flight are failed |
| Retries.RetryBoundIff | orchestrator/src/task_manager.rs:186-225 | Over all runs of any number of replicas and calls a row is retried at most 3 times and a job of n rows pushed at most 4n times, if and only if reading the retry count and updating the row run without another call for that row in between |
| Retries.RetryBound | orchestrator/src/task_manager.rs:205-225 | The bounds hold in every reachable state when they do |
| Retries.RetriesUnbounded | orchestrator/src/task_manager.rs:186-217 | When they do not, for every n a reachable state of one job in which a row has been retried n times |
| Retries.PushesFollowRetries | orchestrator/src/task_manager.rs:59-104 | In every reachable state of every mode a row has been pushed at most once more than it was retried |
| LifecycleSafety.OneClaim | orchestrator/src/task_manager.rs:57-83 | A claimed row is claimed by nobody else in any continuation in which `fail_task` does not update it |
| LifecycleSafety.AckOnlyComplete | node-client/src/runner.rs:113-130 | With only rows in flight failed, an acknowledged entry's task is complete |
| Finalisation.NoLostFinalisationIff | orchestrator/src/task_manager.rs:218-274 | Over all statement-level interleavings with only rows in flight failed, a job whose rows are all there and complete is closed once its handlers have ended, if and only if failing a row for good and failing its job are one step and no handler ends with an error after its mark |
| Finalisation.NoLostFinalisation | orchestrator/src/task_manager.rs:241-274 | The closing holds in every reachable state when they are |
| Finalisation.FailedAfterClose | orchestrator/src/task_manager.rs:218-232 | When they are not, a concrete run in which the job's failure overwrites its completion by a late result |
| Finalisation.CrashedNotClosed | orchestrator/src/routes/tasks.rs:100-224 | A concrete run in which every handler of a job ends with an error after its mark and the finished job stays open |
| Scenarios.NoEarlyCloseIffAtomicSeed | orchestrator/src/routes/jobs.rs:101-160 | Over all runs with only rows in flight failed, a job is marked complete only when all its rows are inserted and complete, if and only if a job and its rows are inserted together |
| LifecycleSafety.NeverClosedEarly | orchestrator/src/task_manager.rs:241-274 | With jobs and rows inserted together and only rows in flight failed, no interleaving marks a job complete while a sub-task of it is not |
| Scenarios.ClosedEarly | orchestrator/src/routes/jobs.rs:145-160 | A concrete run: the first row is dispatched, answered and finalised before the second is inserted, and the job is closed |
| LifecycleInvariants.KeepsPlansOrdered | orchestrator/src/routes/jobs.rs:133-146 | Rows still to be inserted never come before a row that is there, for every tier's plan |
| LifecycleInvariants.StepKeepsBase | orchestrator/src/task_manager.rs:56-277 | Every statement of every participant keeps the plan order and the bound of pushes by retries |
| LifecycleInvariants.StepKeepsInv | orchestrator/src/task_manager.rs:56-277 | With only rows in flight failed, every statement keeps the position barrier and the rules for marks and ACKs |
| LifecycleInvariants.KeepsBarrier | orchestrator/src/task_manager.rs:61-78 | The position barrier is kept by every statement, with only rows in flight failed |
| LifecycleInvariants.KeepsIssueBound | orchestrator/src/task_manager.rs:205-225 | Claims never exceed retries by more than one, whatever statuses are failed and however calls overlap |
| Retries.KeepsNotesCurrent | orchestrator/src/task_manager.rs:186-217 | With calls for one row not overlapping, what a call has read is still true when it updates |
| Finalisation.KeepsNotLost | orchestrator/src/task_manager.rs:241-274 | With nobody about to fail a job and no handler ending after its mark, every statement keeps: as long as a finished job is open, some handler is still on its way to closing it |
| LifecycleInvariants.RemainingZero | orchestrator/src/task_manager.rs:242-247 | The count of unfinished rows is zero exactly when all rows are complete |
| LifecycleInvariants.RemainingCounts | orchestrator/src/task_manager.rs:242-247 | It is the number of the job's rows that are not complete |
| ExactlyOnce.ExactlyOnceIff | orchestrator/src/routes/tasks.rs:82-221 | Over all runs with any redeliveries, results nobody asked for and errors, a complete task nobody is about to pay has exactly one receipt and an incomplete one none, if and only if guard and mark are serialised per task, only rows in flight are failed and no handler ends with an error after its mark |
| ExactlyOnce.NeverTwiceIff | orchestrator/src/routes/tasks.rs:82-119 | Over the same runs no task is paid twice if and only if guard and mark are serialised per task and only rows in flight are failed, whatever handlers end with an error |
| ExactlyOnce.CrashedUnpaid | orchestrator/src/routes/tasks.rs:100-221 | A concrete run in which a complete task is never paid for |
| ExactlyOnce.UnguardedPaysTwice | orchestrator/src/task_manager.rs:205-217 | A concrete run in which a paid task is failed, answered again and paid again |
| ExactlyOnce.SerialisedPaysOnce | orchestrator/src/routes/tasks.rs:82-221 | With guard and mark serialised, only rows in flight failed and every handler running to its end, every reachable state has exact receipts |
| ExactlyOnce.UnserialisedPaysTwice | orchestrator/src/routes/tasks.rs:82-119 | Without it a concrete run of two deliveries of one entry is paid twice |
| ExactlyOnce.BothPaid | orchestrator/src/routes/tasks.rs:82-221 | From any reachable state with two handlers of a task past the guard, both can be paid |
| RunCredits.ReceiptsWithinBounds | orchestrator/src/routes/tasks.rs:137-178 | In every serialised run with only rows in flight failed, nodes of any tier and age: each receipt carries the tokens stored with its task, is at least the share against the tasks complete now (the final list included), at most the node's factor x 0.70 x budget, the factor being the tier multiplier, halved on probation, and zero for work without a score |
| RunPayout.JobPayout | orchestrator/src/routes/tasks.rs:137-178 | In every such state, for any nodes whose factors lie between lo and hi: the receipts of a job total at most hi executor pools for each complete row with a score, and at least lo pools once the job is finished, its handlers have ended and none of them died before paying |
| RunPayout.OverpaidReachable | orchestrator/src/routes/tasks.rs:137-178 | A reachable state in which the one receipt of a new Pro node is one and a half executor pools |
| RunCredits.JobScoreGrows | orchestrator/src/routes/tasks.rs:138-159 | The denominator only grows as rows are added and completed |
| RunCredits.OwnWorkCounted | orchestrator/src/routes/tasks.rs:138-159 | A completed row's own score is in the denominator of its share |
| FinalCost.ClosedAtCostIff | orchestrator/src/task_manager.rs:218-274 | Over all runs with only rows in flight failed, a finished job whose handlers have ended is closed at the sum of all its receipts, if and only if finalising is one step, failing a row with its job is one step and no handler ends with an error after its mark |
| FinalCost.CostsRightIffAtomic | orchestrator/src/task_manager.rs:241-274 | The recorded cost alone is right if and only if count, sum and update run together and no handler ends with an error after its mark |
| FinalCost.AtomicCost | orchestrator/src/task_manager.rs:241-274 | With an atomic finalise that every handler reaches, in every reachable state the recorded cost of a finished job whose handlers have ended is the sum of its receipts |
| FinalCost.StaleTotal | orchestrator/src/task_manager.rs:250-270 | From any reachable state with two last handlers, the one that sums first and updates last records a cost that misses a receipt |
| FinalCost.SplitCost | orchestrator/src/task_manager.rs:250-270 | Such a state is reachable: a concrete run of one job records a wrong cost |
| Termination.MeasureFalls | orchestrator/src/task_manager.rs:205-235 | With only rows in flight failed, the measure falls by one to three on every dispatch, failure and first result, and stays on every other step |
| Termination.RunsSettleIff | orchestrator/src/task_manager.rs:186-235 | Every run makes at most nine such steps per sub-task ever created, if and only if calls of `fail_task` for one row do not overlap |
| Termination.MarksEffective | orchestrator/src/routes/tasks.rs:82-119 | With handlers serialised every mark is the first result of its task |
| Progress.NeverStuck | orchestrator/src/task_manager.rs:61-104 | With the consumer group there first and no push lost, in every reachable state an unfinished job has a claim, push or delivery of a row with all lower positions complete enabled |
| Progress.NeverStuckIff | node-client/src/runner.rs:66-75 | Over all runs with only rows in flight failed that holds if and only if the consumer group is there before anything is pushed and no push is lost; the code creates the group at the end of the stream when the first worker starts |
| Progress.MovableIff | node-client/src/runner.rs:80-105 | In any state a row with all lower positions complete can be claimed, pushed or delivered exactly when it is pending, waiting to be pushed, or behind an unacknowledged entry at or past the start of the group |
| Progress.MissedRow | node-client/src/runner.rs:66-75 | A concrete run: one row is dispatched before the first worker starts, and no claim, push or delivery of its job is possible any more |
| Progress.ForgottenRow | orchestrator/src/task_manager.rs:89-114 | The same after one failed push |
| Progress.StaysLost | orchestrator/src/task_manager.rs:186-225 | A row that is claimed but neither reachable by a worker, nor held, nor within its retries stays so on every statement, asked-for results only |
| Progress.CanFinishIffNotDead | orchestrator/src/task_manager.rs:205-274 | In any reachable state some continuation without unasked-for results completes and closes a given job, if and only if it is not a dead end: all rows complete, not closed, nobody left to close it, or a row lost for good, that is claimed, out of every worker's and handler's sight and beyond `fail_task`'s help |
| Progress.EveryJobCanFinishIff | orchestrator/src/task_manager.rs:218-274 | No reachable state has a dead end if and only if failing a row for good and failing its job are one step, no handler ends with an error after its mark, the consumer group is there before anything is pushed and no push is lost |
| Progress.MissedForGood | node-client/src/runner.rs:66-75 | A concrete run in which a row uses up its retries before the first worker starts and is lost for good |
| Progress.FailedJobFinishes | orchestrator/src/task_manager.rs:218-274 | A reachable job marked failed that a late result completes and closes |
| Redelivery.AckableIffNotStranded | node-client/src/runner.rs:66-131 | An unacknowledged entry can still be acknowledged in some continuation if and only if it was pushed after the consumer group was created and is not stranded |
| Redelivery.StaysStranded | node-client/src/runner.rs:124-128 | A stranded entry stays stranded: redeliveries are rejected and rejections are not acknowledged |
| Redelivery.LostAckStrands | node-client/src/runner.rs:115-123 | A worker that dies between its answer and its ACK strands the entry unless another attempt on it is live |
| Redelivery.StrandedReachable | node-client/src/runner.rs:115-123 | A reachable state with a stranded entry |
| Redelivery.MissedForEver | node-client/src/runner.rs:66-75 | An entry pushed before the group was created is never acknowledged, whatever happens |
| Redelivery.MissedReachable | node-client/src/runner.rs:66-75 | A reachable state with such an entry |
| TaskManager.ReadyFrom | orchestrator/src/task_manager.rs:61-74 | Eligible unlocked rows in creation order up to the limit; a row passed over is later than all chosen ones and only passed over when the limit is used up |
| TaskManager.FiftyAtOnce | orchestrator/src/task_manager.rs:61-74 | Of the rows that may go out, the call takes all if they are at most 50, else exactly 50, each earlier than all it leaves |
| DispatchRefinement.BothCodersGo | orchestrator/src/task_manager.rs:61-74 | Once the planner of a Premium job is complete, one call with at most 50 rows to send takes both its coders |
| TaskManager.ClaimsAreARun | orchestrator/src/task_manager.rs:75-81 | One UPDATE of several rows is a run of single claims |
| TaskManager.TaskManager.constructor | orchestrator/migrations/001_initial.sql:33-97 | Empty tables satisfy every invariant |
| TaskManager.TaskManager.SubmitJob | orchestrator/src/routes/jobs.rs:101-160 | Adds the job and, for Standard, Planner, Coder and Summarizer at positions 0, 1, 2; for Paid, Planner, Coder and Critic at 0, 1, 2; for Premium, Planner, two Coders, Critic and Aggregator at 0, 1, 1, 2, 3, all pending and fresh; row by row this is a run, and undisturbed it leaves exactly what one insertion of everything would |
| JobPlans.EligibleByTier | orchestrator/src/task_manager.rs:61-70 | A Paid job's review may go out exactly when it is pending with planner and coder complete; a Premium job's two coders each exactly when pending with the planner complete, its review when both coders are, its aggregation after the review |
| JobPlans.PlanAsSubmitted | orchestrator/src/routes/jobs.rs:133-146 | The plan of each tier behind any rows of other jobs has the source's roles and positions in order, and nothing else of that job is there |
| JobPlans.SubmittedForGood | orchestrator/src/routes/jobs.rs:133-160 | No run changes the roles and positions of a job once inserted, or adds a row to it |
| TaskManager.TaskManager.DispatchReadyTasks | orchestrator/src/task_manager.rs:56-117 | Claims all eligible unlocked rows if there are at most 50 and the 50 earliest otherwise, and pushes each once in order until the first push that fails, which is its answer; changes nothing else, and is a run of the step system in which the rest of the batch is forgotten |
| TaskManager.TaskManager.JoinGroup | node-client/src/runner.rs:66-75 | A starting worker creates the group at the end of the stream unless it exists, and is a step |
| TaskManager.TaskManager.FailTask | orchestrator/src/task_manager.rs:180-238 | Any row, whatever its status, goes back to pending with one more retry below the maximum and is failed with its job otherwise; unknown tasks are an error; when the row may be failed it is the run of the read, the row update and the job update |
| TaskManager.TaskManager.LoadTask | orchestrator/src/routes/tasks.rs:70-84 | The double-submit guard |
| TaskManager.TaskManager.MarkComplete | orchestrator/src/routes/tasks.rs:100-119 | Stores the result and its tokens in the one row |
| TaskManager.TaskManager.ComputeShare | orchestrator/src/routes/tasks.rs:138-178 | The share is computed against the rows complete at this statement, all taken as Edge tier; `Credits.ScoreInNumbers` and `Credits.PlannerThenCoder` give its numbers |
| TaskManager.TaskManager.PersistReceipt | orchestrator/src/routes/tasks.rs:185-221 | Appends exactly one receipt for the task |
| TaskManager.TaskManager.FinalizeJobIfReady | orchestrator/src/task_manager.rs:241-277 | Run by one handler at a time, closes the job at the sum of its receipts exactly when all its rows are complete |
| TaskManager.TaskManager.SubmitTaskResult | orchestrator/src/routes/tasks.rs:51-227 | For any registered node and any task, handed to it or not: each rejection is given exactly in its case and changes no table; an accepted result is the run arrive, load, mark, credit, write, finalise |
| TaskManager.TaskManager.ProcessEntry | node-client/src/runner.rs:107-131 | One delivered entry: acknowledged exactly when its result was accepted |
| TaskManager.TaskManager.WorkerRound | node-client/src/runner.rs:113-131 | One round of claimed and fresh entries: the acknowledged ones are exactly those accepted at their turn, and the round is a run |
| Replay.SafeExactly | orchestrator/src/middleware/auth.rs:59-104 | No timestamp and nonce pair is accepted twice in any run if and only if the lifetime covers twice the window, the rounding of the millisecond clock and the delay between check and insert |
| Replay.SourceConstants | orchestrator/src/middleware/auth.rs:25 | 60 s for a 30 s window is exactly enough when the table keeps whole milliseconds and check and insert share an instant, and not otherwise |
| Replay.TooShortIsUnsafe | orchestrator/src/middleware/auth.rs:59-104 | A shorter lifetime has a concrete run that accepts one request twice |
| Replay.NonceHeldForLifetime | orchestrator/src/middleware/auth.rs:83-104 | A nonce is refused until its lifetime is over, also when one request is validated twice |
| Replay.NonceStore.AdminRequest | orchestrator/src/middleware/auth.rs:110-177 | A request that passes both layers of `/admin` is validated twice with one nonce and is never let through |
| Replay.InWindowExact | orchestrator/src/middleware/auth.rs:60-64 | The 64-bit check is the window, plus exactly one timestamp, 2^63 ms before now, whose distance overflows |
| Replay.NonceStore.ValidateAndConsume | orchestrator/src/middleware/auth.rs:49-107 | Each of the nine errors exactly in its case and in the code's order, a bad nonce being one that does not decode from hex to 32 bytes; a presentable request is the run check, time passing, insert of the system above, any other changes nothing |
| Replay.HexRoundTrip | node-client/src/runner.rs:169 | Decoding the worker's hex encoding of any bytes gives them back |
| Replay.DecodesExactly | orchestrator/src/middleware/auth.rs:67 | A string decodes exactly when its length is even and every character is one of the 22 hex digits |
| Replay.NonceFormatMeans | orchestrator/src/middleware/auth.rs:67 | The nonces accepted are exactly those that decode to 32 bytes, and the encoding of any 32 bytes is one |
| Replay.GenuinePresentable | orchestrator/src/middleware/auth.rs:49-82 | A signed request in time with all headers and the encoding of any 32 bytes as nonce gets past everything before the nonce table |
| Replay.NonceStore.NeverReplayed | orchestrator/src/middleware/auth.rs:83-104 | Whatever methods were called, nothing has been accepted twice if the lifetime is long enough |
| Replay.NonceStore.Tick | orchestrator/src/middleware/auth.rs:61 | Time passing is a step of the system |
| Replay.NonceStore.CleanupExpired | orchestrator/src/task_manager.rs:284-294 | Deletes exactly the strictly expired nonces, as a step of the system |
| Credits.BatchConservation | common/src/credits.rs:25-76 | Scored as one batch the shares are between 0 and the executor pool, at least half of it when anything is scored, exactly all of it for nodes past 100 jobs; the three parts are 7 : 2 : 1 and sum to the total |
| Credits.ScoreInNumbers | common/src/credits.rs:55-58 | While the two token counts sum below 2^32 the score is their sum times the role's weight and the tier's multiplier, each written out for all seven roles and four tiers |
| Credits.ScoreWraps | common/src/credits.rs:56 | Past 2^32 the sum of the counts starts again from zero |
| Credits.CountsExchange | common/src/credits.rs:25-58 | Exchanging input and output tokens, in the work paid for or in any work it is paid against, changes no share |
| Credits.OneMoreToken | common/src/credits.rs:55-58 | One more output token strictly raises the score |
| Credits.PlannerThenCoder | orchestrator/src/routes/tasks.rs:137-178 | Edge nodes past 100 jobs: a planner's result with any positive count of tokens is paid 0.70 of the budget, and the coder's after it that times 1.5 y / (2 x + 1.5 y) for x and y tokens |
| Credits.IncrementalTotal | orchestrator/src/routes/tasks.rs:137-178 | Completed one after another by nodes whose factors lie between lo and hi, the receipts total zero without a scored task, and otherwise between lo pools and hi pools for each scored task, more than lo as soon as a second one is scored |
| Credits.ReceiptsArePortion | orchestrator/src/routes/tasks.rs:137-178 | For any nodes and any list: the receipts total the pool times the sum of each node's factor times its task's part of the score so far |
| Credits.GrowthBounds | orchestrator/src/routes/tasks.rs:137-178 | The parts alone sum to the number of scored tasks if that is at most one, and lie strictly between one and it otherwise |
| Credits.OverpaidIff | orchestrator/src/routes/tasks.rs:137-178 | Nodes of one factor f overpay exactly when f times that sum exceeds one; for f above one with any scored task, at one with a second, below one never with 1/f tasks or fewer |
| Credits.NewNodesOverpayIff | common/src/credits.rs:44-52 | Nodes under 100 jobs of one tier: Pro and Cluster overpay exactly when a task is scored, Edge exactly when the sum exceeds 2, Nano when it exceeds 20 |
| Credits.ThreeTasksDecideNothing | common/src/credits.rs:44-52 | Three scored tasks of new Edge nodes that do not overpay and three that do |
| Credits.ReceiptBounds | orchestrator/src/routes/tasks.rs:137-178 | Each receipt of a job completed task by task is at least the final share and at most the node's factor x 0.70 x budget |
| Credits.ReceiptAgainst | orchestrator/src/routes/tasks.rs:137-178 | The upper bound against any list that counts the task itself |
| Credits.ShareShrinks | common/src/credits.rs:25-53 | A larger denominator never raises a share |
| Credits.ShareAgainstMore | common/src/credits.rs:25-53 | Work already in the list earns no more when the list grows, zero scores included |
| StreamReply.ReadGroupRoundTrip | node-client/src/runner.rs:281-316 | Extracting from an encoded XREADGROUP reply returns exactly its entries, in order, for any number of them, deleted ones skipped |
| StreamReply.AutoClaimRoundTrip | node-client/src/runner.rs:281-316 | The same for XAUTOCLAIM: cursor and deleted ids, even exactly two, add nothing |
| StreamReply.EntryExactly | node-client/src/runner.rs:285-301 | The walk takes a value for an entry if and only if Redis encodes some entry that way, further fields included, and reads that entry back |
| StreamReply.ExtractedIsPresent | node-client/src/runner.rs:284-310 | Whatever the reply, every extracted entry is an entry-shaped array somewhere in it |
| StreamReply.Extractor.Walk | node-client/src/runner.rs:284-310 | The recursive walk appends the flattening of its value |
| StreamReply.ExtractStreamEntries | node-client/src/runner.rs:281-316 | Flattens a list of values in order |

## Left out

- Replay.NonceStore.AdminRequest: no other request, clock tick beyond the two delays or cleanup comes between the two layers; whatever comes between them, `Replay.SafeExactly` says when both can accept.
- TaskManager.SubmitTaskResult: the method runs to its end; a handler that ends with an error after its mark is the step `Crash` of the system.
- TaskManager.ComputeShare: the read of the budget succeeds; when it fails the code pays zero.
- TaskManager.FinalizeJobIfReady: the read of the sum succeeds; when it fails the code records zero.
- TaskManager.SubmitJob: a row's prompt, minimum tier and agent index are not part of this model.
- TaskManager.DispatchReadyTasks: an XADD that reports an error has pushed nothing.
- Graph.Toposort: petgraph's depth-first sort is not part of this model; a sort that places sources one by one answers the same question.
- Dag.BuildDag: starts from the parsed plan and takes the fresh identifiers as a parameter.
- Credits.BatchConservation: exact reals, so floating-point rounding is not modelled; token sums wrap as `u32` does.
- StreamReply.ExtractStreamEntries: bulk strings are text already, so lossy UTF-8 decoding is not modelled, nor are the map and set values of RESP3.
- Replay.NonceStore.ValidateAndConsume: the verdict on the Ed25519 signature and the parsed timestamp are parameters.
- `complete_task`: it has no caller and repeats the marking and finalising of the result handler without a receipt.
- The output validator: its verdict is a parameter of the result handler.
- Reputation events and scores, node registration, heartbeat, bans, rate limiting and job listing: single-row updates and wrappers.
- Zeroising the map on drop, prompt encryption, receipt signatures, key storage, configuration, HTTP and database plumbing.
- The order in which PostgreSQL returns claimed rows, and ties in their creation time: rows are taken in creation order.

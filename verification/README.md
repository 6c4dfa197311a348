# EvoMesh: models and proofs

EvoMesh is a mesh of agents that plan, delegate work to each other, and improve their own
code. This project models the parts of it where a mistake would be hardest to see, and
proves what they promise:

- **Delegation admission** (`Admission.dfy`, `AdmissionOutcomes.dfy`, `AgentRuntime.dfy`): a
  work item becomes one goal, ever, although DELEGATE messages are replayed, transactions
  fail or are cancelled and run on, other saves overwrite the agent's row, goals are pruned
  and the process crashes; and what each way through an admission leaves behind.
- **The Evolver pipeline** (`Evolver.dfy`, `EvolverOutcomes.dfy`, `EvolverBehavior.dfy`):
  the persisted stage machine that proposes, validates, repairs, reviews and promotes a
  candidate. Promotions are earned in the run itself, a generation ends, and a candidate is
  promoted, parked or dropped exactly when it should be.
- **The mind** (`Goals.dfy`, `GoalGraph.dfy`, `GoalOutcomes.dfy`, `Mind.dfy`,
  `MindOutcomes.dfy`, `MindState.dfy`): the goal graph under pruning, belief revision, one
  commitment at a time, reconsideration.
- **The improvement backlog** (`Text.dfy`, `Backlog*.dfy`): a Markdown checklist edited in
  place line by line; every edit is proved to be an edit of the parsed list.
- **Cron** (`Calendar.dfy`, `CronFields.dfy`, `CronReading.dfy`, `Cron.dfy`): the five-field grammar of the
  crontab utility (INPUT FILES, IEEE Std 1003.1-2017) over the Gregorian calendar (section
  3.2.1 of ISO 8601:2004), the first match, and when the 1465-day search gives up.
- **The prompt** (`ContextBudget.dfy`, `PromptBudget.dfy`, `PromptContents.dfy`,
  `PromptText.dfy`, `PromptCut.dfy`): what stands where in it, how a task packet's
  characters are shared out, and when the final cut takes some away.
- **The settings file** (`Settings*.dfy`): the Control Center's YAML printer and reader,
  which undo each other, and what a hand-edited file makes of every setting.
- **Smaller machines**: the blackboard with its dumps (`Dictionaries.dfy`,
  `Blackboard.dfy`, `BlackboardOutcomes.dfy`), native-messaging frames (`Framing.dfy`), the deduplicating event bus
  (`EventBus.dfy`), and the award of work (`Sorting.dfy`, `ContractNet.dfy`,
  `ContractNetAward.dfy`).

Protocols are state machines over their steps, with theorems over every run. Beside each
stands a class that works as the source does, field by field and loop by loop, each method
proved to take exactly the machine's step or to compute exactly the specification's value.

`dafny verify dfyconfig.toml` checks the project.

## Where the code differs from what is said of it

- `clip` adds a 27-character mark on top of the lines it keeps, so a clipped section can
  exceed its budget, the final cut of the prompt can take text away, and the provenance
  records can then count more than the text holds and call a shortened section not
  truncated. `PromptText.CutTakesTheMark` gives such a packet for every budget from 33
  characters; `PromptCut.CutTakesNothingExactly` and `PromptCut.RecordsTellExactly` say,
  for every packet and budget, when the cut takes nothing and when the records are right.
- `GoalManager.create` validates closed goals as well as open ones, while pruning only
  spares what open goals name. A closed goal can be left naming a forgotten one, and then
  `create` refuses goals that have nothing to do with either, and the goals its pruning
  forgot stay gone: `GoalGraph.CreateRefusesExactlyWhenAClosedGoalDangles` is the exact
  condition on the list before the call, `GoalGraph.CreateRefusesAnUnrelatedGoal` a
  reachable case.
- `tick_step` closes the first item of its title once that one has no open step, which with
  two items of one title can be an item nobody worked on
  (`BacklogTexts.LandedClosesANamesake`; `BacklogTexts.LandedExactly` says exactly when it
  does what it should).
- `write_planned_steps` adds a newline after a line that ends in another line break, which
  reads as a blank line in the detail (`BacklogPlan.PlannedText` says exactly when it
  shows, `BacklogPlan.PlannedShowsTheBreak` gives a text).
- Provider and agent names in the settings file must be free of colons, and also trimmed
  and not start with `#`, to be read back (`SettingsLines.HeaderReadsExactly`).
- A list of allowed commands with a name in quotes, or a bracket at its ends, loses them
  when it is read back (`SettingsValues.QuotesAreLost`); exactly then, or when the
  objective is one of the two words for none, the settings file does not come back as it
  was (`SettingsRoundTrip.FileRoundTrip`).
- A schedule for 29 February alone is given up on from the last leap day before a century
  year that is none, such as 2100, up to 24 February of that year, although it would match
  later (`Cron.LeapDayExactly`, `Cron.GivesUpBefore2100`).

## Model

| member | source | states |
|---|---|---|
| `Admission.OneGoalPerWorkItem` | src/evomesh/agents.py:430-488 | over every run of replays, failed and cancelled transactions, overwriting saves, pruning and crashes, any two goals ever live, stored or on their way to the store for one work item have the one id its ledger entry records |
| `Admission.NeverTwoLive` | src/evomesh/agents.py:449-452 | in no reachable state does the live mind hold two goals for one work item |
| `Admission.AcceptIsDurable` | src/evomesh/agents.py:433-447 | once an ACCEPT was sent for an item, its ledger entry is there in every later state, crashes included |
| `Admission.OneExecutionKey` | src/evomesh/agents.py:521-570 | any two executions ever recorded for one work item have the same goal and occurrence |
| `Admission.StepKeeps` | src/evomesh/agents.py:430-577 | every event keeps the invariant, and ledger entries, id owners and answers are only ever added, never changed |
| `Admission.RunKeeps` | src/evomesh/agents.py:430-577 | the invariant holds in every state of a run, and every state extends the bookkeeping of the ones before |
| `Admission.TransactOk` | src/evomesh/storage.py:165-196 | a transaction that finds the entry changes nothing; one that does not writes entry and row together, and the row holds the goal the entry names |
| `Admission.FirstDelegation` | src/evomesh/agents.py:453-488 | undisturbed, a first delegation writes the entry and the row with the goal in one step, and resuming makes exactly that goal live and starts its save |
| `Admission.ReplayRecovers` | src/evomesh/agents.py:521-570 | undisturbed, a replay of an accepted item whose goal was lost writes nothing and brings a goal back exactly when the delegating operation still waits on this agent and the entry names a goal; it has the recorded id and the latest execution's occurrence, is already closed exactly when that execution ended, and no open goal is lost |
| `Admission.RebuiltFollows` | src/evomesh/agents.py:555-570 | a rebuilt goal is pending at occurrence 0 without executions, otherwise at the latest one's occurrence and done, failed or open as that one ended or runs |
| `Admission.RecoverOk` | src/evomesh/agents.py:521-570 | whatever recovery installs is registered for its item: the ledger names its id, and its occurrence is 0 |
| `Admission.ReplayAnswers` | src/evomesh/agents.py:474-485 | undisturbed, a replay answers ACCEPT when there is nothing to recover, refuses when a human must reconcile, and otherwise goes on with the recovered goal |
| `Admission.HolderKeeps` | src/evomesh/agents.py:468-473 | whatever happens to the admission that holds the lock -- commit, failure, cancellation, its save landing -- keeps the invariant |
| `Admission.DetachedKeeps` | src/evomesh/agents.py:572-577 | a cancelled admission's transaction that runs on, and its callback, keep the invariant |
| `Admission.OtherGoalKeeps` | src/evomesh/contracts.py:524-581 | goals added meanwhile by the agent itself, with the pruning they cause, keep the invariant |
| `Admission.SavesKeep` | src/evomesh/storage.py:114-116 | saves of the agent begun earlier and landing late, lost saves and crashes keep the invariant |
| `AgentRuntimes.Repository.AcceptWork` | src/evomesh/storage.py:165-196 | true exactly when the entry was absent, and then entry and row are both written; otherwise nothing is |
| `AgentRuntimes.AgentRuntime.Accept` | src/evomesh/agents.py:430-467 | the state after taking the lock is the admission step on the state before: answered at once if a live goal holds the item, else staged with a fresh id and waiting |
| `AgentRuntimes.AgentRuntime.Transact` | src/evomesh/agents.py:461-470 | the state after the transaction is the admission step: the goal is rendered into the row as the mind is at commit time |
| `AgentRuntimes.AgentRuntime.Cancel` | src/evomesh/agents.py:471-473 | the state after a cancellation is the admission step: the transaction runs on without the lock |
| `AgentRuntimes.AgentRuntime.RecoverAdmission` | src/evomesh/agents.py:521-570 | the loop over the stored executions returns the recovery the records call for |
| `AgentRuntimes.AgentRuntime.Resume` | src/evomesh/agents.py:471-487 | the state after the awaited result is the admission step for each outcome: committed, already there, failed, recovered |
| `AgentRuntimes.AgentRuntime.Saved` | src/evomesh/agents.py:485-488 | the state after the save is the admission step: the row holds the live mind and the ACCEPT goes out |
| `AgentRuntimes.AgentRuntime.InstallCommitted` | src/evomesh/agents.py:572-577 | the goal joins the live mind exactly when the detached transaction committed |
| `AdmissionOutcomes.SavedPutsGoalBack` | src/evomesh/agents.py:484-488 | in every state of a run: when the admission's own save lands, the stored row holds the goal of the work item whatever was saved over it meanwhile, the ACCEPT goes out, the lock is free, and nothing else changes |
| `AdmissionOutcomes.AnsweredOnlyWhen` | src/evomesh/agents.py:448-488 | an ACCEPT goes out only for a live item, when the admission's own save has landed, or when the entry exists and nothing waits for the goal |
| `AdmissionOutcomes.LiveItemIsAccepted` | src/evomesh/agents.py:448-449 | an item whose goal is live is accepted at once, and nothing else happens |
| `AdmissionOutcomes.NewItemIsAdmitted` | src/evomesh/agents.py:450-488 | undisturbed, a new item ends with its entry, the goal live and stored, no open goal lost, the lock free and the ACCEPT out |
| `AdmissionOutcomes.LostItemIsSettled` | src/evomesh/agents.py:475-488 | undisturbed, an accepted item whose goal was lost is accepted again with nothing done if nothing waits for it, not accepted if the entry names no goal, and else has a goal of the recorded id live and stored again and the ACCEPT out |
| `AdmissionOutcomes.FailedWriteChangesNothing` | src/evomesh/agents.py:472-474 | a transaction that fails leaves agent, row, ledger and answers as they were, and the lock free |
| `AdmissionOutcomes.CancelledRunsOn` | src/evomesh/agents.py:466-471 | cancelled while its transaction is under way, the admission answers nothing and frees the lock; when the transaction commits, the goal is stored with its entry and joins the live mind |
| `AdmissionOutcomes.CancelledAndFailed` | src/evomesh/agents.py:572-577 | if that transaction fails instead, nothing of the admission is left |
| `AdmissionOutcomes.CancelledAfterCommit` | src/evomesh/agents.py:572-577 | cancelled after the commit, the goal still joins the live mind |
| `AdmissionOutcomes.CancelledLater` | src/evomesh/agents.py:475-488 | cancelled with recovered records in hand it has installed nothing; cancelled during its own save it has answered nothing, and the save under way holds the goal |
| `AdmissionOutcomes.CommittedSurvivesCrash` | src/evomesh/agents.py:433-438 | after a crash right behind the transaction the restarted agent holds the goal, and a replay is accepted without a second one |
| `AdmissionOutcomes.CrashForgets` | src/evomesh/agents.py:433-438 | a crash makes the live list the stored row, frees lock and saves, and leaves the store as it is |
| `AdmissionOutcomes.SaveWritesWhatItBeganWith` | src/evomesh/storage.py:114-116 | a save writes the list as it was when it began, however late it lands |
| `AdmissionOutcomes.StartsOnce` | src/evomesh/agents.py:548-563 | an open goal has at most one running execution of its occurrence started |
| `Evolver.PromotionIsEarned` | src/evomesh/behaviors.py:1972-2070 | in every run, a step that promotes does so under the policy, never a preview, and earlier in the run a passing validation ended with the candidate unchanged since; with review on, a COMPLETE verdict or a review that met no harness came with no change since |
| `Evolver.PromotesOnlyCleared` | src/evomesh/behaviors.py:1972-2001 | a promoting step is a report or a retried promotion, under the policy, on a candidate validated and cleared as it stands |
| `Evolver.PromotesOnReport` | src/evomesh/behaviors.py:2033-2070 | whatever the state, promotion needs the policy, a recorded pass, and the report stage (not of a preview) or a parked retry |
| `Evolver.StepKeeps` | src/evomesh/behaviors.py:664-780 | every input in every stage keeps the pipeline invariant: budgets, what review and report presuppose, what the running suite was started on |
| `Evolver.RunKeeps` | src/evomesh/behaviors.py:664-780 | the pipeline invariant holds in every state of every run |
| `Evolver.MarksMean` | src/evomesh/behaviors.py:1616-1907 | a candidate marked validated or reviewed as it stands was validated or reviewed at some step of the run with nothing written since |
| `Evolver.MarksMove` | src/evomesh/behaviors.py:1237-1940 | a mark on the present content is old with nothing touched, or was set by this very step |
| `Evolver.MovingStepsDescend` | src/evomesh/behaviors.py:1616-1940 | every moving step up to the report, a linter-only repair apart, lowers (model repairs left, stage, review attempts left) lexicographically; a model repair always fits the budget |
| `Evolver.GenerationsEnd` | src/evomesh/behaviors.py:1616-1940 | from opening, a generation takes at most 9 * max_repairs + 14 moving steps, plus nine for every linter repair |
| `Evolver.EqualFailuresStop` | src/evomesh/behaviors.py:1638-1665 | a failed validation with the fingerprint of the one before it in the same stretch of work leads to the report, not to another repair |
| `Evolver.DecideKeeps` | src/evomesh/behaviors.py:2033-2125 | acting on a verdict keeps the invariant, whatever the tree makes of the promotion |
| `Evolver.NothingKeeps` | src/evomesh/behaviors.py:1943-1970 | finding nothing to validate keeps the invariant |
| `Evolver.NothingToValidate` | src/evomesh/behaviors.py:1943-1970 | a candidate with nothing to validate reaches the report or the plan stage, is never promoted and keeps its marks |
| `Evolver.Decide` | src/evomesh/behaviors.py:2033-2125 | a decision ends in the plan stage or parked for a human, and leaves the candidate and its marks as they were |
| `EvolverOutcomes.PromotesExactly` | src/evomesh/behaviors.py:2033-2112 | in every state and for every input, the step appends exactly one promotion -- of this candidate as it stands -- if and only if it decides a report or a parked retry under the policy, the verdict is a pass, the landing succeeds, and neither a test-only pick is known to have changed source nor a source pick known not to have |
| `EvolverOutcomes.ParksExactly` | src/evomesh/behaviors.py:2076-2126 | deciding, the candidate is parked with its verdict exactly when it passes and only human work is in the way; else the pipeline is free and nothing of the candidate is left in it |
| `EvolverOutcomes.ReportsOtherwise` | src/evomesh/behaviors.py:1972-2031 | a report that decides nothing drops a preview, and leaves anything else for a human without parking it |
| `EvolverOutcomes.ProposalOutcomes` | src/evomesh/behaviors.py:1237-1416 | what each outcome of the proposing job makes of stage, content and verdict |
| `EvolverOutcomes.OpensFresh` | src/evomesh/behaviors.py:929-1004 | opening starts a candidate with no mark, verdict or budget of the one before |
| `EvolverOutcomes.StartsOneSuite` | src/evomesh/behaviors.py:1616-1637 | a suite is started once for the candidate and then waited for |
| `EvolverOutcomes.ValidationDecides` | src/evomesh/behaviors.py:1638-1705 | a failed validation is repaired if and only if the machine is not to blame, its fingerprint is not the one before, and a repair of the model's or a free one of the linter's is left; a pass goes to review if that is on; all else is reported |
| `EvolverOutcomes.ReviewDecides` | src/evomesh/behaviors.py:1812-1940 | for each review outcome, exactly when the candidate goes to the report passing or failing, to repair, or to another review |
| `EvolverOutcomes.RepairOutcomes` | src/evomesh/behaviors.py:1723-1810 | a repair that changed the candidate goes back to validation, the model's at the cost of one repair and the linter's free; one that leaves nothing ends without a verdict |
| `EvolverOutcomes.OutsideOutcomes` | src/evomesh/behaviors.py:712-760 | a stage that raises goes to plan, a decision by hand forgets the candidate, a restart loses only the running suite |
| `EvolverOutcomes.RepairedWorkLands` | src/evomesh/behaviors.py:1616-2112 | from validation, any number of distinct failures within the repair budget, each repaired, then a pass, COMPLETE and a landing, promote the candidate exactly once, reviewed as it stands |
| `EvolverOutcomes.GoodWorkLands` | src/evomesh/behaviors.py:929-2112 | the same for a whole generation from opening on |
| `EvolverBehaviors.EvolverBehavior.Open` | src/evomesh/behaviors.py:929-1004 | opening takes the step of the machine: a fresh candidate in the propose stage, nothing kept of the one before |
| `EvolverBehaviors.EvolverBehavior.ResetPipeline` | src/evomesh/evolution.py:1770-1771 | everything of the pipeline state but its history is forgotten |
| `EvolverBehaviors.EvolverBehavior.DecideCandidate` | src/evomesh/behaviors.py:2033-2126 | the pick may overrule a pass; a promotion lands, is discarded or parks exactly as the machine says |
| `EvolverBehaviors.EvolverBehavior.DiscardNoOp` | src/evomesh/behaviors.py:1943-1970 | no verdict is left, and under the policy the candidate is discarded |
| `EvolverBehaviors.EvolverBehavior.ThroughHarness` | src/evomesh/behaviors.py:1419-1614 | each outcome of a polled job -- off, open, changed, nothing -- moves stage, content and budget as the machine says |
| `EvolverBehaviors.EvolverBehavior.ProposeStage` | src/evomesh/behaviors.py:1237-1416 | the propose stage takes the machine's step for every outcome of its job |
| `EvolverBehaviors.EvolverBehavior.ApplyApprovedPatch` | src/evomesh/behaviors.py:1328-1358 | an approved patch takes the machine's step: changed, and on to validation |
| `EvolverBehaviors.EvolverBehavior.ValidateStage` | src/evomesh/behaviors.py:1616-1705 | beginning, polling and ending a validation take the machine's steps: stalls, blockers, budget and the linter exception decide the next stage |
| `EvolverBehaviors.EvolverBehavior.RepairStage` | src/evomesh/behaviors.py:1723-1810 | repairing takes the machine's step for what there is to repair: nothing, the linter's, or the model's |
| `EvolverBehaviors.EvolverBehavior.ReviewStage` | src/evomesh/behaviors.py:1812-1940 | every review outcome takes the machine's step |
| `EvolverBehaviors.EvolverBehavior.ReportStage` | src/evomesh/behaviors.py:1972-2031 | the report files a preview, decides under the policy, or waits for a human |
| `EvolverBehaviors.EvolverBehavior.RetryStage` | src/evomesh/behaviors.py:685-699 | a parked promotion is decided again exactly when it was parked with a verdict under the policy |
| `EvolverBehaviors.EvolverBehavior.FailStage` | src/evomesh/behaviors.py:715-720 | a stage that raises goes back to plan |
| `EvolverBehaviors.EvolverBehavior.EveryPromotionWasEarned` | src/evomesh/behaviors.py:1972-2070 | over the recorded history of the object, every promotion was earned |
| `GoalGraph.EveryRunKeepsTheGraph` | src/evomesh/contracts.py:524-610 | after any sequence of allowed operations, `create` and its rollback among them: ids unique, every dependency, parent and child of an open goal present, and no goal before one it depends on -- except that a closed goal may depend on a later goal that itself depends on nothing, one that came back after it was pruned |
| `GoalGraph.NoDependencyCycle` | src/evomesh/contracts.py:540-548 | in no reachable goal list does a goal depend on itself through any chain |
| `GoalGraph.PruningForgetsOnlyOldClosedGoals` | src/evomesh/contracts.py:592-610 | pruning drops only closed goals, unreferenced by open ones, outside the newest 30 closed, and changes no other |
| `GoalGraph.CreateRefusesExactlyWhenAClosedGoalDangles` | src/evomesh/goal_manager.py:162-172 | on the list before the call: `create` rolls back a goal `add_goal` took if and only if, the new goal appended and its parent told, some closed goal that pruning keeps names a goal that is not there or is forgotten; the rollback leaves the list without the new goal and the child link, and without the goals the pruning forgot |
| `GoalGraph.CreateRefusesAnUnrelatedGoal` | src/evomesh/goal_manager.py:239-250 | there is a reachable mind in which `create` refuses a goal without relations |
| `GoalGraph.CreateKeeps` | src/evomesh/goal_manager.py:162-174 | creating a goal, kept or rolled back, keeps the graph |
| `GoalGraph.UndoneIs` | src/evomesh/goal_manager.py:166-171 | rolling back after a pruning gives exactly the old list less what was forgotten, whoever the parent was |
| `GoalGraph.AddKeeps` | src/evomesh/contracts.py:524-581 | adding a goal, with the child link and the pruning, keeps the graph |
| `GoalGraph.AdoptKeeps` | src/evomesh/contracts.py:583-590 | adopting a delegated goal keeps the graph |
| `GoalGraph.SetStatusKeeps` | src/evomesh/contracts.py:60-80 | moving a goal that is not closed keeps the graph |
| `GoalGraph.PruneKeepsGraph` | src/evomesh/contracts.py:592-610 | pruning keeps the graph |
| `Goals.PrunedFacts` | src/evomesh/contracts.py:592-610 | pruning keeps ids unique, dependencies backward and every open goal, and forgets only closed goals no open one names |
| `Goals.PrunedKeepsOrder` | src/evomesh/contracts.py:610-610 | the goals pruning keeps stay in the order they had |
| `Goals.NewestAreKept` | src/evomesh/contracts.py:592-610 | the newest 30 closed goals survive pruning |
| `Goals.ForgottenAreClosed` | src/evomesh/contracts.py:598-608 | every forgotten id is a closed goal's, and no open goal names it |
| `Goals.AdoptedFacts` | src/evomesh/contracts.py:583-590 | adopting keeps unique ids, all open goals and the adopted one |
| `GoalOutcomes.PrunedExactly` | src/evomesh/contracts.py:592-610 | for every place in the list: its goal is forgotten if and only if it is done, failed or cancelled, at least thirty such goals come after it, and no goal that is not closed has it as dependency, child or parent |
| `GoalOutcomes.AddIs` | src/evomesh/contracts.py:524-581 | adding is refused exactly for a missing parent, or else a missing dependency; otherwise the new pending goal comes last with the relations given, its parent has it as one more child, no other goal changes, and the list is pruned |
| `GoalOutcomes.AdoptIs` | src/evomesh/contracts.py:583-590 | adopting a goal whose id is there changes nothing; any other comes last, and the list is pruned |
| `GoalOutcomes.MoveIs` | src/evomesh/goal_manager.py:196-203 | moving a goal changes its status and nothing else in the list |
| `MindStates.MindState.PruneClosedGoals` | src/evomesh/contracts.py:592-610 | the list becomes its pruned form |
| `MindStates.MindState.AdoptGoal` | src/evomesh/contracts.py:583-590 | the list becomes the adopted and pruned one |
| `MindStates.MindState.AddGoal` | src/evomesh/contracts.py:524-581 | refused with the list unchanged for an unknown parent or dependency; otherwise the list of the added goal, its parent's link and the pruning |
| `MindStates.MindState.Revise` | src/evomesh/contracts.py:621-650 | beliefs and report are the fold of the percepts, trimmed |
| `MindStates.MindState.Commit` | src/evomesh/contracts.py:670-691 | at most one intention is active and it is the committed one, last |
| `MindStates.MindState.CurrentIntention` | src/evomesh/contracts.py:664-668 | the active intention, if there is one |
| `MindStates.GoalManager.Create` | src/evomesh/goal_manager.py:162-174 | the goal added and kept, or the list rolled back, or nothing changed where `add_goal` refuses, as the model says |
| `MindStates.GoalManager.ValidateGraph` | src/evomesh/goal_manager.py:239-252 | true exactly when every reference of every goal, closed ones included, resolves |
| `Mind.RevisedFacts` | src/evomesh/contracts.py:621-650 | after a revision keys are unique, the bound holds, every key newly held or restated is reported, and `added` is exactly the perceived keys not held before |
| `Mind.TrimmedFacts` | src/evomesh/contracts.py:646-650 | trimming drops nothing confirmed more recently than what it keeps |
| `Mind.FoldedFacts` | src/evomesh/contracts.py:629-645 | folding keeps unique keys and reports every key that says something new |
| `Mind.UnreportedHeld` | src/evomesh/contracts.py:629-645 | whatever was perceived of a key the revision does not report was held before the first percept |
| `Mind.CommitKeepsOne` | src/evomesh/contracts.py:670-691 | after a commitment only the last intention is active |
| `Mind.KeptMeansUntouched` | src/evomesh/bdi.py:468-493 | a cycle that keeps its intention is one in which the plan has a step left, the goal is open, and every percept on a context key of the plan said what was held before the first of them, so none added or restated a belief there, not even for a moment |
| `MindOutcomes.RevisedTells` | src/evomesh/contracts.py:621-650 | every belief kept by a revision is the one held if no percept says anything of its key, and otherwise says what the last such percept says, confirmed just then, or is that percept itself if nothing was said or held before |
| `MindOutcomes.ReportedRestated` | src/evomesh/contracts.py:629-645 | a key is reported as restated if and only if some percept says something other of it than is held by then; confirming a belief reports nothing |
| `MindOutcomes.ReportedInOrder` | src/evomesh/contracts.py:627-645 | keys are reported in the order of the percepts, each percept adding at most its own to one of the two lists |
| `MindOutcomes.TrimmedIs` | src/evomesh/contracts.py:646-649 | past the bound exactly the bound's number of beliefs stays, the longest unconfirmed first -- or all, for a bound of zero |
| `MindOutcomes.CommitIs` | src/evomesh/contracts.py:670-691 | the commitment stands last; of the earlier ones the latest stay in order, up to the bound, and the one that was running is dropped |
| `MindOutcomes.ReconsidersFor` | src/evomesh/bdi.py:468-493 | for each reason to deliberate anew exactly when it is given, and the intention is kept if and only if there is none |
| `BacklogFiles.BacklogFile.OpenImprovements` | src/evomesh/codebase.py:789-816 | the loop returns the listed items of the file, none without a file |
| `BacklogFiles.BacklogFile.TickImprovement` | src/evomesh/codebase.py:881-893 | true exactly when an item of the title is listed; then it leaves the list and its line is the only one changed, otherwise nothing is |
| `BacklogFiles.BacklogFile.TickStep` | src/evomesh/codebase.py:896-919 | true exactly when some item of the title has the step open; then the list has the step ticked and the title's first item closed if nothing is open in it, and no other line changed |
| `BacklogFiles.BacklogFile.DropImprovements` | src/evomesh/codebase.py:1420-1435 | exactly the named items are gone from the list, and the lines kept are as they were |
| `BacklogFiles.BacklogFile.WritePlannedSteps` | src/evomesh/codebase.py:1967-1987 | lines are written exactly when there are steps and a listed item of the title; they stand after the item's first paragraph |
| `BacklogFiles.BacklogFile.AppendItem` | src/evomesh/codebase.py:1990-2003 | for a plain item the list is the old one with exactly that item added |
| `BacklogFiles.TickDistinctStep` | src/evomesh/codebase.py:896-919 | with distinct open titles exactly that step of exactly that item is ticked, and the item leaves the list if that was its last open step |
| `BacklogFiles.ProseEnd` | src/evomesh/codebase.py:1976-1981 | the loop ends past the item's line and the paragraph under it |
| `BacklogFiles.PlannedIsListed` | src/evomesh/codebase.py:1967-1987 | planned steps written under a listed stepless item are read back as its steps, no other item changing, if and only if no line break other than a newline stands between its first paragraph and later text of it |
| `BacklogPlan.PlannedText` | src/evomesh/codebase.py:1967-1987 | the same on the lines: the anchor line ends in a newline or nothing, or is the item's own, or only blank lines of the item follow |
| `BacklogPlan.PlannedShowsTheBreak` | src/evomesh/codebase.py:1979-1983 | an item whose detail has a line ended by a form feed, then a blank line and more: planned steps come back, and a blank line with them |
| `BacklogPlan.BlankBetween` | src/evomesh/codebase.py:769-786 | a blank line between paragraph and rest shows in the parsed detail exactly when there is text on both sides |
| `BacklogAppend.AppendRoundTrip` | src/evomesh/codebase.py:1990-2003 | for trimmed title and detail lines, no blank or step-shaped detail line and open steps, parsing after appending gives the earlier items and then exactly that item, whatever the old text ended with |
| `BacklogAppend.BlankAtEnd` | src/evomesh/codebase.py:789-816 | a blank line at the end of the file never changes what is listed |
| `BacklogAppend.ItemLinesRead` | src/evomesh/codebase.py:1996-2000 | the lines written for a plain item list exactly that item |
| `BacklogEdits.PlanAddsSteps` | src/evomesh/codebase.py:1967-1987 | on lines, planned steps are given to the first item of the title and change nothing else of the list |
| `BacklogEdits.DropDrops` | src/evomesh/codebase.py:1420-1435 | on lines, dropping keeps exactly the items not named |
| `BacklogEdits.SameItems` | src/evomesh/codebase.py:703-724 | trailing white space never changes what lines list |
| `BacklogSteps.TickStepTicks` | src/evomesh/codebase.py:896-912 | the search finds a line exactly when some item of the title has the step open, and ticking it ticks that step in the list and nothing else |
| `BacklogSteps.TickedStepsFacts` | src/evomesh/codebase.py:896-912 | ticking changes only a step of that number, only from open to done |
| `BacklogTexts.LandedDistinct` | src/evomesh/codebase.py:896-919 | with distinct titles a landed step is that step ticked, the item gone if it was the last |
| `BacklogTexts.LandedExactly` | src/evomesh/codebase.py:896-919 | for every list: landing a step is that step of the item worked on ticked, and that item gone if it was the last, if and only if that item is the first of its title, or both it and the first have open steps left, or both have none and all from the first to it are alike |
| `BacklogTexts.LandedClosesANamesake` | src/evomesh/codebase.py:914-918 | after appending a stepless item and one of the same title with two open steps to an empty file, ticking step 1 ticks it in the second item and removes the first from the list |
| `BacklogTexts.StepLandedKeepsLines` | src/evomesh/codebase.py:896-919 | landing a step changes no line but the step's, and the line of the title's first item if that item is finished |
| `BacklogTexts.StepLandedText` | src/evomesh/codebase.py:896-919 | splitting the written text gives the edited lines, and it lists the landed list |
| `BacklogTexts.ItemTickedText` | src/evomesh/codebase.py:881-893 | the same for a ticked item |
| `BacklogTexts.DroppedText` | src/evomesh/codebase.py:1420-1435 | the same for dropped items |
| `Backlog.TickItemCloses` | src/evomesh/codebase.py:881-893 | ticking the line that opens an item removes exactly that item from the list |
| `Backlog.ItemsAppend` | src/evomesh/codebase.py:789-816 | parsing splits at every line that continues nothing |
| `Backlog.ListedIffOpened` | src/evomesh/codebase.py:789-816 | a title is listed exactly when a line opens it |
| `BacklogLines.StepRoundTrip` | src/evomesh/codebase.py:1963-1964 | a printed step is read back as that step |
| `BacklogLines.TickedStepIsDone` | src/evomesh/codebase.py:905-912 | the first `[ ]` of an open step is its own box: ticking marks exactly it done, one blank becoming an x |
| `BacklogLines.TickedItemIsDone` | src/evomesh/codebase.py:886-891 | the first `- [ ] ` of an open item is its own box: ticking makes it a done item |
| `BacklogLines.StepContinues` | src/evomesh/codebase.py:760-766 | a step line is no item, and continues the item above it when indented |
| `BacklogLines.StepLineIsOneLine` | src/evomesh/codebase.py:1963-1964 | a printed step is one line |
| `BacklogShapes.StepReads` | src/evomesh/codebase.py:715-722 | a step is read, part for part, from every line with any indentation, number, gaps and mark, the path with or without backticks, a name or class and method in backticks, and any of the five separators or none |
| `BacklogShapes.OpenExactly` | src/evomesh/codebase.py:703-703 | a line is an open item of a title if and only if it is up to three blanks, the empty box, the trimmed title, and space to the end |
| `BacklogShapes.DoneExactly` | src/evomesh/codebase.py:1070-1070 | the same for done items, ticked with an x of either case or struck with a dash |
| `BacklogShapes.ContinuesExactly` | src/evomesh/codebase.py:760-766 | a line continues the item above it if and only if it is no item of its own, and blank or indented |
| `Text.SplitJoined` | src/evomesh/codebase.py:887-893 | joining well-formed lines and splitting again gives the lines back |
| `Text.KeepLinesWellLined` | src/evomesh/codebase.py:886-892 | splitting loses nothing and breaks only at line ends |
| `Cron.NextAfter` | src/evomesh/cron.py:108-130 | it raises exactly on an expression that does not parse, or one whose day of week is wild, whose day of month is restricted to days common years do not have, and which does not select 29 February or is asked in the gap before a century year that is no leap year; otherwise the result is strictly after the clock, has its month, hour and minute selected and its day by a restricted day field if there is one, and no such minute lies between |
| `Cron.Search` | src/evomesh/cron.py:112-130 | the search over 1465 days finds the first match, or there is none on any of them |
| `Cron.GivesUpExactly` | src/evomesh/cron.py:15-15 | the search gives up if and only if day of week is wild, day of month restricted, no selected month has a selected day in common years, and 29 February is not selected or the clock is in the gap before a century year that is no leap year |
| `Cron.LeapDayExactly` | src/evomesh/cron.py:15-15 | the dates from which 29 February is not found: after the last selected time of the leap day four years before a century year that is no leap year, up to 24 February of that year -- these and no others |
| `Cron.LeapDayFound` | src/evomesh/cron.py:15-15 | a schedule that selects 29 February always finds one unless a century year that is no leap year is within four years |
| `Cron.GivesUpBefore2100` | src/evomesh/cron.py:15-15 | `0 0 29 2 *`, parsed, is given up on from every clock from 1 March 2096 to 24 February 2100, and matches midnight of 29 February 2104 |
| `Cron.FirstLeft` | src/evomesh/cron.py:125-128 | on the first day the times up to now are skipped, and no others |
| `Cron.Times` | src/evomesh/cron.py:112-115 | the times of day are exactly the selected ones, in strictly rising order |
| `Cron.MatchesExactly` | src/evomesh/cron.py:92-105 | a moment matches if and only if its month, hour and minute are selected and so is its day: by either of two restricted day fields, by the one that is restricted, or because neither is |
| `CronFields.ParseField` | src/evomesh/cron.py:34-73 | the loop returns the union of its parts' values, or fails with the first bad part |
| `CronFields.ParseExpression` | src/evomesh/cron.py:76-89 | the five fields parsed, or a failure for any of them or their number |
| `CronFields.ParsedIsSchedule` | src/evomesh/cron.py:34-89 | every expression that parses selects something in every field, all in range, Sunday as 0 |
| `CronFields.ExpressionPrinted` | src/evomesh/cron.py:76-89 | a printed expression parses to exactly what its fields mean, wild exactly for the bare star |
| `CronFields.FieldPrinted` | src/evomesh/cron.py:34-73 | a printed field of ranges, values and steps parses to exactly the values they mean |
| `CronReading.PartReads` | src/evomesh/cron.py:38-73 | a part that says a star, a range or a value -- in digits, or a month or weekday name in any letter case -- with or without a step parses if and only if it is in range, and then to exactly the values meant |
| `CronReading.PartSays` | src/evomesh/cron.py:38-73 | every part that parses says one of these |
| `CronReading.FieldReads` | src/evomesh/cron.py:34-73 | a field parses if and only if every one of its parts says something in range, and then to exactly the values some part means |
| `CronReading.NamesSaid` | src/evomesh/cron.py:20-27 | a month or weekday name stands for its number exactly when it is one of the names, in any letter case |
| `CronReading.SundayTwice` | src/evomesh/cron.py:87-89 | the weekdays selected are those of the field, Sunday under either of its numbers |
| `Calendar.ReachedByCounting` | src/evomesh/cron.py:118-119 | every later date is reached by counting days one by one |
| `Calendar.NextDayCounts` | src/evomesh/cron.py:118-119 | the calendar's next day is the next day number, over month, year and leap ends |
| `Calendar.OrdinalInjective` | src/evomesh/cron.py:118-119 | no two dates share a day number |
| `Calendar.WeekdayInMonth` | src/evomesh/cron.py:92-105 | every weekday falls on one of the first seven days of every month |
| `Calendar.LeapDayAhead` | src/evomesh/cron.py:15-15 | without a common century year near, a leap day lies one to 1461 days ahead of any date |
| `Calendar.MonthLengths` | src/evomesh/cron.py:118-119 | every month has its length, and the leap years are those of the Gregorian rule |
| `Calendar.KnownDates` | src/evomesh/cron.py:96-96 | 1 January of year 1 is day 1, and 1 January 1970 was a Thursday |
| `Calendar.WeekdaysGoRound` | src/evomesh/cron.py:96-96 | the weekday of every next day is the next one, Saturday followed by Sunday as 0 |
| `PromptText.ContextAssembler.Assemble` | src/evomesh/cognitive_services.py:256-333 | the loops return the cut text and the provenance of the allocations; where everything fits the text is every given field in order behind its heading, word for word |
| `PromptText.ContextAssembler.HandOut` | src/evomesh/cognitive_services.py:269-303 | the loop over sections hands out and takes from the remainder as the rule says |
| `PromptContents.WholePrompt` | src/evomesh/cognitive_services.py:256-332 | where the whole text is within the budget and every optional field within its share, the prompt is exactly the given fields in the printed order, each behind its own heading, word for word |
| `PromptContents.TextIs` | src/evomesh/cognitive_services.py:302-332 | for every packet and budget, the text before the cut is, field by field in the printed order, the heading and the clip of exactly that field to the rest of its grant, for the fields that are given and granted something |
| `PromptContents.StackedBehind` | src/evomesh/cognitive_services.py:332-332 | an empty line stands between two sections and nowhere else |
| `PromptContents.GrantedIs` | src/evomesh/cognitive_services.py:262-303 | what each of the twelve fields is granted, of what the fields before it left: a required one all it needs if the three fit together, or else its heading and share; an optional one nothing where no more than its heading is left, or else its heading and share -- shares to the nearest character |
| `PromptContents.OptionalIs` | src/evomesh/cognitive_services.py:287-301 | the optional fields are granted theirs in the order intention, working, beliefs, artifacts, recent failure, notes, world, memory, inbox |
| `PromptContents.LeastImportantGoFirst` | src/evomesh/cognitive_services.py:287-301 | behind an optional section that is dropped only one with a shorter heading still finds room, and behind one that had to make do with what was left none does |
| `PromptContents.SpecIs` | src/evomesh/cognitive_services.py:141-215 | each section has the heading, share and requirement of its own field, and is there exactly when the field is not empty |
| `PromptContents.ClipKeeps` | src/evomesh/memory.py:52-69 | a clip is the text if it fits, or as many leading lines as fit and the mark, or the beginning of the text where not even its first line fits |
| `PromptCut.CutTakesNothingExactly` | src/evomesh/cognitive_services.py:332-332 | for every packet and every budget: the final cut takes nothing away if and only if what printed sections overrun their allocations by is at most what others leave of theirs, what was never handed out, and the separators reserved for sections not printed |
| `PromptCut.RecordsTellExactly` | src/evomesh/cognitive_services.py:309-333 | for every packet and every budget: each provenance record counts what the cut text holds of its section, and says truncated exactly when that is not the whole content, if and only if the cut comes after the last content and no mark is as long as the lines it stands for |
| `PromptCut.HeldIs` | src/evomesh/cognitive_services.py:309-333 | what the cut text holds of a section is its selected content if that ends before the cut, and less than it otherwise |
| `PromptText.CutIsNoOp` | src/evomesh/cognitive_services.py:332-332 | a special case: from 150 characters on, or when the required sections fit together, clips that all keep to their allocations are enough for the cut to take nothing |
| `PromptText.CutTakesTheMark` | src/evomesh/cognitive_services.py:256-333 | for every budget from 33 characters there is a packet whose text is 27 characters too long, so the cut takes them, while provenance counts 43 characters of a 40-character section as included and not truncated |
| `PromptText.TextExceedsByMarks` | src/evomesh/cognitive_services.py:332-332 | the uncut text exceeds the budget by at most one mark for each section |
| `PromptText.UncutLength` | src/evomesh/cognitive_services.py:309-332 | the text is as long as labels, selected contents and separators add up to |
| `PromptText.ProvenanceCounts` | src/evomesh/cognitive_services.py:318-331 | one record for each section in output order, counting what was selected of what was there |
| `PromptText.SharesFailAt149` | src/evomesh/cognitive_services.py:279-290 | 150 is exact: with 149 characters and every section present, the required ones do not all get label and share |
| `PromptText.LabelsAlwaysFit` | src/evomesh/cognitive_services.py:269-303 | from 150 characters on every allocation is nothing or covers the label |
| `PromptBudget.AllocationsFit` | src/evomesh/cognitive_services.py:256-303 | allocations and what remains add up to exactly the budget less the separators, and nothing negative remains |
| `PromptBudget.RequiredVerbatim` | src/evomesh/cognitive_services.py:269-278 | required sections are verbatim when they fit together |
| `PromptBudget.RequiredShares` | src/evomesh/cognitive_services.py:279-290 | otherwise, from 150 characters on, each is allocated its label and the smaller of its length and its share, at least 24 |
| `PromptBudget.SharesExactly` | src/evomesh/cognitive_services.py:279-290 | every required section gets label and share if and only if they fit together |
| `PromptBudget.RequiredFitAsShares` | src/evomesh/cognitive_services.py:279-290 | from 150 characters on the required sections of any packet, each cut down to its label and share, fit together beside the separators |
| `PromptBudget.SortedOrders` | src/evomesh/cognitive_services.py:266-309 | sections are handed out, and printed, in the order of their keys |
| `PromptBudget.SumSorted` | src/evomesh/cognitive_services.py:266-309 | sorting changes neither what is there nor what it adds up to |
| `ContextBudget.SpecsDistinct` | src/evomesh/cognitive_services.py:141-215 | no source appears twice among the sections, and there are at most twelve |
| `ContextBudget.ClipHead` | src/evomesh/memory.py:52-69 | the loop returns the clipped text |
| `ContextBudget.ClipFitsExactly` | src/evomesh/memory.py:52-69 | a clip keeps to its budget exactly when the text fits, not even its first line does, or the lines kept leave room for the mark |
| `ContextBudget.ClipExceedsByMark` | src/evomesh/memory.py:52-69 | a clip never exceeds its budget by more than the mark |
| `ContextBudget.KeptIsLongest` | src/evomesh/memory.py:60-66 | the lines kept are the longest run of leading lines that fits |
| `SettingsRoundTrip.FileRoundTrip` | desktop/EvoMesh.Desktop/EvoMeshYamlSettings.cs:105-396 | loading the saved text gives every setting as it is read back; that is the settings normalised, and saving them writes the same text again, if and only if the objective is no word for none and the list of allowed commands has no quoted name and no bracket at its ends |
| `SettingsRoundTrip.LoadSaved` | desktop/EvoMesh.Desktop/EvoMeshYamlSettings.cs:105-396 | on lines: every scalar, agent, provider and tag comes back, each scalar as reading gives it, a key ref dropping the literal key |
| `SettingsRoundTrip.SavedAgain` | desktop/EvoMesh.Desktop/EvoMeshYamlSettings.cs:296-396 | the lines saved from what was loaded are the lines loaded if and only if all settings survive |
| `SettingsRoundTrip.NormalExactly` | desktop/EvoMesh.Desktop/EvoMeshYamlSettings.cs:105-396 | what is loaded is the settings in their normal form -- lists filtered, a blank objective emptied, a key ref in place of a literal key -- if and only if all settings survive |
| `SettingsRoundTrip.ReadBackSaves` | desktop/EvoMesh.Desktop/EvoMeshYamlSettings.cs:105-396 | what was loaded can itself be saved and loaded, under the same conditions |
| `SettingsRoundTrip.ReadWritten` | desktop/EvoMesh.Desktop/EvoMeshYamlSettings.cs:119-119 | one-line lines, written, are read back one by one |
| `SettingsRoundTrip.FirstRead` | desktop/EvoMesh.Desktop/EvoMeshYamlSettings.cs:119-119 | a line ends at a carriage return, a line feed, or the two together |
| `SettingsRoundTrip.SavedOneLine` | desktop/EvoMesh.Desktop/EvoMeshYamlSettings.cs:296-396 | every line written is one line |
| `SettingsEditor.Load` | desktop/EvoMesh.Desktop/EvoMeshYamlSettings.cs:105-294 | the loop over the lines returns the settings the lines stand for, every switch as the last line about it says by the words it knows; the defaults without a file |
| `SettingsReading.LastLineDecides` | desktop/EvoMesh.Desktop/EvoMeshYamlSettings.cs:119-226 | in any file, a scalar setting is what the last line about it says, read over what the lines before made it; a line is about it when its key is the setting's and it stands unindented, or two columns in under its section |
| `SettingsReading.NoLineKeeps` | desktop/EvoMesh.Desktop/EvoMeshYamlSettings.cs:107-118 | a setting no line is about is as it starts out |
| `SettingsReading.SwitchLoaded` | desktop/EvoMesh.Desktop/EvoMeshYamlSettings.cs:472-478 | in any file, a switch is on if the last line about it has true, yes, on or 1 in any letter case, off at false, no, off or 0, and at any other word the fallback of that field |
| `SettingsReading.SwitchFile` | desktop/EvoMesh.Desktop/EvoMeshYamlSettings.cs:472-478 | the same, outright, for a file of a section line and one switch under it |
| `SettingsReading.SwitchesStart` | desktop/EvoMesh.Desktop/EvoMeshYamlSettings.cs:44-91 | the ten switches start out as their fallbacks |
| `SettingsReading.NumberLoaded` | desktop/EvoMesh.Desktop/EvoMeshYamlSettings.cs:460-466 | in any file, a number is what the last line about it has if that is an integer of 32 bits in digits with or without a sign, and what the lines before made it if not |
| `SettingsReading.TextLoaded` | desktop/EvoMesh.Desktop/EvoMeshYamlSettings.cs:122-226 | a text is what the last line about it says, the objective nothing at the two words for none, and the lists what their reading gives |
| `SettingsReading.IdListReads` | desktop/EvoMesh.Desktop/EvoMeshYamlSettings.cs:398-410 | an id list reads the same with any spacing, in brackets and without: the ids among its entries, out of their quotes |
| `SettingsReading.IdReads` | desktop/EvoMesh.Desktop/EvoMeshYamlSettings.cs:402-410 | an entry is an id if and only if it is a 64-bit integer in digits, with or without a sign |
| `SettingsReading.EntryReads` | desktop/EvoMesh.Desktop/EvoMeshYamlSettings.cs:119-128 | a line with an indent, a key, a colon and a text is read for just these, whatever white space stands around them |
| `SettingsReading.Ignored` | desktop/EvoMesh.Desktop/EvoMeshYamlSettings.cs:121-125 | blank lines, comments and lines without a colon are about nothing |
| `SettingsEditor.Save` | desktop/EvoMesh.Desktop/EvoMeshYamlSettings.cs:296-396 | the text written is the saved lines, each ended |
| `SettingsEditor.SaveThenLoad` | desktop/EvoMesh.Desktop/EvoMeshYamlSettings.cs:105-396 | saving and loading returns the settings as they are read back, which is normalised if and only if all survive |
| `SettingsEditor.ReadModelsLine` | desktop/EvoMesh.Desktop/EvoMeshYamlSettings.cs:227-275 | a line of the models section changes provider, tags and default as its indent and key say |
| `SettingsEditor.Writer.WriteProvider` | desktop/EvoMesh.Desktop/EvoMeshYamlSettings.cs:371-395 | the provider's lines are written, with tags if any and one of the two keys |
| `SettingsEditor.Writer.WriteAgent` | desktop/EvoMesh.Desktop/EvoMeshYamlSettings.cs:355-365 | the agent's lines are written |
| `SettingsEditor.Writer.WriteGroups` | desktop/EvoMesh.Desktop/EvoMeshYamlSettings.cs:300-353 | every scalar group is written under its section |
| `SettingsScalars.ScalarsRoundTrip` | desktop/EvoMesh.Desktop/EvoMeshYamlSettings.cs:133-226 | every scalar setting comes back as reading gives it, and nothing else is touched |
| `SettingsScalars.SectionHeader` | desktop/EvoMesh.Desktop/EvoMeshYamlSettings.cs:129-144 | a section line opens it and closes whatever was open |
| `SettingsAgents.AgentsBlock` | desktop/EvoMesh.Desktop/EvoMeshYamlSettings.cs:276-292 | the agents' lines are read back as the agents, in order |
| `SettingsProviders.ProvidersBlock` | desktop/EvoMesh.Desktop/EvoMeshYamlSettings.cs:235-275 | the providers' lines are read back as the providers, normalised, in order |
| `SettingsProviders.TagReadsExactly` | desktop/EvoMesh.Desktop/EvoMeshYamlSettings.cs:441-455 | a model tag is read back if and only if it holds no single quote |
| `SettingsProviders.TagReadsTo` | desktop/EvoMesh.Desktop/EvoMeshYamlSettings.cs:441-455 | what is read of a tag is its text up to the first single quote |
| `SettingsProviders.DoubleQuotedReads` | desktop/EvoMesh.Desktop/EvoMeshYamlSettings.cs:441-455 | a tag in double quotes is read up to the quote that closes it, colons and all |
| `SettingsProviders.BareReads` | desktop/EvoMesh.Desktop/EvoMeshYamlSettings.cs:441-455 | a tag without quotes is read up to its first colon |
| `SettingsLines.HeaderReadsExactly` | desktop/EvoMesh.Desktop/EvoMeshYamlSettings.cs:119-128 | a header line gives its name back if and only if it has no colon, no white space around it and no leading hash |
| `SettingsLines.KeyLineReads` | desktop/EvoMesh.Desktop/EvoMeshYamlSettings.cs:119-128 | a printed line is read for its indent, its key and its unquoted text |
| `SettingsLines.SameName` | desktop/EvoMesh.Desktop/EvoMeshYamlSettings.cs:101-102 | names of providers, agents and tags are the same if and only if they differ in letter case only |
| `SettingsLines.ValueRoundTrip` | desktop/EvoMesh.Desktop/EvoMeshYamlSettings.cs:105-226 | one scalar of any kind, printed and parsed, comes back as reading gives it, whatever was there before |
| `SettingsLines.ReadBackExactly` | desktop/EvoMesh.Desktop/EvoMeshYamlSettings.cs:105-226 | what comes back is the normal form if and only if the value is no objective that is a word for none and no name list with quoted names or brackets at its ends |
| `SettingsLines.PrintsAgainExactly` | desktop/EvoMesh.Desktop/EvoMeshYamlSettings.cs:105-396 | and only then is it printed again as it was |
| `SettingsLines.ObjectiveExactly` | desktop/EvoMesh.Desktop/EvoMeshYamlSettings.cs:172-174 | an objective is read back if and only if it is empty, or neither blank nor one of the two words for none |
| `SettingsValues.QuoteRoundTrip` | desktop/EvoMesh.Desktop/EvoMeshYamlSettings.cs:480-491 | quoting loses nothing, whatever the text |
| `SettingsValues.IdListRoundTrip` | desktop/EvoMesh.Desktop/EvoMeshYamlSettings.cs:402-416 | a saved id list reads back as the ids of the list, and formatting again changes nothing |
| `SettingsValues.NameListRoundTrip` | desktop/EvoMesh.Desktop/EvoMeshYamlSettings.cs:420-434 | a saved name list reads back as it was saved, and is saved again so, if and only if no bracket is at its ends and no name is in quotes |
| `SettingsValues.QuotesAreLost` | desktop/EvoMesh.Desktop/EvoMeshYamlSettings.cs:420-434 | a command written in quotes is read back without them |
| `SettingsValues.IntRoundTrip` | desktop/EvoMesh.Desktop/EvoMeshYamlSettings.cs:460-466 | a printed 32-bit integer parses to itself |
| `Blackboards.EveryBoardAgrees` | src/evomesh/blackboard.py:70-99 | in every reachable board facts and history have the same keys, the last retained version is the current fact, adjacent versions differ, and all bounds hold |
| `Blackboards.LoadDump` | src/evomesh/blackboard.py:160-187 | loading a dump into a board of the same bounds restores the same facts and versions as maps, and artifacts and work in order |
| `Blackboards.WorkKeeps` | src/evomesh/blackboard.py:92-99 | publishing work keeps the board within bounds, changes no other work, and gives up open work only when no finished work is left |
| `Blackboards.FactKeeps` | src/evomesh/blackboard.py:70-80 | publishing a fact, with the eviction it causes, keeps facts and history in agreement |
| `Blackboards.ArtifactKeeps` | src/evomesh/blackboard.py:86-90 | publishing an artifact keeps the bounds |
| `BlackboardOutcomes.FactStandsLast` | src/evomesh/blackboard.py:70-80 | a published fact stands last, the facts published longest ago are the ones that go, and the others keep their order |
| `BlackboardOutcomes.FactAddsVersion` | src/evomesh/blackboard.py:70-75 | it is the newest version of its key unless the newest one says the same; the oldest versions past the bound go, and no other key's change |
| `BlackboardOutcomes.ArtifactStandsLast` | src/evomesh/blackboard.py:86-90 | a published artifact stands last, and the ones published longest ago go |
| `BlackboardOutcomes.WorkIsThere` | src/evomesh/blackboard.py:92-99 | published work is there under its id, in its old place or last; exactly as much is kept as there is room for, in its order, and finished work goes before open work, of either kind the work further ahead first |
| `BlackboardOutcomes.WithoutSplit` | src/evomesh/blackboard.py:75-76 | taking a key out closes the gap and moves nothing else |
| `Blackboards.Blackboard.constructor` | src/evomesh/blackboard.py:51-68 | an empty board that keeps at least two versions of a fact |
| `Blackboards.Blackboard.PublishFact` | src/evomesh/blackboard.py:70-80 | the board becomes the one with the fact published and the oldest evicted |
| `Blackboards.Blackboard.PublishArtifact` | src/evomesh/blackboard.py:86-90 | the same for an artifact |
| `Blackboards.Blackboard.PublishWork` | src/evomesh/blackboard.py:92-99 | the same for work |
| `Blackboards.Blackboard.DumpAll` | src/evomesh/blackboard.py:160-170 | the dump lists every retained version, artifact and work item |
| `Blackboards.Blackboard.Load` | src/evomesh/blackboard.py:172-187 | the board becomes what publishing the dump on an empty board gives |
| `Framing.StreamRoundTrip` | src/evomesh/browser_bridge.py:66-103 | reading a stream of frames gives exactly the messages in order and then the end, also when the stream stops inside one more frame |
| `Framing.NextOfTruncated` | src/evomesh/browser_bridge.py:66-82 | a truncated frame reads as the end, never as part of a message |
| `Framing.ReadExactly` | src/evomesh/browser_bridge.py:85-94 | however the pipe splits its bytes, exactly the next ones asked for are returned, or the end |
| `Framing.ReadMessage` | src/evomesh/browser_bridge.py:66-82 | the result depends on the bytes alone, not on the parts they come in |
| `Framing.WriteMessage` | src/evomesh/browser_bridge.py:97-103 | a frame is written, or nothing for a message over the cap |
| `Framing.WriteThenRead` | src/evomesh/browser_bridge.py:66-103 | whatever is written within the cap is read back, in order, however the pipe splits it up |
| `Framing.ReadUntilEnd` | src/evomesh/browser_bridge.py:164-176 | the reader hands on every whole message before the end |
| `Framing.PackRoundTrip` | src/evomesh/browser_bridge.py:74-75 | the length prefix unpacks to what was packed |
| `Framing.UnpackRoundTrip` | src/evomesh/browser_bridge.py:74-75 | every four bytes are the prefix of exactly the length they unpack to |
| `Framing.LowestFirst` | src/evomesh/browser_bridge.py:74-75 | the lowest byte comes first: byte k of the prefix counts for 256 to the power of k |
| `Framing.NextOfOversized` | src/evomesh/browser_bridge.py:76-77 | a frame is refused at its prefix if and only if it is longer than the cap of 1 MiB, and the next read starts behind the prefix |
| `EventBuses.PrunedCacheIsEnough` | src/evomesh/events.py:86-104 | under a monotone clock an event is suppressed exactly when an equal one was delivered no longer ago than the window, so the deliveries are those of a bus that forgets nothing |
| `EventBuses.SuppressedExactly` | src/evomesh/events.py:90-92 | under the refinement, cache and full history agree on suppression at any later time |
| `EventBuses.PublishRefines` | src/evomesh/events.py:93-98 | every publish, pruning included, keeps the cache a refinement of the full history |
| `EventBuses.EventBus.Publish` | src/evomesh/events.py:86-104 | suppressed or delivered as the model says, and then to exactly the interested handlers in registration order |
| `EventBuses.EventBus.Subscribe` | src/evomesh/events.py:70-79 | a subscription is added once, last, and no other event's handlers change |
| `EventBuses.HistoryIsLatest` | src/evomesh/events.py:62-98 | in every run the history is the events of the latest deliveries, as many as it is long |
| `EventBuses.CallsInOrder` | src/evomesh/events.py:99-104 | every interested handler is called once with the event, behind the interested ones registered before it, and no other handler is |
| `ContractNets.OrderIndependent` | src/evomesh/coordination.py:159-197 | neither the order of registration nor the order active work is listed in changes the bids |
| `ContractNets.WinnerFacts` | src/evomesh/coordination.py:159-204 | the winner is eligible with the highest score, ties by id; nobody wins exactly when nobody is eligible |
| `ContractNets.BidsFacts` | src/evomesh/coordination.py:159-197 | the bids are exactly those of the eligible agents, best first |
| `ContractNets.CandidatesFacts` | src/evomesh/coordination.py:132-141 | the candidates are exactly the registered agents with every required capability, by lower-case name and then id |
| `ContractNets.CandidatesMatchFully` | src/evomesh/coordination.py:182-182 | every candidate's capability match is 1, so history, availability and load decide |
| `ContractNets.LoadCounts` | src/evomesh/coordination.py:183-187 | the load counts assigned and active work of the agent, in whatever order it is listed |
| `ContractNets.HigherBid` | src/evomesh/coordination.py:182-196 | of two eligible agents the one bids more for whom five times the success rate, plus two for a running agent, less two for each piece of work on its hands, is more; the rate is that of this very kind of work if recorded, or of all its work, or one half |
| `Sorting.BeforeIs` | src/evomesh/coordination.py:197-197 | texts are ordered by their first difference, a text before the longer ones it begins |
| `ContractNetAwards.ContractNet.Award` | src/evomesh/coordination.py:199-204 | nobody is assigned past the deadline or without an eligible agent; otherwise the item goes to an eligible agent of maximal score, ties by id |
| `ContractNetAwards.ContractNet.BidFor` | src/evomesh/coordination.py:159-197 | past the deadline there are no bids and a human is needed; otherwise the bids of the eligible agents |
| `ContractNetAwards.CapabilityRegistry.Register` | src/evomesh/coordination.py:126-127 | the agent replaces the one of its id, and no other changes |
| `ContractNetAwards.CapabilityRegistry.Unregister` | src/evomesh/coordination.py:129-130 | exactly the agent of that id is gone |
| `ContractNetAwards.WorkItem.Fail` | src/evomesh/coordination.py:87-97 | one more attempt and reason; back to the pool unassigned, or to a human once the attempts are used up |

## Left out

- Model calls, prompts, git, SQLite, subprocesses and sockets: each enters as its outcome.
  `accept_work` is one atomic step; the three reads of `_recover_admission` are taken at
  one moment; execution and operation records change by events of their own.
- Goals as shared objects: the live list holds values, and a status change replaces the
  value in the list. Descriptions, priorities, cron fields and retry policies of goals are
  not modelled, nor are `GoalManager`'s lifecycle rules beyond `create`.
- The announcements of admission, and the refusals before it for a malformed or impossible
  DELEGATE.
- `auto_plan` of the Evolver with its plan tree and work items, and with them promotion of
  a generation whose last work item did nothing. Job handles, idea tracking, chat texts and
  the no-op streak of the pipeline; `accept` and the vetting of backlog answers are part of
  a job's outcome.
- The rest of a BDI cycle: rules, desires, means-ends reasoning and the execution of steps.
  Whether the best runnable goal displaces the current one is an input of reconsideration.
- Digits and word characters outside ASCII in backlog steps, cron numbers and names; a
  carriage return in the backlog, which reading in text mode removes.
- Time zones in cron, and dates past the year 9999.
- Floating point: prompt shares are exact percentages rounded half to even, contract-net
  scores are reals, and a floating number of the settings file is its text, printing and
  parsing taken as inverse.
- Letters outside ASCII in what the settings dictionaries and switches take as equal
  ignoring case. The round trip of a settings file starts from settings; of a hand-written
  one the scalar settings are followed line by line, providers and agents only in the shape
  they are saved in.
- MindStates.MindState.Advance: moves the cursor only; the status and result text of a plan step are not modelled.
- BacklogAppend.AppendRoundTrip: asks for well-formed steps (one source file, one name, a trimmed one-line change), as the answer parser yields them.
- The event log and the projections of the blackboard, expiry of facts, and malformed
  entries of a dump. Across `load` facts keep the order of the history, not of publication.
- JSON inside a frame, and the table of pending requests of the extension bridge.
- The payload behind an event's fingerprint, and failures of handlers.

# Fund knowledge base: verified models

The backend of the fund knowledge base answers questions from published sources, runs guided capability workflows and
keeps a personal model login alive through a bridge to an app server. This project models the parts of it whose
correctness depends on more than one function, and proves what they promise. `dafny verify dfyconfig.toml` checks
everything.

| modules | subject |
|---|---|
| `StepGraph`, `FieldValues`, `WorkflowRun` | the definition check and the run state machine, proved together: acyclicity established by one is what keeps the other from getting stuck |
| `BridgeState`, `CodexBridge`, `LoginRow`, `LoginProtocol`, `LoginTrust` | the login: bridge calls as total state changes under every failure of app server and file system, the imperative bridge and archive that refine them, the stored rows, the interleaving of all participants, and when what readers are told is true |
| `SectionOutline`, `ParagraphUnits`, `FocusedSelection`, `GroupBudget`, `ContextManifest` | evidence structuring, selection under two budgets, and the coverage summary that must stay honest when evidence is pruned |
| `Evidence`, `Applicability`, `StableSort`, `SopOrder`, `SopPlan` | the extractive plan, the order recovered for its steps, the applicability filter, and the independent check |
| `TextPacking` | lossless splitting of a text into packets that fit |
| `SourceLineage` | the bounded walk over the dependencies of a published source |
| `IdempotencyLedger` | idempotent requests as interleaved sessions, statement by statement |
| `PreviewModel`, `PreviewStore` | the bounded store of answer previews with revocable handles |

Where the program changes objects in place there is a class whose methods are proved equal to a function of the old
state (`RunRow`, `Bridge`, `AuthStore`, `LoginRow.Tables`, `Collector`, `IdempotencyLedger.Tables`, `PreviewStore`); the
lemmas about whole histories are about those functions. Loops are methods with loops, proved against declarative
definitions.

Assumptions, stated once: a database transaction is atomic, and two transactions that touched the same ledger row do not
both commit; the ETag guard with the revision bump is a compare-and-increment; digests are equal only for equal content;
calls of the bridge for one identity exclude each other, as its locks ensure. What the app server, the file system, the
clock and the text patterns answer is arbitrary and enters as an argument.

## What the proofs found

Some properties one would expect hold only under a condition. The condition is proved exact, or a concrete input shows
the failure.

- Pruning can turn an incomplete group into a complete one when its rows disagree on the completeness flag, even if they
  all name the same blocks (`SameListIsNotEnough`, `FakedIffFlaggedAlone`). The rows that the two retrievals emit do
  agree, and for these coverage only ever shrinks (`CoverageIsMonotone`,
  `SelectedGroupsAreComplete`, `PruningGroupsAddsNothing`).
- A group that overlaps an earlier one is cut to its remaining rows but still names the whole list, so the manifest
  reports it as incomplete and its dimension as uncovered (`ReportedIffFresh`).
- The recovered step order depends on the retrieval order exactly when node paths tie, as `1` and `01` do
  (`OrderFreeIffTieFree`, `LeadingZerosTie`).
- Producer and validator judge completeness from different records. A plan is accepted exactly when its steps stand
  sorted by the kind of position they choose among themselves and, if it claims to answer, one of its own steps carries
  the step manifest (`ProducedPlansAreAccepted`). Cutting to twelve steps may change that choice
  (`CuttingMayLoseTheOrder`), and the manifest may have come with another block (`ManifestMayStandElsewhere`): plans are
  produced that claim to answer and do not pass (`AnsweredPlansAreAccepted`). With ordinals throughout the choice stays
  (`OrdinalsSurviveCut`, `WellKeptVersionsPass`). An accepted plan that claims to answer is whole and in order, whoever
  wrote it (`AcceptedAnswersAreWhole`).
- The applicability filter never asks for the business date, though the date can still rule a record out
  (`LaterDateRulesOut`), and neither does it ask for a field with the empty name; these are the only ways a
  selection with nothing missing can still change (`FinalIffSettled`).
- A copy of a preview passes for current after its run was begun again for the same job, attempt and request and reached
  the same revision (`BeginMayRevive`); no other begin can do that (`CurrentIsTrueIffNotBegunAgain`).
- A packet can end in a label exactly when a label line directly follows another with text behind both: the cut moves
  back by one line only (`LabelsAreAvoidedIffNoneAdjacent`, `AdjacentLabelsDefeatTheShift`).
- Runtimes and sessions of the bridge stop corresponding exactly after a failed write into a runtime already registered,
  or a failed removal of one that no session owns (any more) (`OrphansAreCounted`, `FullDiskLeavesAnOrphan`). That every
  session owns a runtime of its own always holds (`RunIsOrderly`).
- A shutdown loses an authenticated login exactly when its archive file is missing and cannot be written again
  (`CloseKeepsLogins`).
- Epochs fence the stored row, not the bridge: a start job that passed its check and makes its call late, or makes it a
  second time, replaces the authenticated session of its own epoch, and until its recheck readers are told AUTHENTICATED
  (`OnlyReplacementsFool`, `RestartFoolsReaders`). Over whole runs readers are told so of a login that is not, exactly
  after such a replacement or after an answer of a replaced session landed (`AuthenticatedIsTrue`,
  `LateAnswerFoolsReaders`).
- The answer that a request is still in progress is never given on committed data (`InProgressIsNeverReported`): the
  order of the statements lets a ledger row be committed only when completed (`CommittedRowsAreCompleted`).

## Model

| member | source | states |
|---|---|---|
| `StepGraph.CheckAcyclic` | backend/fund_kb/capability_schema.py:56-61 | The layered ready-set loop empties the graph if and only if a topological order exists, and fails if and only if there is a cycle; every round shrinks what remains |
| `StepGraph.ValidateDefinition` | backend/fund_kb/capability_schema.py:47-66 | Passes exactly the sound definitions (distinct step and field keys, closed and acyclic dependencies, human gates); each error is reported if and only if it is the first rule broken |
| `StepGraph.StuckHasCycle` | backend/fund_kb/capability_schema.py:56-61 | Steps that all wait for one another contain a dependency cycle, so a rejected remainder does |
| `StepGraph.CycleExcludesOrder` | backend/fund_kb/capability_schema.py:56-61 | A cycle and a topological order cannot both exist |
| `StepGraph.NoReadyStep` | backend/fund_kb/capability_schema.py:56-61 | When a round finds nothing ready, some unresolved steps form a cycle |
| `StepGraph.NextStepExists` | backend/fund_kb/capability_schema.py:53-62 | In a sound definition, as long as some step is not done, some undone step has all its dependencies done |
| `StepGraph.ExtendByReady` | backend/fund_kb/capability_schema.py:56-61 | Adding one round of ready steps extends a partial topological order |
| `FieldValues.ValidateValues` | backend/fund_kb/capability_schema.py:69-85 | Accepts exactly the values that conform to the field list: no unknown key, every value accepted by the field that speaks for its key, every required key present unless partial |
| `FieldValues.SamplesConform` | backend/fund_kb/capability_schema.py:69-85 | Every field list can be filled in |
| `WorkflowRun.StartIsConsistent` | backend/fund_kb/capability_runs.py:90-111 | A run starts consistent: the stored state is the computed phase |
| `WorkflowRun.ApplyKeepsConsistency` | backend/fund_kb/capability_runs.py:127-189 | Every accepted report, review or cancel keeps the run consistent: records fit their steps, nothing is submitted before its dependencies, the stored state is the computed phase |
| `WorkflowRun.SubmissionIsProper` | backend/fund_kb/capability_runs.py:127-178 | An accepted submission writes one open step of a live run, and writes it properly |
| `WorkflowRun.PhaseIsActionable` | backend/fund_kb/capability_runs.py:18-31 | WAITING_AGENT has an admissible pending agent step, WAITING_HUMAN an admissible pending human step, BLOCKED an admissible blocked step |
| `WorkflowRun.NextStepsAreTheAdmittedOnes` | backend/fund_kb/capability_runs.py:114-138 | The next-steps listing holds exactly the steps a submission would be admitted for |
| `WorkflowRun.ReplayIsConsistent` | backend/fund_kb/capability_runs.py:127-189 | Consistency holds after every history of requests |
| `WorkflowRun.FinishedStepsAreFrozen` | backend/fund_kb/capability_runs.py:127-189 | Over any history the finished set only grows and finished records never change |
| `WorkflowRun.TerminalIsAbsorbing` | backend/fund_kb/capability_runs.py:127-189 | No request changes a completed, failed or cancelled run |
| `WorkflowRun.RunsFollowTheGraph` | backend/fund_kb/capability_runs.py:127-178 | Over any history each step finishes at most once, after everything it depends on |
| `WorkflowRun.CompletedRunsAreTopological` | backend/fund_kb/capability_runs.py:18-31 | A completed run finished its steps in a topological order of the whole graph |
| `WorkflowRun.RunsCanComplete` | backend/fund_kb/capability_runs.py:114-178 | From every live state, exactly as many successful reports and accepts as there are unfinished steps complete the run |
| `WorkflowRun.FinishesAreCounted` | backend/fund_kb/capability_runs.py:141-178 | Conservation: unfinished steps before equal unfinished steps after plus successful finishes, so no completion takes more or fewer |
| `WorkflowRun.OneWinnerPerRevision` | backend/fund_kb/capability_runs.py:141-189 | Of all requests that name one row revision at most one succeeds |
| `WorkflowRun.RevisionOfOne` | backend/fund_kb/capability_runs.py:141-189 | The revision counts the accepted requests, and an accepted request named the revision it met |
| `WorkflowRun.AcceptedByAPerson` | backend/fund_kb/capability_runs.py:161-178 | Every accepted step was accepted by a review in the history that no agent sent, and the record names its author |
| `WorkflowRun.RiskyStepsNeedAPerson` | backend/fund_kb/capability_runs.py:161-178 | External-write and financial steps finish only by such a review |
| `WorkflowRun.RunRow.constructor` | backend/fund_kb/capability_runs.py:90-111 | A new row is the model start of its definition |
| `WorkflowRun.RunRow.Write` | backend/fund_kb/capability_runs.py:150-158 | Writing a step record recomputes the stored state and bumps the revision |
| `WorkflowRun.RunRow.HandleReport` | backend/fund_kb/capability_runs.py:141-158 | Refines the model report: the same new row, or the same error and an unchanged row |
| `WorkflowRun.RunRow.HandleReview` | backend/fund_kb/capability_runs.py:161-178 | Refines the model review: the same new row, or the same error and an unchanged row |
| `WorkflowRun.RunRow.HandleCancel` | backend/fund_kb/capability_runs.py:181-189 | Refines the model cancel: the same new row, or the same error and an unchanged row |
| `BridgeState.RunIsOrderly` | backend/fund_kb/codex_bridge.py:400-584 | Whatever the app server and the file system answer, every session keeps a runtime of its own with equal owner, connection and epoch, authenticated sessions stay archived under the same three, other identities are left alone, and no session or archive is bound to a new epoch but the one to start |
| `BridgeState.OrphansAreCounted` | backend/fund_kb/codex_bridge.py:400-584 | Sessions and runtimes stay in bijection through a call if and only if none of the named failures occurs: a runtime not written to the end, or one that cannot be released after its session left or before it had one; each leaves exactly one runtime without a session |
| `BridgeState.LossesAreOrphans` | backend/fund_kb/codex_bridge.py:400-584 | Over any history the runtimes without a session are counted exactly by those failures |
| `BridgeState.FullDiskLeavesAnOrphan` | backend/fund_kb/codex_bridge.py:153-156 | A concrete first login on a full disk: the call raises and its runtime stays registered without a session |
| `BridgeState.AuthenticatedStayArchived` | backend/fund_kb/codex_bridge.py:175-206 | As long as no archive file disappears from outside, every authenticated session stays restorable over any history |
| `BridgeState.StartIsOrderly` | backend/fund_kb/codex_bridge.py:400-440 | A start, whichever way it fails, keeps the books in order and binds at most its own epoch |
| `BridgeState.RefreshIsOrderly` | backend/fund_kb/codex_bridge.py:449-493 | A refresh keeps the books in order and binds nothing new |
| `BridgeState.AttachIsOrderly` | backend/fund_kb/codex_bridge.py:449-471 | Rebuilding or restoring a session keeps the books in order and leaves a session when it succeeds |
| `BridgeState.ShutdownIsOrderly` | backend/fund_kb/codex_bridge.py:568-584 | One round of the shutdown loop keeps the books in order |
| `BridgeState.DiscardIsOrderly` | backend/fund_kb/codex_bridge.py:551-560 | Discarding pops the session whatever raises, keeps the books in order, and leaves no archive when nothing raised |
| `BridgeState.BindingsComeFromStarts` | backend/fund_kb/codex_bridge.py:150-206 | Over any sequence of calls a session, with its runtime, or an archive is bound only to an epoch the bridge was told to start |
| `BridgeState.RefreshSurvivesConsentChange` | backend/fund_kb/codex_bridge.py:449-493 | After a consent change a refresh under the new revision restores the same authenticated login from the archive |
| `BridgeState.CloseKeepsLogins` | backend/fund_kb/codex_bridge.py:568-584 | Of the logins that closing the bridge gets to, each authenticated one whose runtime is removed can be restored afterwards if and only if its archive was there or is written in its round, whatever happens to the others |
| `BridgeState.LogoutLeavesNothing` | backend/fund_kb/codex_bridge.py:495-517 | A logout or cancellation that raised nothing leaves no session or archive of the identity, and no runtime but those that earlier failures had left |
| `CodexBridge.AuthStore.Materialize` | backend/fund_kb/codex_bridge.py:150-173 | The runtime is registered before anything is written: a failed write leaves it registered, a failed restore releases it unless that fails too, and only a complete one is returned |
| `BridgeState.PersistIsOrderly` | backend/fund_kb/codex_bridge.py:175-191 | Archiving a registered runtime makes exactly that session restorable, and touches nothing of other identities |
| `BridgeState.ForgetIsOrderly` | backend/fund_kb/codex_bridge.py:193-198 | Removing the archive of an identity without a session keeps the books in order |
| `BridgeState.DetachIsOrderly` | backend/fund_kb/codex_bridge.py:200-206 | A session leaving with its runtime keeps the books in order and keeps the archive |
| `CodexBridge.Bridge.Start` | backend/fund_kb/codex_bridge.py:400-440 | The imperative start, on the shared session table and store, refines the model call and keeps the books |
| `CodexBridge.Bridge.ReadEvents` | backend/fund_kb/codex_bridge.py:475-481 | Reading the notifications in order leaves the completed flag the model computes, or reports this login as failed |
| `CodexBridge.Bridge.Refresh` | backend/fund_kb/codex_bridge.py:449-493 | The imperative refresh refines the model call and keeps the books |
| `CodexBridge.Bridge.Logout` | backend/fund_kb/codex_bridge.py:495-505 | The imperative logout refines the model call and keeps the books |
| `CodexBridge.Bridge.CancelLogin` | backend/fund_kb/codex_bridge.py:507-517 | The imperative cancel refines the model call and keeps the books |
| `CodexBridge.Bridge.Discard` | backend/fund_kb/codex_bridge.py:551-560 | The imperative discard refines the model call and keeps the books |
| `CodexBridge.Bridge.DiscardEpoch` | backend/fund_kb/codex_bridge.py:562-566 | Discards only a session of the given epoch, as the model does |
| `CodexBridge.Bridge.Close` | backend/fund_kb/codex_bridge.py:568-584 | Shuts down one identity after the other and stops at the first exception, in the state the model computes for the part reached |
| `LoginRow.Tables.HandleMutation` | backend/fund_kb/api_oauth.py:137-172 | A user request changes the row and queues the job exactly as the model transaction does, or changes nothing and reports the same error |
| `LoginRow.Tables.InvalidateConnection` | backend/fund_kb/api_oauth.py:175-184 | Invalidation mints an epoch, moves to SIGNING_OUT and queues a logout |
| `LoginRow.Tables.HandleEdit` | backend/fund_kb/api_models.py:241-273 | An edit or deletion of a connection invalidates the login; a consent-only change moves the revision and is refused during a login operation |
| `LoginRow.Tables.Recheck` | backend/fund_kb/api_oauth.py:243-253 | The last transaction writes if and only if the job is still current, and then exactly the outcome |
| `LoginProtocol.NextKeepsFence` | backend/fund_kb/api_oauth.py:137-262 | The inductive invariant: every action of any participant keeps live states, session epochs, archive epochs and start jobs tied to epochs minted by starts |
| `LoginProtocol.LiveAnswersAreBound` | backend/fund_kb/codex_bridge.py:400-493 | The bridge answers with a live state only to a start, or to a refresh on a binding it already has |
| `LoginProtocol.RunsAreFenced` | backend/fund_kb/api_oauth.py:137-262 | The invariant holds after every interleaving |
| `LoginProtocol.EpochsNeverFall` | backend/fund_kb/api_oauth.py:137-184 | Epochs never fall |
| `LoginProtocol.EpochsRise` | backend/fund_kb/api_oauth.py:137-184 | Epochs rise strictly over every minting action |
| `LoginProtocol.LiveLoginsAreFresh` | backend/fund_kb/api_oauth.py:137-262 | Whenever the stored state is STARTING, PENDING or AUTHENTICATED, the epoch was minted by a start of the run and nothing minted an epoch since |
| `LoginProtocol.CredentialsComeFromStarts` | backend/fund_kb/codex_bridge.py:150-206 | Every session of the identity, with its runtime, and every archive belongs to an epoch minted by a start of the run |
| `LoginProtocol.JobsKeepTheirEpoch` | backend/fund_kb/api_oauth.py:205-212 | A job is never re-labelled with another epoch |
| `LoginProtocol.StaleWritesNeverLand` | backend/fund_kb/api_oauth.py:243-262 | Once a newer epoch is minted, the final write of an older job never lands, however the rest interleaves |
| `LoginProtocol.PublicLoginsAreReal` | backend/fund_kb/api_oauth.py:86-101 | What readers see as pending or signed in has a live session of the current revision, bound to the epoch of the last start |
| `LoginTrust.OnlyRestartsBreakTrust` | backend/fund_kb/api_oauth.py:215-262 | Sessions of an epoch that the row, or an answer on its way to it, vouches for are authenticated; one action of any participant keeps that if and only if it is not a start job whose call meets no obstacle and begins a new login for such an epoch |
| `LoginTrust.OnlyReplacementsFool` | backend/fund_kb/api_oauth.py:86-101 | As long as that holds, an action makes readers be told AUTHENTICATED of a login that is not, if and only if it is a start job whose call meets no obstacle for the very epoch and connection revision that readers are shown as authenticated |
| `LoginTrust.AuthenticatedIsTrue` | backend/fund_kb/api_oauth.py:86-101 | At every moment of a run of a new connection readers are told AUTHENTICATED of authenticated sessions only, if and only if no action of the run is such a replacement or the landing of an answer whose session was replaced in the meantime |
| `LoginTrust.RestartFoolsReaders` | backend/fund_kb/api_oauth.py:215-262 | A run of a new connection where a lapsed start worker makes its call after a refresh has signed in: readers are told AUTHENTICATED of a session that is not, with no archive |
| `LoginTrust.LateAnswerFoolsReaders` | backend/fund_kb/api_oauth.py:215-262 | A run where that call comes while the answer of the refresh is on its way to the row: readers are told nothing wrong until the answer lands |
| `LoginTrust.EndedLoginsAreSeen` | backend/fund_kb/api_oauth.py:86-101 | A late cancel or logout may take a newer session away, but readers are then told of no login |
| `TextPacking.LongestPrefix` | backend/fund_kb/answer_packing.py:42-48 | The nested binary search returns a fitting length after which one character more does not fit |
| `TextPacking.LongestIsLongest` | backend/fund_kb/answer_packing.py:42-48 | For a prefix-monotone test it is the longest fitting one |
| `TextPacking.CutPointEndsALine` | backend/fund_kb/answer_packing.py:51-67 | A cut is at the end of the fitting prefix or after a line end; there is none only when the whole prefix is one label line |
| `TextPacking.CutPointAvoidsLabels` | backend/fund_kb/answer_packing.py:51-67 | Unless a label line directly follows another with text behind both, no cut leaves a complete label line at the end of a packet |
| `TextPacking.LabelsAreAvoidedIffNoneAdjacent` | backend/fund_kb/answer_packing.py:33-70 | Whatever the budget, and likewise whatever the monotone budget, no packet but the last ends in a complete label line, if and only if no label line directly follows another with text behind both |
| `TextPacking.PackText` | backend/fund_kb/answer_packing.py:33-70 | Terminates with the packets of the specification: non-empty, joining to the text, for a monotone test all fitting, every cut at a line end or maximal; it gives up only when the budget is too small |
| `TextPacking.AdjacentLabelsDefeatTheShift` | backend/fund_kb/answer_packing.py:51-67 | With room for twelve characters, a text with two adjacent citation labels is packed into two packets of which the first ends in a label |
| `SectionOutline.LevelsIncrease` | backend/fund_kb/answer_retrieval.py:160-179 | Along a section path levels strictly increase and headings come in document order |
| `SectionOutline.PathContents` | backend/fund_kb/answer_retrieval.py:160-179 | A heading is in the path of a block if and only if no gap and no heading of its level or above comes after it, up to the block |
| `SectionOutline.Pop` | backend/fund_kb/answer_retrieval.py:174-175 | Popping leaves the longest prefix whose last level is below the new heading |
| `SectionOutline.Advance` | backend/fund_kb/answer_retrieval.py:168-178 | One step of the heading stack yields the declarative section path of the block |
| `SectionOutline.SourceStructure` | backend/fund_kb/answer_retrieval.py:160-179 | The heading stack computes, for the blocks in ordinal order, exactly their declarative section paths |
| `SectionOutline.SameSection` | backend/fund_kb/answer_retrieval.py:160-179 | A plain block without a gap before it is in the section of the block before it |
| `ParagraphUnits.Take` | backend/fund_kb/answer_retrieval.py:241-261 | One block either closes, extends or opens a paragraph as the declarative rule says |
| `ParagraphUnits.Assemble` | backend/fund_kb/answer_retrieval.py:230-262 | The first pass yields exactly the runs of joined blocks: disjoint, in order, without headings, of consecutive ordinals and one section, covering exactly the kept blocks |
| `ParagraphUnits.UnitsAreDisjoint` | backend/fund_kb/answer_retrieval.py:223-262 | Paragraphs in order share no block |
| `ParagraphUnits.CoherentIsSorted` | backend/fund_kb/answer_retrieval.py:223-262 | The blocks of a paragraph have consecutive ordinals and one section |
| `ParagraphUnits.MergeArticles` | backend/fund_kb/answer_retrieval.py:263-279 | The merging loop computes the declarative merge |
| `ParagraphUnits.MergingKeepsTheBlocks` | backend/fund_kb/answer_retrieval.py:263-279 | Merging keeps paragraphs disjoint, coherent and in order, and loses no block |
| `ParagraphUnits.FindBroken` | backend/fund_kb/answer_retrieval.py:280-286 | The sections collected are exactly those with a fragmented paragraph |
| `ParagraphUnits.MarkGaps` | backend/fund_kb/answer_retrieval.py:280-292 | A paragraph is flagged as the declarative rule says, its blocks untouched |
| `ParagraphUnits.SemanticGroups` | backend/fund_kb/answer_retrieval.py:223-293 | The three passes together: ordered, disjoint, coherent paragraphs that cover exactly the kept blocks, each graded for completeness and detail |
| `FocusedSelection.BestIsFirstMaximum` | backend/fund_kb/answer_retrieval.py:408-411 | The pick has the highest rank, and every candidate before it ranks strictly lower |
| `FocusedSelection.GreedyKeeps` | backend/fund_kb/answer_retrieval.py:401-436 | At every stage row and byte counts agree with the chosen groups, both budgets hold, and the covered facets are those of the chosen groups |
| `FocusedSelection.GreedySettlesAll` | backend/fund_kb/answer_retrieval.py:405-436 | Every complete candidate is chosen, or adds no required facet and is not primary, or does not fit what is left |
| `FocusedSelection.GreedyChoosesCandidates` | backend/fund_kb/answer_retrieval.py:405-436 | Groups are chosen whole, only from the candidates, and never more often than offered |
| `FocusedSelection.NoGainForGood` | backend/fund_kb/answer_retrieval.py:408-414 | Facets come first: once the best candidate adds none, no later one does |
| `FocusedSelection.UncoveredFacetsDoNotFit` | backend/fund_kb/answer_retrieval.py:405-436 | A required facet stays uncovered only if every complete group that has it is too large for what is left |
| `FocusedSelection.SelectedGroupsAreComplete` | backend/fund_kb/answer_retrieval.py:421-434 | The rows of selected groups are uniform and complete, so pruning them later never claims more |
| `FocusedSelection.ManifestReportsSelection` | backend/fund_kb/answer_retrieval.py:575-648 | The manifest of the selected evidence reports exactly the required facets the selection covered |
| `FocusedSelection.ConsiderKeeps` | backend/fund_kb/answer_retrieval.py:412-436 | Whatever becomes of one candidate, the counters agree with the chosen groups and both budgets hold |
| `FocusedSelection.SelectGroups` | backend/fund_kb/answer_retrieval.py:401-436 | The loop computes the greedy selection |
| `FocusedSelection.LinkPages` | backend/fund_kb/answer_retrieval.py:438-449 | At most three knowledge pages that cite a chosen block, within what is left of both budgets; a citing page is left out only for lack of room |
| `FocusedSelection.RetrieveFocused` | backend/fund_kb/answer_retrieval.py:401-449 | Both budgets hold over groups and pages, chosen groups are whole, and every complete group left out adds nothing required or cannot fit |
| `GroupBudget.AllStayInBudget` | backend/fund_kb/answer_retrieval.py:496-514 | Whatever groups are offered in whatever order, both budgets hold, the byte counter and the seen set agree with the groups, and no group is given up for a later one |
| `GroupBudget.GroupsShareNoBlock` | backend/fund_kb/answer_retrieval.py:496-514 | No block is in two groups |
| `GroupBudget.ReportedIffFresh` | backend/fund_kb/answer_retrieval.py:496-514 | The manifest reports a group as complete if and only if it closes and none of its blocks had been taken before: an overlapping group loses its dimension though all its blocks are in the evidence |
| `GroupBudget.CoveredDimensions` | backend/fund_kb/answer_retrieval.py:605-616 | The covered dimensions are exactly those of closed groups that overlap no earlier one |
| `GroupBudget.PruningGroupsAddsNothing` | backend/fund_kb/answer_retrieval.py:496-514 | The rows of one group agree on its blocks and flag, so no later pruning covers a new dimension or turns readiness on |
| `GroupBudget.Collector.AddGroup` | backend/fund_kb/answer_retrieval.py:496-514 | The nested function with its shared counters refines the model step |
| `GroupBudget.Collector.Collect` | backend/fund_kb/answer_retrieval.py:496-514 | All calls of one retrieval stay in budget |
| `ContextManifest.ComputeFacets` | backend/fund_kb/answer_retrieval.py:604-616 | The loop collects exactly the facets and dimensions of complete groups, and the incomplete groups |
| `ContextManifest.Summarize` | backend/fund_kb/answer_retrieval.py:604-629 | Covered dimensions, readiness and completeness are exactly the declarative ones |
| `ContextManifest.HonestPruningAddsNothing` | backend/fund_kb/answer_retrieval.py:575-640 | If no group becomes complete by losing rows, pruning covers nothing new and makes nothing ready |
| `ContextManifest.FakedIffFlaggedAlone` | backend/fund_kb/answer_retrieval.py:605-612 | For groups whose rows name the same blocks: some pruning makes a group look complete that is not, if and only if the rows that call it complete carry the whole list alone |
| `ContextManifest.SameListIsNotEnough` | backend/fund_kb/answer_retrieval.py:605-612 | An input where dropping a row adds a covered dimension |
| `ContextManifest.CoverageIsMonotone` | backend/fund_kb/answer_retrieval.py:575-640 | For uniform groups no pruning whatever adds a covered dimension or turns readiness on |
| `ContextManifest.WholeGroupsAddNothing` | backend/fund_kb/answer_retrieval.py:575-640 | Dropping whole groups adds nothing for any evidence |
| `ContextManifest.WholeGroupsStayAsTheyWere` | backend/fund_kb/answer_retrieval.py:605-612 | A group kept whole is complete after pruning if and only if it was before |
| `ContextManifest.DropLastIsWhole` | backend/fund_kb/ai.py:892-896 | A round of the shrink loop drops one whole group |
| `ContextManifest.ShrinkToBudget` | backend/fund_kb/ai.py:837-903 | The loop ends inside, in fewer rounds than there are records, with the first pruning that fits or needs no model; only whole groups are dropped; the branch after the loop is unreachable |
| `Applicability.CheckClause` | backend/fund_kb/ai.py:550-563 | A clause applies exactly when no condition rules the record out, and asks exactly for the facts its conditions lack |
| `Applicability.CheckRecord` | backend/fund_kb/ai.py:539-572 | The three-valued filter of one record: applies, and what it still needs |
| `Applicability.RequiredFacts` | backend/fund_kb/ai.py:536-574 | The computed selection and missing facts are the declarative ones |
| `Applicability.MoreFactsNeverAskMore` | backend/fund_kb/ai.py:536-574 | Adding facts never brings a record back and never asks for a fact not asked before |
| `Applicability.FinalIffSettled` | backend/fund_kb/ai.py:536-574 | With nothing missing, no further fact changes the selection if and only if the business date is known or no applicable record has a validity date that some date falls outside of, and the field with the empty name is known or no applicable record has a condition on it that some value fails |
| `Applicability.LaterDateRulesOut` | backend/fund_kb/ai.py:564-569 | An applicable dated record can still be ruled out while the date is unknown, though the date is never asked for |
| `Applicability.SettledSelection` | backend/fund_kb/ai.py:536-574 | Once both are settled, the selection is the same under every extension of the context |
| `StableSort.SortFacts` | backend/fund_kb/ai.py:601-638 | The sort is a sorted permutation |
| `StableSort.SortIsStable` | backend/fund_kb/ai.py:601-638 | Elements with equal keys keep their order |
| `StableSort.SortIgnoresInputOrder` | backend/fund_kb/ai.py:601-638 | With distinct keys the sorted result is the same for every reordering of the input |
| `SopOrder.OrderIsASortedPermutation` | backend/fund_kb/ai.py:601-638 | A recovered order is a permutation sorted by the chosen key, strictly unless node paths tie |
| `SopOrder.ChooseIgnoresOrder` | backend/fund_kb/ai.py:601-638 | Which key is chosen, or that none is, does not depend on the retrieval order |
| `SopOrder.TiesFollowTheInput` | backend/fund_kb/ai.py:619-626 | Two records whose node paths tie come out in retrieval order, so some reordering changes the result |
| `SopOrder.OrderFreeIffTieFree` | backend/fund_kb/ai.py:601-638 | The recovered order is the same for every retrieval order if and only if no two node paths tie |
| `SopOrder.LeadingZerosTie` | backend/fund_kb/ai.py:619-626 | Two distinct node paths with one key |
| `SopPlan.UsableOnePerBlock` | backend/fund_kb/ai.py:105-132 | The usable records hold one record per block |
| `SopPlan.CheckCitations` | backend/fund_kb/ai.py:382-395 | Accepts exactly valid citations with distinct ids, and yields the record behind every id |
| `SopPlan.CheckClaims` | backend/fund_kb/ai.py:396-408 | Accepts exactly distinct claims, each supported by a cited record |
| `SopPlan.CheckSteps` | backend/fund_kb/ai.py:411-434 | Accepts exactly the valid steps and yields the registered records they come from |
| `SopPlan.ValidateAnswer` | backend/fund_kb/ai.py:382-449 | The checking loops accept exactly the plans that meet the declarative demands |
| `SopPlan.PlanAccepted` | backend/fund_kb/ai.py:663-737 | A plan built from registered steps of one version is accepted if and only if their order is recoverable and, if it claims to answer, the steps carry and fill the manifest |
| `SopPlan.ProducedPlansAreAccepted` | backend/fund_kb/ai.py:663-737 | A plan of the producer passes the validator if and only if its steps stand sorted by the kind of position they choose among themselves and, when it claims to answer, one of them carries the manifest |
| `SopPlan.RecoversIffSorted` | backend/fund_kb/ai.py:441-446 | For steps of distinct blocks the order test of the validator passes if and only if they stand sorted by the kind of position they choose among themselves |
| `SopPlan.WellKeptVersionsPass` | backend/fund_kb/ai.py:663-737 | When every step carries the manifest, and its ordinal unless there are at most twelve, every plan of the producer passes the validator |
| `SopPlan.AnsweredPlansFillTheManifest` | backend/fund_kb/ai.py:641-660 | Every answering plan lists exactly the ordinals of the manifest, each once |
| `SopPlan.AnsweredPlansAscend` | backend/fund_kb/ai.py:707-718 | It lists them in increasing order if and only if its steps stand sorted by the kind of position they choose among themselves, which holds unless steps were cut off and some carry no ordinal |
| `SopPlan.AnsweredPlansAreAccepted` | backend/fund_kb/ai.py:663-737 | An answering plan of the producer passes the validator if and only if its ordinals increase and one of its steps carries the manifest |
| `SopPlan.AnswersAreWhole` | backend/fund_kb/ai.py:436-449 | For a plan that claims to answer, the last checks on its steps pass if and only if they are of one version, carry one agreed manifest and are all of it in increasing order |
| `SopPlan.AcceptedAnswersAreWhole` | backend/fund_kb/ai.py:382-449 | Whoever wrote it, an accepted plan that claims to answer takes its steps from one version, and they are all of its manifest in increasing order |
| `SopPlan.UsedIsOrdered` | backend/fund_kb/ai.py:663-737 | The steps of a plan are in the order the validator recovers, when none is cut off or those kept are ordered by the same kind of position as all of them |
| `SopPlan.OrdinalsSurviveCut` | backend/fund_kb/ai.py:601-612 | Steps that all carry ordinals keep their order when some are cut off |
| `SopPlan.CoverageOfUsed` | backend/fund_kb/ai.py:641-660 | Coverage judged from the used steps alone agrees with coverage of the version if and only if a used step carries the manifest |
| `SopPlan.CuttingMayLoseTheOrder` | backend/fund_kb/ai.py:707-718 | Thirteen step records for which the producer claims to answer with ordinals running from twelve down to one, and the validator refuses the plan |
| `SopPlan.ManifestMayStandElsewhere` | backend/fund_kb/ai.py:641-660 | A step and a note that carries the manifest, for which the producer claims to answer and the validator refuses the plan, though its order is in order |
| `SourceLineage.ResolveDependencies` | backend/fund_kb/capability_sources.py:45-68 | The dependency set is the union over the resolvable edges, or the walk is refused |
| `SourceLineage.PublishedSource` | backend/fund_kb/capability_sources.py:15-73 | Terminates on every graph; succeeds if and only if every dependency path holds at most eight versions and every version on one passes its checks; the lineage is then exactly the reachable set, and a failure names a real fault |
| `SourceLineage.CyclesAreRefused` | backend/fund_kb/capability_sources.py:15-73 | A source that is part of a dependency cycle is always refused |
| `SourceLineage.CyclesUnroll` | backend/fund_kb/capability_sources.py:15-17 | A cycle gives paths beyond every bound |
| `SourceLineage.RepeatIsTooLong` | backend/fund_kb/capability_sources.py:15-17 | Meeting a version of the path again means a path beyond the bound |
| `SourceLineage.LineageStaysInSpace` | backend/fund_kb/capability_sources.py:15-73 | All versions a published source depends on lie in its own space |
| `IdempotencyLedger.HistoriesAreSound` | backend/fund_kb/api.py:205-227 | Over every interleaving of openings, commits and rollbacks the ledger records the last effect of each key and windows of one key do not overlap |
| `IdempotencyLedger.AtMostOncePerWindow` | backend/fund_kb/api.py:205-227 | At any moment at most one committed effect of a key is within its window |
| `IdempotencyLedger.CommittedRowsAreCompleted` | backend/fund_kb/api.py:347-431 | Every request stages a STARTED row, and none is ever committed: every committed ledger row is COMPLETED, the audit commit of the error path included |
| `IdempotencyLedger.InProgressIsNeverReported` | backend/fund_kb/api.py:216-220 | No request is ever refused as in progress on committed data |
| `IdempotencyLedger.ReplaysAreFaithful` | backend/fund_kb/api.py:216-222 | A replay answers with the response of an effect of the same key and body whose window is open |
| `IdempotencyLedger.OnlyCommitsChangeAnything` | backend/fund_kb/api.py:347-431 | Only a commit that goes through changes business state or ledger, by the request's one effect and its completed row; refusals, replays, failures at any statement, lost races and deaths change neither |
| `IdempotencyLedger.RacesHaveOneWinner` | backend/fund_kb/api.py:347-431 | Of two requests opened on the same row of a key only the first to commit takes effect |
| `IdempotencyLedger.Tables.BeginIdempotency` | backend/fund_kb/api.py:205-227 | Refines the lookup: replay, refusal by the error path, or a session with a staged STARTED row |
| `IdempotencyLedger.Tables.ExecuteNext` | backend/fund_kb/api.py:371-430 | Each statement of a request after the lookup refines the model: handler, completion of the row, commit, or the error path |
| `PreviewModel.ApplyIsBounded` | backend/fund_kb/answer_preview.py:134-189 | Every operation keeps the size within capacity, one entry per run, and the entries in the order they were begun |
| `PreviewModel.HistoriesAreBounded` | backend/fund_kb/answer_preview.py:134-189 | So does every history, and identities are never given twice |
| `PreviewModel.EvictionTakesTheOldest` | backend/fund_kb/answer_preview.py:142-150 | What is evicted was begun before everything that stays, and only a full store evicts |
| `PreviewModel.StaleHandlesStayStale` | backend/fund_kb/answer_preview.py:152-162 | A handle that was replaced, evicted or discarded never becomes valid again and never writes anything |
| `PreviewModel.EntriesDescend` | backend/fund_kb/answer_preview.py:134-189 | While a run is not begun again its entry is the one it was, with a higher revision or the same text |
| `PreviewModel.CurrentCopiesAreTrue` | backend/fund_kb/answer_preview.py:164-177 | A copy found current, with no begin of its own binding in between, still shows the stored text; begins of the run by another job, attempt or request do no harm |
| `PreviewModel.CurrentIsTrueIffNotBegunAgain` | backend/fund_kb/answer_preview.py:164-177 | Over all continuations whose begins are of an allowed set of bindings, a copy that passes for current shows the stored text if and only if its own binding is not in the set |
| `PreviewModel.ShownTextsWereWritten` | backend/fund_kb/answer_preview.py:152-171 | Over any history only entries that were written show a text |
| `PreviewModel.BeginMayRevive` | backend/fund_kb/answer_preview.py:164-177 | With a begin in between it may not: a concrete history where a copy of the old text passes for current |
| `PreviewStore.PreviewStore.StaysBounded` | backend/fund_kb/answer_preview.py:126-189 | A store that follows the model keeps its bounds |
| `PreviewStore.PreviewStore.Prune` | backend/fund_kb/answer_preview.py:134-140 | Clears expired texts in place and keeps the registrations |
| `PreviewStore.PreviewStore.Begin` | backend/fund_kb/answer_preview.py:142-150 | Refines the model begin and hands out a fresh entry object |
| `PreviewStore.PreviewStore.Update` | backend/fund_kb/answer_preview.py:152-162 | Writes through the very object that is registered and refines the model update; through any other it changes nothing |
| `PreviewStore.PreviewStore.Get` | backend/fund_kb/answer_preview.py:164-171 | Returns a detached copy exactly when a text is there |
| `PreviewStore.PreviewStore.IsCurrent` | backend/fund_kb/answer_preview.py:173-177 | The comparison of job, attempt, request number and revision |
| `PreviewStore.PreviewStore.Discard` | backend/fund_kb/answer_preview.py:179-183 | Removes the run's entry if it is the named job and attempt |
| `PreviewStore.PreviewStore.DiscardJob` | backend/fund_kb/answer_preview.py:185-189 | Removes all entries of a job attempt and keeps the rest in order |

## Left out

- Pattern contents, vocabularies and prompt texts: they are predicates (`Lexicon`, `isLabel`, `heading`, `endsSentence`).
- Access control, the content of audit rows, HTTP routing, CSRF, cookies, OIDC, the definition's JSON schema: a request that passed them is the input.
- SQLAlchemy: rows are fields, a commit is one step; row locks of runs are implied by one step per request.
- Encryption, file permissions and subprocess transports: the archive is a map, and what they answer, failures included, are call arguments; what a failed removal leaves of a directory's contents is not modelled.
- `account`, `checked_at`, `state_source` and `last_error_code` of the login row: informative fields no branch reads.
- `challenge` and `list_models` of the bridge: they read sessions and change none.
- Ranking: lexical scores, which SOP version or primary source wins, the event matcher and the choice of seeds and windows offered to `add_group`; the proofs hold for every choice.
- `plan` gaps, authority notes, source lists and relation edges of the manifest.
- Grounded mode, schema and unsafe-text checks of `validate_answer`: their meaning sits in patterns.
- The byte count of `fits_context`: a budget test is an arbitrary predicate.
- `public_paragraphs`: applied to a preview text before it reaches the store, so the modelled text is the filtered one.
- `read_bound_sources`, `batch_retrieval.py`, upload and case handlers: they would add only easy members.
- ContextManifest.ShrinkToBudget: models the reference scope, the only one that goes round more than once; that it starts with evidence and one row per ungrouped block is what the code before the loop establishes.
- FocusedSelection.ManifestReportsSelection: about the rows of groups; knowledge pages carry no facets and are left aside, and so is the final sort of the evidence, which changes no group.
- SectionOutline.SourceStructure: one source version; the source's dictionary keeps versions apart.
- Applicability.RequiredFacts: the missing facts are a set, their alphabetical listing is not modelled.
- SourceLineage.PublishedSource: the dependencies of one version are walked in any order rather than sorted, so which of several faults is reported is left open.
- SopOrder.OrderIsASortedPermutation: digits in a node path are the ten ASCII digits; for other digit characters the source may raise an error.
- PreviewStore.PreviewStore.Prune: one reading of the clock per call, where the source reads it once per entry.
- LoginProtocol.NextKeepsFence: a call of the bridge is one atomic step, as the lock of its identity makes it; the steps of a job around it interleave freely.
- IdempotencyLedger.Tables.ExecuteNext: the statements between the handler and the completion of the row are one; two writers of one ledger row are told apart at commit, where the database may already refuse the second at its flush.
- WorkflowRun.RunRow.HandleReport: timestamps and the reporting channel are not stored in the model.
- BridgeState.BindingsComeFromStarts: says nothing of the epoch of a runtime that a failed refresh leaves without a session; it holds no credential of a session.
- LoginTrust.OnlyRestartsBreakTrust: the status of a job may change at any time in the model, so it also covers workers that the dispatcher would stop.

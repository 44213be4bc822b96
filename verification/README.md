# Verification of the OKF hub core

This project models the stateful core of the desktop hub (its Rust side, `src-tauri/src`) in Dafny and
proves what that core is relied on for. Code that changes things step by step is modelled by classes
and methods whose contracts tie the new state to a specification function of the old one; code that
several tasks run at once is modelled as a state machine whose steps are the stretches between two
waiting points (or the sections under one lock), and the results are about every state of every run.

| files | component |
|---|---|
| `BoardModel`, `BoardSpec`, `BoardBuilder`, `BoardAccounting`, `BoardBounds`, `BoardFlags`, `BoardUnfolding` | the project board: turning a flat list of linked items into a bounded forest |
| `AuthCore`, `AuthProtocol`, `AuthJobs`, `AuthInvariants`, `AuthRuns`, `AuthOutcomes`, `AuthRefreshes`, `AuthTraces`, `DevicePolling` | GitHub device logins, token refreshes, logouts and cancellations, interleaved |
| `SearchMatch`, `SearchCache` | the document search cache: matching and ranking, and the two tables |
| `DocumentEvents`, `DocumentEventStream` | forwarding a session's events from a bounded channel, with recovery after loss |
| `SessionCore`, `SessionProtocol`, `SessionInvariants`, `SessionRuns`, `DocumentReads` | starting, replacing and stopping document sessions, and which of a session's reads is the latest |
| `InitializationCore`, `InitializationProtocol`, `InitializationInvariants`, `InitializationRuns`, `InitializationFlows` | claiming and completing a workspace initialization while accounts and previews change |
| `Drafts`, `FileNames`, `Frontmatter` | saving drafts with a recovery journal, naming new documents, printing and splitting frontmatter |
| `Discovery`, `DiscoveryProofs` | searching directories that link to each other in any way |
| `Text`, `SetFacts` | shared helpers |

`dafny verify dfyconfig.toml` checks everything.

Findings about the code, each stated and proved as a lemma:

- An item without a recognised status that stands at the depth limit hides what is below it with no node
  marked, since it is not shown itself; only the board-wide flag and the count tell
  (`BoardFlags.HiddenWithoutAMark`). Apart from that, an unmarked node shows all its children
  (`BoardFlags.UnmarkedNodesShowTheirChildren`).
- A context of a workspace initialization can stay in memory without being stored: a failed
  initialization clears the settings after dropping its claim, and may hit a second initialization of
  the same preview that is already at work. `InitializationRuns.QuietStatesAgree` shows that this
  step is the only cause; `InitializationRuns.StrayMayDisagree` that every such step can lead there;
  `InitializationRuns.QuietContextIsStoredOrCompleted` what still holds in every run.
- The tokens of a cancelled login can return to the store after its run has ended and its clean-up
  succeeded: a refresh that loaded them before, and found them due for renewal, may still save their
  successors.
  `AuthTraces.CancelledLoginMayBeRefreshed` gives a run; such a refresh is the only way back
  (`AuthTraces.GoneForGood`) and always is one (`AuthTraces.TokensMayComeBack`).
- When a document's text is stored again unchanged under a new title, the search row keeps the old
  title: `SearchCache.UpsertAgreesUnlessRetitled` gives the exact condition.
- When the catalogue loses the open document and there is no telling where it went, the runtime closes
  it without an event of its own (`DocumentEvents.SilentCloseSendsNoEvent`; an input is
  `DocumentEvents.OpenDocumentDisappears`). For a reader that takes a tree event to replace the catalogue
  only, this is exactly what goes untold (`DocumentEvents.OnlySilentClosesGoUntold`). For one that also
  closes a document that left the catalogue, nothing does (`DocumentEvents.OperationTells`).
- Recovery works on the first journal only, so a journalled file that someone removed blocks the recovery
  of every later one: `Drafts.RecoverySettlesTheReached` tells exactly which journals are settled, and
  `Drafts.RecoveryDrains` when all are.
- `split_frontmatter` and `markdown_body` disagree about which YAML is safe to print: the first needs
  only that no later line is exactly `---`, the second that no line is `---` or `...`
  (`Frontmatter.SplitAfterPrint` and `Frontmatter.BodyAfterPrint`, both exact).

## Model

| member | source | states |
|---|---|---|
| `BoardBuilder.CountDescendants` | src-tauri/src/commands/project_board.rs:499-533 | the worklist loop ends, leaves in `seen` and reports exactly what the counting specification says |
| `BoardBuilder.BuildTree` | src-tauri/src/commands/project_board.rs:549-646 | the recursive builder over shared mutable sets and counters computes the specified forest and counters and gives `visiting` back as it was |
| `BoardBuilder.RecordRendered` | src-tauri/src/commands/project_board.rs:648-658 | adds exactly the URLs shown in a tree to the rendered set |
| `BoardBuilder.CollectIssueTrees` | src-tauri/src/commands/project_board.rs:660-748 | the two passes over the roots and the final count compute the specified board |
| `BoardAccounting.CountBelowIsExact` | src-tauri/src/commands/project_board.rs:499-533 | the count is the number of URLs newly seen, at most the budget, and capped exactly at it |
| `BoardAccounting.CountBelowIsReachability` | src-tauri/src/commands/project_board.rs:499-533 | uncapped, the newly seen URLs are exactly those reachable through nodes not seen before |
| `BoardAccounting.BuildPays` | src-tauri/src/commands/project_board.rs:549-646 | each URL an expansion meets and does not show is paid for in `skipped` |
| `BoardAccounting.NoItemIsLostSilently` | src-tauri/src/commands/project_board.rs:660-748 | for every item list, the items not on the board number at most the growth of `skipped` |
| `BoardBounds.BuildFitsBudget` | src-tauri/src/commands/project_board.rs:549-646 | nodes shown never outnumber visits paid from the shared budget, and the depth limit holds |
| `BoardBounds.BuildFlagsTold` | src-tauri/src/commands/project_board.rs:549-646 | a marked node, or an exhausted budget, raises the board-wide flag, which never falls |
| `BoardBounds.BoardWithinLimits` | src-tauri/src/commands/project_board.rs:677-747 | every board has at most 100,000 nodes, at most ten levels below a root, no URL twice on a path, and tells truncation |
| `BoardBounds.ChainsOnTheBoard` | src-tauri/src/commands/project_board.rs:677-747 | a chain of shown issues has at most eleven of them, all different |
| `BoardFlags.UnmarkedNodesAreWhole` | src-tauri/src/commands/project_board.rs:549-646 | an item with a status, within the budget, gives one node; it is marked exactly if it stands at the depth limit and has sub-issues or the budget was used up below it, and unmarked it has every listed sub-issue that is no ancestor among its children, directly or by what takes its place |
| `BoardFlags.UnmarkedNodesShowTheirChildren` | src-tauri/src/commands/project_board.rs:660-748 | on every board of items with distinct URLs, whatever limits were hit, an unmarked node shows below it every sub-issue that is listed, has a status and is not shown above it |
| `BoardFlags.CutExactlyOverBudget` | src-tauri/src/commands/project_board.rs:549-646 | an expansion reports a cut if and only if the node budget was used up in it |
| `BoardFlags.HiddenWithoutAMark` | src-tauri/src/commands/project_board.rs:612-645 | an item without a status at the depth limit hides its sub-issue, and no node is marked |
| `BoardFlags.OverBudgetHides` | src-tauri/src/commands/project_board.rs:560-575 | with the budget used up an item is hidden with all that is reachable below it, each counted as skipped once |
| `BoardFlags.DepthLimitHides` | src-tauri/src/commands/project_board.rs:576-612 | at the depth limit all that is reachable below an item is hidden and counted as skipped once, and the board-wide flag is raised if it has sub-issues |
| `BoardFlags.VisitsAreShownOrSkipped` | src-tauri/src/commands/project_board.rs:549-646 | every visit an expansion pays for shows a node or counts as a skip |
| `BoardFlags.CappedBoardsStop` | src-tauri/src/commands/project_board.rs:699-735 | once the roots have used up the budget nothing more is expanded, and what was not reached is only counted |
| `BoardSpec.IndexKeepsTheLast` | src-tauri/src/commands/project_board.rs:672-673 | of several items with one URL the index keeps the last |
| `BoardModel.StatusByName` | src-tauri/src/commands/project_board.rs:750-759 | which status names map to which columns, by their letters |
| `BoardModel.LayerByArea` | src-tauri/src/commands/project_board.rs:771-779 | which area names map to which layers |
| `BoardModel.LayerByLabel` | src-tauri/src/project_board/model.rs:46-54 | which labels name which layers |
| `BoardModel.AreaBeforeLabels` | src-tauri/src/commands/project_board.rs:761-769 | the area decides if it names a layer, otherwise the first label that does |
| `BoardModel.ShownTellsTheItem` | src-tauri/src/commands/project_board.rs:617-640 | what a node tells about its item |
| `BoardUnfolding.BuildAgrees` | src-tauri/src/commands/project_board.rs:549-646 | one expansion agrees with the unlimited unfolding exactly when that fits the limits |
| `BoardUnfolding.UntruncatedBoardIsTheUnfolding` | src-tauri/src/commands/project_board.rs:660-748 | the flag stays down if and only if the unlimited unfolding fits; the board is then that unfolding and `skipped` grew by exactly what it drops |
| `BoardUnfolding.UnfoldReachesTheReachable` | src-tauri/src/commands/project_board.rs:549-646 | unfolding with backtracking reaches exactly the reachable URLs |
| `BoardUnfolding.UntruncatedBoardIsComplete` | src-tauri/src/commands/project_board.rs:660-748 | an untruncated board of items with distinct URLs shows every item with a recognised status and nothing else |
| `AuthCore.AuthService.InvalidateLifecycle` | src-tauri/src/auth/service.rs:650-660 | a new generation, everything filed dropped and told to stop |
| `AuthCore.AuthService.BeginReserve` | src-tauri/src/auth/service.rs:130-150 | the first locked section of a login: invalidate, then reserve in the new generation |
| `AuthCore.AuthService.DropReservation` | src-tauri/src/auth/service.rs:80-90 | a reservation goes only if it is still of its own generation |
| `AuthCore.AuthService.BeginCommit` | src-tauri/src/auth/service.rs:152-182 | the second locked section files the login exactly if the generation has not moved |
| `AuthCore.AuthService.TakePending` | src-tauri/src/auth/service.rs:184-215 | a run takes its pending authorization once |
| `AuthCore.AuthService.JobIsCurrent` | src-tauri/src/auth/service.rs:662-668 | current means filed under this generation, which is the service's own |
| `AuthCore.AuthService.FinishJobIfCurrent` | src-tauri/src/auth/service.rs:606-613 | a job of a past generation removes nothing |
| `AuthCore.AuthService.SaveIfCurrent` | src-tauri/src/auth/service.rs:524-531 | refreshed tokens are saved only for a job that is current and was not stopped, and the job is removed |
| `AuthCore.AuthService.DeleteIfCurrent` | src-tauri/src/auth/service.rs:615-627 | tokens are deleted only for a current job |
| `AuthCore.AuthService.SignOut` | src-tauri/src/auth/service.rs:539-549 | a logout invalidates first and then empties the store unless the delete fails |
| `AuthCore.AuthService.TryStartRefresh` | src-tauri/src/auth/service.rs:427-449 | a refresh starts exactly when no login is filed and none of this generation is reserved |
| `AuthJobs.JobRegistry.TryInsert` | src-tauri/src/state.rs:444-469 | takes the protocol's registration step, refused for a registered id |
| `AuthJobs.JobRegistry.CancelJob` | src-tauri/src/state.rs:486-499 | takes the cancel step exactly for a running job and says so |
| `AuthJobs.JobRegistry.CancelAllJobs` | src-tauri/src/state.rs:501-515 | cancels exactly the running jobs and returns their ids |
| `AuthJobs.JobRegistry.FinishJob` | src-tauri/src/state.rs:517-528 | the entry goes and its phase decides the terminal |
| `AuthJobs.JobRegistry.Emit` | src-tauri/src/commands/auth.rs:77-99 | forwards one terminal event, the cancelled one if a cancel won, and accepts only what was asked for |
| `AuthInvariants.InvKept` | src-tauri/src/auth/service.rs:130-355 | every step of every task keeps the protocol's invariant |
| `AuthRuns.LoginsAndRefreshesExclude` | src-tauri/src/auth/service.rs:427-449 | in every reachable state everything filed is of the current generation, a filed login is alone, and a login waiting for its code holds its reservation |
| `AuthRuns.OneTerminalEventEach` | src-tauri/src/commands/auth.rs:77-99 | every attempt whose run is over forwarded exactly one terminal event, Authenticated only if no cancel won; which one is told by `AuthOutcomes` |
| `AuthRuns.CancelledLoginLeavesNoTokens` | src-tauri/src/auth/service.rs:284-355 | when a cancelled attempt ends, its tokens are not in the store unless the generation moved on or its delete failed |
| `AuthRuns.CleanUpIsUnopposed` | src-tauri/src/auth/service.rs:304-355 | the conditions the clean-up checks again always hold in its own generation |
| `AuthRuns.SavesAreCurrent` | src-tauri/src/auth/service.rs:284-319 | every save is made by a job of the current generation that nobody stopped |
| `AuthRuns.LogoutEmptiesTheStore` | src-tauri/src/auth/service.rs:539-549 | after a successful logout the store stays empty until a login begun after it saves, in every interleaving |
| `AuthRuns.LogoutIsNeverBlocked` | src-tauri/src/auth/service.rs:539-549 | in every reachable state a logout can take the lock, at the latest after its holder's next step |
| `AuthOutcomes.AuthenticatedMeansStored` | src-tauri/src/auth/service.rs:314-355 | in every run Authenticated is announced only by an attempt that had put its own tokens in the store |
| `AuthOutcomes.AuthenticatedExactlyIfStored` | src-tauri/src/auth/service.rs:284-355 | an attempt that is over and whose cancel did not win announced Authenticated if and only if it had stored its tokens |
| `AuthOutcomes.EndingIsForwarded` | src-tauri/src/auth/service.rs:629-648 | the event an attempt ends with is the one and only event forwarded for it, unless a cancel wins |
| `AuthOutcomes.RefusedSaveFails` | src-tauri/src/auth/service.rs:314-319 | a save that the credential store refuses leaves the store as it is and announces Failed |
| `AuthOutcomes.SupersededSaveCancels` | src-tauri/src/auth/service.rs:304-313 | a login that is no longer current, or was told to stop, stores nothing and announces Cancelled |
| `AuthOutcomes.StoppedPollingTells` | src-tauri/src/auth/service.rs:200-303 | polling that ends without tokens announces why, and never success |
| `AuthOutcomes.RunWithoutAuthorizationFails` | src-tauri/src/auth/service.rs:189-197 | a run that finds its authorization gone announces Failed |
| `AuthOutcomes.CancelledWhileSaving` | src-tauri/src/auth/service.rs:320-326 | a cancel that won while the tokens were saved has them deleted before the lock is given back |
| `AuthOutcomes.SupersededAreTold` | src-tauri/src/auth/service.rs:650-660 | in every run each login and refresh that was filed for a generation now past has been told to stop |
| `AuthRefreshes.RefusedOnlyForALiveLogin` | src-tauri/src/auth/service.rs:427-436 | in every run a refresh is refused if and only if a login of the current generation waits for its code or is filed; nothing left behind refuses it |
| `AuthRefreshes.RefreshKeepsToItself` | src-tauri/src/auth/service.rs:410-537 | a refresh touches its own job alone, and the store only while it is current |
| `AuthRefreshes.RefreshStoresTheExchanged` | src-tauri/src/auth/service.rs:524-531 | the exchanged tokens are stored exactly if the job is on file and the store takes them |
| `AuthRefreshes.RejectedGrantIsDeleted` | src-tauri/src/auth/service.rs:615-627 | the tokens of a refused grant are deleted exactly if the job is on file and the store obeys |
| `AuthRefreshes.CleanUpKeepsToItsGeneration` | src-tauri/src/auth/service.rs:333-353 | a late clean-up empties the store in its own generation and changes nothing in a later one |
| `AuthRefreshes.WhoEmptiesTheStore` | src-tauri/src/auth/service.rs:284-355 | in every run stored tokens go only by a logout, by a cancelled attempt taking back its own, by its clean-up in its own generation, or by a refresh on file |
| `AuthTraces.GoneForGood` | src-tauri/src/auth/service.rs:410-531 | once a login is over and its tokens are not stored, they never come back unless a current refresh that nobody stopped has them |
| `AuthTraces.TokensMayComeBack` | src-tauri/src/auth/service.rs:524-531 | and if such a refresh has them, the run can go on so that they do |
| `AuthTraces.CancelledLoginMayBeRefreshed` | src-tauri/src/auth/service.rs:326-355 | a run in which that happens after a cancelled login was cleaned up |
| `DevicePolling.PollForTokens` | src-tauri/src/auth/service.rs:202-268 | the polls are those of the rounds met, each after the full interval in force and before the code expires; Granted exactly after tokens, Failed exactly after a denial or a failed request, and otherwise the outcome names the answer or the round that ended it |
| `DevicePolling.MetIsPaced` | src-tauri/src/auth/service.rs:207-245 | as section 3.5 of RFC 8628 asks: every poll comes at least the interval of its time after the answer before it, and only `authorization_pending` and `slow_down` go on |
| `DevicePolling.IntervalCountsSlowDowns` | src-tauri/src/auth/service.rs:255-261 | the interval is the initial one and five seconds for every `slow_down` so far, up to the 64-bit limit |
| `SearchMatch.NewFoldedText` | src-tauri/src/documents/cache.rs:786-804 | the loop builds the folded text and the origin of each folded character |
| `SearchMatch.OriginBrackets` | src-tauri/src/documents/cache.rs:806-827 | a folded character lies inside the folded form of the character it is mapped back to |
| `SearchMatch.ComputeMatchSpan` | src-tauri/src/documents/cache.rs:730-746 | the one-pass matcher computes the specified span |
| `SearchMatch.WordsSplit` | src-tauri/src/documents/cache.rs:735-735 | the words of a query are what stands between its white space, each of them |
| `SearchMatch.GreedyStartsFirst` | src-tauri/src/documents/cache.rs:730-746 | the match found starts at the first occurrence of the first word |
| `SearchMatch.GreedyEndsFirst` | src-tauri/src/documents/cache.rs:730-746 | wherever the words occur in order, the match found ends no later |
| `SearchMatch.MatchIsTheGreedyOne` | src-tauri/src/documents/cache.rs:730-746 | the span is that match, mapped back to the original text |
| `SearchMatch.GreedySuffices` | src-tauri/src/documents/cache.rs:730-746 | taking each word leftmost finds a match whenever there is one |
| `SearchMatch.MatchIsWordsInOrder` | src-tauri/src/documents/cache.rs:730-746 | a query matches if and only if its folded words occur in order without overlap |
| `SearchMatch.MatchedRangeMatches` | src-tauri/src/documents/cache.rs:730-746 | the folded form of the returned original range holds the words in order, even where folding changes lengths |
| `SearchMatch.RankAndReportAgree` | src-tauri/src/documents/cache.rs:707-760 | ranks 0 and 1, 2 and 3 report title, path and body, a rank below 4 means the reported field matches, and rank 0 that the folded title is the folded query |
| `SearchCache.ToIndexContents` | src-tauri/src/documents/cache.rs:252-311 | what is to be indexed is exactly the summaries without an unchanged row |
| `SearchCache.DocumentCache.PlanReconcile` | src-tauri/src/documents/cache.rs:252-311 | plans without changing anything, and refuses exactly sizes that do not fit |
| `SearchCache.DocumentCache.ApplyReconcile` | src-tauri/src/documents/cache.rs:313-511 | succeeds exactly for a complete batch; then exactly the given summaries remain, with supplied or previous text, and both tables agree; an error changes neither |
| `SearchCache.SearchRowsTellTheDocuments` | src-tauri/src/documents/cache.rs:380-505 | in sound tables each document has a search row with its path, title and text, and each search row is some document's |
| `SearchCache.PlanDeletesTheVanished` | src-tauri/src/documents/cache.rs:252-311 | the plan deletes exactly the documents that no summary names |
| `SearchCache.FitsIsSigned64` | src-tauri/src/documents/cache.rs:683-685 | a size fits exactly below two to the sixty-third |
| `SearchCache.BatchReconciles` | src-tauri/src/documents/cache.rs:380-505 | writing a complete batch and deleting the rest reconciles and leaves nothing to plan |
| `SearchCache.PlanAfterReconcileIsEmpty` | src-tauri/src/documents/cache.rs:252-311 | planning again after a reconciliation finds nothing to do |
| `SearchCache.CompleteBatchMatches` | src-tauri/src/documents/cache.rs:313-380 | the checks made before writing accept exactly the complete batches |
| `SearchCache.DocumentCache.ReconcileMetadata` | src-tauri/src/documents/cache.rs:183-250 | drops exactly the vanished documents with their search rows and reports what to index |
| `SearchCache.DocumentCache.UpsertContent` | src-tauri/src/documents/cache.rs:518-617 | stores one document, and an error changes nothing |
| `SearchCache.UpsertStores` | src-tauri/src/documents/cache.rs:518-617 | which row and search row change, how, and that all others stay |
| `SearchCache.UpsertAgreesUnlessRetitled` | src-tauri/src/documents/cache.rs:543-563 | after an upsert the tables agree if and only if it was not the same text under another title |
| `DocumentEvents.OperationTells` | src-tauri/src/documents/runtime.rs:597-704 | folding everything published gives the runtime's own snapshot after every operation |
| `DocumentEvents.SilentCloseSendsNoEvent` | src-tauri/src/documents/runtime.rs:1061-1107 | a document that is gone without a trace is closed, and none of the events sent mentions it |
| `DocumentEvents.OpenDocumentDisappears` | src-tauri/src/documents/runtime.rs:1061-1107 | a snapshot and a catalogue for which that happens, and the one event sent |
| `DocumentEvents.OnlySilentClosesGoUntold` | src-tauri/src/documents/runtime.rs:672-704 | with tree events read as replacing the catalogue only, an operation's events tell the new snapshot if and only if it closes no document silently |
| `DocumentEvents.OpenIsListed` | src-tauri/src/documents/runtime.rs:1061-1107 | the open document is always in the catalogue, also after a rename |
| `DocumentEvents.RenamedByItsId` | src-tauri/src/documents/runtime.rs:1061-1107 | a document that left its path is found at another if and only if its id was and is one document's only, and is that one's |
| `DocumentEvents.ReconcileFollowsTheDocument` | src-tauri/src/documents/runtime.rs:1061-1107 | the new snapshot has the given catalogue and status, and the open document where it now is, if anywhere |
| `DocumentEvents.OperationsDo` | src-tauri/src/documents/runtime.rs:597-704 | what every other operation does to the snapshot, and the events it sends |
| `DocumentEventStream.CaughtUpLosesNothing` | src-tauri/src/commands/documents.rs:1467-1506 | events forwarded since the last barrier, on top of it, tell what everything published up to the position tells |
| `DocumentEventStream.BarrierToldIsReal` | src-tauri/src/commands/documents.rs:1595-1616 | the loss note changes nothing and the barrier brings the client up to date whatever it missed |
| `DocumentEventStream.EventTask.Poll` | src-tauri/src/commands/documents.rs:1643-1651 | receiving from a channel that keeps a bounded number of events |
| `DocumentEventStream.EventTask.PublishedEvent` | src-tauri/src/commands/documents.rs:1653-1665 | only the session's own events are forwarded, each under the next revision |
| `DocumentEventStream.EventTask.Discard` | src-tauri/src/commands/documents.rs:1632-1640 | ends at the channel's end or when it is closed |
| `DocumentEventStream.EventTask.PublishResyncBarrier` | src-tauri/src/documents/runtime.rs:434-452 | appends the current snapshot, refused when the generation is not the live one |
| `DocumentEventStream.EventTask.FindBarrier` | src-tauri/src/commands/documents.rs:1508-1630 | for any number of nested losses, and whatever is published between draining the channel and the barrier, a barrier is found, or the generation is gone, the channel closed or the task cancelled |
| `DocumentEventStream.EventTask.Recover` | src-tauri/src/commands/documents.rs:1561-1630 | either a loss note and the barrier are forwarded and the client is brought up to it, or nothing is forwarded |
| `DocumentEventStream.EventTask.Receive` | src-tauri/src/commands/documents.rs:1467-1506 | for any capacity and schedule, the forwarded events fold to what was published up to the position, every state shown on the way was real, revisions increase, and a client that has everything shows the runtime's snapshot; the loop stops only when closed, cancelled, or unable to recover a real loss |
| `SessionCore.SessionRegistry.ActiveContext` | src-tauri/src/state.rs:227-239 | finds the active context by its session id, and none only if there is none |
| `SessionCore.SessionRegistry.ReservePending` | src-tauri/src/state.rs:241-261 | one pending session at a time and never with the active one's id |
| `SessionCore.SessionRegistry.TakeActiveForPending` | src-tauri/src/state.rs:298-315 | only the pending command may take over the active session |
| `SessionCore.SessionRegistry.ActivatePending` | src-tauri/src/state.rs:317-343 | activates exactly when nothing is active and the context is the pending one |
| `SessionCore.SessionRegistry.TakeIf` | src-tauri/src/state.rs:345-363 | takes the active session only for its own context |
| `SessionCore.SessionRegistry.RemoveExact` | src-tauri/src/state.rs:365-390 | gives up exactly this context, pending or active |
| `SessionCore.SessionRegistry.ClearForLogout` | src-tauri/src/state.rs:392-401 | hands back the active session and forgets the pending one |
| `SessionCore.DocumentRuntime.ReserveSession` | src-tauri/src/documents/runtime.rs:265-303 | a fresh generation replaces the live one, refused for the same session id |
| `SessionCore.DocumentRuntime.StopGeneration` | src-tauri/src/documents/runtime.rs:368-391 | stops exactly the live generation |
| `SessionCore.StartCleanup.Drop` | src-tauri/src/commands/documents.rs:155-190 | an armed guard gives up its context and stops every generation it holds |
| `SessionInvariants.InvKept` | src-tauri/src/commands/documents.rs:236-385 | every step, drops at any waiting point included, keeps the invariant |
| `SessionInvariants.ResourcesAreLinear` | src-tauri/src/commands/documents.rs:123-190 | a completed generation is held in exactly one place or was stopped, and stopped at most once |
| `SessionInvariants.SessionsAndRuntimeAgree` | src-tauri/src/commands/documents.rs:236-420 | the active session's generation is the live one, pending and active ids differ, and nothing runs that nobody would stop |
| `SessionInvariants.ReplacedContextsStayStale` | src-tauri/src/commands/documents.rs:1310-1319 | a context that lost its place is never active again, even when its session id is used again |
| `SessionRuns.UndisturbedStart` | src-tauri/src/commands/documents.rs:253-385 | from any state of the invariant an undisturbed start makes its session the active one under a fresh live generation and stops the one before, and nothing else |
| `SessionRuns.DroppedStartFinishes` | src-tauri/src/commands/documents.rs:154-190 | wherever a start is dropped, its guard can finish, and then nothing of it is pending, active or live and everything it held was stopped once, in the guard's order |
| `SessionRuns.UndisturbedStop` | src-tauri/src/commands/documents.rs:402-420 | stopping the active session leaves nothing active and nothing live |
| `DocumentReads.ReadOwnership.RegisterRead` | src-tauri/src/state.rs:134-146 | each registration gets the next number, wrapping at 64 bits, and becomes the latest |
| `DocumentReads.ReadOwnership.IsLatest` | src-tauri/src/state.rs:148-156 | an owner is the latest exactly if it was registered last, or the numbers went a whole round and the request id is the same |
| `InitializationCore.ContextRegistry.BeginChange` | src-tauri/src/state.rs:557-588 | replacing and clearing are refused while a claim is live or another change is under way |
| `InitializationCore.ContextRegistry.CommitReplacement` | src-tauri/src/state.rs:702-714 | the new context takes the old one's place, which is handed back |
| `InitializationCore.ContextRegistry.DropChange` | src-tauri/src/state.rs:684-726 | an uncommitted change leaves the context as it was |
| `InitializationCore.ContextRegistry.Clear` | src-tauri/src/state.rs:656-664 | forgets the context and keeps a live claim |
| `InitializationCore.ContextRegistry.Insert` | src-tauri/src/state.rs:590-602 | refused while busy |
| `InitializationCore.ContextRegistry.ClaimIfPresent` | src-tauri/src/state.rs:629-654 | a claim is made exactly for the context in memory while nothing else is going on |
| `InitializationCore.ContextRegistry.RecordCompletion` | src-tauri/src/state.rs:741-754 | the completed context is put in memory only for the live claim |
| `InitializationCore.ContextRegistry.CompleteClaim` | src-tauri/src/state.rs:756-774 | ends the claim and forgets its own context only |
| `InitializationCore.ContextRegistry.DropClaim` | src-tauri/src/state.rs:776-789 | ends the claim and keeps the context |
| `InitializationInvariants.InvKept` | src-tauri/src/commands/workspace.rs:442-690 | every step keeps the invariant, whichever settings writes fail |
| `InitializationRuns.OneClaimAtATime` | src-tauri/src/state.rs:604-654 | at most one claim is live in any reachable state |
| `InitializationRuns.NoAccountChangeDuringClaim` | src-tauri/src/commands/auth.rs:153-176 | while a claim is live no login or logout changes the generation and no preview replaces the context |
| `InitializationRuns.GenerationDuringClaim` | src-tauri/src/commands/auth.rs:201-213 | over a whole stretch with live claims the generation stays the one it started with |
| `InitializationRuns.QuietContextIsStoredOrCompleted` | src-tauri/src/commands/workspace.rs:485-550 | in a quiet state of any run a context in memory is the stored one or records a completion |
| `InitializationRuns.QuietStatesAgree` | src-tauri/src/commands/workspace.rs:605-690 | unless a sweep hit an initialization at work, the context in memory is the stored one |
| `InitializationRuns.StrayMayDisagree` | src-tauri/src/commands/workspace.rs:585-603 | from every such sweep the run can go on to a quiet state that disagrees |
| `InitializationRuns.StraysAreReachable` | src-tauri/src/commands/workspace.rs:585-603 | such a sweep does occur in a run |
| `InitializationFlows.UndisturbedPreview` | src-tauri/src/commands/workspace.rs:442-475 | a preview is put in memory and in the settings, or in neither |
| `InitializationFlows.ClaimsFromSettings` | src-tauri/src/commands/workspace.rs:620-643 | a preview found only in the settings is worked on as not completed |
| `InitializationFlows.FinishesItsWork` | src-tauri/src/commands/workspace.rs:485-558 | a finished initialization is forgotten in both places; if the settings cannot be written it stays recorded as completed, and a second try does no work |
| `InitializationFlows.FailsItsWork` | src-tauri/src/commands/workspace.rs:582-603 | a failed one keeps its preview, except that one that expired or was found initialized is forgotten as far as the write allows |
| `InitializationFlows.RejectsItsPreview` | src-tauri/src/commands/workspace.rs:645-672 | a preview of another account is forgotten in both places, or in neither |
| `InitializationFlows.UndisturbedTransition` | src-tauri/src/commands/auth.rs:147-226 | a login or logout forgets the preview and changes the generation, leaving at most a tombstone; or changes nothing |
| `Drafts.DraftStore.SaveDocument` | src-tauri/src/documents/drafts.rs:500-574 | the save, step by step and with others editing in between, computes the specified disk and outcome |
| `Drafts.ReplacesAreCompareAndSwap` | src-tauri/src/documents/drafts.rs:196-232 | a file is replaced only over content with the expected hash, nothing else is written, and Saved means replaced |
| `Drafts.ConflictsAreReal` | src-tauri/src/documents/drafts.rs:523-560 | a conflict shows content that was in the file and does not have the expected hash |
| `Drafts.JournalIfWritten` | src-tauri/src/documents/drafts.rs:863-888 | a save that wrote its journal leaves it unless it ended in Saved, and touches no other |
| `Drafts.HubTextSurvives` | src-tauri/src/documents/drafts.rs:527-574 | once the journal is written the caller's text is in it wherever the save stops, or was put in the file |
| `Drafts.UndisturbedSave` | src-tauri/src/documents/drafts.rs:500-574 | undisturbed, a save succeeds if and only if the file has the expected hash |
| `Drafts.SavedExactly` | src-tauri/src/documents/drafts.rs:500-574 | whatever others do meanwhile and wherever the save stops, it is rejected exactly if it is not let in, and succeeds exactly if the file is as expected both times and nothing stops it |
| `Drafts.ConflictExactly` | src-tauri/src/documents/drafts.rs:523-560 | it ends in a conflict exactly if it comes as far as content that is not expected, when first read or when checked again, and shows that content |
| `Drafts.FailuresHaveReasons` | src-tauri/src/documents/drafts.rs:500-574 | it fails only if an operation fails or the file is gone, and crashes only if the program stops |
| `Drafts.JournalsAreTheUnsaved` | src-tauri/src/documents/drafts.rs:500-574 | over any sequence of operations a journal exists exactly if the last save that wrote it did not end in Saved, and names a registered document |
| `Drafts.AddingNeverOverwrites` | src-tauri/src/documents/drafts.rs:386-407 | a new document never overwrites a file; what appears is the whole registered document or a part left by a failed write, and only folder markers go |
| `Drafts.AddingKeepsContent` | src-tauri/src/documents/drafts.rs:418-498 | whatever others edit meanwhile, taking over an existing file changes only that file, only while it has the content that was read, and only by its identity |
| `Drafts.AddingRegisters` | src-tauri/src/documents/drafts.rs:418-498 | a file taken over is registered unless putting its identity in fails and that can be taken back |
| `Drafts.AddingIsRefused` | src-tauri/src/documents/drafts.rs:418-448 | and not at all for an inactive change, a missing file or one that is registered already |
| `Drafts.AddingNewRegisters` | src-tauri/src/documents/drafts.rs:386-407 | a new document stays registered exactly if its file was written or the registration could not be taken back, and its file holds the text or the part that was written |
| `Drafts.ReopeningGivesBackTheFile` | src-tauri/src/documents/drafts.rs:783-805 | without a journal the offer is the last opened registered document with its file's text and that text's hash, and saving it changes no file and no journal; also exactly when nothing is open and when it cannot be opened |
| `Drafts.RecoveryOffersTheUnsaved` | src-tauri/src/documents/drafts.rs:723-781 | after any history, recovering the active draft offers exactly the text of the first document whose last save did not finish, with what is in its file now as the conflict; and nothing unsaved if all did |
| `Drafts.SavingTheOfferSettles` | src-tauri/src/documents/drafts.rs:723-781 | saving what was offered with the hash it was offered with settles that document alone |
| `Drafts.RecoverySettlesTheReached` | src-tauri/src/documents/drafts.rs:729-781 | a journal is settled if and only if it and every journal before it can be recovered |
| `Drafts.RecoveryDrains` | src-tauri/src/documents/drafts.rs:729-781 | recovering and saving as often as there are journals settles them all if and only if each can be recovered |
| `Drafts.RecoveryRestoresTheTexts` | src-tauri/src/documents/drafts.rs:729-781 | the text of every settled journal ends up in its file, unless a later settled one names the same file |
| `FileNames.MakeStem` | src-tauri/src/documents/authoring.rs:104-121 | the loop computes the specified slug |
| `FileNames.SlugIsNormal` | src-tauri/src/documents/authoring.rs:104-122 | a slug is empty or lower-case alphanumeric runs with single dashes between |
| `FileNames.SlugJoinsWords` | src-tauri/src/documents/authoring.rs:104-121 | whatever stands between two words becomes one dash, and the words stay, in lower case as far as ASCII goes |
| `FileNames.ExtensionsDecide` | src-tauri/src/documents/authoring.rs:88-103 | a word with another extension is refused; with the extension md, in any case, or none, it gets that one |
| `FileNames.ExtensionIsAfterTheDot` | src-tauri/src/documents/authoring.rs:90-96 | the extension is what follows the last dot of the last part of the path |
| `FileNames.LeadingDotIsNone` | src-tauri/src/documents/authoring.rs:90-96 | neither a leading dot nor a dot in a folder's name makes an extension |
| `FileNames.ReservedNames` | src-tauri/src/documents/authoring.rs:445-452 | the reserved names are con, prn, aux, nul, com1 to com9 and lpt1 to lpt9, in any case |
| `FileNames.DecimalIsTheNumber` | src-tauri/src/documents/authoring.rs:168-171 | the suffix is the number's decimal notation |
| `FileNames.CandidateKeepsTheStem` | src-tauri/src/documents/authoring.rs:168-178 | a suggestion is the stem with the number behind it, cut as little as the limit asks |
| `FileNames.NormalizedIsNormal` | src-tauri/src/documents/authoring.rs:88-130 | every normalized name has a stem in normal form, not reserved and of at most 200 bytes |
| `FileNames.NormalizeIsIdempotent` | src-tauri/src/documents/authoring.rs:88-130 | normalizing is idempotent, and its fixed points are exactly the names with such stems |
| `FileNames.TruncationPoint` | src-tauri/src/documents/authoring.rs:173-176 | stepping back finds the last character boundary that fits |
| `FileNames.CandidateIsFixed` | src-tauri/src/documents/authoring.rs:168-178 | every suggestion is a normalized name with a stem of at most 200 bytes |
| `FileNames.CandidatesDiffer` | src-tauri/src/documents/authoring.rs:168-178 | candidates with different numbers never collide with each other |
| `FileNames.TakenAreFew` | src-tauri/src/documents/authoring.rs:168-186 | there are no more taken candidates in a row than existing names |
| `FileNames.SuggestName` | src-tauri/src/documents/authoring.rs:163-186 | the search gives the least free number within one more try than there are names |
| `FileNames.ValidateName` | src-tauri/src/documents/authoring.rs:132-197 | a collision is reported exactly, and the suggestion is free and already normalized |
| `FileNames.ChooseName` | src-tauri/src/documents/drafts.rs:361-385 | with an unchanged folder the retry loop settles after at most one suggestion on a free name |
| `Frontmatter.SplitAfterPrint` | src-tauri/src/documents/authoring.rs:352-360 | printing and splitting gives YAML and body back if and only if the YAML has no mark inside |
| `Frontmatter.MarkdownBody` | src-tauri/src/documents/search_text.rs:15-32 | the line-by-line loop computes the specified body |
| `Frontmatter.NoFrontmatterIsAllBody` | src-tauri/src/documents/search_text.rs:15-22 | a document that does not begin with a line of three dashes is all body |
| `Frontmatter.UnclosedFrontmatterHasNoBody` | src-tauri/src/documents/search_text.rs:23-32 | frontmatter that is never closed leaves no body |
| `Frontmatter.DelimiterIsDashesOrDots` | src-tauri/src/documents/search_text.rs:23-32 | a delimiting line is three dashes or three dots, however it is ended |
| `Frontmatter.CrlfSplits` | src-tauri/src/documents/authoring.rs:352-360 | a template with the other line ends is split at its first mark |
| `Frontmatter.BodyAfterPrint` | src-tauri/src/documents/search_text.rs:15-32 | search sees exactly the printed body if and only if no line of the YAML is a delimiter |
| `Frontmatter.PrintThenSplit` | src-tauri/src/documents/authoring.rs:294-312 | both ways of taking a rendered document apart give its body back |
| `Discovery.DiscoveryWalk.DiscoverDirectory` | src-tauri/src/documents/discovery.rs:87-146 | the recursion over shared sets computes the specified tree and walk and ends despite cycles |
| `Discovery.DiscoveryWalk.DiscoverDocuments` | src-tauri/src/documents/discovery.rs:14-52 | the loop over the roots computes the specified catalogue |
| `DiscoveryProofs.ListAccounts` | src-tauri/src/documents/discovery.rs:87-137 | the trees hold exactly the documents added to the list, and one folder for every directory entered |
| `DiscoveryProofs.EntersTheReachable` | src-tauri/src/documents/discovery.rs:87-146 | below one root exactly the reachable directories are entered, each once |
| `DiscoveryProofs.SeesTheReachable` | src-tauri/src/documents/discovery.rs:87-146 | the files seen are those seen before and the Markdown files in reachable directories |
| `DiscoveryProofs.FailsExactlyOnBroken` | src-tauri/src/documents/discovery.rs:87-146 | the search fails if and only if something that matters in a reachable directory cannot be read |
| `DiscoveryProofs.FoundInPlainTerms` | src-tauri/src/documents/discovery.rs:87-146 | a file counts exactly if an entry of a reachable directory leads to it inside root and repository, outside .git, and it is a Markdown file that can be read |
| `DiscoveryProofs.BrokenInPlainTerms` | src-tauri/src/documents/discovery.rs:87-146 | what matters and cannot be read: a link without a target, a target that is gone, a Markdown file that cannot be opened |
| `DiscoveryProofs.MarkdownByName` | src-tauri/src/documents/discovery.rs:180-184 | a Markdown file is one whose name has something before its last dot and md after it, in any case |
| `DiscoveryProofs.DisplayIsTotal` | src-tauri/src/documents/discovery.rs:208-218 | the display order is total and transitive |
| `DiscoveryProofs.LexicographicMeans` | src-tauri/src/documents/discovery.rs:208-218 | one text comes before another if it is the beginning of it, or has the smaller character where they first differ |
| `DiscoveryProofs.CatalogueIsInOrder` | src-tauri/src/documents/discovery.rs:38-52 | the list goes by path without regard to case, then by path, and the trees have folders first |
| `DiscoveryProofs.OrderInAFolder` | src-tauri/src/documents/discovery.rs:193-206 | folders come first; among folders, or among documents, the lesser name without regard to case, then the lesser path |
| `DiscoveryProofs.PortablePathSplits` | src-tauri/src/documents/discovery.rs:186-191 | a portable path has exactly the parts below the repository |
| `DiscoveryProofs.GitIsAPart` | src-tauri/src/documents/discovery.rs:225-229 | a configured root is skipped exactly if one of its parts is .git |
| `DiscoveryProofs.CatalogueIsComplete` | src-tauri/src/documents/discovery.rs:14-52 | the flat list is sorted, names every reachable Markdown file once, and is a permutation of the leaves of all trees |
| `DiscoveryProofs.DiscoveryFailsExactly` | src-tauri/src/documents/discovery.rs:14-52 | there is no catalogue if and only if a root is refused or something below one cannot be read |

## Left out

- The counters `skipped` and `count` of the board are natural numbers here; that a board large enough to overflow 32 bits is not built is not shown.
- GitHub items are reduced to URL, status, labels, fields and sub-issue links; reading, caching and storing boards are not modelled.
- The signed-in principal and the cached access session: their writes happen outside the lifecycle lock, so nothing is claimed about them.
- The refresh mutex that lets one refresh run at a time; the protocol allows several, and its results hold for them too.
- `DevicePolling.PollForTokens`: the clock is taken not to run backwards and a wait not to end early; in the protocol polling may end at any time with any answer.
- The panic when the authentication generation reaches its 64-bit limit, and the completing phase of a job, which no login uses.
- Token lifetimes: any tokens a refresh loads may be due for renewal, even a fresh login's. A failed save of tokens is taken to leave the store as it was.
- The text of error messages and the redaction of secrets.
- `SearchMatch.MatchedRangeMatches`: positions are counted in characters, not bytes, and the folding of a character is a parameter that yields at least one character.
- Snippets around a match, SQL, and the full-text filter for queries of three or more characters, which admits fewer rows than the rank does.
- `SearchCache.DocumentCache.ApplyReconcile`: the deleted paths are a set, so the order of deletions is not kept, and SQL errors are one answer at commit.
- `DocumentEventStream.EventTask.Receive`: the queue to the client is taken to be open until the task is cancelled; revisions are natural numbers; a barrier id is taken to be drawn once.
- The watcher and the body indexing of the document runtime; only what they publish under its lock is modelled.
- `SessionInvariants.ResourcesAreLinear`: waiting for a listener to finish is not modelled, and the mutation lock is left open, which allows more interleavings than the code has.
- The document versions a session context has issued.
- Preview contents, their registry and the repository work of an initialization; it succeeds, fails, or is refused for the account.
- `InitializationRuns.QuietStatesAgree`: commands may be dropped while they wait for the lock or work, but not while a settings write is running in the background, which could otherwise finish after the lock is given back.
- `Drafts.ReplacesAreCompareAndSwap`: edits between the recheck of the hash and the rename are not modelled.
- `Drafts.HubTextSurvives`: a journal write that fails is taken to leave the previous journal; the first write of a file is not a rename in the code.
- `Drafts.JournalsAreTheUnsaved`: one draft with its own files; creating, listing and deleting drafts and the git worktree are not modelled.
- Unicode normalization: names are taken to be in form C already.
- `FileNames.SuggestName`: holds for folders with fewer names than a 32-bit suffix can count.
- The folder checks of a new document and the check that a path stays below the repository.
- YAML emission and parsing: YAML is text.
- `DiscoveryProofs.CatalogueIsComplete`: a document's summary is its canonical path and title; the checks of a configured root are one answer, and lower-casing is a parameter.
- The Tauri commands around all this, the keychain, HTTP and the user interface.

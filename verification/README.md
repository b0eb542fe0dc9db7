# The resource sync engine of digital-advisor, verified

This project models the part of digital-advisor that decides which Feishu resources to synchronise, schedules
them, executes each sync inside one database session, and repeats that at every tick, together with the
services around it that carry laws of their own: the OAuth state codec, the migration that merges duplicate
resources, the administration bootstrap, the work-event upsert, the permission inference and recalculation,
the paged Bitable reader, the sync policies and the owner actions.

Values are datatypes and their laws are lemmas. What the repository updates in place is a class whose methods
are proved against a specification function on values: `AfterSync`, `AfterTurn`, `After`, `AfterCompany` and
so on. The laws over all runs are then proved about those functions, by induction over sequences of
operations. What the functions compute is pinned down separately, by laws whose names end in "ByText" or
"ByColumns" and their like, which speak of the stored texts and columns and not of the functions.

| file | what it models |
|---|---|
| Text, Lists | string operations, order-preserving de-duplication |
| Strategy, Decisions | type normalisation, plans, the decision, the reader arguments, the sync status |
| SyncResults | reading a reader's reply: ids, counts, errors |
| Workspace, WorkspaceSafety | one sync, retry, clear or decision on a session with committed tables; laws over all sequences of them |
| SyncOutcomes | what a sync decides, reads and leaves, by the stored texts and columns |
| Scheduler, Fairness, Ticks | the selection, rounds of selections, the tick and its interval gate, progress and spacing over ticks |
| Histories | requests and ticks in any mixture |
| Pagination | the paged reader against any server |
| Utf8, Base64Url, JsonText, Uuids, OAuthState | the OAuth state codec |
| JsonGrammar | the grammar of JSON, and that json.loads reads exactly its texts |
| IdentityMigration | migration 0020 |
| Bootstrap, BootstrapSession | the administration bootstrap: what it leaves, and how a session that does not autoflush gets there |
| WorkEvents | the keyed upsert |
| Permissions, PermissionTables, BotUsers | profile inference, its tables, the recalculation |
| SyncPolicy, OwnerActions | sync policies, owner actions |

The Feishu side is an arbitrary reply: it may raise, return anything and save any events. Losing the closing
commit is possible at every call. `World` holds everything a call meets outside its arguments.

## What the code does that its design does not promise

Each of these is modelled as the code has it, with the exact condition under which the promise holds.

- `sync_feishu_information` commits the shared session (digital-advisor/app/services/feishu/sync.py:432)
  before the sync closes its run. A committed run is left "running" if and only if a fetch came back and the
  closing commit was then lost (`LeftRunningIff`).
- Clearing "the access block" removes the whole governance entry, so a good sync also forgets an owner's
  access decision, on resources that were never blocked as well (`SyncKeepsOwnerDecisionIff`,
  `OwnerDecisionIsLost`).
- The scheduler makes progress through exactly the picks whose call stamps them (`RoundLaw`). One that never
  stamps, such as a chat read with a user's token, stays at the head of the queue, and as many of those as the
  limit starve all others (`UnstampedHeadsStarveTheRest`, `YoungerChatIsNeverPicked`).
- The OAuth state survives the round trip if and only if its three texts are trimmed and not empty
  (`RoundTripIff`). The parser lets an exception out if and only if a non-ASCII character follows the prefix, the
  text needs an integer of more than 4300 digits or more nesting than the interpreter has room for, or str() of a
  payload value it reads raises (`EscapesIff`). `LongNumberEscapes` and `DeepNestingEscapes` are inputs in ASCII, and
  `EscapesBehindSurrogate` are more of them: json.loads reads on after an unpaired surrogate escape.
- One more department can take a domain away: "approval", from a finance manager who becomes an admin, and in
  no other case (`DomainIsLostIff`); what the user may ask does not shrink (`AccessNeverNarrows`).
- A recalculation that reports no change may still rewrite rows; `RowStaysIff` and `TableStaysIff` say when it
  does not.
- The upsert looks up only non-empty external ids, so the unique constraint raises on a second event of a
  source with the empty id, and only then (`RefusedIff`).
- The bootstrap fails if and only if new resources of one company share an identity, because its session does
  not autoflush (`FailsIff`).
- The two loops that collect ids disagree if and only if some falsy id has a text that is not empty and is no
  truthy id's, such as the number 0; or a truthy id had an empty text, which no JSON value has (`DedupAgreesIff`).
- The selection keeps to its limit if and only if the limit is at least one, because the loop tests it after
  adding (`LimitHoldsIff`).

## Model

| member | source | states |
|---|---|---|
| `Decisions.AnyMarkerIsRedaction` | digital-advisor/app/services/v5_sync_decisions.py:149-154 | the five redaction markers can be tested by the one they all end in, for every text |
| `Decisions.DispatchIsComplete` | digital-advisor/app/services/v5_resource_status.py:178-180 | for every resource and policy `supported` is `executable`: an executable decision is either index-only or has reader arguments, through normalisation, strategy, identifier checks and dispatch |
| `Decisions.ExecutorAgreesWithScheduler` | digital-advisor/app/services/v5_auto_sync.py:44-46 | what may be auto-synced under a company's full policy is executable under the modes alone that the executor is given, and with the same action |
| `SyncResults.CollectEventIds` | digital-advisor/app/services/v5_workspace.py:660-669 | the loop returns the distinct non-empty ids of the reply, in order of first appearance |
| `SyncResults.AddEventIds` | digital-advisor/app/services/v5_workspace.py:665-668 | the inner loop extends the distinct ids by those of one value of the reply |
| `SyncResults.CountItemsSeen` | digital-advisor/app/services/v5_workspace.py:755-772 | the count is the declared counts plus the number of distinct truthy ids, never below the minimum |
| `SyncResults.TruthyIds` | digital-advisor/app/services/v5_workspace.py:761-763 | the ids kept for counting are those that are truthy, in order |
| `Lists.DistinctFacts` | digital-advisor/app/services/v5_workspace.py:667-668 | the de-duplication that keeps first occurrences loses no element, repeats none, and is never longer |
| `SyncResults.DedupAlgorithmsAgree` | digital-advisor/app/services/v5_workspace.py:660-772 | for string ids the two loops find the same ids: the id list has no repeats and the unclamped count is its length plus the declared counts |
| `SyncResults.ClampBitesIffNegative` | digital-advisor/app/services/v5_workspace.py:764-772 | for string ids the clamp bites if and only if the declared counts sum below zero, so never with non-negative counts |
| `SyncResults.DedupAgreesIff` | digital-advisor/app/services/v5_workspace.py:660-772 | for ids of any kind the two loops find the same ids if and only if no truthy id has an empty text and the text of every falsy id is empty or that of a truthy one |
| `SyncResults.CountsAgreeIff` | digital-advisor/app/services/v5_workspace.py:660-772 | and then, ids of any JSON kind, the counts agree exactly when the ids do |
| `SyncResults.NumericIdIsListedButNotCounted` | digital-advisor/app/services/v5_workspace.py:665-667 | it happens: the number 0 is listed by one loop and not counted by the other |
| `Workspace.Session.constructor` | digital-advisor/app/services/v5_workspace.py:97-98 | a session starts on the committed tables |
| `Workspace.Session.Commit` | digital-advisor/app/services/v5_workspace.py:369-369 | a commit that is reached makes the session's tables durable, one that is not changes nothing durable |
| `Workspace.Session.Rollback` | digital-advisor/app/services/v5_auto_sync.py:206-206 | the session is back at the committed tables |
| `Workspace.Session.StartRun` | digital-advisor/app/services/resource_sync_runs.py:10-31 | the session gains one run row, running, with zero counts |
| `Workspace.Session.FinishRun` | digital-advisor/app/services/resource_sync_runs.py:34-52 | the row gets its status, end, counts clamped at zero, and error; no other row changes |
| `Workspace.Session.Stamp` | digital-advisor/app/services/v5_workspace.py:349-349 | only the resource's last sync time changes |
| `Workspace.Session.MarkBlocked` | digital-advisor/app/services/v5_workspace.py:818-836 | the governance entry gets the block's four keys and keeps every other key; nothing else changes |
| `Workspace.Session.ClearBlock` | digital-advisor/app/services/v5_workspace.py:420-425 | the governance entry is gone, and the call says whether there was one |
| `Workspace.Session.StopHere` | digital-advisor/app/services/v5_workspace.py:141-196 | a call that is not admitted leaves one closed run row and nothing else |
| `Workspace.Session.IndexOnly` | digital-advisor/app/services/v5_workspace.py:198-217 | the index exit stamps, clears, saves the one index event and closes the run with one item |
| `Workspace.Session.ReadAsUser` | digital-advisor/app/services/v5_workspace.py:234-269 | the user-token exit binds the events it saved and stamps and clears only a clean Bitable read |
| `Workspace.Session.TouchAfterUserRead` | digital-advisor/app/services/v5_workspace.py:250-252 | the stamp and the clear after a user-token read happen together or not at all |
| `Workspace.Session.FailFetch` | digital-advisor/app/services/v5_workspace.py:320-323 | a fetch that raises leaves a failed run and what it had saved |
| `Workspace.Session.Fetch` | digital-advisor/app/services/v5_workspace.py:308-369 | the fetch exit leaves what the specification of the exit says, also when the closing commit is lost after the reader's own |
| `Workspace.Session.Govern` | digital-advisor/app/services/v5_workspace.py:331-346 | one reply marks, clears or leaves the block; it never marks and clears |
| `Workspace.Session.TouchAfterFetch` | digital-advisor/app/services/v5_workspace.py:331-349 | after a fetch the resource is governed by the reply and stamped in every case |
| `Workspace.Session.FinishRead` | digital-advisor/app/services/v5_workspace.py:350-356 | the closed run has the items seen, indexed and skipped of the reply |
| `Workspace.Session.Sync` | digital-advisor/app/services/v5_workspace.py:97-389 | for every resource, request, reply and loss of the closing commit, the call leaves the durable tables the specification gives and returns or raises as it says |
| `Workspace.Session.Clear` | digital-advisor/app/services/v5_workspace.py:27-37 | an explicit clear removes the governance entry and says whether there was one, finds no resource, or raises when the commit fails |
| `Workspace.Session.DecideAccess` | digital-advisor/app/services/v5_workspace.py:75-94 | an access decision is recorded, reset or refused as the governance service does; an unknown one raises; nothing else changes |
| `WorkspaceSafety.StepRuns` | digital-advisor/app/services/v5_workspace.py:128-389 | a step only appends run rows, and appends a running one exactly when a fetch came back and the closing commit was lost |
| `WorkspaceSafety.LeftRunningIff` | digital-advisor/app/services/v5_workspace.py:308-369 | over any sequence of steps a committed run is left running if and only if some fetch came back and then lost its closing commit |
| `WorkspaceSafety.RunRowsAddUp` | digital-advisor/app/services/resource_sync_runs.py:34-52 | over any sequence of steps no run row is rewritten or removed and every success, partial or failed row has seen = indexed + skipped |
| `WorkspaceSafety.ClosedRunIsAccounted` | digital-advisor/app/services/v5_workspace.py:350-356 | however a call ends, the row it closes adds up |
| `WorkspaceSafety.CallsAreIsolated` | digital-advisor/app/services/v5_auto_sync.py:191-207 | a call changes no other resource and removes no run and no event, and one that raises changes no resource |
| `WorkspaceSafety.PlainSyncOfBlockedOnlyRecordsASkip` | digital-advisor/app/services/v5_workspace.py:141-149 | a plain sync of a blocked resource appends a skipped run and leaves last sync, events and block as they were |
| `WorkspaceSafety.RetryDecidesOnTheUnblockedResource` | digital-advisor/app/services/v5_workspace.py:401-417 | a retry decides as a plain sync of the same resource without its governance would |
| `WorkspaceSafety.DecisionKeepsStatus` | digital-advisor/app/services/v5_resource_governance.py:13-33 | no access decision changes the block status |
| `WorkspaceSafety.ResetUndoesDecision` | digital-advisor/app/services/v5_resource_governance.py:16-31 | resetting right after deciding restores the governance entry, and drops it when nothing else is in it |
| `WorkspaceSafety.BlockAfterExit` | digital-advisor/app/services/v5_workspace.py:331-346 | after a call the resource is blocked exactly when the call imposed a block or it was blocked and the call did not succeed; no call does both |
| `WorkspaceSafety.SyncOfBlocked` | digital-advisor/app/services/v5_workspace.py:116-161 | a call lifts a block only when it succeeds and commits, and a plain sync never does |
| `WorkspaceSafety.StepKeepsBlock` | digital-advisor/app/services/v5_workspace.py:331-346 | a step keeps the block exactly when it is not an explicit clear or a successful retry |
| `WorkspaceSafety.BlockedUntilReleased` | digital-advisor/app/services/v5_workspace.py:401-425 | over any sequence of steps without a release a blocked resource stays blocked; without a retry its status and last sync stay as they were |
| `WorkspaceSafety.BlockAppearsOnlyFromAFetch` | digital-advisor/app/services/v5_workspace.py:331-344 | a block appears if and only if a committed fetch of that resource came back with the error its type is blocked for: 230002 or the out-of-chat text on a chat, 99992402 with field validation failed on a calendar |
| `WorkspaceSafety.SyncKeepsOwnerDecisionIff` | digital-advisor/app/services/v5_workspace.py:420-425 | a sync keeps an owner's access decision exactly when there is none or the call does not both succeed and commit |
| `WorkspaceSafety.OwnerDecisionIsLost` | digital-advisor/app/services/v5_workspace.py:345-346 | a chat that was never blocked, marked ignore, loses the mark at its next good sync |
| `SyncOutcomes.TypesByText` | digital-advisor/app/services/v5_resources.py:47-52 | every stored type text, trimmed and lower-cased, is of one of the twelve types or of none, capabilities by their id |
| `SyncOutcomes.NamesByText` | digital-advisor/app/services/v5_resources.py:24-52 | each stored text stands under its normal name in a policy's list of types |
| `SyncOutcomes.PlanByText` | digital-advisor/app/services/v5_sync_strategy.py:401-519 | layer, action and extraction for every stored type text and every pair of mode texts, the default modes included |
| `SyncOutcomes.StatusByText` | digital-advisor/app/services/v5_sync_decisions.py:73-110 | the status of a decision by columns: the first reason that applies against a sync |
| `SyncOutcomes.ExecutableByText` | digital-advisor/app/services/v5_sync_decisions.py:73-192 | a decision is executable exactly for an enabled Feishu resource with complete, unredacted identifiers, not blocked, of a type the policy lists and its modes leave on |
| `SyncOutcomes.DecisionByText` | digital-advisor/app/services/v5_workspace.py:401-440 | a call decides under its two modes alone, on the resource without governance when it retries a blocked one, and registers documents only unless a doc is to be vectorized |
| `SyncOutcomes.StopsOrIndexes` | digital-advisor/app/services/v5_workspace.py:141-217 | a call stops exactly when the decision or the app configuration is missing, and registers exactly the documents that are not to be vectorized |
| `SyncOutcomes.ReadsAsApp` | digital-advisor/app/services/v5_workspace.py:392-398 | everything else is fetched by the app, unless a user identity is preferred |
| `SyncOutcomes.ReadsAsUser` | digital-advisor/app/services/v5_workspace.py:501-530 | a user's token reads Bitable tables with a table id and gets an unavailable reply for all else |
| `SyncOutcomes.ArgsByText` | digital-advisor/app/services/v5_workspace.py:474-498 | what the reader is asked for, by stored type text and columns |
| `SyncOutcomes.IndexedLeaves` | digital-advisor/app/services/v5_workspace.py:198-217 | a registered document leaves exactly: stamp, no governance, one bound event, a successful run with one item |
| `SyncOutcomes.IndexedIgnoresReply` | digital-advisor/app/services/v5_workspace.py:198-217 | the tables a registered document leaves do not depend on the reply |
| `SyncOutcomes.VectorizedDocIsFetched` | digital-advisor/app/services/v5_workspace.py:308-319 | a doc under knowledge_vectorize is fetched with the preferred app's account, with extraction, and what was saved is there |
| `SyncOutcomes.StoppedLeaves` | digital-advisor/app/services/v5_workspace.py:141-196 | a call that stops leaves one run, skipped when the decision forbids it and failed when the configuration is missing, and nothing else |
| `SyncOutcomes.FailedFetchLeaves` | digital-advisor/app/services/v5_workspace.py:320-323 | a fetch that raises leaves a failed run with the first 1000 characters of its message, and the events saved |
| `SyncOutcomes.FetchedRun` | digital-advisor/app/services/v5_workspace.py:350-367 | the run of a fetch, by column: success exactly when all objects are available, indexed the ids, seen and skipped from the counts |
| `SyncOutcomes.ListedIds` | digital-advisor/app/services/v5_workspace.py:660-669 | the ids of a reply are the non-empty texts its objects list |
| `SyncOutcomes.SeenOfOne` | digital-advisor/app/services/v5_workspace.py:755-772 | a value without ids counts items_seen, else saved_count, else total |
| `SyncOutcomes.FetchedEvents` | digital-advisor/app/services/v5_workspace.py:839-848 | after a fetch all saved events are there, and exactly the listed ones of the company are bound to the resource |
| `SyncOutcomes.FetchedResource` | digital-advisor/app/services/v5_workspace.py:331-349 | after a fetch the resource is stamped in any case, blocked, cleared or left by the reply, and otherwise as it was |
| `SyncOutcomes.BlockedByError` | digital-advisor/app/services/v5_workspace.py:331-344 | the error of a committed fetch makes a chat bot_not_in_chat on 230002 or the out-of-chat text, a calendar requires_user_authorization on 99992402 with field validation failed, and leaves governance alone in every other case |
| `SyncOutcomes.NoErrorIff` | digital-advisor/app/services/v5_workspace.py:775-787 | a reply has an error exactly when some object of it has a text that is not empty |
| `SyncOutcomes.ErrorHolds` | digital-advisor/app/services/v5_workspace.py:788-789 | the error holds whatever any of the texts holds, as long as they fit into 1000 characters |
| `SyncOutcomes.BotLeftChat` | digital-advisor/app/services/v5_workspace.py:331-337 | so a chat is blocked whenever any object of the reply reports 230002 |
| `SyncOutcomes.LostCommitLeaves` | digital-advisor/app/services/v5_workspace.py:308-369 | a lost closing commit takes everything with it, but for the open run and the saved events of a fetch that came back |
| `SyncOutcomes.AnswerByText` | digital-advisor/app/services/v5_workspace.py:217-389 | a call raises exactly when its way raised or the commit is lost, and otherwise says availability, number of events and whether governance was cleared |
| `SyncOutcomes.UserReadLeaves` | digital-advisor/app/services/v5_workspace.py:250-252 | a read with a user's token stamps and clears exactly on a clean, available reply |
| `SyncOutcomes.DecidedLeaves` | digital-advisor/app/services/v5_resource_governance.py:13-33 | a decision writes its four keys with its label, a reset removes them, an unknown one is refused, and every other key stays |
| `Histories.HistoryIsReplayed` | digital-advisor/app/services/v5_auto_sync.py:191-207 | any mixture of requests and ticks does to resources, runs and events what a sequence of requests does |
| `Histories.HistoryLeavesRunningIff` | digital-advisor/app/services/v5_workspace.py:308-369 | over any mixture of requests and ticks a committed run is left running if and only if some fetch came back and lost its closing commit, and every row adds up |
| `Histories.BlockOutlivesTicks` | digital-advisor/app/services/v5_workspace.py:331-346 | over any mixture of requests and ticks a blocked resource that no request clears or retries stays blocked, with its status and last sync as they were |
| `Scheduler.Select` | digital-advisor/app/services/v5_auto_sync.py:20-55 | the selection is the first admitted resources of the ordered query, as many as the limit and one if it is below one |
| `Scheduler.LimitHoldsIff` | digital-advisor/app/services/v5_auto_sync.py:31-54 | the selection keeps to its limit if and only if the limit is at least one |
| `Scheduler.StatusByColumns` | digital-advisor/app/services/v5_resource_status.py:262-298 | never_synced, stale and healthy by columns: executable, and without a stamp, with one more than 24 hours old, or with a younger one |
| `Scheduler.SelectionByColumns` | digital-advisor/app/services/v5_auto_sync.py:20-55 | the selection is, of the wanted resources, the first in turn: never synced, then by last sync, then by creation; all of them, or exactly as many as the limit says, or one when it is below one |
| `Scheduler.SelectFrom` | digital-advisor/app/services/v5_auto_sync.py:38-55 | the loop with its early break returns exactly the first admitted rows |
| `Scheduler.OnlyFacts` | digital-advisor/app/services/v5_auto_sync.py:38-52 | filtering keeps membership and uniqueness |
| `Scheduler.OnlyInOrder` | digital-advisor/app/services/v5_auto_sync.py:36-36 | the selection is in order of last sync, never-synced first, then creation |
| `Scheduler.SelectedIsExecuted` | digital-advisor/app/services/v5_workspace.py:116-161 | a selected resource is not stopped by the executor's own decision: the call never ends in a skipped run for it |
| `Scheduler.BlockedIsNeverSelected` | digital-advisor/app/services/v5_sync_decisions.py:94-99 | a blocked resource is never selected |
| `Scheduler.RowAfterCall` | digital-advisor/app/services/v5_workspace.py:201-349 | what a call does to its resource depends only on that resource, the request and the reply |
| `Scheduler.RowsAfterPicks` | digital-advisor/app/services/v5_auto_sync.py:191-207 | a round's calls, one after the other, do to each picked resource what the call alone would do |
| `Scheduler.ClassifyIffDue` | digital-advisor/app/services/v5_resource_status.py:262-284 | classification says never_synced or stale exactly when the resource is supported and has no stamp younger than a day |
| `Scheduler.AdmitsIffDue` | digital-advisor/app/services/v5_auto_sync.py:42-51 | under those two statuses the selection admits exactly the due resources |
| `Scheduler.StampedRowIsNotDue` | digital-advisor/app/services/v5_resource_status.py:282-284 | a stamped resource is not due again for a day |
| `Scheduler.RoundLaw` | digital-advisor/app/services/v5_auto_sync.py:191-207 | a round takes from the waiting resources exactly the picks whose call stamped them durably |
| `Scheduler.RoundsRecordNoSkips` | digital-advisor/app/services/v5_auto_sync.py:191-207 | the runs a round records are never skipped runs, whatever the picks before did |
| `Fairness.OldestFirst` | digital-advisor/app/services/v5_auto_sync.py:36-36 | a round serves those waiting at the start before anyone who became due since: it picks all of them, or picks nobody else and fills its limit |
| `Fairness.RoundServes` | digital-advisor/app/services/v5_auto_sync.py:32-55 | a round whose calls all stamp shrinks the waiting set by min(limit, waiting) |
| `Fairness.RoundsServeEveryone` | digital-advisor/app/services/v5_auto_sync.py:32-55 | after any number of such rounds, those waiting at the start are what they were less the picks, one limit per round, so once the rounds times the limit reach their number nobody of them is left |
| `Fairness.RoundsTakePicks` | digital-advisor/app/services/v5_auto_sync.py:32-55 | at any time no more than a day after the calls, those waiting are those who would have waited without the rounds, less all picks |
| `Fairness.OnlyLatecomersWait` | digital-advisor/app/services/v5_auto_sync.py:32-55 | once the rounds have made up for those waiting at the start, whoever waits later on that day became due in the meantime |
| `Fairness.NoSecondTurnBeforeAFirst` | digital-advisor/app/services/v5_auto_sync.py:36-55 | over any number of rounds in which every pick is stamped, no resource is picked twice before every other one that was waiting at the start is picked once |
| `Fairness.UnstampedRoundChangesNothing` | digital-advisor/app/services/v5_workspace.py:250-252 | a round of which no call stamps leaves every resource as it was |
| `Fairness.UnstampedHeadsStarveTheRest` | digital-advisor/app/services/v5_auto_sync.py:36-54 | as many heads of the queue as the limit, none ever stamped, take every round's picks, and nothing else is ever synced, for any limit and any number of rounds |
| `Fairness.YoungerChatIsNeverPicked` | digital-advisor/app/services/v5_workspace.py:250-252 | it happens: of two chats that were never synced, the older read with a user's token, the younger is never picked |
| `Fairness.UserReadChatIsNeverStamped` | digital-advisor/app/services/v5_workspace.py:501-530 | a real-time resource read with a user's token is never stamped |
| `Ticks.SyncCompany` | digital-advisor/app/services/v5_auto_sync.py:173-228 | one company's turn commits its SyncRun first, isolates failing calls by rollback, and closes with results + errors = selected |
| `Ticks.CallPicks` | digital-advisor/app/services/v5_auto_sync.py:191-207 | the loop's durable effect is that of the calls in order, and its errors are the calls that raise |
| `Ticks.Tick` | digital-advisor/app/tasks/celery_app.py:970-996 | a tick runs the due companies in order, each on what the one before left |
| `Ticks.TurnRunsIff` | digital-advisor/app/tasks/celery_app.py:979-985 | a turn a tick reaches appends its company's auto run if and only if every earlier one started at least the interval ago, closes it as success or partial, and ends the tick exactly when a commit of its own is lost; otherwise it changes nothing |
| `Ticks.NoFailureIff` | digital-advisor/app/services/v5_auto_sync.py:191-216 | a run is without errors exactly when none of its calls raised |
| `Ticks.TickKeepsSpacing` | digital-advisor/app/tasks/celery_app.py:979-982 | a tick keeps consecutive auto runs of a company at least the interval in force apart |
| `Ticks.RunsStaySpaced` | digital-advisor/app/services/v5_auto_sync.py:231-248 | over any sequence of ticks whose clock does not run back between a due check and its start, any two auto runs of a company start at least the interval in force at the later one apart, also when syncs roll back |
| `Ticks.TicksServeEveryone` | digital-advisor/app/tasks/celery_app.py:979-985 | progress over any sequence of ticks, whatever other companies, the interval gate and aborted ticks do: once a company's turns times its limit reach the number waiting nobody of them is left, and no resource is picked twice before every other is picked once |
| `Ticks.TicksTakePicks` | digital-advisor/app/tasks/celery_app.py:979-985 | over any ticks, at any time no more than a day after a company's calls, those of it waiting are those who would have waited without the ticks, less the picks of its turns |
| `Ticks.OnlyLatecomersWait` | digital-advisor/app/tasks/celery_app.py:979-985 | once a company's turns have made up for those waiting at the start, whoever waits later on that day became due in the meantime, whatever the other companies, the interval gate and aborted ticks do |
| `Ticks.TurnIsRound` | digital-advisor/app/services/v5_auto_sync.py:188-207 | what a company's turn does to the resources is what a round of the selection does |
| `Ticks.OtherTurnsKeepWaiting` | digital-advisor/app/services/v5_auto_sync.py:33-34 | another company's turn leaves those waiting as they were |
| `Ticks.PicksAreADayOld` | digital-advisor/app/services/v5_resource_status.py:282-284 | under never_synced and stale, a resource is picked only if it has no stamp or one more than 24 hours old |
| `Utf8.DecodeUndoesEncode` | digital-advisor/app/services/user_identity_authorizations.py:86-98 | decoding the UTF-8 of any text gives the text back |
| `Base64Url.DecodeUndoesEncode` | digital-advisor/app/services/user_identity_authorizations.py:87-98 | base64url of any bytes decodes to those bytes |
| `Base64Url.RepadUndoesStrip` | digital-advisor/app/services/user_identity_authorizations.py:87-96 | stripping the padding and adding -len % 4 of it back loses nothing, for any number of bytes |
| `JsonText.ScanUndoesEscape` | digital-advisor/app/services/user_identity_authorizations.py:86-98 | an escaped string is scanned back to the text, for every text |
| `JsonText.LoadsUndoesDumps` | digital-advisor/app/services/user_identity_authorizations.py:86-98 | json.loads of the dumped members is the dictionary of the members |
| `Uuids.ParseUndoesText` | digital-advisor/app/services/user_identity_authorizations.py:79-105 | a UUID's text parses to that UUID |
| `OAuthState.UnsealUndoesSeal` | digital-advisor/app/services/user_identity_authorizations.py:86-98 | JSON, UTF-8, base64url and padding together come back as they were written |
| `OAuthState.ParseOfBuild` | digital-advisor/app/services/user_identity_authorizations.py:70-119 | parsing any built state gives it with its three texts stripped, or nothing when one is blank |
| `OAuthState.RoundTripIff` | digital-advisor/app/services/user_identity_authorizations.py:70-119 | parse(build(s)) = s if and only if the three texts are trimmed and not empty, for any Unicode text and any UUIDs |
| `OAuthState.BuildIsInjective` | digital-advisor/app/services/user_identity_authorizations.py:70-88 | two such states are never built into the same text |
| `OAuthState.OnTheWire` | digital-advisor/app/services/user_identity_authorizations.py:70-88 | what travels: the prefix and letters that decode to the JSON object with exactly these keys and texts |
| `OAuthState.KeysAscend` | digital-advisor/app/services/user_identity_authorizations.py:86-86 | the keys of the object are written in ascending order |
| `JsonText.WrittenCompactly` | digital-advisor/app/services/user_identity_authorizations.py:86-86 | the object is written without blanks and every character as it is, in whatever script, unless JSON demands an escape |
| `JsonGrammar.LoadsIffDenotes` | digital-advisor/app/services/user_identity_authorizations.py:97-97 | json.loads accepts exactly the texts of the JSON grammar, with Python's three words and blanks around them, and gives their values |
| `JsonGrammar.GrammarRaisesIff` | digital-advisor/app/services/user_identity_authorizations.py:97-97 | within limits it raises on such a text if and only if an integer of it has more digits, or it nests deeper, than they allow |
| `OAuthState.ParsedIff` | digital-advisor/app/services/user_identity_authorizations.py:91-119 | any text at all is parsed as a state if and only if, trimmed, it is the prefix and ASCII that decodes to a JSON object which says that state |
| `Base64Url.Alphabet` | digital-advisor/app/services/user_identity_authorizations.py:87-87 | the URL-safe alphabet of RFC 4648 |
| `Base64Url.TestVectors` | digital-advisor/app/services/user_identity_authorizations.py:87-87 | the test vectors of RFC 4648 for the three lengths of a group |
| `Base64Url.JunkIsPassedOver` | digital-advisor/app/services/user_identity_authorizations.py:97-97 | characters outside the alphabet are passed over wherever they stand |
| `Uuids.CanonicalText` | digital-advisor/app/services/user_identity_authorizations.py:79-84 | a UUID is written as 36 characters, lower-case digits with dashes at 8, 13, 18 and 23 |
| `JsonText.OverrunIff` | digital-advisor/app/services/user_identity_authorizations.py:97-99 | json.loads raises another error than JSONDecodeError if and only if the text needs a longer integer or deeper nesting than there is room for, where the need is defined by reading without limits; within the limits it reads the same |
| `OAuthState.EscapesIff` | digital-advisor/app/services/user_identity_authorizations.py:91-119 | an exception leaves the parser if and only if a character outside ASCII follows the prefix, or the decoded text needs an integer of more than 4300 digits or more nesting than there is room for, or str() of a value it reads raises |
| `OAuthState.LongNumberEscapes` | digital-advisor/app/services/user_identity_authorizations.py:97-100 | every number of more than 4300 digits, sealed in ASCII, lets an exception out |
| `OAuthState.DeepNestingEscapes` | digital-advisor/app/services/user_identity_authorizations.py:97-100 | so does every run of more opening brackets than there is room for |
| `JsonText.NeedBehindSurrogate` | digital-advisor/app/services/user_identity_authorizations.py:97-98 | what comes after an unpaired surrogate escape in a list is read, and needs what it needs without it |
| `OAuthState.EscapesBehindSurrogate` | digital-advisor/app/services/user_identity_authorizations.py:97-100 | whatever needs too long an integer or too deep nesting lets an exception out also behind an unpaired surrogate escape, in ASCII |
| `OAuthState.SurrogateAndLongNumberEscape` | digital-advisor/app/services/user_identity_authorizations.py:97-100 | in particular the list of an unpaired surrogate escape and any number of more than 4300 digits |
| `IdentityMigration.FirstOf` | digital-advisor/alembic/versions/0020_resource_identity_partial_unique_indexes.py:28-31 | every row's partition has exactly one first row, and first_value is it: no other row of the identity was created earlier, or at the same time with a lower id |
| `IdentityMigration.FirstIsUnique` | digital-advisor/alembic/versions/0020_resource_identity_partial_unique_indexes.py:32-35 | row_number() is 1 for one row of a partition only |
| `IdentityMigration.Database.MoveReferences` | digital-advisor/alembic/versions/0020_resource_identity_partial_unique_indexes.py:41-70 | after the two updates and two deletes every table but the resources is as the migration promises |
| `IdentityMigration.Database.DeleteResources` | digital-advisor/alembic/versions/0020_resource_identity_partial_unique_indexes.py:71-77 | the delete is refused exactly when some row is still referenced |
| `IdentityMigration.Database.Upgrade` | digital-advisor/alembic/versions/0020_resource_identity_partial_unique_indexes.py:20-91 | on any database whose foreign keys hold no statement fails, both unique indexes can be built, and the tables are the promised ones |
| `IdentityMigration.NoDanglingReference` | digital-advisor/alembic/versions/0020_resource_identity_partial_unique_indexes.py:71-77 | when resources are deleted nothing points to them |
| `IdentityMigration.IdentitiesAreUnique` | digital-advisor/alembic/versions/0020_resource_identity_partial_unique_indexes.py:78-91 | afterwards identities are unique with NULL sub ids equal, as both indexes demand |
| `IdentityMigration.EarliestSurvives` | digital-advisor/alembic/versions/0020_resource_identity_partial_unique_indexes.py:24-39 | no identity is lost; a row survives, unchanged, if and only if every other row of its identity was created later, or at the same time with a higher id |
| `IdentityMigration.ReferencesFollowIdentity` | digital-advisor/alembic/versions/0020_resource_identity_partial_unique_indexes.py:41-56 | every event and run survives and points to an existing row of the identity it pointed to before; foreign keys hold |
| `IdentityMigration.GrantsOfDuplicatesAreDropped` | digital-advisor/alembic/versions/0020_resource_identity_partial_unique_indexes.py:57-70 | a source or permission survives, unchanged, exactly when the row it points to does |
| `IdentityMigration.SecondRunChangesNothing` | digital-advisor/alembic/versions/0020_resource_identity_partial_unique_indexes.py:20-77 | a second application changes nothing |
| `BootstrapSession.Session.Flush` | digital-advisor/app/services/v5_administration.py:206-206 | a flush fails exactly when what was added breaks a unique index, alone or against the table |
| `BootstrapSession.Session.EnsureOwner` | digital-advisor/app/services/v5_administration.py:1175-1213 | the configured owner is promoted in place or added, and counted when added |
| `BootstrapSession.Session.EnsureSetting` | digital-advisor/app/services/v5_administration.py:1225-1240 | the company has a V5 setting afterwards |
| `BootstrapSession.EnsureRows` | digital-advisor/app/services/v5_administration.py:1243-1289 | the loop over the default roles or permissions fills what is there and adds what is missing, and counts what it added |
| `BootstrapSession.Session.EnsureRoles` | digital-advisor/app/services/v5_administration.py:1243-1265 | the roles are ensured and the flush makes an added owner visible to the next step |
| `BootstrapSession.Session.FindOrCreateUser` | digital-advisor/app/services/v5_administration.py:1331-1349 | a user for the open id exists, was added if it did not, and the flush breaks nothing |
| `BootstrapSession.Session.MigrateUsers` | digital-advisor/app/services/v5_administration.py:1292-1328 | users and role links are those of the company's bot users; the flushes in between never fail; the counts are the rows added |
| `BootstrapSession.CollectLegacy` | digital-advisor/app/services/v5_administration.py:1373-1410 | the loop adds a resource for each legacy row without a flushed one, also twice |
| `BootstrapSession.CollectBots` | digital-advisor/app/services/v5_administration.py:1432-1461 | the loop adds a bot resource for each app without a flushed one |
| `BootstrapSession.Session.RegisterResources` | digital-advisor/app/services/v5_administration.py:1352-1461 | the two steps and the flush succeed exactly when the new identities have no repeats |
| `BootstrapSession.Session.EnsureGrants` | digital-advisor/app/services/v5_administration.py:1464-1490 | every resource of the company has an owner permission, and the ones added are counted |
| `BootstrapSession.Session.EnsureCompany` | digital-advisor/app/services/v5_administration.py:196-207 | one company's turn fails exactly on a collision, and otherwise leaves the promised tables |
| `BootstrapSession.Session.Bootstrap` | digital-advisor/app/services/v5_administration.py:178-209 | the whole run fails, and leaves everything as it was, exactly when a flush on the way fails; otherwise the tables are the promised ones and the counters their growth |
| `BootstrapSession.TurnCountsAreGrowth` | digital-advisor/app/services/v5_administration.py:180-207 | what a turn counts is what each table has gained |
| `Bootstrap.FailsIff` | digital-advisor/app/services/v5_administration.py:1373-1461 | a run fails if and only if, before it starts, some company has two new resources of one identity: two legacy rows, two apps, or a legacy bot row and an app |
| `Bootstrap.EveryCompanyIsCovered` | digital-advisor/app/services/v5_administration.py:195-207 | after a run, in every company it went through, every bot user has a user and the link to the role its legacy role is mapped to, or to employee where the company has no such role; the configured owner is an active owner of company scope; every legacy row and app has its resource, and every resource an owner permission |
| `Bootstrap.OnlyMappedLinksAreAdded` | digital-advisor/app/services/v5_administration.py:1292-1328 | a run adds no link but those mapped ones of the bot users of the companies it goes through |
| `Bootstrap.OnlyTheirOwnIsAdded` | digital-advisor/app/services/v5_administration.py:1352-1490 | nor any resource but those of their legacy rows and apps, nor any permission but on their resources |
| `Bootstrap.OnlyBotUsersAreAdded` | digital-advisor/app/services/v5_administration.py:1331-1349 | nor any user but their bot users |
| `Bootstrap.OwnerByColumns` | digital-advisor/app/services/v5_administration.py:1175-1213 | whoever is stored under the configured id is promoted and keeps name and settings, nobody else changes, and a missing owner is added |
| `Bootstrap.SettingByColumns` | digital-advisor/app/services/v5_administration.py:1225-1240 | a missing setting is added, an older one is marked and keeps its entries, one of V5 stays |
| `Bootstrap.RowsByColumns` | digital-advisor/app/services/v5_administration.py:1243-1289 | a default row is added where there is none; a stored one keeps description, entries and scope and takes the default's where it has none |
| `Bootstrap.UnnamedRowsStay` | digital-advisor/app/services/v5_administration.py:1243-1289 | no other row is touched or added |
| `Bootstrap.SecondRunChangesNothing` | digital-advisor/app/services/v5_administration.py:178-209 | a second run goes through the same companies, succeeds and changes nothing, so all its counters are zero |
| `Bootstrap.TurnLeavesOthers` | digital-advisor/app/services/v5_administration.py:195-207 | a company's turn leaves the rows of every other company as they were, in all tables: bot users, settings, roles, permissions, links, resources, grants |
| `Bootstrap.CompanySettles` | digital-advisor/app/services/v5_administration.py:1175-1490 | a company's turn leaves nothing to do for a second one |
| `Bootstrap.FilledFits` | digital-advisor/app/services/v5_administration.py:1246-1253 | filling a row from a default is idempotent and keeps it filled from any other default |
| `WorkEvents.WorkEvent.constructor` | digital-advisor/app/services/work_events.py:32-57 | a new event has the offered values in their columns |
| `WorkEvents.WorkEvent.Update` | digital-advisor/app/services/work_events.py:61-79 | each of the 17 sticky columns takes the new value if truthy and else keeps its own; time and score are overwritten; identity columns stay |
| `WorkEvents.EventTable.Upsert` | digital-advisor/app/services/work_events.py:14-95 | the table after a call is the promised one, and the call fails exactly on the unique constraint |
| `WorkEvents.OneEventPerKey` | digital-advisor/app/services/work_events.py:22-31 | over any sequence of calls there is at most one event for a source and an external id |
| `WorkEvents.CallKeepsKeysUnique` | digital-advisor/app/services/work_events.py:31-60 | no call breaks the unique constraint or changes the id or identity columns of a stored event |
| `WorkEvents.RefusedIff` | digital-advisor/app/services/work_events.py:23-31 | the constraint raises exactly on a second event of a source whose external id is the empty string, which the lookup skips |
| `WorkEvents.EventIsTheFold` | digital-advisor/app/services/work_events.py:14-80 | over any sequence of calls, the event of a non-empty external id exists iff some call named it, and is the one event with id and identity of the first call, time and score of the last, and in every sticky column the last truthy value the requests have for it, redacted, normalised or inferred as the call does, or the first if none is truthy |
| `WorkEvents.OfferedIsRequested` | digital-advisor/app/services/work_events.py:15-20 | what a call offers each column: redacted text, payload and raw record, normalised source type, given or inferred resource, all else as requested |
| `WorkEvents.NothingUnredactedIsStored` | digital-advisor/app/services/work_events.py:16-18 | over any sequence of calls no event holds text, payload or raw record that has not been through a redaction |
| `WorkEvents.MergedByField` | digital-advisor/app/services/work_events.py:61-79 | merging is column by column: no column takes another's value |
| `WorkEvents.OtherKeysStay` | digital-advisor/app/services/work_events.py:22-29 | a call leaves the event of every other key as it was |
| `WorkEvents.NamedKeyIsWritten` | digital-advisor/app/services/work_events.py:31-80 | a call for a key creates its event or merges into it |
| `WorkEvents.RepeatChangesNothingIff` | digital-advisor/app/services/work_events.py:15-80 | the same request again changes nothing if and only if it has an external id and its time does not come from the clock, the empty id excepted, which is refused |
| `Permissions.UniqueNames` | digital-advisor/app/services/permissions.py:162-171 | the names stripped, without the empty ones, each once, in order of first appearance |
| `Permissions.MatchRules` | digital-advisor/app/services/permissions.py:73-78 | the three lists are those of the rules with a label in the text, in table order |
| `Permissions.InferPermissionProfile` | digital-advisor/app/services/permissions.py:53-105 | the profile is the specified one: role by terms, domains, tags and resources of the matched rules |
| `Permissions.ProfileDomains` | digital-advisor/app/services/permissions.py:84-102 | a profile lists exactly the domains found, all for an admin, and approval for a finance manager, once each |
| `Permissions.RoleAndScope` | digital-advisor/app/services/permissions.py:80-105 | role and scope: admin and company with an admin term, manager and domain with a manager term and some domain, else member and chat |
| `Permissions.ProfileTags` | digital-advisor/app/services/permissions.py:84-105 | the tags: one for each domain found and one for the role, for a member only when nothing is found |
| `Permissions.ProfileResources` | digital-advisor/app/services/permissions.py:84-105 | the resources: the stripped ones of the rules found and, for an admin, of the admin list; none for a member |
| `Permissions.SearchTextHolds` | digital-advisor/app/services/permissions.py:60-69 | whatever is in a name, title, address or department is in the searched text |
| `Permissions.AdminTermMakesAdmin` | digital-advisor/app/services/permissions.py:60-91 | so any of them with an admin term in it makes an admin of the company, for any character-wise lower-casing |
| `Permissions.SearchTextGrows` | digital-advisor/app/services/permissions.py:60-69 | one more department only extends the searched text |
| `Permissions.RoleNeverDrops` | digital-advisor/app/services/permissions.py:80-105 | one more department never lowers the role in member < manager < admin, for any tables and any character-wise lower-casing |
| `Permissions.DomainIsLostIff` | digital-advisor/app/services/permissions.py:84-102 | one more department takes a domain away if and only if it makes a finance manager an admin whose text has no approval label, and the domain is approval |
| `Permissions.AccessNeverNarrows` | digital-advisor/app/services/permissions.py:138-150 | the questions a user may ask never shrink when a department is appended |
| `PermissionTables.AppendingTakesApprovalAway` | digital-advisor/app/services/permissions.py:5-105 | with the repository's own tables: a 经理 in 财务 loses approval when 总裁 is appended |
| `BotUsers.UserTable.Recalculate` | digital-advisor/app/services/operations_bot_users.py:582-639 | checked, changed and previews are the same function of the users in a dry and in a real run; only a real run changes the table |
| `BotUsers.UserTable.Visit` | digital-advisor/app/services/operations_bot_users.py:599-636 | one turn of the loop computes the preview, the row a real run stores, and whether it counts |
| `BotUsers.PreviewTellsTheTruth` | digital-advisor/app/services/operations_bot_users.py:696-714 | what a preview shows is what a real run stores |
| `BotUsers.OwnersAreUntouched` | digital-advisor/app/services/operations_bot_users.py:601-603 | owners and admins stay as they are unless asked for, and no identity or inference input is rewritten |
| `BotUsers.AccessIsInferred` | digital-advisor/app/services/operations_bot_users.py:604-636 | a real run stores the access inferred from name, title, address and the stored department names, or the names known of the department ids |
| `BotUsers.SecondRunChangesNothing` | digital-advisor/app/services/operations_bot_users.py:604-636 | a second real run counts nothing and leaves every user as it was |
| `BotUsers.NoChangeReportedIff` | digital-advisor/app/services/operations_bot_users.py:625-632 | a report of zero changes means exactly that no user's role, scope or domains would change |
| `BotUsers.RowStaysIff` | digital-advisor/app/services/operations_bot_users.py:604-636 | a real run leaves a row as it is if and only if it skips the user, or the row is uncounted, has every key, names a source, and has the names, rules and resources of the profile |
| `BotUsers.TableStaysIff` | digital-advisor/app/services/operations_bot_users.py:599-636 | and the whole table if and only if that holds of every user |
| `BotUsers.UncountedRowIsRewritten` | digital-advisor/app/services/operations_bot_users.py:614-636 | it happens: a row whose settings name no source is rewritten although the report counts no change |
| `Pagination.ReadRecords` | digital-advisor/app/services/v5_workspace.py:554-599 | the loop is the specified reading against any server |
| `Pagination.SavePage` | digital-advisor/app/services/v5_workspace.py:567-582 | the inner loop saves the first records of the page, as many as the limit leaves room for |
| `Pagination.AnyServer` | digital-advisor/app/services/v5_workspace.py:559-586 | whatever the server does: at most max_pages requests, each for 1 to 100 records, and exactly the first limit of the received records saved, in order |
| `Pagination.RequestsFitTheRest` | digital-advisor/app/services/v5_workspace.py:560-561 | no request asks for more than is still missing |
| `Pagination.ReadingIsTraced` | digital-advisor/app/services/v5_workspace.py:559-599 | against any server: the first request has no token and every other that of the page before, each asks for what is missing up to 100, the records are those of the replies, it is available exactly without an error, and it stops only for want of pages, room or more |
| `Pagination.ReadingTakes` | digital-advisor/app/services/v5_workspace.py:559-586 | against any server that pages through a list, in pages as short as it likes, the loop saves the beginning of the list, and exactly take(limit, all) unless it used up its pages |
| `Pagination.EnoughPagesTake` | digital-advisor/app/services/v5_workspace.py:559-586 | with at least so many records to a page it is take(limit, all) whenever that many times max_pages reaches the limit or the list |
| `Pagination.FullPagesTake` | digital-advisor/app/services/v5_workspace.py:559-586 | with full pages it is take of the limit or of 100 times max_pages, whichever is less |
| `SyncPolicy.NormalizedIsNormal` | digital-advisor/app/services/v5_sync_policy.py:82-99 | whatever is stored, the policy in force is in range, with clean lists and named modes |
| `SyncPolicy.NormalizingTwice` | digital-advisor/app/services/v5_sync_policy.py:82-99 | normalising is idempotent, also if the settings' defaults changed in between |
| `SyncPolicy.NormalizedByColumns` | digital-advisor/app/services/v5_sync_policy.py:82-99 | each key is read for its own column, with its own range, default and fallback |
| `SyncPolicy.EditedByColumns` | digital-advisor/app/services/v5_sync_policy.py:39-45 | an update replaces the columns it brings, keeps the others and is marked as made in the console |
| `SyncPolicy.Clamp` | digital-advisor/app/services/v5_sync_policy.py:139-144 | the result is the number of the range nearest to int(value), or to the default where int() fails |
| `SyncPolicy.NamesAreNormal` | digital-advisor/app/services/v5_sync_policy.py:121-136 | list entries are trimmed, non-empty and without repeats |
| `SyncPolicy.PolicyTable.Update` | digital-advisor/app/services/v5_sync_policy.py:39-45 | any later read returns exactly what the update returned, and other companies keep their rows |
| `SyncPolicy.EnabledPolicies` | digital-advisor/app/services/v5_sync_policy.py:62-79 | the two loops return the specified entries |
| `SyncPolicy.EntryIff` | digital-advisor/app/services/v5_sync_policy.py:66-78 | a stored policy, also a disabled one, displaces the fallback, and only then |
| `SyncPolicy.EachCompanyOnce` | digital-advisor/app/services/v5_sync_policy.py:62-79 | no company is listed twice |
| `OwnerActions.CollectGroups` | digital-advisor/app/services/v5_owner_actions.py:7-37 | the dictionary holds, in insertion order, one group exactly for each code some item has, built from those items in order; the counts add up to the items that call for an action |
| `OwnerActions.CodeByColumns` | digital-advisor/app/services/v5_owner_actions.py:50-66 | the action an item calls for, by its columns; none once its owner has ignored or refused it |
| `OwnerActions.GroupIff` | digital-advisor/app/services/v5_owner_actions.py:7-15 | there is a group for exactly the actions some item calls for |
| `OwnerActions.ShownInOrder` | digital-advisor/app/services/v5_owner_actions.py:69-117 | invitations come first, then authorizations, identifiers, policy and refresh reviews |
| `OwnerActions.OwnerActionsFrom` | digital-advisor/app/services/v5_owner_actions.py:6-47 | the result holds exactly the groups of the dictionary, by strictly increasing priority, with counts that add up to the items that call for an action |
| `OwnerActions.SortedIsSorted` | digital-advisor/app/services/v5_owner_actions.py:47-47 | sorting the groups gives a permutation of them in order of priority |
| `OwnerActions.OrderIsUnique` | digital-advisor/app/services/v5_owner_actions.py:47-47 | any other sort by priority of groups with different codes gives the same list |
| `OwnerActions.GroupShowsTheFirstTen` | digital-advisor/app/services/v5_owner_actions.py:15-37 | a group counts its items and shows the first ten of them in input order |
| `OwnerActions.GroupListsDomains` | digital-advisor/app/services/v5_owner_actions.py:16-16 | it lists the business domains of its items once each |
| `OwnerActions.GroupListsTexts` | digital-advisor/app/services/v5_owner_actions.py:17-37 | likewise the responsible roles and, for invitations alone, reasons and targets |
| `OwnerActions.TalliesSumToTheCount` | digital-advisor/app/services/v5_owner_actions.py:221-231 | the invite group's recommendation counts are those of its items and sum to its count; other groups have none |

## Left out

- Concurrent workers: calls and ticks come one after another; the code takes no lock.
- Feishu, Redis, Qdrant, MinIO, LLM and mail calls, and the inside of `sync_feishu_information`: arbitrary replies.
- The texts of decisions and runs (reason, label, summary): a run's fixed texts are represented by the reason it stopped.
- Resource configurations that are not objects, and governance values that are not objects.
- `_apply_source_metadata_to_work_events`: it only writes event fields no modelled code reads.
- The query behind the preferred sync source and `normalize_source_type`: the source a call finds is a parameter.
- Lower-casing of type names covers ASCII and the Kelvin sign, the characters that can produce the ASCII keys of the tables.
- SyncRun rows other than those of provider v5_resource and type auto.
- The clock: one value for a selection, one for a call's writes, one for an interval check; microseconds as integers.
- UUIDs as keys are natural numbers, and their order stands for the database's.
- The arguments limit, max_pages and extract_items of a sync only reach the reader and its reply is arbitrary.
- The manual batch sync, the previews and the dashboards: the same selection and calls without new laws.
- Unpaired surrogates: an OAuth state is a sequence of Unicode scalar values; an unpaired surrogate escape in its JSON is accepted as json.loads accepts it, but the text it stands in holds U+FFFD in its place.
- JSON in the OAuth state: str() (which may raise) and truth of values that are not strings, the looseness of int(text, 16), and the room left for nesting are parameters of every theorem; the digit limit is the interpreter's default.
- `mark_user_identity_authorization`, authorization URLs and callback pages.
- Migration 0020 on columns other than identity and creation time; the temporary table's lifetime.
- Bootstrap: columns it writes once and never reads (names, sync modes, payloads); users are told apart by external id only; the owner's permission on a resource is a fact, not a row with a level.
- `legacy_bot_role_to_v5_role` and the configured owner id: the role map is an arbitrary function, the owner an arbitrary optional id, so the theorems hold for the code's own.
- Bootstrap of rows that no later select of the run reads before a flush: they are put into their table at once.
- Work events: redaction, source-type normalisation and the vectorisation test are arbitrary functions; the audit log and the queueing of vectorisation are not modelled.
- Bitable reading: the user token and account checks before the loop, and the building of events from records.
- Permission inference lower-cases character by character; domains and tags are enumerated, so stripping their names is not modelled; settings keys the recalculation does not touch.
- `BotUsers.UserTable.Recalculate`: the commit after a real run is not modelled; an exception midway leaves the database as it was.
- Sync policies: int() of text and str() of values that are not text are parameters; policies stored as something other than an object.
- `SyncPolicy.Clamp`: int() of an infinite float raises OverflowError, which the source does not catch (digital-advisor/app/services/v5_sync_policy.py:139-144); the model gives the default for every failing int().
- Two views of a policy: the engine's has the keys that decisions, selection and the gate read, the one of SyncPolicy has all of them; the passage from one to the other is not modelled.
- Owner actions: the business domain, role, advice, reason and target of an item are given with it; joined texts and templates are not modelled.
- access_control.py, agent intent routing, reply modes, log payloads, API routes and other migrations.

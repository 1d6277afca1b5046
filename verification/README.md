# Protocol proofs for the worker, the ClickHouse provisioning and the advisor bridge

This project models the parts of the repository in which state, interleaving, ordering or arithmetic carry the
correctness, and proves what they are there to guarantee. `dafny verify dfyconfig.toml` checks all of it.

- **Advisor bridge** (`AdvisorBridge.dfy`, `AdvisorBridgeRotation.dfy`). The fields of the bridge change only between
  two awaits. Module `BridgeSegments` has each stretch of code as a function on the fields and as a method of class
  `AdvisorBridge`; module `BridgeRuns` interleaves the segments of any number of `authenticate`, `ask` and `stop` calls,
  and module `BridgeRotations` follows one rotation from beginning to end. A token carries the generation of the
  `authenticate` call that brought it.
- **Row policies** (`RowPolicies.dfy`, `RowPolicyIsolation.dfy`, `RowPolicyGrants.dfy`, `RowPolicyNames.dfy`,
  `ChProvisioning.dfy`). A statement datatype with a
  partial interpreter takes the place of the SQL text: a `TO` or `GRANT` naming nobody fails. Permissive policies
  combine with OR, and an identity that no policy covers sees everything. The theorems are about every prefix of the
  statement list and about what each session sees at the end.
- **Organization gate** (`OrgGate.dfy`, `OrgGateRuns.dfy`, `JobMemoRuns.dfy`). The gate, the two-map job memo with its
  eviction, and any number of processors that share one gate while each keeps a memo of its own.
- **Azure DevOps transitions** (`AdoTransitions.dfy`, `AdoWindows.dfy`). The builder, its replay, and the incremental
  sweep against the full one, with the rounding that stored seconds bring.
- **Azure DevOps backfill** (`AdoBackfill.dfy`, `AdoBackfillRuns.dfy`). The forward watermark and the backward walk of
  one repository, with a failure possible at every await; the choice of repositories for a pass; and, over successive
  passes, commits that are turned on late and the order in which repositories get their chunks.
- **Azure DevOps requests** (`AdoRequests.dfy`). Retries, circuit breaker, keyset paging and batching.
- **Azure DevOps promotion** (`AdoPromote.dfy`, `AdoPromoteBoards.dfy`, `AdoPromoteStatuses.dfy`,
  `AdoPromoteFields.dfy`, `AdoPromoteLabels.dfy`, `AdoBoardPromotion.dfy`). The per-board state machine, streamed and
  buffered; what it leaves in every row; how states become statuses, and what is recorded of them.
- **Jira promotion** (`JiraDeletion.dfy`, `JiraRemoval.dfy`, `JiraPromotion.dfy`). Removal, deletion detection and purge
  bookkeeping over any number of runs.
- **GitHub links** (`GithubLinks.dfy`). The reconciliation of a pull request's Jira keys, per tenant and per source.
- **Rate limiter** (`RateLimiter.dfy`), **replayed history** (`AdvisorHistory.dfy`) and **prompt framing**
  (`PromptFraming.dfy`).
- `Sequences.dfy`, `Arithmetic.dfy` and `Wrappers.dfy` hold what several modules share: a stable sort, division by a
  variable, `Option` and `Result`.

A class keeps the fields the source updates, and each of its methods leaves exactly the state that a function on
values describes; the theorems are about those functions.

Where the code does less than its comments say, the model follows the code:

- `apps/worker/src/ado-intelligence-sync.handler.ts:264-265` says that turning commits on later still backfills
  commits from scratch. Selection (line 465) looks at the pull-request cursor alone whenever pull requests are synced.
  `AdoLateCommits.LateCommitsAreFilledExactly`: commits that still have history to fill can be taken to the floor if
  and only if the pull requests' own walk has not ended there. `AdoLateCommits.CommitsTurnedOnLateNeverStart` is a row
  for which the walk of the commits never starts, whatever passes follow. (The forward sweep of commits still fetches
  its own first window.)
- The hand-off to the backward walk is made where the state row is created (lines 602-611). A row created while pull
  requests were off gets none; `AdoBackfill.LateSwitchOnCoversExactly` gives the exact condition for having no gap.
- The success path of an in-place token swap (`apps/advisor-bridge/src/bridge.ts:312-316`) does not look again at the
  mounted session. After a `stop()` it can leave the bridge and the session on different tokens:
  `BridgeRuns.ReconnectAgreesExactly` says when, and `BridgeRuns.ReconnectAfterStopDisagrees` is a run in which it
  happens. That run is one of the client interface, under which a reconnect may still succeed on a stopped client. The
  shipped `AcpClient` kills its subprocess in `stop()` (`apps/advisor-bridge/src/acp/acp-client.ts:646-658`), so a
  reconnect that had no reply by then fails, and the run does not occur with it as it stands.

## Model

| member | source | states |
|---|---|---|
| BridgeSegments.AdvisorBridge.EnterAuthenticate | apps/advisor-bridge/src/bridge.ts:173-191 | `authenticate` up to its preflight: refused without an agent, nothing for the installed token, otherwise a new generation |
| BridgeSegments.AdvisorBridge.ResumeAfterPreflight | apps/advisor-bridge/src/bridge.ts:193-206 | after the preflight a superseded call changes nothing, a rotation is queued, a first token goes on to open a session |
| BridgeSegments.AdvisorBridge.ResumeAfterStart | apps/advisor-bridge/src/bridge.ts:228-243 | a started session is discarded if a newer `authenticate` began, otherwise mounted with its token |
| BridgeSegments.AdvisorBridge.FlushPendingToken | apps/advisor-bridge/src/bridge.ts:266-318 | an ask joins a running swap, leaves the queue alone while a turn streams, or takes the queued token and starts a swap |
| BridgeSegments.AdvisorBridge.RestorePending | apps/advisor-bridge/src/bridge.ts:357-361 | a token is put back only into an empty queue and only for the session that is still mounted |
| BridgeSegments.AdvisorBridge.ResumeAfterReconnect | apps/advisor-bridge/src/bridge.ts:312-346 | a successful in-place swap installs the token, a failed one restores it under the two guards |
| BridgeSegments.AdvisorBridge.ClearSwap | apps/advisor-bridge/src/bridge.ts:284-288 | the `finally` of the call that owns the swap clears the slot and nothing else |
| BridgeSegments.AdvisorBridge.Stop | apps/advisor-bridge/src/bridge.ts:392-401 | everything but the generation is cleared |
| BridgeRuns.SessionConservation | apps/advisor-bridge/src/bridge.ts:217-244 | in every run, `stop()` included, the mounted client is the only successfully started client that was not stopped |
| BridgeRuns.SupersededCallChangesNothing | apps/advisor-bridge/src/bridge.ts:189-197 | once a newer `authenticate` began, a call neither installs nor queues its token, however the run goes on |
| BridgeRuns.StoppedSwapNeverRequeues | apps/advisor-bridge/src/bridge.ts:348-361 | a swap that is running when `stop()` is called and fails later never puts its token back, whatever is mounted by then |
| BridgeRuns.JoinerPromptsOnlyAfterSuccess | apps/advisor-bridge/src/bridge.ts:112-123 | an ask that joined a swap prompts only after that swap settled without failure |
| BridgeRuns.InvStep | apps/advisor-bridge/src/bridge.ts:266-361 | every event but `stop()` keeps the invariant, loses no token generation and never moves the installed one back |
| BridgeRuns.RotationOnlyMovesForward | apps/advisor-bridge/src/bridge.ts:181-207 | in runs without `stop()` the installed generation never decreases and a queued or held token is always newer than it |
| BridgeRuns.QueuedTokenIsConserved | apps/advisor-bridge/src/bridge.ts:291-361 | a queued token, or a newer one, is installed or queued whenever no swap is running, whatever failed in between |
| BridgeRuns.SwapsNeverOverlap | apps/advisor-bridge/src/bridge.ts:266-289 | two swaps never overlap, and one begins only when the mounted client is not busy |
| BridgeRuns.ReconnectAgreesExactly | apps/advisor-bridge/src/bridge.ts:312-316 | in every run, after a successful in-place swap the recorded token is the mounted session's exactly when the session that was swapped is still mounted or none is |
| BridgeRuns.ReconnectAfterStopDisagrees | apps/advisor-bridge/src/bridge.ts:391-401 | there is a run with a `stop()` after which the recorded token is not the one the mounted session holds |
| BridgeRuns.AskNeverUsesStaleCredential | apps/advisor-bridge/src/bridge.ts:252-265 | an ask entered while a swap runs, or while no turn streams, prompts on a session whose credential is the token that was due then, or a newer one |
| BridgeRuns.QueuedRotationIsServedNext | apps/advisor-bridge/src/bridge.ts:246-262 | once all calls have returned, a rotation still queued is what the next ask begins to install |
| BridgeRotations.AuthenticateStartsExactly | apps/advisor-bridge/src/bridge.ts:173-191 | a call goes on to its preflight exactly when an agent was found and the mounted session does not run on that text already; it is then the newest, and any other call changes nothing |
| BridgeRotations.AcceptedRotationIsKept | apps/advisor-bridge/src/bridge.ts:193-204 | a rotation accepted while a session is mounted, a swap in flight or not, is installed or queued at every later point with no swap running, until a newer `authenticate` begins |
| BridgeRotations.FirstTokenIsKept | apps/advisor-bridge/src/bridge.ts:206-243 | the first token is installed by the call that brought it, and kept in the same sense |
| BridgeRotations.ReplacementMountsExactly | apps/advisor-bridge/src/bridge.ts:217-244 | a swap that starts a session mounts it on the token it took exactly when no newer `authenticate` began meanwhile |
| BridgeRotations.ReconnectedAskPrompts | apps/advisor-bridge/src/bridge.ts:291-331 | a rotation on a quiet bridge and the next ask: swapped in place, and that ask prompts the same session on the new token |
| BridgeRotations.ReplacedAskPrompts | apps/advisor-bridge/src/bridge.ts:217-244 | the same where the session has to be replaced: that ask prompts the new session, and the old one is stopped |
| BridgeRotations.FailedSwapIsRequeued | apps/advisor-bridge/src/bridge.ts:291-361 | a swap that fails leaves its ask unprompted, the session and its token as they were, and the new token queued |
| BridgeRotations.BusyAskIsAnswered | apps/advisor-bridge/src/bridge.ts:274-281 | an ask that arrives while a turn streams, with no swap running, prompts at once and leaves the queue alone |
| BridgeRotations.QueuedTokenEndsWithStop | apps/advisor-bridge/src/bridge.ts:391-401 | a token queued when `stop()` is called is never installed, queued or held again, however the run goes on |
| RowPolicies.RoleNamesAreInjective | packages/db/src/ch-row-policies.ts:159-163 | two acceptable organization ids never get the same role name |
| RowPolicyNames.AcceptableExactly | packages/db/src/ch-row-policies.ts:63-97 | which ids and logins are let through: by character, and never a grantee keyword in any letter case; a role name exists for exactly those |
| RowPolicyNames.QuotingReadsBackExactly | packages/db/src/ch-row-policies.ts:99-113 | a quoted name reads back as itself, whatever follows, exactly when it is one of those that may be quoted |
| RowPolicyNames.AcceptableIsQuotable | packages/db/src/ch-row-policies.ts:291-312 | every acceptable id, and the role and policy names made from it, may be quoted |
| RowPolicyIsolation.DeniedIsIsolated | packages/db/src/ch-row-policies.ts:185-196 | on a denied table of a well-formed server a session sees only shared rows, rows of its active role's organization, or is a service identity |
| RowPolicyIsolation.ReprovisionNeverFails | packages/db/src/ch-provisioning.ts:552-568 | no `TO` and no `GRANT` of the whole pass names a missing grantee, for any logins; where none is named like an organization's role, the server it ends on in closed form |
| RowPolicyIsolation.IsolationAtEveryCrashPoint | packages/db/src/ch-provisioning.ts:440-523 | after every prefix of the pass, a table that carries the deny shows an identity only its active organization's or shared rows |
| RowPolicyIsolation.ProvisioningRepairs | packages/db/src/ch-row-policies.ts:291-312 | from any well-formed state the pass ends with every policy, role, grant and default role settled, stale predicates included |
| RowPolicyIsolation.SecondRunChangesNothing | packages/db/src/ch-provisioning.ts:543-568 | a second run of the same pass executes completely and changes nothing |
| RowPolicyIsolation.ProvisionedVisibility | packages/db/src/ch-row-policies.ts:212-312 | after the pass the reader sees exactly the rows that carry the organization whose role it activates, nothing without a role, and the service identity sees everything under any role |
| RowPolicyIsolation.IsoPolicyReachesRoleExactly | packages/db/src/ch-row-policies.ts:291-312 | a predicate policy lands on the organization's role exactly when no login bears the role's name |
| RowPolicyIsolation.DropLeavesNothingDangling | packages/db/src/ch-row-policies.ts:342-357 | at every interruption point of a removal no policy is left applying to nobody |
| RowPolicyIsolation.RoleFirstDanglesExactly | packages/db/src/ch-row-policies.ts:325-357 | dropping the role first would leave such a policy exactly when one is granted to that role alone |
| RowPolicyIsolation.RemovalUndoesProvisioning | packages/db/src/ch-row-policies.ts:291-357 | removing an organization right after provisioning it gives back the server as it was |
| RowPolicyIsolation.ReaderIsolatedAtEveryCrashPoint | packages/db/src/ch-provisioning.ts:440-523 | a reader that held no permissive policy is isolated after every prefix of the pass, under any role |
| RowPolicyGrants.NothingIsTakenAway | packages/db/src/ch-row-policies.ts:297-301 | at every crash point of a repeated pass every login, role and grant that was there is still there |
| RowPolicyGrants.GrantComesLast | packages/db/src/ch-provisioning.ts:496-508 | wherever the pass of one organization stops, a reader that has come to hold its role finds all of its predicate policies in place |
| ChProvisioning.GuardsAreExact | packages/db/src/ch-provisioning.ts:440-470 | the guards let a pass through exactly when it is safe: tables known, identities apart and present, and no policy naming the reader other than tenant predicates |
| ChProvisioning.RetrofitGuardsAreExact | packages/db/src/ch-provisioning.ts:641-690 | the same for the retrofit, which also needs every organization's role |
| ChProvisioning.ClickHouse.RunAll | packages/db/src/ch-provisioning.ts:279-282 | the list is run in order and stops at the first failure, leaving the server at that prefix |
| ChProvisioning.ApplyRowPolicyBaseline | packages/db/src/ch-provisioning.ts:440-488 | an unsafe configuration, a reader with a permissive policy included, leaves the server untouched; otherwise the server is at a crash point of the baseline, and its end if nothing failed |
| ChProvisioning.ProvisionEach | packages/db/src/ch-provisioning.ts:557-567 | the loop over the organizations leaves the server at a crash point of baseline and organizations, and stops at an unsafe id |
| ChProvisioning.ReprovisionOrganizations | packages/db/src/ch-provisioning.ts:552-568 | wherever it stops, the server is at a crash point of the program of the isolation theorem with the reader isolated; where it succeeds, the reader sees exactly one organization at a time, with nothing assumed of its policies; it succeeds when the guards pass, the ids are acceptable and the connection lasts |
| ChProvisioning.FindUnpolicied | packages/db/src/ch-provisioning.ts:782-800 | exactly the organizations that lack a predicate policy on some tenant table are reported, with those tables |
| ChProvisioning.RetrofitReadIdentityGrants | packages/db/src/ch-provisioning.ts:641-721 | an unsafe start changes nothing; success leaves all policies alone, the reader holding every role with none active by default, and a truthful report: of any organization not reported the reader sees exactly the rows, the baseline being in place; a read-back other than 0 is an error with the grants applied |
| OrgGate.OrgConcurrencyGate.TryAcquireSlot | apps/worker/src/org-concurrency-gate.ts:63-70 | a slot is taken exactly when the gate is off or the organization is below its cap |
| OrgGate.OrgConcurrencyGate.ReleaseSlot | apps/worker/src/org-concurrency-gate.ts:72-85 | the count goes down or is dropped, and the capped mark with it |
| OrgGate.OrgConcurrencyGate.Mark | apps/worker/src/org-concurrency-gate.ts:100-104 | the mark is set only while the gate is on |
| OrgGate.OrgConcurrencyGate.CheckCapped | apps/worker/src/org-concurrency-gate.ts:111-123 | an expired mark is removed and does not count |
| JobMemos.JobMemo.RecordDeferral | apps/worker/src/org-gated-processor.ts:111-128 | the deferral is counted, its organization becomes the most recent, and the oldest organizations are evicted |
| JobMemos.JobMemo.Forget | apps/worker/src/org-gated-processor.ts:131-139 | the job leaves both maps, and its organization with the last of its jobs |
| JobMemos.JobMemo.Evict | apps/worker/src/org-gated-processor.ts:148-154 | the loop ends with both bounds met and exactly the least number of oldest organizations dropped |
| JobMemos.EvictCountIsLeast | apps/worker/src/org-gated-processor.ts:148-154 | no shorter prefix of organizations would have restored the bounds |
| JobMemos.EvictCountFits | apps/worker/src/org-gated-processor.ts:148-154 | what is left after the eviction meets both bounds |
| JobMemos.TouchKeepsInverseExactly | apps/worker/src/org-gated-processor.ts:111-126 | the two maps stay inverse exactly when the job was not remembered under another organization |
| JobMemos.EvictionKeepsOrganizationsWhole | apps/worker/src/org-gated-processor.ts:111-154 | after a deferral the maps are inverse, both bounds hold, and every organization is kept whole or dropped whole |
| JobMemos.DeferredJobIsKeptExactly | apps/worker/src/org-gated-processor.ts:111-154 | the job just deferred is still remembered exactly when its own organization's backlog fits by itself |
| JobMemoRuns.TouchMovesToEnd | apps/worker/src/org-gated-processor.ts:116-126 | a deferral takes its organization from where it stands and puts it last; all others keep their places |
| JobMemoRuns.ForgetTakesOut | apps/worker/src/org-gated-processor.ts:131-139 | the organization of a job that was its last goes from where it stands; otherwise the order stays |
| JobMemoRuns.StandsBeforeExactly | apps/worker/src/org-gated-processor.ts:111-154 | over any run, one organization stands before another exactly when its last deferral is older |
| JobMemoRuns.EvictedIsLeastRecent | apps/worker/src/org-gated-processor.ts:148-154 | over any run, an organization that a deferral evicts was last seen before every one that stays |
| JobMemoRuns.DeferralsAreCounted | apps/worker/src/org-gated-processor.ts:111-115 | the number beside a job counts its deferrals since the memo last did not know it |
| GatedProcessors.CachedDeferralAgreesWithSlowPath | apps/worker/src/org-gated-processor.ts:220-243 | in every run of any number of processors, a job deferred from the memo would have been refused by the gate, its organization having exactly `maxPerOrg` jobs running |
| GatedProcessors.GateIsExact | apps/worker/src/org-concurrency-gate.ts:28-128 | the counter is the number of running jobs and never above the cap, a marked organization is at its cap, and the marked are among the counted |
| GatedProcessorRuns.ArrivalExactly | apps/worker/src/org-gated-processor.ts:213-229 | ungated, deferred from the memo, or on to the owner, each exactly when; the owner is not loaded exactly for a remembered job of a marked organization before the mark expires |
| GatedProcessorRuns.DecisionExactly | apps/worker/src/org-gated-processor.ts:231-241 | admitted exactly while a slot is free, and then forgotten; refused, and then marked for the retry delay; when the warning is due |
| GatedProcessorRuns.CachedDeferralHasCause | apps/worker/src/org-concurrency-gate.ts:72-123 | in every run, a job deferred without its owner has an earlier refusal of its organization, less than a retry delay ago and with no slot given back since |
| GatedProcessorRuns.MemoStandsInOrder | apps/worker/src/org-gated-processor.ts:220-243 | in every run, a processor's memo is what a run of deferrals and forgettings leaves, so its order is by last deferral |
| GatedProcessors.GatedProcessor.Enter | apps/worker/src/org-gated-processor.ts:213-229 | without a cap the job runs; a remembered job of a capped organization is deferred without loading its owner |
| GatedProcessors.GatedProcessor.Decide | apps/worker/src/org-gated-processor.ts:231-241 | an admitted job leaves the memo, a refused one marks its organization and is deferred |
| GatedProcessors.GatedProcessor.Leave | apps/worker/src/org-gated-processor.ts:241-246 | the slot is given back however the job ended |
| AdoTransitions.BuildAdoTransitions | packages/shared/src/ado-transition-builder.ts:43-94 | grouping, sorting and the inner loop give the rows of every item in order of first appearance |
| AdoTransitions.BuildPerItem | packages/shared/src/ado-transition-builder.ts:52-65 | the rows of an item are those of its own sorted revisions, whatever other items are in the batch |
| AdoTransitions.ItemsInOrderOfAppearance | packages/shared/src/ado-transition-builder.ts:52-60 | the items are taken in the order in which they first appear |
| AdoTransitions.RowsReportChanges | packages/shared/src/ado-transition-builder.ts:61-92 | an item's rows are exactly the changes among its revisions in stable time order, field by field, with the whole seconds since the change before |
| AdoTransitions.EveryRowReports | packages/shared/src/ado-transition-builder.ts:76-88 | every row has the item, type, state, second, assignee and author of one revision of the input |
| AdoTransitions.ReplayRecoversState | packages/shared/src/ado-transition-builder.ts:29-42 | replaying the rows of an item gives at every second the state of a latest revision by then, or of the prior |
| AdoTransitions.RowsChain | packages/shared/src/ado-transition-builder.ts:67-91 | `from_state` is the previous `to_state`, or the prior's, and adjacent states differ |
| AdoTransitions.DwellsSumToSpan | packages/shared/src/ado-transition-builder.ts:70-72 | without a prior the dwells of n rows sum to between floor(span) - (n - 2) and floor(span) seconds |
| AdoTransitions.InputOrderDoesNotMatter | packages/shared/src/ado-transition-builder.ts:43-62 | with no two revisions of an item at one instant, the rows as a multiset do not depend on the input order |
| AdoWindows.FetchAdoPriorStates | apps/worker/src/ado-transition-priors.ts:64-106 | however the ids fall into batches, the priors are the last stored row of each asked item, in whole seconds, empty states left out |
| AdoWindows.PriorsAreLastRows | apps/worker/src/ado-transition-priors.ts:64-106 | an asked item has a prior exactly when its last stored row names a state, and it is that one |
| AdoWindows.SweepProject | apps/worker/src/azure-devops-sync.processor.ts:257-275 | an incremental sweep adds the rows built from its window and the priors read back |
| AdoWindows.EmitSplit | packages/shared/src/ado-transition-builder.ts:36-42 | with the exact previous state at hand, building a history in two parts is building it at once |
| AdoWindows.SeededNear | packages/shared/src/ado-transition-builder.ts:20-27 | a prior floored to its second changes the first row only, and adds 0 or 1 second to its dwell |
| AdoWindows.SweepStep | apps/worker/src/ado-transition-priors.ts:52-106 | a window swept on top of the stored rows gives what the full build appends for it, its first row's dwell 0 or 1 second longer |
| AdoWindows.IncrementalRefinesFull | packages/shared/src/ado-transition-builder.ts:36-42 | sweeping any number of disjoint windows stores, for every item, the rows of the full build; only the first row that a later window contributes can differ, its dwell 1 second longer |
| AdoBackfill.RepoSync.BackfillRepoChunk | apps/worker/src/ado-intelligence-sync.handler.ts:267-361 | one chunk below the newer cursor is stored and the cursors move, or nothing but stored rows changes |
| AdoBackfill.RepoSync.SweepForward | apps/worker/src/ado-intelligence-sync.handler.ts:525-618 | the forward sweep stores rows and moves only the watermarks it covered, or leaves the row of state as it was |
| AdoBackfill.RepoSync.SyncRepo | apps/worker/src/ado-intelligence-sync.handler.ts:503-664 | a pass sweeps forward and then backfills from the row as read before the pass; a failed backfill keeps the forward progress |
| AdoBackfill.CoverageHasNoGap | apps/worker/src/ado-intelligence-sync.handler.ts:178-185 | over any run of passes with any failures, everything created between the backfill cursor and the watermark is stored |
| AdoBackfill.SyncedFromTheStartHasNoGap | apps/worker/src/ado-intelligence-sync.handler.ts:602-616 | with pull requests on from the first pass no gap ever opens, and the hand-off needs no assumption |
| AdoBackfill.CursorsStayBelowCreation | apps/worker/src/ado-intelligence-sync.handler.ts:273-291 | over any run of a repository new to the database, neither cursor is above the creation of its row |
| AdoBackfill.LateSwitchOnCoversExactly | apps/worker/src/ado-intelligence-sync.handler.ts:602-616 | for a row that never swept pull requests, whatever is stored and whether or not the pass backfills, the first successful sweep leaves no gap in every world exactly when it reaches back to the row's creation |
| AdoBackfill.CursorStep | apps/worker/src/ado-intelligence-sync.handler.ts:283-291 | a successful chunk strictly lowers the larger cursor and anything else leaves it |
| AdoBackfill.CursorClosedForm | apps/worker/src/ado-intelligence-sync.handler.ts:283-291 | with a fixed floor the larger cursor is max(floor, start - k chunks) after k successful chunks, whatever failed |
| AdoBackfill.FloorIsReached | apps/worker/src/ado-intelligence-sync.handler.ts:288-291 | the floor is reached within ceil(distance / chunk) successful chunks, and then nothing is fetched any more |
| AdoStreams.CursorsMoveExactly | apps/worker/src/ado-intelligence-sync.handler.ts:283-361 | a chunk moves the cursors exactly when every step of the sweep and the chunk went through, those of the streams that are on to its start, the others not at all |
| AdoStreams.WatermarksAreLastSweeps | apps/worker/src/ado-intelligence-sync.handler.ts:589-618 | over any run, each watermark is the clock of the last pass that swept its stream |
| AdoStreams.OffStreamStaysPut | apps/worker/src/ado-intelligence-sync.handler.ts:263-265 | over any run, a stream that is off keeps its watermark and its cursor |
| AdoStreams.CommitWalkStartsAtCreation | apps/worker/src/ado-intelligence-sync.handler.ts:263-281 | a repository synced with commits off starts its commit walk at the creation of its row |
| AdoStreams.FirstPassHandsOver | apps/worker/src/ado-intelligence-sync.handler.ts:519-611 | the first pass creates the row with the walk handed the point 90 days back where its sweep began, for pull requests alone |
| AdoBackfillSelection.BreadthFirst | apps/worker/src/ado-intelligence-sync.handler.ts:135-157 | in one pass, a repository passed over is behind every chosen one, one never started first and then the newer cursor, and only when the budget is spent |
| AdoBackfillSelection.SelectionIsBounded | apps/worker/src/ado-intelligence-sync.handler.ts:144-157 | only eligible repositories are chosen, at most the limit, and all of them when they fit |
| AdoBackfillSelection.ChosenIsEligible | apps/worker/src/ado-intelligence-sync.handler.ts:144-157 | among any candidates with distinct ids, a repository that is not eligible is never chosen |
| AdoLateCommits.FilledPrsFreezeCommits | apps/worker/src/ado-intelligence-sync.handler.ts:454-468 | with both streams on and pull requests filled to the floor, no run of passes moves either cursor while the floor does not fall |
| AdoLateCommits.StartedCommitsReachTheFloor | apps/worker/src/ado-intelligence-sync.handler.ts:277-291 | with history of commits to fill, every run with ceil(distance / chunk) successful chunks ends with the commit cursor at the floor |
| AdoLateCommits.LateCommitsAreFilledExactly | apps/worker/src/ado-intelligence-sync.handler.ts:264-265 | commits turned on with history to fill can be taken to the floor if and only if the pull requests' walk is not already there |
| AdoLateCommits.CommitsTurnedOnLateNeverStart | apps/worker/src/ado-intelligence-sync.handler.ts:264-265 | a row synced with commits off, whose commits are never backfilled however many passes follow |
| AdoFleet.UnstartedFirst | apps/worker/src/ado-intelligence-sync.handler.ts:146-154 | while a repository without a cursor is passed over, only repositories without one are chosen |
| AdoFleet.FirstChunkBeforeAnySecond | apps/worker/src/ado-intelligence-sync.handler.ts:136-139 | over any passes, before a repository that has had a chunk is chosen again every listed one that had none has been chosen |
| RateLimits.RateLimiter.EnterAcquire | apps/worker/src/github-rate-limiter.ts:17-28 | the segment that starts an acquire: paused, short of tokens, or granted |
| RateLimits.RateLimiter.RetryAcquire | apps/worker/src/github-rate-limiter.ts:22-27 | after a wait the pause is not looked at again: refill, then grant or wait |
| RateLimits.RateLimiter.Observe | apps/worker/src/github-rate-limiter.ts:30-34 | the tokens are capped by what the response reports, and the pause starts below the floor |
| RateLimits.TokensStayInBudget | apps/worker/src/github-rate-limiter.ts:12-45 | with any acquirers and any responses the tokens stay between 0 and the budget |
| RateLimits.OverBudgetIsNeverGranted | apps/worker/src/github-rate-limiter.ts:22-27 | a request for more than the budget is never granted |
| RateLimits.WindowBound | apps/worker/src/github-rate-limiter.ts:17-45 | the total granted in any span of length L is at most budget * (floor(L / refillMs) + 2) |
| RateLimits.BoundIsReached | apps/worker/src/github-rate-limiter.ts:17-45 | for every budget and every number of refills in the span, some run is granted exactly that bound |
| RateLimits.PausedExactly | apps/worker/src/github-rate-limiter.ts:17-20 | over any run, an acquire that enters is paused exactly before the reset of the last response below the floor, and a paused one takes nothing |
| RateLimits.LowResponsePauses | apps/worker/src/github-rate-limiter.ts:30-34 | after a response below the floor nothing that enters before its reset is granted, until the next response |
| RateLimits.ReportedRemainingIsKept | apps/worker/src/github-rate-limiter.ts:30-34 | until the next refill no more is granted than a response reported to be left |
| RateLimits.RefillGrants | apps/worker/src/github-rate-limiter.ts:22-27 | a request within the budget is granted at its first try after the refill is due |
| AdvisorHistory.BuildHistoryForAsk | packages/shared/src/advisor.ts:76-95 | the result is the longest end of the transcript within both budgets that begins with a user turn, or nothing |
| AdvisorHistory.LongestLegalIsUnique | packages/shared/src/advisor.ts:58-75 | that property determines the result |
| AdvisorHistory.TrimIsIdempotent | packages/shared/src/advisor.ts:76-95 | trimming a trimmed transcript changes nothing |
| AdvisorHistory.NewestMustFit | packages/shared/src/advisor.ts:66-72 | a newest message over the budget on its own leaves nothing to replay |
| AdvisorHistory.CheckHistory | packages/shared/src/advisor.ts:52-127 | a posted history passes exactly within both budgets and with every text of 1 to 8000 characters |
| AdvisorHistory.IsAskHistory | apps/advisor-bridge/src/ws-server.ts:242-254 | a value passes exactly when every entry is well formed and both budgets hold, early exit or not |
| AdvisorHistory.TrimmedPassesBothChecks | packages/shared/src/advisor.ts:129-151 | what is replayed always passes both independent checks |
| AdvisorHistory.WellFormedExactly | apps/advisor-bridge/src/ws-server.ts:242-254 | an entry is well formed exactly when it is how some message is sent, and is read as that one |
| PromptFraming.SplitJoinReplaces | apps/advisor-bridge/src/ws-server.ts:121-123 | splitting at a separator and joining with another replaces every occurrence, leftmost first |
| PromptFraming.ReplacementIsSafe | apps/advisor-bridge/src/ws-server.ts:110-123 | replacing a closing tag removes it and creates no other closing tag |
| PromptFraming.EscapedHoldsNoDelimiter | apps/advisor-bridge/src/ws-server.ts:110-123 | for every text, the escaped text holds neither closing delimiter |
| PromptFraming.EscapeChangesExactly | apps/advisor-bridge/src/ws-server.ts:121-123 | escaping changes a text exactly when it holds one of the delimiters |
| PromptFraming.TranscriptSplits | apps/advisor-bridge/src/ws-server.ts:146-152 | splitting a transcript at the turn delimiter gives its pieces, in order, whatever the turns say |
| PromptFraming.PiecesAreTheTurns | apps/advisor-bridge/src/ws-server.ts:146-152 | the pieces are the opening tag and the escaped text of every turn, with nothing after the last |
| PromptFraming.PromptReadsBack | apps/advisor-bridge/src/ws-server.ts:135-165 | the first closing fence is the one written, the transcript precedes it and the question follows it |
| PromptFraming.OpeningTellsSpeaker | apps/advisor-bridge/src/ws-server.ts:149 | an opening tag tells who speaks, whatever follows |
| PromptFraming.TranscriptTellsTurns | apps/advisor-bridge/src/ws-server.ts:146-152 | two equal transcripts have the same speakers and the same texts up to escaping |
| PromptFraming.PromptEndsInQuestion | apps/advisor-bridge/src/ws-server.ts:135-165 | the live question comes last, behind the name of its board, with history or without |
| AdoRequests.AzureDevOpsRestAdapter.Request | packages/shared/src/azure-devops-rest-adapter.ts:343-416 | one call with its retries, waits and count of failures in a row |
| AdoRequests.OneCallIsBounded | packages/shared/src/azure-devops-rest-adapter.ts:347-416 | at most 5 fetches, and 15 seconds of waiting where no reply carries a Retry-After |
| AdoRequests.CallEndsExactly | packages/shared/src/azure-devops-rest-adapter.ts:347-416 | how a call ends and after how many fetches, and that it waits exactly the seconds asked for plus the back-off of the other retried replies |
| AdoRequests.CounterIsTrailingFailures | packages/shared/src/azure-devops-rest-adapter.ts:144-416 | until the circuit opens the counter is the length of the run of failed calls at the end |
| AdoRequests.CircuitOpensExactly | packages/shared/src/azure-devops-rest-adapter.ts:347-349 | a call fetches nothing exactly when three consecutive calls somewhere before it failed |
| AdoPaging.QueryWorkItemIds | packages/shared/src/azure-devops-rest-adapter.ts:287-326 | every id once and in order with floor(n / p) + 1 requests, or a failure if one of those requests throws |
| AdoPaging.StreamBatches | packages/shared/src/azure-devops-rest-adapter.ts:190-200 | the batches put end to end are the ids, none is empty, and all but the last are full |
| AdoPromote.BatchingDoesNotMatter | apps/worker/src/azure-devops-promote.service.ts:219-227 | however the items are cut into batches, a board ends in the state that one batch of all of them leaves |
| AdoPromote.PromoteTouches | apps/worker/src/azure-devops-promote.service.ts:333-464 | one item touches its own row only, and fails exactly when a new row meets a taken id |
| AdoPromote.RemovedExactly | apps/worker/src/azure-devops-promote.service.ts:289-491 | where the removed flag of every row of the board ends up |
| AdoPromote.RemovalIgnoresFilters | apps/worker/src/azure-devops-promote.service.ts:294-300 | which rows are marked removed depends on the unfiltered stream alone, for any two configurations |
| AdoPromote.FailsExactly | apps/worker/src/azure-devops-promote.service.ts:351-372 | a board's promotion fails exactly when a new item's id is taken by another project's row or earlier in the stream |
| AdoPromote.GroupIsLazy | apps/worker/src/azure-devops-promote.service.ts:352-354 | a board gets at most one group, and none unless a created row needed it |
| AdoPromoteFields.FiltersGovernAdditions | apps/worker/src/azure-devops-promote.service.ts:302-331 | a card on the board is outside every filter but the exclusions, and anything else is added only if every filter lets it through |
| AdoPromoteFields.CardsFollowTheirItems | apps/worker/src/azure-devops-promote.service.ts:399-438 | every card that was there ends with the fields of the last item of the unfiltered stream with its id, save those overridden or not on the allow-list |
| AdoPromoteFields.NewCardsAreTheItemsInScope | apps/worker/src/azure-devops-promote.service.ts:351-372 | the new rows are exactly those of items in scope, each with the fields of its item |
| AdoPromoteFields.NewRowsGoToTheirGroup | apps/worker/src/azure-devops-promote.service.ts:352-354 | new rows go to the configured group, or to one of the board's that is named after the project |
| AdoPromoteFields.CountersAreTrue | apps/worker/src/azure-devops-promote.service.ts:374-490 | the counters are the in-scope items that were new, the updates, and the rows newly marked as removed |
| AdoPromoteFields.FailedPromotionMarksNothing | apps/worker/src/azure-devops-promote.service.ts:219-240 | a board whose promotion failed has no row marked as removed by it |
| AdoPromoteBoards.EachIsPointwise | apps/worker/src/azure-devops-promote.service.ts:219-227 | over distinct boards a round of steps is every board's own step |
| AdoPromoteBoards.StreamedEqualsBuffered | apps/worker/src/azure-devops-promote.service.ts:137-240 | for every batching and every set of distinct boards, streamed promotion ends in the same database and counters as promoting each board at once |
| AdoPromoteStatuses.ResolvedIsOnBoard | apps/worker/src/azure-devops-promote.service.ts:501-579 | a state resolves to a status of the board, and a new one is made only when none has that label up to case |
| AdoPromoteStatuses.StatusesStaySound | apps/worker/src/azure-devops-promote.service.ts:493-579 | after any promotion every row's status is the board's, none is lost, and labels stay distinct up to case |
| AdoPromoteStatuses.PickedColorIsLeastUsed | apps/worker/src/azure-devops-promote.service.ts:581-606 | the color is of the palette, none of it is used less, and an unused one is taken while there is one |
| AdoPromoteLabels.CacheListsTheBoard | apps/worker/src/azure-devops-promote.service.ts:493-579 | on a board whose labels differ up to case, the status cache lists the board's statuses at every point |
| AdoPromoteLabels.ResolutionOrder | apps/worker/src/azure-devops-promote.service.ts:493-606 | mapped id, label of a mapped enum value, mapped label, label of the state, in that order and told of the board; only then a new status, last in order and least used in color |
| AdoPromoteLabels.ChangesAreRecorded | apps/worker/src/azure-devops-promote.service.ts:376-453 | what is recorded of an item: the label it came with, or the labels before and after, exactly when the synced status moves the old enum |
| AdoPromoteLabels.IdsStayApart | apps/worker/src/azure-devops-promote.service.ts:536-579 | no two statuses, and no two groups, come to share an id |
| AdoBoardPromotion.BoardPromotion.PickColor | apps/worker/src/azure-devops-promote.service.ts:589-606 | counting and scanning the palette finds the first least used color |
| AdoBoardPromotion.BoardPromotion.Resolve | apps/worker/src/azure-devops-promote.service.ts:501-535 | mapping, label and name are tried in order before a status is made |
| AdoBoardPromotion.BoardPromotion.UpdatedRow | apps/worker/src/azure-devops-promote.service.ts:401-428 | the fields an update writes, under overrides and the allow-list |
| AdoBoardPromotion.BoardPromotion.ProcessBatch | apps/worker/src/azure-devops-promote.service.ts:289-465 | a batch is seen whole, filtered, and promoted item by item |
| AdoBoardPromotion.BoardPromotion.Finalize | apps/worker/src/azure-devops-promote.service.ts:468-491 | exactly the snapshotted, unseen rows not marked yet are marked, and counted |
| AdoBoardPromotion.SelectionIsEnough | apps/worker/src/azure-devops-promote.service.ts:302-335 | filtering a batch before promoting it is the same as filtering item by item |
| JiraDeletion.ConfirmedIsSound | apps/worker/src/jira-promote.service.ts:628-692 | a confirmed row was absent from the payload and its probe said deleted; at most 200, and below 20 or at most half of the synced rows unless overridden |
| JiraDeletion.ConfirmedIsComplete | apps/worker/src/jira-promote.service.ts:645-692 | with few candidates exactly the rows whose probe said deleted are confirmed |
| JiraDeletion.ProbedComeFirst | apps/worker/src/jira-promote.service.ts:649-662 | a candidate left for a later run comes after every probed one in key order |
| JiraDeletion.VisitMarksExactly | apps/worker/src/jira-promote.service.ts:540-549 | a visit that no database call ends marks exactly the confirmed rows, under the cap; one that is ended marks the confirmed rows written before it |
| JiraDeletion.VisitMoves | apps/worker/src/jira-promote.service.ts:284-549 | whatever a board source does, only a justified row is marked deleted and no mark or stamp is taken back |
| JiraDeletion.MarkedAtMostOnce | apps/worker/src/jira-promote.service.ts:650-704 | over any runs a row is marked at most once, by a run with an unskipped source in scope, a non-empty payload without its key and a probe that said deleted |
| JiraDeletion.StampsStayTrue | apps/worker/src/jira-promote.service.ts:558-584 | over any runs a purge stamp implies a deleted row and a completed purge of its key |
| JiraDeletion.OutstandingPurgeIsRetried | apps/worker/src/jira-promote.service.ts:526-536 | an unstamped deleted row is retried by every run that reaches its purge with an unskipped source in scope, whatever the payload |
| JiraDeletion.EmptyPayloadJudgesNothing | apps/worker/src/jira-promote.service.ts:272-301 | an empty payload deletes nothing and still lets the run reach its purge |
| JiraRemoval.RemovedFlagsExactly | apps/worker/src/jira-promote.service.ts:370-524 | where an undisturbed visit leaves the removed flag of every row, told of payload, filters and options |
| JiraRemoval.NewRowsExactly | apps/worker/src/jira-promote.service.ts:306-410 | a visit adds a row for each item the board takes in that had none, and no other |
| JiraRemoval.DeletedIsAbsentAndProbed | apps/worker/src/jira-promote.service.ts:628-692 | what a row marked deleted must have met: board, connection and project in scope, absent from a fetch that was not empty, and its probe said deleted |
| JiraRemoval.DeletedRowsAreFound | apps/worker/src/jira-promote.service.ts:628-692 | with few enough candidates, every row that was deleted in Jira is marked by an undisturbed visit |
| JiraRemoval.KeysInOrder | apps/worker/src/jira-promote.service.ts:645-652 | candidates are probed in the order of their keys |
| JiraRemoval.TargetsExactly | apps/worker/src/jira-promote.service.ts:526-549 | which rows a visit hands to the purge: those just marked, and deleted ones without a recorded purge |
| JiraRemoval.RunTargetsDue | apps/worker/src/jira-promote.service.ts:526-556 | no run hands to its purge a row whose purge is recorded |
| JiraRemoval.PurgeEndsExactly | apps/worker/src/jira-promote.service.ts:558-584 | what each way a purge can end leaves: nothing recorded, purged but not stamped, or exactly the listed rows stamped |
| JiraRemoval.ThrowKeepsEarlierUpserts | apps/worker/src/jira-promote.service.ts:370-410 | where an upsert throws, the items before have had their effect and nothing is judged or purged |
| JiraRemoval.ThrowingRunPurgesNothing | apps/worker/src/jira-promote.service.ts:551-556 | a run that a throw ends leaves every stamp and purge record as it was |
| JiraPromotion.JiraPromoteService.MarkDeletedIssues | apps/worker/src/jira-promote.service.ts:628-733 | candidates are probed before anything is written, and the confirmed ones are marked, up to the one whose database call throws |
| JiraPromotion.JiraPromoteService.WriteDeletions | apps/worker/src/jira-promote.service.ts:690-731 | the loop marks the confirmed rows in order; where a call of it throws, the rows before are marked, and that one only if its update had gone through |
| JiraPromotion.JiraPromoteService.VisitBoardSource | apps/worker/src/jira-promote.service.ts:224-549 | one board source: skipped, withheld on an empty payload, or promoted, swept and searched for deletions |
| JiraPromotion.JiraPromoteService.Purge | apps/worker/src/jira-promote.service.ts:564-584 | the stamp is written only after the purge resolves |
| JiraPromotion.JiraPromoteService.Promote | apps/worker/src/jira-promote.service.ts:187-556 | every source in turn and then one purge; a source that throws ends the run before it |
| GithubLinks.ExtractKeys | apps/worker/src/github-jira-key-linker.ts:9-13 | every match once |
| GithubLinks.PrJiraLinks.ReconcilePrLinks | apps/worker/src/github-jira-key-linker.ts:34-116 | the pull request ends with exactly the links its title and commits mention, per source, and no other link is touched, another tenant's on the same pull request included |
| GithubLinks.ReconciledIsUnique | apps/worker/src/github-jira-key-linker.ts:34-116 | that outcome is determined by the texts and the links before |
| GithubLinks.ReconcilingTwiceIsOnce | apps/worker/src/github-jira-key-linker.ts:34-116 | reconciling again changes nothing |
| GithubLinks.ReconciliationsCommute | apps/worker/src/github-jira-key-linker.ts:23-33 | two tenants on one pull request, or two pull requests of one tenant, may be reconciled in either order |

## Left out

- Bridge: agent detection, the adapter subprocess, prompt streaming and error texts. A started session and its mounting
  are one step after the start resolves; the await of the replaced client's `stop` is a step of its own.
- An `ask` that has passed its flush can overlap a later swap (`apps/advisor-bridge/src/bridge.ts:376-388`); nothing is
  claimed against that.
- ClickHouse: SQL text and quoting, identity resolution from the environment, and the report fields read back after the
  baseline. A grant may join the default roles until `DEFAULT ROLE NONE`.
- `provisionOrganizationAnalytics` is `reprovisionOrganizations` for one organization and has no method of its own.
- RowPolicyIsolation.IsolationAtEveryCrashPoint: assumes that no login is named like an organization's role;
  RowPolicyIsolation.IsoPolicyReachesRoleExactly says what happens otherwise.
- ChProvisioning.ReprovisionOrganizations: what the reader sees is promised for servers whose policies are of the
  package's own kinds, or are permissive ones of named logins; policies foreign to both can show anything.
- Organization gate: the jitter of the retry delay, the callbacks, and the environment parser. A job's owner is fixed.
- AdoWindows.IncrementalRefinesFull: requires at most one transition of an item in a whole second, because the stored
  key and `argMax` do not tell two apart, and non-empty states, because empty ones are not read back.
- AdoWindows.FetchAdoPriorStates: ids are integers, so the refusal of other numbers is not modelled, and neither is an
  unparsable stored time.
- AdoBackfill.CoverageHasNoGap: pull requests only; commits depend on which branches the service selects. One pass over
  a repository is not interleaved with another over the same one, and the configuration knobs are integers.
- AdoRequests.AzureDevOpsRestAdapter.Request: waits are in whole seconds, `Retry-After` is a number, calls come one
  after another, and the shared throttle never throws.
- AdoPaging.QueryWorkItemIds: the set of matching ids does not change while it is paged.
- AdoPromoteBoards.StreamedEqualsBuffered: for promotions in which no database call throws, since one that does ends
  the run at a point that depends on the order; AdoPromote.FailsExactly says when that happens.
- AdoPromoteLabels.ResolutionOrder: for boards whose labels differ up to case, which a promotion keeps that way; on
  others the cache holds the last status of each label.
- JiraRemoval.RemovedFlagsExactly: for tables in which no two rows of a board have one key.
- Azure DevOps promotion: mapped custom fields, automations, the race in which another sync creates the same status or
  group first, and case folding beyond ASCII. The four filters are applied in one pass over the batch.
- Jira promotion: fields other than type, key and the three deletion columns, statuses and automations, a probe that
  throws, database calls that throw outside the upserts, the deletion loop and the stamp, and locale collation: keys
  are ordered by their characters.
- Rate limiter: the length of a wait, and a clock that runs backwards.
- Prompt framing: the preamble is any text without `<`; origin checks and frame parsing are not modelled. Texts and the
  8000-character budgets count UTF-16 code units.
- GitHub links: the regular expression; a text is given as the list of its matches. The deletions and upserts of a
  reconciliation are one transaction, so no state between them is visible.
- Dual writers, row mappers, web pages, server wiring and schemas hold no comparable protocol.

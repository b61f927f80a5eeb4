# A verified model of the governance core

The program runs an operator console over telemetry: operators' actions go to a hash-chained
audit ledger, a background worker writes decisions batch by batch, migrations are applied under
a lease lock, and a governance layer issues approvals, grants, policies and metrics. This project
models the parts of it that are protocols or small compilers and proves what they keep, over every
input, every run and every interleaving.

Every SQL statement is one atomic step on tables held as sequences or maps, except an insert into the
event log, whose trigger and unique index look at the table at two different times. What can happen
between two steps (another process, a crash, a late write) is an action of a state machine, and the
theorems hold for all sequences of actions. Code that updates fields or tables in place is a class
whose methods are proved against functions on values, and the theorems are about those functions.

| module | what it models |
|---|---|
| `Common`, `Joining`, `Ordering`, `Digests` | options and filters, joined texts and their readers, JavaScript's text order and sorting, the hash |
| `JsonText` | JSON values, the text ECMAScript prints for them, and a reader of JSON text |
| `CanonicalJson` | RFC 8785 canonical JSON (section 3.2): its member order, its content, and how its texts end |
| `AuditBlock` | the `\|`-joined text that a binding signs |
| `AuditChain` | hashes of a new binding, the chain verifier, fork detection |
| `AuditAppend` | interleaved append transactions |
| `BatchWorker`, `BatchResume`, `BatchOvertaking`, `BatchSkips`, `BatchScores` | the worker's checkpointed job, stopped anywhere and resumed, and whose scores it stores |
| `MigrationLock` | the lease lock made of three statements |
| `MigrationRunner`, `MigrationOutcomes` | the bootstrap file and the ledger of applied migrations over many runs, and what one launch does to each file |
| `MigrationRace` | the lock and the runner together, on several hosts |
| `EventLog`, `EventLedger` | the numbered event log, and a policy decision with its concurrent approvals |
| `Approvals`, `ApprovalHistory`, `ApprovalRefinement`, `ApprovalOutcomes` | approval requests, the bounded store, its upserts, and what callers can rely on |
| `ScopeGlob` | scope patterns compiled to regular expressions |
| `PolicyCache` | the ten-second policy cache under asynchronous loads |
| `Grants` | time-bounded grants and three-statement revocations |
| `MetricKeys`, `Metrics`, `Consensus` | metric keys, percentiles and export, the consensus rate |
| `MockScanner` | the bounded deep scan for mock data |

Assumptions. SHA-256 is an arbitrary function from texts to 64 hexadecimal characters; theorems that
need it to tell texts apart say so for the finite set of texts concerned (`Digests.CollisionFree`).
Random identifiers are fresh, and are written as creation numbers. Chain positions grow with each
insert and reach the program as numbers (the column is a BIGINT, which a database driver may hand over
as text, and text order differs), and the audit table's unique index also admits one genesis row only;
the table's own migrations are not among those the runner applies (infrastructure/migrations/.skipped).
One worker at a time has a job. Texts are compared by UTF-16 code units; elsewhere a character above
U+FFFF counts as one, and `toLowerCase` is ASCII lower case.

Where the code does not do what its comments or documentation say, the model follows the code and
the difference is a theorem:

- The single-successor rule is stated per trace and previous hash, but the chain is one per tenant:
  a per-trace index lets two genesis rows in (`AuditAppend.AppendsAlwaysAccepted`), and the per-trace
  check rejects sound tenants whose traces interleave (`AuditChain.TraceCheckExact`). The trace scan
  asks for no tenant, which is harmless exactly while tenants share no predecessor
  (`AuditChain.TableForkExact`, `AuditChain.FreshContextsNoFork`).
- Free texts of a binding that contain `|` can be regrouped without changing the signed block
  (`AuditBlock.BlockDeterminesFields`).
- A batch skipped after a logged error can be vouched for by any later checkpoint write, a heartbeat
  or metric write of the next batch included (`BatchSkips.CheckpointHonestExact`).
- A session counts only its own decisions, so a job resumed where nothing more is answered, at its end
  for one, is reported as having produced none (`BatchSkips.DecisionsReportedEmptyExact`).
- Checkpoint writes carry no session, so late ones can make batches be redone out of order
  (`BatchOvertaking.ResumeDespiteOvertakingExact`).
- The migration lock is keyed by host name, so two processes on a host share it
  (`MigrationLock.ExclusiveExact`).
- "Apply once" does not hold for thirteen migrations that end in a COMMIT of their own, since their
  body is durable before their row is written, nor for the bootstrap file, which every launch executes
  (`MigrationRunner.AtMostOnceExact`); and the lease is never renewed, so a run that outlasts it can
  apply a file beside another host's run (`MigrationRace.NeverTwiceExact`).
- A migration that failed first stays pending for ever, and an edited applied file is never noticed
  (`MigrationRunner.StuckForever`, `MigrationRunner.EditsGoUnnoticed`).
- A repeated event is not taken for a retry: the sequence trigger refuses a committed number with an
  error the program throws, and only a number lost in a race reaches the unique index and is swallowed
  (`EventLog.EventStore.EmitPipelineEvent`, `EventLedger.RepeatExact`); the event batch is not
  atomic (`EventLog.EventStore.EmitPipelineEventBatch`).
- Nothing makes an operator wait for the decision to ask for approval: a grant that races the decision
  can be swallowed and the action executed without one, and a failed execution can be approved into
  execution (`EventLedger.AlwaysLawfulExact`).
- `getById` and `expire` call each other without end on a pending request past its time
  (`ApprovalRefinement.LookUpReturnsExact`); everything else about approvals is about the evident
  intention, in which `expire` takes the raw record.
- A load that read before a policy write and finishes after its invalidation puts the old policies
  back for ten seconds (`PolicyCache.InvalidationExact`).
- "Cannot revoke a previously revoked permission" does not keep a grant to one revocation row: a second
  one follows when a revocation passes its checks while another is in flight or was abandoned between
  its row and its mark (`Grants.OneRevocationExact`, `Grants.ContentionExact`).
- Precomputed scores are looked up under index and sourcetype joined by a colon, so an index that
  contains one can collect another input's scores (`BatchScores.LookupTextCollides`).
- Names with line terminators escape `*` and `?` (`ScopeGlob.MatchesScopeExact`).
- `export` looks a histogram up under another key when all its tags are undefined
  (`MetricKeys.RoundTripExact`).

## Model

| member | source | states |
|---|---|---|
| `JsonText.TextIsPrefixCode` | apps/api/services/audit-chain-service.ts:74-81 | JSON texts need no separator: a text followed by anything a JSON text may be followed by splits in one way |
| `JsonText.TextReadsBack` | apps/api/services/audit-chain-service.ts:74-81 | an independent reader of JSON text recovers every value, and what follows it, from its text |
| `JsonText.EscapeIsShortest` | apps/api/services/audit-chain-service.ts:74-77 | every character of a string is printed in the shortest way that reads as it, with lower-case hexadecimal digits |
| `Ordering.TextOrderIsUtf16` | apps/api/services/audit-chain-service.ts:74-77 | one text precedes another if and only if it is a prefix, or has the smaller UTF-16 code unit where they first differ |
| `CanonicalJson.NormalIsOrdered` | apps/api/services/audit-chain-service.ts:74-77 | in the canonical form of a value whose objects repeat no key, the keys of every object at every depth strictly increase in that order |
| `CanonicalJson.NormalKeepsContent` | apps/api/services/audit-chain-service.ts:74-77 | the canonical form has the content of its value, at every depth |
| `CanonicalJson.CanonicalIsInjective` | apps/api/services/audit-chain-service.ts:74-77 | values whose objects repeat no key have equal canonical texts if and only if they have the same content: equal scalars, arrays item by item, objects member by member in any order, at every depth |
| `CanonicalJson.CanonicalIgnoresMemberOrder` | apps/api/services/audit-chain-service.ts:50-53 | reordering the members of objects, nested ones included, does not change the canonical text |
| `AuditBlock.BlockDeterminesFields` | apps/api/services/audit-chain-service.ts:83-94 | equal content, in values whose objects repeat no key, gives equal blocks; a block determines its content if and only if the four free texts have no `\|`, whatever the JSON contains |
| `AuditBlock.BlockEnds` | apps/api/services/audit-chain-service.ts:83-94 | even otherwise, the previous hash, both JSON values, the time and the joined free texts are determined |
| `AuditBlock.AmbiguousSibling` | apps/api/services/audit-chain-service.ts:83-94 | every field set with a `\|` in a free text has another with the same block |
| `AuditBlock.BlockReadsBack` | apps/api/services/audit-chain-service.ts:83-94 | a reader that cuts a block at five separators and then reads two JSON values and a time finds the fields in their order, with the JSON keys in canonical order, unless a free text contains a separator |
| `AuditBlock.RootReadsBack` | apps/api/services/audit-chain-service.ts:99-105 | cut at its first four separators, a root text gives version, tenant, trace, first signature and secret |
| `AuditChain.VerifyChainIntegrity` | apps/api/services/audit-chain-service.ts:124-243 | the rolling loop answers valid if and only if no scanned fork exists and every row is linked, ordered, signed and rooted; otherwise it names the first bad row and the first check that fails there, or a fork point |
| `AuditChain.RootHashBinds` | apps/api/services/audit-chain-service.ts:99-105 | two roots are equal if and only if tenant, trace, first signature and secret all are |
| `AuditChain.ForeignRootsReported` | apps/api/services/audit-chain-service.ts:221-236 | a non-empty ledger that is in order but rooted under another secret or tenant is never accepted, and the one fault the verifier can report is the root of its first row |
| `AuditChain.AppendKeepsAccepted` | apps/api/services/audit-chain-service.ts:55-112 | a binding computed from the tip and placed after it is accepted by the verifier, root included |
| `AuditChain.SignaturesDistinct` | apps/api/services/audit-chain-service.ts:164-242 | an accepted ledger never repeats a signature, by descent to the genesis row |
| `AuditChain.TipFixesHistory` | apps/api/services/audit-chain-service.ts:164-242 | accepted ledgers of a tenant that end in one signature have equal length and agree row by row on signatures and blocks, on the content of every hashed field of rows without `\|` in free texts, and on roots |
| `AuditChain.DetectTraceForkExact` | apps/api/services/audit-chain-fork-detection.ts:46-84 | the scan reports a fork if and only if two bindings of the trace share a predecessor |
| `AuditChain.ForkIsWhole` | apps/api/services/audit-chain-fork-detection.ts:46-84 | the fork reported names a shared predecessor and has one branch, more than one in all, for each row of the trace that names it |
| `AuditChain.TableForkExact` | apps/api/services/audit-chain-fork-detection.ts:46-84 | on the whole table, when every tenant's ledger is accepted, the scan of a trace reports a fork if and only if two tenants share a predecessor on it |
| `AuditChain.FreshContextsNoFork` | apps/api/services/audit-chain-fork-detection.ts:46-84 | it finds no fork on any trace while no authorisation context recurs with another tenant |
| `AuditChain.VerifyTraceIntegrity` | apps/api/services/audit-chain-fork-detection.ts:90-154 | the per-trace loop answers valid if and only if the trace has no fork and its own rows are linked and ordered |
| `AuditChain.TraceCheckExact` | apps/api/services/audit-chain-fork-detection.ts:116-149 | on an accepted tenant the per-trace check passes if and only if no other trace interleaves with it |
| `AuditAppend.OperatorLedger.RecordOperatorAction` | apps/api/routes/immutable-audit-routes.ts:114-245 | one undisturbed request appends exactly the binding linked to the tip and keeps every ledger accepted, or fails, if and only if the predecessor is taken, and changes nothing |
| `AuditAppend.TipIsFree` | apps/api/services/audit-chain-service.ts:61-71 | no row of an accepted ledger has the tip as its predecessor, so an undisturbed request succeeds |
| `AuditAppend.RunKeeps` | apps/api/routes/immutable-audit-routes.ts:114-245 | what every interleaving of appends keeps when the index is per tenant: each open binding links back to a committed row, positions are distinct, every ledger is accepted |
| `AuditAppend.RowsWereAsked` | apps/api/routes/immutable-audit-routes.ts:181-228 | over every interleaving a row holds, its link apart, the tenant and the fields its transaction was asked to record |
| `AuditAppend.TwoGenesisRows` | apps/api/services/audit-chain-fork-detection.ts:4-15 | under a per-trace index two first actions both commit and the verifier rejects the tenant |
| `AuditAppend.AppendsAlwaysAccepted` | apps/api/routes/immutable-audit-routes.ts:114-245 | every reachable committed ledger of every tenant is accepted if and only if the index is per tenant |
| `BatchWorker.DecisionStore.WriteDecision` | docker/worker.ts:573-695 | delete then insert leaves one row per key and replaces exactly that key's row |
| `BatchWorker.InsertNeedsDelete` | docker/worker.ts:624-660 | the insert alone keeps one row per key if and only if it repeats no NULL sourcetype |
| `BatchWorker.DecisionStore.ProcessJob` | docker/worker.ts:210-445 | the loop from the checkpoint does what the session function says, table, checkpoint and final status |
| `BatchResume.ResumeAnywhere` | docker/worker.ts:210-286 | sessions stopped anywhere and resumed, with late heartbeats: the checkpoint never passes the committed batches, and reaching the end leaves the table of one uninterrupted pass |
| `BatchOvertaking.ResumeDespiteOvertakingExact` | docker/worker.ts:217-286 | for every job, with checkpoint writes of earlier sessions that overtake, every run of sessions that reaches the end leaves the table of one pass if and only if any two batches agree on the rows they both write |
| `BatchOvertaking.OvertakingRestoresOldRow` | docker/worker.ts:217-286 | for every row that two batches write, there are sessions after which the earlier batch has the last word on it |
| `BatchSkips.MomentsHonestExact` | docker/worker.ts:217-391 | within a session, heartbeats and metric writes included, the checkpoint vouches only for committed batches at every write if and only if, once an uncommitted batch has been skipped, no save and no beat above it lands |
| `BatchSkips.CheckpointHonestExact` | docker/worker.ts:217-391 | the same over all sessions, each resuming at the persisted checkpoint |
| `BatchSkips.EveryPlacementHonestExact` | docker/worker.ts:217-391 | with given fates of its batches, a session is honest throughout under every placement of heartbeats if and only if it takes up no batch after an uncommitted one was skipped |
| `BatchSkips.LooksEmptyExact` | docker/worker.ts:395-445 | a session is reported as having produced nothing if and only if every batch from its start on succeeds and answers nothing |
| `BatchSkips.DecisionsReportedEmptyExact` | docker/worker.ts:395-445 | a resumed job with committed decisions is so reported if and only if the batches from its checkpoint on, if any, answer nothing and an earlier one answered |
| `BatchScores.ModelScoresNeverStored` | docker/worker.ts:251-275 | where precomputed scores exist, agents that differ only in scores leave equal databases, over all sessions |
| `BatchScores.PrecomputedExact` | docker/worker.ts:180-185 | the scores found under a lookup text are those of the last input that has scores and that text, and there are none if and only if there is no such input |
| `BatchScores.LookupTextExact` | docker/worker.ts:180-185 | without a colon in the index, lookup texts are equal if and only if index and sourcetype are, an empty sourcetype counting as none |
| `BatchScores.LookupTextCollides` | docker/worker.ts:261-263 | an index that spells out index, colon and sourcetype has the lookup text of the pair |
| `BatchScores.OnePassStores` | docker/worker.ts:258-275 | after one pass a row holds the narrative of the last decision about its thing, and the scores of the last input with scores under its lookup text, or the decision's own if there is none |
| `BatchScores.OnePassKeepsRest` | docker/worker.ts:210-286 | rows no decision is about keep what they held, and the checkpoint is the number of batches |
| `BatchScores.StoredScoresAreTheInputs` | docker/worker.ts:180-275 | with colon-free indexes the scores stored are those of the last input with scores that has the row's index and sourcetype |
| `BatchScores.SessionExact` | docker/worker.ts:210-391 | any session, from any checkpoint: the table is overwritten by the rows of its committed batches in order, and the checkpoint is the last one that anybody wrote |
| `BatchScores.StatusExact` | docker/worker.ts:287-445 | a session reports how its first stopping batch ended; one that runs through reports a failure if some batch failed, else whether any batch answered |
| `MigrationLock.LockTable.Acquire` | scripts/init-db.js:64-104 | uninterrupted, an attempt replaces an absent or expired row by one of thirty seconds and otherwise leaves it, and then answers by that row's host and expiry |
| `MigrationLock.ExclusiveExact` | scripts/init-db.js:64-116 | over all interleavings no two processes hold live locks at once if and only if no host runs two |
| `MigrationLock.ExclusiveAcrossHostsExact` | scripts/init-db.js:64-116 | processes on different hosts hold it together only after expiry, if and only if no host runs two processes or there is one host |
| `MigrationLock.ReleaseUnlocksSibling` | scripts/init-db.js:106-116 | a process on a shared host releases its sibling's lock, and a third host gets it |
| `MigrationRunner.MigrationDatabase.RunMigration` | scripts/init-db.js:241-280 | unless the file has a COMMIT of its own, a body commits only with a row for it; no success row appears or changes without its body, other files' rows are left alone, and failures are recorded outside the transaction |
| `MigrationRunner.MigrationDatabase.RunMigrations` | scripts/init-db.js:302-376 | a launch executes the bootstrap file, then the run over the pending files, as the run function says, report included |
| `MigrationOutcomes.LaunchExact` | scripts/init-db.js:328-358 | every pending file that the process lives to take up ends as its own outcome says, its SQL, row, checksum and failure, whatever failed before it; every other file is left alone |
| `MigrationOutcomes.ReportExact` | scripts/init-db.js:334-371 | a launch reports nothing pending, its death, the number of failures among all pending files, or, without any, that all were applied |
| `MigrationOutcomes.NotStartedExact` | scripts/init-db.js:311-322 | a launch stopped before its pending files executes at most the bootstrap file |
| `MigrationRunner.AtMostOnce` | scripts/init-db.js:122-152 | over all runs, and with contents that may change between them, a file with no recorded failure, no COMMIT of its own, and other than the bootstrap file commits at most once and is recorded, with its checksum, if and only if it committed |
| `MigrationRunner.AtMostOnceExact` | scripts/init-db.js:241-280 | for the files as shipped, that holds over all runs if and only if the file has no COMMIT of its own and is not the bootstrap file |
| `MigrationRunner.OwnCommitTwice` | infrastructure/migrations/127_kpi_change_events.sql:1-21 | a file with its own COMMIT, whose run dies between its body and its row, commits again at the next launch, with no failure recorded |
| `MigrationRunner.BootstrapTwice` | scripts/init-db.js:45-62 | the first launch executes the bootstrap file on its own and again as a pending file |
| `MigrationRunner.PendingAfterSuccess` | scripts/init-db.js:328-371 | after a fully successful run the pending files are exactly those whose row began as a failure |
| `MigrationRunner.StuckForever` | scripts/init-db.js:138-152 | such a file is pending after every later run |
| `MigrationRunner.EditsGoUnnoticed` | scripts/init-db.js:188-198 | the checksum comparison always passes for pending files, and editing applied files changes neither ledger nor report, and nothing at all unless it is the bootstrap file, which is executed as edited |
| `MigrationRace.NeverTwiceExact` | scripts/init-db.js:64-376 | over every interleaving of lock statements and file transactions no body commits twice if and only if every run ends within its lease and no host runs two processes, or there is one process at most, or nothing to apply |
| `MigrationRace.LateRunnerTwice` | scripts/init-db.js:64-376 | any two processes on any hosts, one of them past its lease, can both commit a file |
| `EventLog.BatchAcceptedExact` | infrastructure/migrations/119_control_plane_unified_event_ledger.sql:229-253 | the trigger lets a batch in whole if and only if its numbers increase from above those present |
| `EventLog.EventStore.EmitPipelineEvent` | core/database/pipeline-events.ts:184-241 | a number not above all committed ones is refused and thrown; a number taken after that check is swallowed; otherwise the event is appended |
| `EventLog.EventStore.EmitPipelineEventBatch` | core/database/pipeline-events.ts:254-272 | a batch that is refused, or fails, at an event leaves exactly the events before it |
| `EventLog.EventStore.ExecutePolicyEvaluation` | core/governance/policy-engine-events.ts:104-293 | one undisturbed evaluation leaves exactly the two events and the stage of its decision; an execution id that exists is refused and nothing changes |
| `EventLedger.EvaluationDecides` | core/governance/policy-engine-events.ts:104-293 | in the state machine too, an undisturbed evaluation blocks and fails one action, waits for approval of the second and allows and starts the third, with exactly those two events |
| `EventLedger.ApprovalStarts` | core/governance/policy-engine-events.ts:308-363 | an undisturbed approval in any log without gaps takes the next number and starts the execution |
| `EventLog.EventStore.ApproveOperatorDecision` | core/governance/policy-engine-events.ts:308-363 | one undisturbed approval takes the number after the highest, grants there and starts execution; an execution without events is refused |
| `EventLedger.LogHasNoGaps` | core/governance/policy-engine-events.ts:104-363 | every reachable log is numbered 1..n with one event per number, across crashes, refused, repeated and overlapping inserts, and approvals |
| `EventLedger.RepeatExact` | core/database/pipeline-events.ts:229-239 | in every reachable log, a repeat of a begun event is thrown if and only if the event is committed, and one let through writes nothing if and only if somebody committed the number since |
| `EventLedger.EventsAreImmutable` | core/database/pipeline-events.ts:184-241 | no run replaces an emitted event |
| `EventLedger.OverlappingApprovalExecutes` | core/governance/policy-engine-events.ts:308-363 | a grant and a decision that pass the trigger together: the grant is swallowed, and the action executes while the log holds no grant |
| `EventLedger.FailedThenApproved` | core/governance/policy-engine-events.ts:308-363 | an operator who comes after a blocked and failed execution brings it to execution |
| `EventLedger.AlwaysLawfulExact` | core/governance/policy-engine-events.ts:104-363 | over all runs, execution has an allowing event and failure is final if and only if approvals wait for event 2 to ask for them, or the action needs none, or it needs one and no insert overlaps another |
| `Approvals.ApprovalStore.LookUp` | core/governance/governance-approval-store.ts:310-316 | lazy expiry on read: the look-up function, buffer and upserts included |
| `Approvals.ApprovalStore.ModifyRequest` | core/governance/governance-approval-store.ts:165-277 | approve, deny and revoke: state, error cases and upserts as the operation function says |
| `Approvals.ApprovalStore.ListPending` | core/governance/governance-approval-store.ts:318-323 | expires the listed requests that are past their time and returns exactly the others |
| `ApprovalOutcomes.RevokeExact` | core/governance/governance-approval-store.ts:249-277 | a request is revoked if and only if a look-up shows it approved; the answer, and every look-up right after it, is the same request as revoked, by the caller, at that time, for that reason; a refusal writes nothing |
| `ApprovalOutcomes.DenyExact` | core/governance/governance-approval-store.ts:214-244 | the same for denial, if and only if a look-up shows the request pending |
| `ApprovalOutcomes.ApproveExact` | core/governance/governance-approval-store.ts:165-209 | an approval succeeds if and only if a look-up shows the request pending and the approver is new; it adds exactly that approval, and approves the request if and only if there are then enough |
| `ApprovalOutcomes.RefusalExact` | core/governance/governance-approval.ts:85-107 | an operation reports a missing request if and only if a look-up finds none, and a forbidden transition, from what to what, if and only if the state is not the one it needs |
| `ApprovalOutcomes.ResolutionLasts` | core/governance/governance-approval-store.ts:214-277 | after a successful revocation or denial in any reachable store, whatever is called next, every look-up that finds the request shows what was answered |
| `ApprovalOutcomes.CreatedAsAsked` | core/governance/governance-approval-store.ts:121-160 | a new request is pending, as asked, with the deadline and the number of approvals of its risk unless others are given, and a look-up shows it |
| `ApprovalOutcomes.CreatedUntilDeadline` | core/governance/governance-approval.ts:109-131 | a request nobody acts on is shown pending up to and including its deadline and expired ever after, whatever else is called |
| `ApprovalOutcomes.ListPendingExact` | core/governance/governance-approval-store.ts:318-323 | the list holds exactly the tenant's pending requests not past their time |
| `ApprovalHistory.QuorumOverRuns` | core/governance/governance-approval.ts:77-166 | over all runs and versions: distinct approvers, enough of them exactly when approved or revoked, approval lists only grow, final states are final |
| `ApprovalHistory.QuorumTestExact` | core/governance/governance-approval.ts:136-138 | the program's quorum test never holds on a pending version if and only if every request asks for at least one approval |
| `ApprovalHistory.RowsAreWholeVersions` | core/governance/governance-approval-store.ts:62-111 | whichever upserts land, in any order and number, a row is the whole version that landed last |
| `ApprovalHistory.InOrderRowsAreNewest` | core/governance/governance-approval-store.ts:62-111 | landed in order of issue, every request ever created, evicted ones included, has its newest version for a row |
| `ApprovalHistory.InOrderRowsMatchBuffer` | core/governance/governance-approval-store.ts:62-111 | for the requests still buffered that is the buffer's version |
| `ApprovalRefinement.StoreRefinesArchive` | core/governance/governance-approval-store.ts:32-323 | over all runs the buffer is the last min(n, 500) requests in order, each as an unbounded store with an eager sweep shows it |
| `ApprovalRefinement.AnswersAgree` | core/governance/governance-approval-store.ts:165-323 | after every run every call is answered as the unbounded, eagerly swept store answers it, evicted requests as missing |
| `ApprovalRefinement.LookUpReturnsExact` | core/governance/governance-approval-store.ts:283-316 | the mutual recursion as written returns if and only if the request is absent or not past its time |
| `ScopeGlob.ThreePassesAreOne` | core/governance/governance-scopes.ts:60-64 | the three replacements equal one translation per character |
| `ScopeGlob.CompileParsesBack` | core/governance/governance-scopes.ts:60-67 | the emitted text is a valid expression and parses to exactly one item per pattern character |
| `ScopeGlob.MatchesScopeIsGlob` | core/governance/governance-scopes.ts:56-71 | for one-line names the matcher, shortcut included, accepts exactly the language of the glob |
| `ScopeGlob.MatchesScopeExact` | core/governance/governance-scopes.ts:56-71 | a name agrees with the glob on every pattern if and only if it has no line terminator |
| `ScopeGlob.ScopeCoversExact` | core/governance/governance-scopes.ts:77-95 | a scope covers a one-line resource if and only if type, environment and glob allow it |
| `PolicyCache.CachedAnswersAreRecent` | core/governance/governance-policy-engine.ts:103-194 | over all interleavings each cached answer comes from a load completed less than ten seconds before |
| `PolicyCache.LoadServesTenSeconds` | core/governance/governance-policy-engine.ts:103-194 | without another completed load or an invalidation, what a load put into the cache is answered until ten seconds have passed and no longer |
| `PolicyCache.InvalidationExact` | core/governance/governance-policy-engine.ts:184-194 | after an invalidation no later read, answered from the cache or by its own load, is older than the write if and only if no load in flight had been given older rows |
| `PolicyCache.NoOldLoadNoStaleRead` | core/governance/governance-policy-engine.ts:395-521 | in particular when every load in flight at the invalidation began after the write |
| `PolicyCache.Cache.CompleteLoad` | core/governance/governance-policy-engine.ts:191-193 | the stretch of code after the await is the completing step of the interleaving |
| `Grants.GrantTables.GrantPermission` | core/governance/governance-ttl.ts:95-123 | a grant is added for that key, scope and granter, unrevoked and unused, for as long as asked, but at least a minute and at most a year |
| `Grants.NewGrantServesExact` | core/governance/governance-ttl.ts:95-168 | a new grant makes its own key served until that time is up, and changes the answer for no other key |
| `Grants.GrantTables.CheckPermission` | core/governance/governance-ttl.ts:129-168 | grants if and only if some active grant exists |
| `Grants.GrantTables.RevokePermission` | core/governance/governance-revocation.ts:45-129 | one undisturbed revocation is refused for the reasons and in the order given and then changes nothing, or writes one row and leaves that grant alone inactive and naming it |
| `Grants.Best` | core/governance/governance-ttl.ts:138-150 | the row returned is active and expires last among the active ones |
| `Grants.MarksMatchRows` | core/governance/governance-revocation.ts:45-129 | over interleaved and crashed revocations every mark names its own row, and every row's grant is marked unless its revocation is unfinished or was abandoned |
| `Grants.DeadGrantsStayDead` | core/governance/governance-ttl.ts:138-150 | a revoked or expired grant is never returned again |
| `Grants.GrantPersists` | core/governance/governance-ttl.ts:129-168 | a permission stays granted until the returned grant expires or is revoked |
| `Grants.AnswerLastsExactly` | core/governance/governance-ttl.ts:129-168 | while nothing is granted or marked, it is granted if and only if that expiry has not come |
| `Grants.ContentionExact` | core/governance/governance-revocation.ts:48-71 | when a revocation passes its checks, it can bring the grant two rows without a further attempt if and only if another one of the grant is then in flight or was abandoned past its row |
| `Grants.OneRevocationExact` | core/governance/governance-revocation.ts:45-129 | over every run, a grant gets two rows if and only if some revocation passed its checks while another one of the grant was in flight, or had been abandoned past its row, and both inserted |
| `MetricKeys.RoundTripExact` | core/governance/governance-metrics.ts:100-121 | a plain key rebuilds to itself if and only if no tags were given or one is defined |
| `MetricKeys.KeysDistinguish` | core/governance/governance-metrics.ts:100-110 | two plain keys are equal if and only if names and defined tags are, in whatever order |
| `MetricKeys.TagsInOrder` | core/governance/governance-metrics.ts:100-110 | in a plain key the tags stand in the UTF-16 order of their texts |
| `Metrics.GovernanceMetrics.GetLatencyPercentiles` | core/governance/governance-metrics.ts:62-73 | reports the recorded values' percentiles and at most reorders the arrays |
| `Metrics.GovernanceMetrics.Export` | core/governance/governance-metrics.ts:78-98 | reports every counter, and for each histogram the percentiles recorded under its rebuilt key |
| `Metrics.PercentilesIgnoreOrder` | core/governance/governance-metrics.ts:62-73 | percentiles depend only on which values were recorded |
| `Metrics.ReadingDoesNotDisturb` | core/governance/governance-metrics.ts:62-73 | sorting in place on a read never changes a later read |
| `Metrics.PercentilesOrdered` | core/governance/governance-metrics.ts:67-72 | they are recorded values and p50 <= p95 <= p99 |
| `Metrics.PercentilesAreRanked` | core/governance/governance-metrics.ts:67-72 | each has at most its index many values below it and more than that many not above it |
| `Metrics.ExportReportsOwn` | core/governance/governance-metrics.ts:78-98 | a plain key is reported with its own percentiles, and one whose tags are all undefined with those of its bare name |
| `Consensus.Record` | core/governance/governance-metrics.ts:131-274 | each recorder increments exactly its counters and records its latency |
| `Consensus.NamedTotalsExact` | core/governance/governance-metrics.ts:131-274 | summed over all tags, the counters of each name count the recordings that concern it: decisions, those that deny or ask for approval, mismatches, failures, matches, comparisons |
| `Consensus.ComparisonsAddUp` | core/governance/governance-metrics.ts:248-274 | per environment, the counters grow by the number of matches recorded, of classified mismatches, and of both for comparisons, whatever texts the recordings carry |
| `Consensus.RateIsShare` | core/governance/governance-metrics.ts:279-286 | after any recordings the rate times the comparisons recorded is 100 times the matches recorded, and 100 if there are none |
| `Consensus.RateIsPercentage` | core/governance/governance-metrics.ts:279-286 | after any recordings the rate is within 0 and 100 |
| `Consensus.RateExact` | core/governance/governance-metrics.ts:279-286 | after any recordings the rate is 100 if and only if no mismatch of the environment was classified |
| `MockScanner.ScanFirst` | apps/api/middleware/no-mock-data-guard.ts:100-179 | the scan returns the first offending place in depth-first order within depth 12 and positions below 20, and nothing if and only if there is none |
| `MockScanner.FoundExact` | apps/api/middleware/no-mock-data-guard.ts:273-277 | a payload is flagged if and only if such a place exists |

## Left out

- Concrete hashing, UTF-8 encoding and lone surrogates: the hash is an arbitrary function, and texts are sequences of characters.
- The INSERT at apps/api/routes/immutable-audit-routes.ts:220-228 omits some hashed columns; the model's row carries every hashed field. Values that are not JSON, for which canonicalisation fails, do not occur.
- `validateReplayScope` and the session snapshot of the audit route: finite case checks.
- The stored procedure behind `appendBindingWithForkPrevention`, and the triggers of the skipped audit migrations (chain continuity, sealing), are not part of this model; the unique index is a parameter.
- What the migration files do, beyond whether they commit by themselves: such a file is taken to commit once, as its last statement does, and a failure before that undoes all of it.
- `MigrationRace` leaves out the bootstrap file, files that commit by themselves, and recorded failures, which `MigrationRunner` covers for one run at a time.
- Two workers on one job at once, after a job's lease has expired.
- The fork service's pre-check by the stored function `verify_chain_has_no_forks` is read as its own fork scan on the tenant's rows, and failing queries are not modelled.
- The worker's telemetry updates, KPI rebuild, stage events, publishing, and numeric coercions; every session sees the same date and runtime, and the agent answers equal batches alike.
- Error texts that select between timeout, missing model and other errors in the worker are the three fates themselves.
- Backups, file reading, health records and process exit codes of the migration script.
- Event payloads, messages, severities, correlation ids and governance metadata of the event log, and the merged execution metadata.
- The approval queries by actor, decision and state, which read the buffer without expiring it: easy members.
- Expiry times outside the range of dates, fractional durations and approval counts, and a clock that changes within one call.
- ApprovalRefinement.StoreRefinesArchive: assumes a clock that never goes back, and compares answers up to the moment an expiry was noticed, since a lazy store notices it later.
- The policy rule language (`evaluateRule`, `evaluateAllPolicies`): structural recursion over operators, with regular expressions and number coercions; first match wins by construction.
- The policy cache ignores its environment argument, so one environment is fixed; policies are identified by the version of their table.
- Creating, listing and deactivating scopes: single SQL statements.
- Audit events of revocations, listing of grants and revocations, the sweep's log.
- `recordPolicyEvaluation`, which records one latency, untagged metric totals and the drift report; percentile positions are computed in whole numbers.
- Regular-expression syntax beyond what the glob compiler can emit parses to nothing here.
- The text of mock-data findings and of the printed path, which `MockScanner` gives as positions; objects list their members in enumeration order; numbers are compared by their printed text.

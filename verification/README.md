# CollectMind, modelled and proved in Dafny

CollectMind turns a diagnostic finding into a telemetry collection policy, deploys the policy to
vehicles, and after its window judges what came back. This project models the parts of it where
several actors share state, or where a fast or stringly form stands for a simpler meaning, and proves
what they promise. `dafny verify dfyconfig.toml` checks the whole project.

Every `async with db.acquire(...)` block of the program is one atomic transaction here; between two
of them any other actor may move, and an exception or a crash may strike.

| module | what it is about |
|---|---|
| `Registry` | the shared tables and their transactions |
| `Pipeline` | runner sessions, feedback workers and erasures as one concurrent, crash-prone protocol |
| `Runtime`, `FeedbackWorker`, `Draining` | `run_async` and `tick` as sequential programs that are runs of that protocol; draining a backlog, tick by tick and in every run |
| `PolicyGraph`, `Lineage`, `Vetting` | the bounded generate/validate/deploy loop; how errors travel into the audit trail and back; what validation means for every stored policy |
| `Evaluator`, `Verdicts` | the hypothesis rule, the telemetry simulator and the rounding in between; the verdict that every run reaches |
| `Erasure` | the laws of the erasure statements, and their dispatcher |
| `NonInterference` | tenants sharing tables do not observe each other |
| `Ingest` | POST /findings, one request at a time and overlapping |
| `Ordering`, `Migrations`, `MigrationRunner` | string order and sorting; discovery order; applying and rolling back with failures and concurrent runners |
| `AuthorityCache`, `OwnershipCache`, `TenantConfig` | a time-limited cache over a table, and its two instances; the deployment scope check |
| `TokenBucket`, `RateLimit` | the Lua token bucket and the middleware around it, with fixed and with changing limits |
| `Vss`, `Keys` | dotted names against trees; Redis keys against slots |

Promises that turn out not to hold of the code are kept as results: a lemma with an input on which
the promise fails, next to a lemma with the exact condition under which it holds.

- The rate law "at most burst plus rate times time" holds exactly for rates that divide 1000 or that
  1000 divides (`TokenBucket.RateLawIff`). The comment in `token_bucket.lua` that no drift
  accumulates is true of those rates only.
- A `rule_out` simulation is judged ruled out exactly when the threshold is at least 0.0005, because
  the column rounds to three digits (`Evaluator.OutcomeDetermined`).
- Erasing a vehicle from the registry fails for the whole tenant exactly when some policy names that
  vehicle alone (`Erasure.EraseSucceedsIff`).
- A rollback keeps records and effects in step exactly when the down script found under the version
  belongs to the migration recorded there (`MigrationRunner.RollbackKeepsIff`).
- A hot-store key is unambiguous exactly when no part of it has a colon (`Keys.KeyIsUnambiguousIff`).
- A tenant's audit event survives exactly when nobody else claimed its correlation id and kind first
  (`NonInterference.EventSurvivesIff`).
- The cache victim is the least recently put entry exactly when no live entry was put before it at
  the same clock reading (`TenantConfig.VictimIsLeastRecentIff`, `TenantConfig.TieEvictsTheRecent`).
- Migrations run in the order of their version numbers exactly when those have one width
  (`Migrations.VersionOrderIff`, `Migrations.WiderVersionsRunEarly`).
- `run_async` throws nothing of its own exactly when the last draft carries `policy_id` and `version`;
  a dead letter without them is never explained (`Runtime.RunAsync`,
  `Runtime.NamelessDraftIsNotExplained`).
- Erased telemetry stays gone exactly while no session of the tenant stands before its telemetry
  insert with the vehicle in scope (`Erasure.ErasureLastsIff`), and for a whole run exactly when none
  makes that insert in it (`Erasure.ErasedForTheRunIff`).
- A deployment is judged by its directive only once its session has finished; before that every
  verdict is no_data, and final (`Verdicts.EarlyVerdictIsNoData`, `Verdicts.ExpiredForGood`,
  `Verdicts.JudgedTooEarly`).

Where code and documentation disagree, the model follows the code. Every path that begins with
`/api/v1/findings` draws from the inbound bucket, not only POST /findings. A clock that went
backwards does not advance the bucket's timestamp, although a comment in the script says it does. An
erasure for a finding or a principal reports the registry and telemetry as erased without touching
them.

Clocks, random draws, generated identifiers, the language model, the collector's answers and every
possible fault are parameters. Numbers in the token bucket are integers, and its key expires by the
caller's clock.

## Model

| member | source | states |
|---|---|---|
| `Pipeline.NextKeeps` | src/collectmind/graph/runner.py:49-184 | every step of every session, worker, erasure or other audit writer, including exceptions and crashes, keeps the whole invariant of the tables and of everyone's local state |
| `Pipeline.EveryRunIsSafe` | src/collectmind/feedback/worker.py:56-113 | in every interleaving each deployment has its policy row, no policy is deployed twice, an expired deployment has had an outcome written, and no worker ever takes the policy-missing branch |
| `Pipeline.NothingIsTakenBack` | src/collectmind/registry/repository.py:135-177 | between any two points of a run policies, deployments, outcomes and audit rows stay; a status only moves to expired; outcomes never change; a session's audit writes only grow |
| `Pipeline.DeploymentsStartAccepted` | src/collectmind/graph/runner.py:158-160 | every deployment row enters the table as accepted |
| `Pipeline.OtherTenantsNeverExpire` | src/collectmind/registry/repository.py:160-177 | the scan runs under one fixed tenant, so a deployment of any other tenant stays accepted for ever |
| `Pipeline.AuditTrailIsSound` | src/collectmind/graph/runner.py:56-177 | each session's audit writes are a prefix of generated, validated, deployed and then rejected, which only a dead letter that fails right after it asks for a second time; each has its one row, of the session's own tenant; validated, deployed and outcome rows name rows that exist, also when correlation ids are shared |
| `Pipeline.AuditTrailIsExact` | src/collectmind/registry/audit.py:98-148 | for a session whose correlation id is its own, the runner rows under that id are exactly the writes it committed |
| `Pipeline.OutcomesAreFaithful` | src/collectmind/feedback/worker.py:63-113 | no interleaving turns a verdict: every outcome is no_data or the one verdict its policy's own directive and threshold determine |
| `Pipeline.RejectionIsLegible` | src/collectmind/graph/runner.py:112-127 | once a dead letter has committed its rejected row, every later reader of it in the run, redacted or not, finds exactly the out-of-vocabulary signals of the last draft |
| `Vetting.EveryRejectionIsLegible` | src/collectmind/graph/runner.py:112-127 | so it is in every run whose graph results come from the retry loop |
| `Pipeline.TasksAreNeverStuck` | src/collectmind/graph/runner.py:69-184 | the guards of the protocol never block a session: its next statement can always be executed, except the one that raises on a draft without identifiers |
| `Pipeline.ErasureKeeps` | src/collectmind/erasure/dispatcher.py:101-148 | registry erasure, telemetry erasure and audit redaction at any moment keep the invariant |
| `Runtime.Database.StorePolicy` | src/collectmind/registry/repository.py:18-56 | inserts the row with the rounded threshold, or is rejected by the primary key or an empty list, changing nothing |
| `Runtime.Database.StoreDeployment` | src/collectmind/registry/repository.py:135-158 | inserts the row, or is rejected by primary key, foreign key or empty scope |
| `Runtime.Database.StoreOutcomeRow` | src/collectmind/registry/repository.py:184-206 | inserts the row, or is rejected by primary or foreign key |
| `Runtime.Database.Audit` | src/collectmind/registry/audit.py:98-148 | first writer wins on correlation id and kind; the writer raises exactly when that was another tenant |
| `Runtime.Database.Expire` | src/collectmind/registry/repository.py:172-177 | marks a row of the scan tenant expired and no other |
| `Runtime.RunBody` | src/collectmind/graph/runner.py:69-184 | executes the statements in the protocol's order up to the first fault; without faults it ends early because the database rejected something or, with nothing written, because the draft has no identifiers |
| `Runtime.Persist` | src/collectmind/graph/runner.py:130-156 | policy row before validated event before deployment, each only after the one before committed |
| `Runtime.PersistDeployment` | src/collectmind/graph/runner.py:158-184 | deployment row before deployed event before telemetry |
| `Runtime.RunAsync` | src/collectmind/graph/runner.py:49-67 | the whole of `run_async` with faults anywhere plays the protocol from a new session to its end; it is left unfinished only if the handler's own write failed; without faults nothing is thrown if and only if the last draft has both identifiers, and without them only the runner's error is left |
| `Runtime.Attempt` | src/collectmind/graph/runner.py:69-128 | the guarded part: thrown or rejected, or through to the end |
| `Runtime.NamelessDraftIsNotExplained` | src/collectmind/graph/runner.py:88-100 | the input on which it throws: no generated row, and a rejected row that names no signals |
| `Runtime.SessionIsARun` | src/collectmind/graph/runner.py:49-67 | what it plays continues any run of the concurrent protocol, so all run theorems apply to it |
| `Runtime.PlayedIsARun` | src/collectmind/graph/runner.py:69-184 | any events a session can play are steps of the protocol |
| `Runtime.Handle` | src/collectmind/graph/runner.py:56-67 | the exception handler appends exactly one rejected write |
| `Vetting.EveryStoredPolicyIsVetted` | src/collectmind/graph/runner.py:130-143 | in every run, every policy row lists only vocabulary signals, and a personal one only with consent and flag set |
| `Vetting.RunGraph` | src/collectmind/graph/build.py:36-58 | the retry loop returns runs that carry the errors of their last draft and complete only with one that passed |
| `PolicyGraph.PassesIff` | src/collectmind/validator/policy_validator.py:48-103 | a draft passes exactly when it parses, all its signals are in the vocabulary, and a personal signal comes with consent and flag |
| `PolicyGraph.Validate` | src/collectmind/validator/policy_validator.py:48-103 | the accumulated errors are the vocabulary, governance and window errors of the policy, with the unknown names in order and multiplicity |
| `PolicyGraph.EvaluateSignals` | src/collectmind/validator/governance.py:62-70 | the flagged signals are exactly the personal ones, sorted and each once |
| `PolicyGraph.Session.ValidateDraft` | src/collectmind/graph/policy_validator.py:14-36 | the latest draft's errors replace the session's; ok exactly when it passes |
| `PolicyGraph.Session.RouteAfterValidation` | src/collectmind/graph/orchestrator.py:20-27 | deploy, retry or dead-letter, and the retry count grows exactly on a retry |
| `PolicyGraph.Session.DeployPolicy` | src/collectmind/graph/policy_deployer.py:20-44 | the record repeats the policy it was built from |
| `PolicyGraph.GenerateUntilRouted` | src/collectmind/graph/build.py:36-58 | for any generator the loop ends within the budget, every draft but the last failed validation, and it ends in a deployment exactly when the last one passed, otherwise with the budget spent |
| `PolicyGraph.Run` | src/collectmind/graph/build.py:36-58 | for any generator and collector: at most max(0, budget - start) + 1 attempts, at most one deployment and only of a draft that passed, completed exactly when that was accepted, empty errors on a dead letter exactly when the deployment was what failed |
| `Lineage.FlattenInvalid` | src/collectmind/graph/runner.py:201-206 | concatenates the invalid signals of all errors |
| `Lineage.FlattenOfErrors` | src/collectmind/graph/runner.py:201-206 | of a parsed policy's errors this is exactly the list of its unknown signals |
| `Lineage.RejectionNamesTheSignals` | src/collectmind/registry/audit.py:92-97 | round trip through packing and reading back, redactions in between included: the event names exactly the unknown signals of the last draft, none if it did not parse |
| `Lineage.RedactionKeepsCore` | src/collectmind/erasure/dispatcher.py:131-148 | redaction leaves everything but its own mark as it was |
| `Evaluator.Evaluate` | src/collectmind/feedback/evaluator.py:20-53 | counts above and below add up, and the verdict is by majority, ties confirmed |
| `Evaluator.JudgePermutes` | src/collectmind/feedback/evaluator.py:20-53 | the order of observations is irrelevant |
| `Evaluator.JudgeConcat` | src/collectmind/feedback/evaluator.py:20-53 | batches with one verdict have it together |
| `Evaluator.Simulate` | src/collectmind/simulators/telemetry_generator.py:26-69 | twenty rows per vehicle and signal, one a second, each on the side the directive asks for, none when starved |
| `Evaluator.StoredNear` | src/collectmind/registry/migrations/sql/005_collection_policies.sql:12 | the stored threshold is within 0.0005 and positive exactly from 0.0005 on |
| `Evaluator.OutcomeDetermined` | src/collectmind/simulators/telemetry_generator.py:34-69 | any non-empty part of a simulated stream is confirmed, except that rule_out is ruled out exactly from threshold 0.0005 on |
| `Evaluator.TinyThresholdConfirms` | src/collectmind/registry/migrations/sql/005_collection_policies.sql:12 | a positive threshold that rounds to zero turns a rule_out stream into a confirmation |
| `Verdicts.SimulateTelemetry` | src/collectmind/simulators/telemetry_generator.py:26-97 | the simulator's rows are what the protocol lets a session insert: none when starved, otherwise some for every vehicle in scope |
| `Verdicts.OutcomeOfSimulation` | src/collectmind/feedback/worker.py:76-80 | simulated once, stored, collected under any row limit and judged: no_data iff starved, ruled_out iff rule_out with threshold at least 0.0005, confirmed otherwise |
| `Verdicts.ScopesAreKept` | src/collectmind/graph/policy_deployer.py:32-42 | in every run a deployment row has its policy's original scope |
| `Verdicts.FinishedIsSupplied` | src/collectmind/graph/runner.py:179-184 | in every run a finished session's telemetry is there for each vehicle in scope unless that was erased |
| `Verdicts.VerdictIsExact` | src/collectmind/feedback/worker.py:63-93 | in every run, judging a finished session's deployment gives exactly the verdict its directive and threshold determine, as long as one vehicle of its scope was never erased |
| `Verdicts.EarlyVerdictIsNoData` | src/collectmind/feedback/worker.py:63-93 | in every run, judging a deployment whose session has not finished gives no_data, whatever the directive |
| `Verdicts.ExpiredForGood` | src/collectmind/registry/repository.py:160-177 | in every run an expired deployment stays expired and no later scan returns it |
| `Verdicts.JudgedTooEarly` | src/collectmind/graph/runner.py:158-184 | for every policy and every directive but starve, a run in which a worker comes between the deployment row and the telemetry, so that no_data and an expired deployment are left although the session finishes |
| `FeedbackWorker.CollectTelemetry` | src/collectmind/feedback/worker.py:115-136 | only matching rows, none more often than stored, and as many as there are up to 1000 |
| `FeedbackWorker.Process` | src/collectmind/feedback/worker.py:63-113 | processing one copied row with faults anywhere is a run of the protocol; it succeeds unless a fault or a duplicate outcome id strikes, and then exactly that deployment is expired |
| `FeedbackWorker.Conclude` | src/collectmind/feedback/worker.py:82-113 | outcome before expiry before outcome event, with faults anywhere |
| `FeedbackWorker.Tick` | src/collectmind/feedback/worker.py:56-61 | a tick is a run of the protocol that expires a prefix of its batch; the first exception ends it |
| `FeedbackWorker.WorkedIsARun` | src/collectmind/feedback/worker.py:56-113 | what a tick does continues any run of the concurrent protocol |
| `FeedbackWorker.BacklogDrains` | src/collectmind/registry/repository.py:160-170 | n due deployments are all expired after k fault-free ticks if and only if 100 k >= n, whatever later deployments are inserted or become due meanwhile |
| `Draining.TicksDrainBacklog` | src/collectmind/feedback/worker.py:56-61 | in every run of the concurrent protocol, n due deployments are all expired once one worker has finished k ticks without an exception and 100 k >= n, whatever the others do short of inserting rows that are due already; and only then, if no other worker marks any |
| `FeedbackWorker.DueIsBacklog` | src/collectmind/registry/repository.py:160-170 | the deployments due at an instant form such a backlog |
| `FeedbackWorker.RoundDrains` | src/collectmind/registry/repository.py:160-170 | each tick clears the backlog or takes a full batch of it; nothing later gets in front |
| `FeedbackWorker.OldestHeadsTheBatch` | src/collectmind/feedback/worker.py:56-61 | a strictly oldest due row heads every batch, so one that always raises stops every tick at its start |
| `Erasure.EraseSucceedsIff` | src/collectmind/erasure/dispatcher.py:101-119 | the statement succeeds exactly when every policy of the tenant naming the vehicle names another too |
| `Erasure.LoneMentionBlocksErasure` | src/collectmind/erasure/dispatcher.py:109-113 | a registry on which it fails |
| `Erasure.ErasureLeaves` | src/collectmind/erasure/dispatcher.py:101-119 | afterwards none of the tenant's policies names the vehicle, every other vehicle is as often there as before, no other field and no other tenant changes |
| `Erasure.WithoutAppend` | src/collectmind/erasure/dispatcher.py:109-113 | the order of the remaining vehicles is kept |
| `Erasure.ErasureIsIdempotent` | src/collectmind/erasure/dispatcher.py:101-119 | erasing again succeeds and changes nothing |
| `Erasure.ErasuresCommute` | src/collectmind/erasure/dispatcher.py:101-119 | two erasures of any vehicles and tenants succeed in one order exactly when in the other, with the same tables |
| `Erasure.TelemetryErasureLaws` | src/collectmind/erasure/dispatcher.py:121-129 | exactly the tenant's observations of the vehicle go; idempotent; commutes |
| `Erasure.RedactionLaws` | src/collectmind/erasure/dispatcher.py:131-148 | rows and references stay, exactly the subject's rows are marked, idempotent |
| `Erasure.ErasedStaysErased` | src/collectmind/registry/repository.py:110-128 | in every run, after a successful erasure only a policy inserted later can be the vehicle's active policy, and right after it there is none |
| `Erasure.ErasureLastsIff` | src/collectmind/erasure/dispatcher.py:121-129 | in every state without observations of the vehicle, no step of any actor brings one back if and only if no session of the tenant is about to insert telemetry with the vehicle in scope |
| `Erasure.ErasedForTheRunIff` | src/collectmind/erasure/dispatcher.py:121-129 | over the rest of any run, an erased vehicle stays unobserved if and only if no session of the tenant inserts telemetry with it in scope |
| `Erasure.ReturnsOnlyBySession` | src/collectmind/graph/runner.py:179-184 | in every run, observations after an erasure come from such a session |
| `Erasure.EraseRegistryStore` | src/collectmind/erasure/dispatcher.py:101-119 | the update, or nothing at all if one scope would become empty |
| `Erasure.EraseTelemetryStore` | src/collectmind/erasure/dispatcher.py:121-129 | the delete, for vehicles only |
| `Erasure.RedactAuditStore` | src/collectmind/erasure/dispatcher.py:131-148 | the redaction, for every kind of subject |
| `Erasure.EraseStores` | src/collectmind/erasure/dispatcher.py:64-84 | each store is attempted whatever happened to the others: what it then holds and reports |
| `Erasure.Dispatch` | src/collectmind/erasure/dispatcher.py:64-99 | what each store holds and reports under any failures; completed exactly when no store failed; when nobody moves in between, a completed report for a vehicle leaves no policy, observation or active policy of the tenant naming it |
| `NonInterference.TenantsDoNotInterfere` | src/collectmind/registry/repository.py:58-177 | removing all other tenants' statements, the worker's scans and expiries among them, from any run changes neither the results of a tenant's own statements nor the rows it is left with, if no identifier is shared |
| `NonInterference.ReadsAreLocal` | src/collectmind/registry/repository.py:58-170 | every read, the join for the active policy and the scan for due deployments included, depends on the tenant's own rows alone |
| `NonInterference.OwnStep` | src/collectmind/registry/repository.py:18-56 | a tenant's statement does to the shared tables what it does to the tenant's rows alone, with the same result |
| `NonInterference.FirstWriterOwns` | src/collectmind/registry/audit.py:101-148 | an audit row belongs to whoever claimed its key first, for the rest of the run |
| `NonInterference.EventSurvivesIff` | src/collectmind/registry/audit.py:98-161 | a tenant finds its event if and only if nobody else claimed the correlation id and kind first |
| `Ingest.DecisionMeans` | src/collectmind/ingest/idempotency.py:43-61 | first seen exactly if no earlier request committed the key; otherwise replay or changed by comparison with the one that did so first |
| `Ingest.InMemoryBackend.CheckOrRecord` | src/collectmind/ingest/idempotency.py:22-36 | decides and records in one step |
| `Ingest.Server.Check` | src/collectmind/ingest/idempotency.py:39-61 | decides and records nothing |
| `Ingest.Server.Persist` | src/collectmind/ingest/http.py:119-160 | the row if absent, then the accepted event if absent, each committed before a later failure |
| `Ingest.Server.PostFinding` | src/collectmind/ingest/http.py:34-116 | every refusal, the reply and what is left behind when an await raises; a changed payload is answered as a replay |
| `Ingest.PostgresRefinesInMemory` | src/collectmind/ingest/idempotency.py:22-61 | over any sequence of requests and crashes, check plus insert-if-absent is the in-memory check-and-record of the requests that reached their insert |
| `Ingest.DecisionsAgree` | src/collectmind/ingest/idempotency.py:22-61 | and every single decision on the way is the one the in-memory backend would have taken |
| `Ingest.OneRunPerFinding` | src/collectmind/ingest/http.py:78-102 | at most one graph run per finding, and exactly one if and only if the first request to commit it got through its audit write to its enqueue; its digest is the one kept |
| `Ingest.FirstDigestIsKept` | src/collectmind/ingest/http.py:127-151 | with overlapping requests the first committed digest stays for ever |
| `Ingest.LateRequestsNeverEnqueue` | src/collectmind/ingest/http.py:83-92 | a request not yet checked when its key commits never starts a run |
| `Ingest.EnqueuedIsRecorded` | src/collectmind/ingest/http.py:83-102 | a run is never started without its row and accepted event |
| `Ingest.DoubleRunsOverlap` | src/collectmind/ingest/http.py:83-102 | of two requests that both start a run for a key, each was checked before the other inserted |
| `Ingest.OverlapRunsTwice` | src/collectmind/ingest/http.py:83-102 | two overlapping requests can both start a run, and only the first digest is kept |
| `Migrations.Discover` | src/collectmind/registry/migrations/runner.py:47-66 | exactly one migration per up file, in strictly increasing key order, with its down file if there is one |
| `Migrations.KeySplits` | src/collectmind/registry/migrations/runner.py:60-65 | splitting a key at its first underscore recovers version and name |
| `Migrations.VersionOrderIff` | src/collectmind/registry/migrations/runner.py:47-66 | for all versions of two widths, key order is the order of the numbers if and only if the widths are equal |
| `Migrations.WiderVersionsRunEarly` | src/collectmind/registry/migrations/runner.py:35-36 | for every two widths, which the pattern admits from three on: 10...0 sorts before the smaller 9...9 |
| `MigrationRunner.Database.Commit` | src/collectmind/registry/migrations/runner.py:104-110 | script and row take effect together or, with the version taken, not at all |
| `MigrationRunner.Database.ApplyPending` | src/collectmind/registry/migrations/runner.py:86-114 | works through the list against the snapshot, stopping at the first failure |
| `MigrationRunner.Find` | src/collectmind/registry/migrations/runner.py:119-122 | the last migration of a version wins |
| `MigrationRunner.Database.RollbackOne` | src/collectmind/registry/migrations/runner.py:117-138 | unknown, not rollbackable, not applied and failed leave everything as it was; otherwise script and row go together |
| `MigrationRunner.RerunResumes` | src/collectmind/registry/migrations/runner.py:86-114 | wherever a run fails, the next applies exactly the rest in order and leaves what one undisturbed run would have left |
| `MigrationRunner.RerunIsEmpty` | src/collectmind/registry/migrations/runner.py:86-114 | after an undisturbed run there is nothing to do |
| `MigrationRunner.RecordsMatchEffects` | src/collectmind/registry/migrations/runner.py:86-138 | with any number of concurrent runners and any failures, the scripts in effect are exactly the recorded ones, each once |
| `MigrationRunner.EffectsFollowRecords` | src/collectmind/registry/migrations/runner.py:104-136 | a step changes a script's effect exactly when it changes its record, and by one |
| `MigrationRunner.NoScriptTwice` | src/collectmind/registry/migrations/runner.py:86-138 | no up script takes effect twice without its rollback in between |
| `MigrationRunner.OnlyTheFirstOfAVersion` | src/collectmind/registry/migrations/runner.py:97-111 | of several migrations with one version only the first can ever take effect |
| `MigrationRunner.RollbackKeepsIff` | src/collectmind/registry/migrations/runner.py:117-136 | a rollback keeps records and effects equal exactly when its down script belongs to the recorded migration |
| `MigrationRunner.SharedVersionBreaksRollback` | src/collectmind/registry/migrations/runner.py:119-122 | two migrations of one version on which it does not |
| `AuthorityCache.HitIsRecent` | src/collectmind/cache/ownership_cache.py:56-91 | in every interleaving with changes, lost or late invalidations and faults, an answer served on a hit was the table's no longer ago than the time to live plus the longest SELECT-to-SET delay |
| `AuthorityCache.MissIsSelected` | src/collectmind/cache/ownership_cache.py:68-91 | otherwise the answer is the table's at the SELECT |
| `AuthorityCache.AbsenceIsNotCached` | src/collectmind/cache/ownership_cache.py:81-90 | an unknown owner is never cached |
| `AuthorityCache.SettledHitIsCurrent` | src/collectmind/cache/ownership_cache.py:93-100 | if no change falls between a lookup's SELECT and SET of its key, every hit on a key that is not awaiting its invalidation is current |
| `AuthorityCache.WriteBackOvertakesInvalidation` | src/collectmind/cache/ownership_cache.py:80-83 | without that the old answer is served after its invalidation, and the staleness bound is reached exactly |
| `OwnershipCache.GetOwner` | src/collectmind/cache/ownership_cache.py:56-91 | hit, miss with write-back, and both failure paths |
| `OwnershipCache.Invalidate` | src/collectmind/cache/ownership_cache.py:93-100 | afterwards only vehicles still awaiting their own invalidation can disagree with the table |
| `OwnershipCache.LookUpIsARun` | src/collectmind/cache/ownership_cache.py:56-91 | each lookup is a run of the protocol that the staleness bound covers |
| `OwnershipCache.OwnerIsRecent` | src/collectmind/cache/ownership_cache.py:27-91 | an owner served on a hit owned the vehicle within the last hour plus the longest write-back delay |
| `OwnershipCache.CacheIsInvisible` | src/collectmind/cache/ownership_cache.py:56-100 | if no vehicle is asked for between its assignment and the next successful invalidation, all answers are the repository's, for every sequence and every pattern of failures |
| `OwnershipCache.UninvalidatedAssignment` | src/collectmind/registry/tenant_vehicles.py:62-87 | assigning does not invalidate: the old owner is served up to the expiry and not after |
| `OwnershipCache.ValidateTenantScope` | src/collectmind/deployer/tenant_scope_check.py:117-139 | passes only if every vehicle belongs to the declared tenant, otherwise reports the first that does not |
| `OwnershipCache.DeployChecked` | src/collectmind/deployer/node.py:98-138 | the collector is called exactly on a pass; with a coherent cache that means every vehicle in scope is the declared tenant's; a refusal is audited with the vehicle and its owner |
| `TenantConfig.TtlCache.Get` | src/collectmind/registry/tenant_config.py:74-82 | a hit up to and including the expiry, always of the asking tenant; an expired entry is dropped |
| `TenantConfig.TtlCache.Put` | src/collectmind/registry/tenant_config.py:84-89 | keeps keys unique and a positive capacity; raises exactly when there is nothing to evict |
| `TenantConfig.TtlCache.Invalidate` | src/collectmind/registry/tenant_config.py:91-92 | drops exactly that tenant |
| `TenantConfig.OldestAt` | src/collectmind/registry/tenant_config.py:85-88 | the first entry of least expiry in dictionary order |
| `TenantConfig.PutFacts` | src/collectmind/registry/tenant_config.py:84-89 | exactly the new entry and all others but an evicted one remain |
| `TenantConfig.EntriesFollowPuts` | src/collectmind/registry/tenant_config.py:66-92 | over any sequence of operations each entry is its key's last put and the size never exceeds the capacity |
| `TenantConfig.VictimIsLeastRecentIff` | src/collectmind/registry/tenant_config.py:84-88 | the victim was put at the earliest clock reading, and is the least recently put entry if and only if no live entry was put before it at that reading |
| `TenantConfig.TieEvictsTheRecent` | src/collectmind/registry/tenant_config.py:84-88 | with equal readings it need not be |
| `TenantConfig.GetForTenant` | src/collectmind/registry/tenant_config.py:102-130 | the asking tenant's own configuration, from the cache or the row or the defaults; current whenever the cache is |
| `TenantConfig.MissIsARun` | src/collectmind/registry/tenant_config.py:102-130 | a read that misses is a run of the cache protocol |
| `TenantConfig.PutShows` | src/collectmind/registry/tenant_config.py:84-89 | and leaves in the dictionary what the protocol has in its cache, eviction included |
| `TenantConfig.HitIsARun` | src/collectmind/registry/tenant_config.py:74-82 | a hit is one step of it and serves the entry's configuration |
| `TenantConfig.ConfigIsRecent` | src/collectmind/registry/tenant_config.py:66-134 | in every interleaving, with notifications lost or badly timed, a served configuration was in force within five seconds plus one read |
| `TokenBucket.RefillIsExact` | src/collectmind/ratelimit/token_bucket.lua:51-57 | for a commensurate rate the timestamp moves by exactly what the tokens are worth |
| `TokenBucket.CallSpends` | src/collectmind/ratelimit/token_bucket.lua:33-77 | a call spends one token's credit exactly when it admits |
| `TokenBucket.RateBound` | src/collectmind/ratelimit/token_bucket.lua:24-77 | over any history from a fresh key: at most burst plus rate times time |
| `TokenBucket.DisorderedRateBound` | src/collectmind/ratelimit/token_bucket.lua:45-50 | the bound that remains when clock readings arrive out of order, as long as none lags by the time that refills a burst |
| `TokenBucket.WindowBound` | src/collectmind/ratelimit/token_bucket.lua:24-77 | over any window of any history: the same plus less than one token |
| `TokenBucket.VaryingBound` | src/collectmind/ratelimit/token_bucket.lua:24-77 | over any history whose commensurate limits change from call to call: the first burst, the rate in force times the time, and for each change one more full bucket of the largest burst so far plus one token |
| `TokenBucket.RateLawIff` | src/collectmind/ratelimit/token_bucket.lua:43-57 | the law holds for all histories exactly when the rate divides 1000 or 1000 divides it |
| `TokenBucket.SameInstantAlwaysAdmits` | src/collectmind/ratelimit/token_bucket.lua:51-57 | above 1000 a second and not a multiple, one elapsed millisecond admits any number of calls |
| `TokenBucket.FractionIsForgotten` | src/collectmind/ratelimit/token_bucket.lua:51-57 | below 1000 and not a divisor, tokens are granted every 1000 / rate whole milliseconds |
| `TokenBucket.EffectiveRate` | src/collectmind/ratelimit/token_bucket.lua:43-57 | that is also the most there is, for every rate up to 1000 |
| `TokenBucket.RetryAfterSuffices` | src/collectmind/ratelimit/token_bucket.lua:70-77 | waiting the advertised seconds always gets the next call admitted if nobody else spends |
| `TokenBucket.RetryHintSufficesIff` | src/collectmind/ratelimit/token_bucket.lua:72-74 | the millisecond hint alone suffices exactly when a token costs whole milliseconds or less than one |
| `RateLimit.Middleware.EnsureLuaLoaded` | src/collectmind/ratelimit/middleware.py:124-132 | loads the script at most once |
| `RateLimit.Middleware.CallScript` | src/collectmind/ratelimit/middleware.py:167-186 | which calls were made and what came back; a second EVALSHA only after NOSCRIPT and a reload, and never a third |
| `RateLimit.Middleware.Conclude` | src/collectmind/ratelimit/middleware.py:186-235 | exactly one of 503, allow, 429 or an exception, each counted once; Retry-After is the least whole number of seconds, at least one, that covers the hint |
| `RateLimit.Middleware.Dispatch` | src/collectmind/ratelimit/middleware.py:134-235 | outcome, Redis calls and counters of every request under every fault; a non-exempt request is let through exactly when token, configuration and the script's last answer all say so, and Redis is not called for exempt or unauthenticated ones |
| `RateLimit.CountersConserve` | src/collectmind/ratelimit/middleware.py:134-235 | over any history every counter equals the number of requests that ended that way; the next handler ran exactly for exempt and allowed ones |
| `RateLimit.PassedIsAdmitted` | src/collectmind/ratelimit/middleware.py:164-214 | whatever is lost on the way and whatever limits each request finds, no more gets through than the bucket admitted |
| `RateLimit.ChangingLimitsHold` | src/collectmind/ratelimit/middleware.py:134-235 | so the limits in force bound a tenant's traffic end to end while its configuration changes |
| `RateLimit.LimitHolds` | src/collectmind/ratelimit/middleware.py:134-235 | and while the limits stay, a commensurate one bounds it tightly, with requests overtaking each other between reading the clock and the script |
| `RateLimit.DefaultLimitsHold` | src/collectmind/registry/tenant_config.py:32-63 | the shipped defaults are of that kind: 2000/4000 for every path under findings, 200/400 for all others |
| `Vss.CoversIsComponentPrefix` | src/collectmind/validator/governance.py:53-60 | the string test is a prefix test on components, for all strings |
| `Vss.CheckPii` | src/collectmind/validator/governance.py:53-60 | the search loop decides the predicate |
| `Vss.PiiIsAncestry` | src/collectmind/validator/governance.py:53-60 | a tree node is personal exactly when a configured branch is the node or an ancestor |
| `Vss.PiiIsInherited` | src/collectmind/validator/governance.py:53-60 | everything below a personal node is personal |
| `Vss.CoversIsAncestry` | src/collectmind/validator/governance.py:53-60 | on tree paths the test is ancestry, both ways |
| `Vss.Walk` | scripts/fetch_vss_v6.0.py:49-63 | the recursive walk overlays the leaves of the tree, in order |
| `Vss.LeavesDistinct` | scripts/fetch_vss_v6.0.py:49-63 | with dot-free names paths are injective and lie under their parent's |
| `Vss.FlattenIsLossless` | scripts/fetch_vss_v6.0.py:49-63 | one entry per leaf-kind node, each its own |
| `Vss.DottedNamesCollide` | scripts/fetch_vss_v6.0.py:49-63 | with dotted names two leaves can share a path |
| `Keys.HotKeyInjective` | src/collectmind/redis/client.py:26-33 | for colon-free tenant and vehicle the key determines all three parts |
| `Keys.KeyIsUnambiguousIff` | src/collectmind/redis/client.py:26-33 | over all ids a key has one reading exactly when no part has a colon |
| `Keys.HotStore.PutSignal` | src/collectmind/redis/client.py:87-91 | one cell of one tenant changes, seen through a map per tenant |
| `Keys.HotStore.GetSignal` | src/collectmind/redis/client.py:93-103 | reads that tenant's own cell |
| `Keys.FlatMapIsPerTenant` | src/collectmind/redis/client.py:87-103 | over every sequence of puts and gets the flat map is indistinguishable from a map per tenant |
| `Keys.BucketKeysInjective` | src/collectmind/ratelimit/middleware.py:165 | bucket keys separate tenants and buckets with no condition on the tenant's name |

## Left out

- Erasure.Dispatch: its promise is for a dispatcher that nobody interrupts; `Erasure.ErasedStaysErased` and `Erasure.ErasedForTheRunIff` say what remains of it in concurrent runs.
- Pipeline.RejectionIsLegible: a model of the invalid signals only; the `validation_errors` list and the error messages stored beside the invalid signals are not in the modelled document.
- Vetting.EveryRejectionIsLegible: the same omission.
- PolicyGraph.Session.DeployPolicy: an `expires_at` string that `_parse_iso` rejects is not among the collector's replies; the deployment insert that raises on it is an exception event of the protocol.
- FeedbackWorker.CollectTelemetry: `observed_at` is not modelled; rows count as newer when inserted later.
- TokenBucket.RateLawIff: Lua's doubles are integers here; divisions are exact floors.
- RateLimit.ChangingLimitsHold: for clock readings in order; with readings out of order only `RateLimit.LimitHolds`, for constant limits, is proved.
- MigrationRunner.RecordsMatchEffects: SQL scripts are opaque; a down script is taken to undo its own up script and nothing else, and DDL is transactional.
- Keys.FlatMapIsPerTenant: the clock of each operation is a parameter, and Redis eviction is not modelled.
- JWT verification, signing, digests and the language model client: values with equality, or arbitrary inputs.
- Kafka, metrics objects, label normalisation, logging, HTTP response bodies and FastAPI wiring: input and output only.
- `difflib` suggestions and the PII log patterns: they rest on library engines and no property here needs them.
- The erasure request's own row and its `submit` and `get` endpoints: a single insert and a single read.
- The text of the row-level security policies: taken as a filter by tenant on every statement.

# Model of a local database gateway

The system stands between an agent and many databases. It decides which relations a SQL query reads
and whether the policy allows that, executes confirmed writes at most once, runs connectors in
worker processes that can be cancelled and replaced, pages through results with opaque cursors,
masks fields, and keeps profiles and credentials in two stores. The modules below model that logic
and prove what it is relied on for.

- `SqlSyntax`, `SqlNames`, `SqlScope`, `SqlAnalyzer`, `SqlSemantics`, `PolicyRules`: the read-policy analysis of
  SQL. The analyser is a flat visitor with a depth counter plus recursion on the sub-queries it
  leaves for later; the reference is a scoped recursive definition of the free relations; the
  semantics evaluates queries (lateral joins, correlated sub-queries, recursive common table
  expressions by iteration) over any engine.
- `Operations`, `Grants`, `AuditStore`, `WriteProtocol`, `WriteAuthorization`, `MisreportedWrite`:
  execution of writes as a step system with any number of requests, lost state updates and crashes.
- `WorkerLifecycle`, `CancelProtocol`, `CancelBarrier`, `WorkerShield`: cancellation across the supervisor and its
  worker generations.
- `EndToEnd`, `OversizedResult`: runtime and workers in one run, where a dispatched request becomes a call and the
  call's reply the connector's answer.
- `Filters`, `MongoBound`, `MongoExact`, `SqlppFilter`: filter compilation and the syntactic bound on writes.
- `Common`, `CqlPaging`, `HBaseScan`, `CatalogPaging`: paging with cursors.
- `Masking`: masking and size limits of results.
- `Admission`: request and connection permits.
- `TwoStoreAdmin`: administration of profiles and credentials with compensation.

Abstractions used throughout: time is a natural number that never goes back; a SQLite transaction is
one step; digests are injective and a signature is an abstract predicate; serialized size is an
arbitrary function; base64 and JSON coding of cursors is invertible and therefore left implicit;
glob matching is an arbitrary relation between patterns and targets. What the server or a library
decides (atomic conditions of a filter, page lengths, scan positions, expression functions) is a
parameter that every theorem quantifies over.

Small lemmas (`WriteProtocol.AuthorizationDecides`, `CancelProtocol.StartDecides`, `Operations.ActionsByKind` and the
like) fix single steps and leaf functions in other terms than their bodies, so that no theorem rests on a definition
that nothing else speaks of. They have no rows of their own.

Where a promise fails in some situation, the model keeps the code's behaviour, shows a run or an input, and
gives the condition:

- A write that was applied and answered with success is reported as an error when its result does not fit the
  connection's limits (`OversizedResult.AppliedWriteIsReportedAsError`); its key is recorded as succeeded.
  `EndToEnd.HandedWriteIsReported` and `Masking.PresentableIff` give the condition.
- MongoDB: a regular expression listed among `_id` values is a pattern for the server, so the explicit bound does
  not bound the matches; an update is then refused as exceeded after it changed the documents
  (`MongoBound.PatternUpdateExceeds`). For id equalities and lists joined by OR the bound is kept if and only if no
  listed value is such a pattern (`MongoBound.BoundKeptIffNoPattern`); for all filters without NOT see
  `MongoExact.BoundKeptIff`.
- A repeated cancellation does not renew a tombstone in a worker (`WorkerLifecycle.RepeatedCancelDoesNotRenew`); the
  supervisor's does, and `WorkerShield.ShieldLasts` says from when a worker's counts.
- An interrupted write that was handed to an adapter is reported as an unknown outcome if and only if the client
  did not fail to decode the worker's reply (`CancelProtocol.InterruptedWriteIsUnknown`,
  `CancelProtocol.UndecodableReplyHidesOutcome`; `crates/connector-ipc/src/connector.rs:223`).
- A nonce issued again with a later expiry can be spent twice (`Grants.ReusedNonceIsSpentTwice`); the purged table
  decides like one that never forgets exactly under the condition of `Grants.ActsLikeEverGrowingSetIff`.
- A connector that reports a definite error for a write it applied lets a retry apply it again
  (`MisreportedWrite.MisreportedWriteIsAppliedTwice`). At-most-once is therefore proved under `honest`: an error
  other than an unknown outcome means "not applied". The worker proxy (`crates/connector-ipc/src/connector.rs:223`)
  and the MongoDB connector (`crates/connectors-document/src/mongo.rs:1044-1049`) do not by themselves guarantee it,
  for the two reasons above.
- An HBase scan whose effective limit is 0 or at least 2^31 - 1 can end without a cursor while rows
  are left: `HBaseScan.PageIsStretch` gives the exact condition.
- A CQL cursor behind a whole page that the server continued with an empty state is refused by the decoder, and no
  other emitted cursor is (`CqlPaging.EmittedCursorDecodes`, `CqlPaging.EmptyStateIsRefused`).
- A create that fails after its credential was stored removes a credential that was already there
  under the same reference (`TwoStoreAdmin.ConnectionManager.Create`).
- A catalog search with an effective limit of 2^32 - 1 is an error (`CatalogPaging.SearchCatalog`).
- A connection deleted and created anew can carry an old policy version with another policy
  (`TwoStoreAdmin.RecreationReusesVersions`); `TwoStoreAdmin.GrantMatchesIff` says exactly when a grant matches.

## Model

| member | source | states |
|---|---|---|
| `SqlSyntax.NormalizedIdentifier` | crates/connector-policy/src/policy.rs:819-837 | an identifier has a key if and only if it is non-empty and free of dots and glob characters, and then so is the key |
| `SqlNames.NormalizedIffPlain` | crates/connector-policy/src/policy.rs:819-837 | an identifier's key, without naming the folding: none for an empty text or one with a dot, glob character or backslash; else the text itself when quoted or preserved, no character in A-Z and each upper-case one 32 higher under the lower-case rule, the mirror image under the upper-case rule |
| `SqlNames.FreeIsNamed` | crates/connector-policy/src/policy.rs:779-817 | every resource of the reference definition is spelled, key by key with dots between, by a relation name that stands in the query |
| `SqlNames.OnlyCapturedNamesAreLeftOut` | crates/connector-policy/src/policy.rs:779-800 | at any relation name, the resource is missing only if the name has one part and that part's key is visible as a common table expression |
| `SqlSyntax.DottedInjective` | crates/connector-policy/src/policy.rs:802-837 | two accepted relation names with the same resource string are the same relation, so no quoting or dotting trick makes one relation pass for another |
| `SqlAnalyzer.CurrentQueryVisitor.PreVisitRelation` | crates/connector-policy/src/policy.rs:779-800 | at depth zero a visit adds exactly the relation's free resource (none when a visible common table expression captures it) or stops on a bad name; deeper it does nothing |
| `SqlAnalyzer.VisitQuery` | crates/connector-policy/src/policy.rs:738-800 | a query inside the level counts as one query left for later whatever it contains; the root contributes its own level and nothing of its sub-queries, and stops exactly where the level is not acceptable |
| `SqlAnalyzer.LevelAccounts` | crates/connector-policy/src/policy.rs:661-683 | one level's relations together with the free relations of the queries it leaves are the free relations of body and tail, and those queries are smaller |
| `SqlAnalyzer.SetAccounts` | crates/connector-policy/src/policy.rs:661-683 | the same accounting for set expressions |
| `SqlAnalyzer.NotReadOnly` | crates/connector-policy/src/policy.rs:685-727 | a body refused by the shape check is nowhere acceptable, at any nesting of set operations |
| `SqlAnalyzer.SqlReadAnalyzer.AnalyzeCtes` | crates/connector-policy/src/policy.rs:646-660 | each common table expression sees the earlier ones, and itself when recursive; relations of all of them are collected exactly |
| `SqlAnalyzer.SqlReadAnalyzer.AnalyzeQuery` | crates/connector-policy/src/policy.rs:646-683 | accepts if and only if no lock, INTO, lateral view, pipe operator, table function or mutating body occurs at any depth, and collects exactly the recursively defined free base relations |
| `SqlAnalyzer.AnalyzeParsedSqlQuery` | crates/connector-policy/src/policy.rs:610-638 | the same for a whole statement, which must also contain a SELECT; every resource returned is spelled by a relation name of the query as the dialect folds it |
| `SqlAnalyzer.SelectIsABranch` | crates/connector-policy/src/policy.rs:624-637 | the test for a SELECT finds one exactly when some branch of the set operations is one |
| `SqlSemantics.SameQuery` | crates/connector-policy/src/policy.rs:646-683 | soundness: an accepted query gives the same result on two databases that agree on its free relations, for every engine |
| `SqlSemantics.SameBind` | crates/connector-policy/src/policy.rs:646-660 | the same for the bindings of a WITH clause, and they bind exactly the names the analyser makes visible |
| `SqlSemantics.SameIterate` | crates/connector-policy/src/policy.rs:646-660 | the same for every round of a recursive common table expression |
| `PolicyRules.ResourcePatternSpecificity` | crates/connector-policy/src/policy.rs:227-285 | the loop with its flags computes the score of a character-by-character scan |
| `PolicyRules.ScanBounds` | crates/connector-policy/src/policy.rs:227-285 | the literal prefix is at most the literals, these at most the length, and a pattern without glob syntax is all prefix |
| `PolicyRules.LiteralBeatsWildcard` | crates/connector-policy/src/policy.rs:204-285 | an exact pattern beats every pattern with a wildcard, however long |
| `PolicyRules.ScoreOrder` | crates/connector-policy/src/policy.rs:227-285 | the order of scores is strict and total: exact first, then more literals, then the longer prefix, then fewer wildcards |
| `PolicyRules.PlainCounts` | crates/connector-policy/src/policy.rs:227-285 | without escapes and classes the wildcards are the occurrences of `*`, `?` and `{`, and the literals all other characters but `}` and `,` |
| `PolicyRules.EscapesAndClasses` | crates/connector-policy/src/policy.rs:227-285 | an escaped character counts as one literal, inside a class too, and a bracket opens one wildcard |
| `PolicyRules.PrefixEndsAtWildcard` | crates/connector-policy/src/policy.rs:227-285 | the prefix is all literals up to the first wildcard, whatever follows it |
| `PolicyRules.MatchingResourceRule` | crates/connector-policy/src/policy.rs:204-225 | the selected rule matches, no matching rule beats it and no earlier one equals it; none is selected only if none matches |
| `PolicyRules.OneGoverningRule` | crates/connector-policy/src/policy.rs:204-225 | at most one rule is in that position, so the decision is unique |
| `PolicyRules.EvaluateSqlQuery` | crates/connector-policy/src/policy.rs:177-201 | permitted if and only if the policy is enabled and unmasked, the query is acceptable and each free relation's governing rule allows reading; invalid, not denied, exactly for an unacceptable query under such a policy; the resources are spelled by names of the query |
| `PolicyRules.PermittedQueryIsConfined` | crates/connector-policy/src/policy.rs:177-201 | a permitted query's result does not change when every relation it may not read is replaced |
| `Operations.WritePredicatesAgree` | crates/connector-ipc/src/supervisor.rs:296-306 | the policy's classification and the three separate lists of supervisor, proxy and worker agree on every operation, and only writes carry an idempotency key |
| `CancelProtocol.LayersAgree` | apps/sql-connector/src/worker.rs:290-315 | the same for calls, so that retry, error reporting and interruption are decided alike although each layer decides by its own list |
| `Grants.VerifiedIff` | crates/connector-policy/src/grant.rs:96-151 | a grant verifies if and only if it is signed, the time lies in its last two minutes, it was made for these facts (subject, session, connection, tool, policy version, arguments) and allows no more than this context; what is spent is its own nonce and expiry |
| `Grants.OneGrantOneRequest` | crates/connector-policy/src/grant.rs:96-151 | two contexts for which one grant verifies at any times agree on all these facts |
| `Grants.RefusedBecause` | crates/connector-policy/src/grant.rs:96-151 | which failure is reported: unsigned or too long-lived, expired, or made for something else |
| `Grants.EntryWasSpent` | crates/connector-store/src/audit.rs:182-212 | every entry of the purged table is a spent grant that is still unexpired |
| `Grants.SpentIsEntry` | crates/connector-store/src/audit.rs:182-212 | every spent grant that is still unexpired is in the table with its expiry |
| `Grants.DecisionIsExact` | crates/connector-store/src/audit.rs:182-212 | over any run with a monotone clock: refused as expired, as replayed if an unexpired grant with that key was spent, accepted otherwise |
| `Grants.EachGrantSpentOnce` | crates/connector-store/src/audit.rs:182-212 | no grant is consumed twice although expired entries are forgotten |
| `Grants.PurgedTableActsLikeEverGrowingSet` | crates/connector-store/src/audit.rs:182-212 | for every unexpired grant the table decides like the set of all nonces ever spent, when a nonce has one expiry |
| `Grants.ActsLikeEverGrowingSetIff` | crates/connector-store/src/audit.rs:182-212 | the table decides like the ever-growing set if and only if the grant has expired or its nonce, if ever spent, was spent by a grant still unexpired |
| `Grants.ReusedNonceIsSpentTwice` | crates/connector-policy/src/grant.rs:154-160 | for every nonce and every two expiries a run in which the nonce is spent twice |
| `AuditStore.AuditRepository.ConsumeGrantNonce` | crates/connector-store/src/audit.rs:182-212 | the transaction realises that table: unexpired entries survive and an accepted grant is recorded |
| `AuditStore.AuditRepository.ReserveIdempotency` | crates/connector-store/src/audit.rs:214-250 | reserves exactly free keys; a reserved key is in flight for this hash |
| `AuditStore.AuditRepository.UpdateIdempotencyState` | crates/connector-store/src/audit.rs:304-333 | settles only a record that is in flight under the same hash |
| `AuditStore.AuditRepository.ReleaseIdempotency` | crates/connector-store/src/audit.rs:280-302 | frees only such a record, and success means it is gone |
| `WriteProtocol.StepKeepsInv` | crates/connector-runtime/src/runtime.rs:961-1113 | a step confined to one request keeps one owner per record when it takes over no record another request holds |
| `WriteProtocol.SettleIsLegal` | crates/connector-runtime/src/runtime.rs:1151-1179 | settling or releasing touches only the request's own record, even when the state update is lost |
| `WriteProtocol.AnswerIsLegal` | crates/connector-runtime/src/runtime.rs:1014-1085 | each way a connector run ends leaves the record with its owner, or the write can no longer take effect |
| `WriteProtocol.InvAlways` | crates/connector-runtime/src/runtime.rs:897-1113 | in every reachable state an unsettled or possibly effective write has its record on file and is its only owner |
| `WriteProtocol.AtMostOnce` | crates/connector-runtime/src/runtime.rs:961-1113 | over every interleaving of requests, cancellations, timeouts, lost updates and crashes, two different requests on one connection with equal keys are never both applied, given honest connectors; for one request see `EndToEnd.AppliedWriteWasHandedOnce` |
| `WriteProtocol.RecordsBelongToRequests` | crates/connector-runtime/src/runtime.rs:961-990 | over all runs every record is filed under the connection and key of a write that carries them, with its hash: keys of other connections do not clash |
| `WriteProtocol.RecordTellsOutcome` | crates/connector-runtime/src/runtime.rs:1151-1179 | however updates are lost, a write reported with an unknown outcome never has a record that says succeeded, and a succeeded one never one that says unknown |
| `WriteProtocol.SettlementFilesOutcome` | crates/connector-runtime/src/runtime.rs:1151-1179 | in every reachable state an update that is not lost files succeeded after a success, unknown after an unknown outcome, and frees the key otherwise |
| `WriteProtocol.DecidedKeyStaysTaken` | crates/connector-runtime/src/runtime.rs:961-1013 | over all runs no other request is under way or pending under the key of a write that succeeded or has an unknown outcome |
| `WriteProtocol.UnhinderedWriteSucceeds` | crates/connector-runtime/src/runtime.rs:822-1116 | from every state a write with an unspent verified grant and a free key, not cancelled, has a run to success in which it is applied and its record says succeeded |
| `WriteProtocol.OverForGood` | crates/connector-runtime/src/runtime.rs:897-1113 | over every run what a finished or crashed request came to never changes |
| `WriteProtocol.CancelledMeansNotApplied` | crates/connector-runtime/src/runtime.rs:897-914 | a write reported as cancelled was not applied and nothing of it can still be |
| `WriteAuthorization.SpendKeepsLedger` | crates/connector-runtime/src/runtime.rs:930-960 | consuming a grant keeps the history of spent grants free of repetitions |
| `WriteAuthorization.GrantInvAlways` | crates/connector-runtime/src/runtime.rs:822-960 | in every reachable state each write past authorisation has a verified grant and each write past spending has spent it |
| `WriteAuthorization.EveryWriteSpentItsOwnGrant` | crates/connector-runtime/src/runtime.rs:822-960 | every write handed to a connector had a signed grant whose subject, session, connection, tool, arguments and policy version are its own and whose limits are within its own; it spent this grant's nonce in time and no other request ever did, honest connectors or not |
| `MisreportedWrite.MisreportedWriteIsAppliedTwice` | crates/connectors-document/src/mongo.rs:1044-1049 | for any two signed confirmations, a run of the protocol in which a definite error for an applied write leads to two applications under one key |
| `WorkerLifecycle.RequestLifecycleState.PruneCancelled` | apps/sql-connector/src/worker.rs:135-143 | map and queue lose exactly the leading expired tombstones and keep agreeing |
| `WorkerLifecycle.RequestLifecycleState.MakeRoom` | apps/sql-connector/src/worker.rs:149-155 | the eviction loop leaves room for one by removing only oldest entries |
| `WorkerLifecycle.RequestLifecycleState.InsertCancelled` | apps/sql-connector/src/worker.rs:145-159 | an id is listed once, at the back, within capacity |
| `WorkerLifecycle.RequestLifecycleState.BeginCall` | apps/sql-connector/src/worker.rs:60-93 | a tombstoned id is refused as cancelled, a running one as already active, any other starts |
| `WorkerLifecycle.RequestLifecycleState.CancelCall` | apps/sql-connector/src/worker.rs:95-107 | a running call has its token cancelled, any other id gets a tombstone |
| `WorkerLifecycle.RequestLifecycleState.FinishCall` | apps/sql-connector/src/worker.rs:121-132 | the call leaves the running set and, if it was cancelled, leaves a tombstone |
| `WorkerLifecycle.AlwaysConsistent` | apps/sql-connector/src/worker.rs:59-159 | after any operations each tombstone is listed once, running and tombstoned ids are disjoint, and at most 4096 are held |
| `WorkerLifecycle.PrunedIsExpiredFront` | apps/sql-connector/src/worker.rs:135-143 | pruning drops tombstone i exactly when it and all before it are five minutes old or older |
| `WorkerLifecycle.InsertKeepsAllButOldest` | apps/sql-connector/src/worker.rs:145-159 | capacity drops only the oldest-inserted tombstone, and only when 4096 are held |
| `WorkerLifecycle.TombstoneSurvives` | apps/sql-connector/src/worker.rs:59-159 | a tombstone younger than the time to live survives any run shorter than the capacity left behind it |
| `WorkerLifecycle.LostOnlyAsOldest` | apps/sql-connector/src/worker.rs:134-159 | in every reachable state a young tombstone that an operation loses was the oldest of 4096 |
| `WorkerLifecycle.ForceKept` | apps/sql-connector/src/worker.rs:59-159 | every operation keeps a cancellation in force, as a cancelled token or as a tombstone with a counted number behind it |
| `WorkerLifecycle.RepeatedCancelDoesNotRenew` | apps/sql-connector/src/worker.rs:145-148 | for any two times: a second cancellation leaves the first tombstone, which expires on its own time |
| `CancelProtocol.CancellationTombstones.Record` | crates/connector-ipc/src/supervisor.rs:28-42 | the id is barred for exactly five minutes from now; every other entry still unexpired stays as it is, except for an oldest one when 4096 are held; expired ones go |
| `CancelProtocol.CancellationTombstones.Contains` | crates/connector-ipc/src/supervisor.rs:44-52 | finds exactly an unexpired entry; exactly the unexpired entries stay, unchanged |
| `CancelProtocol.FindOldest` | crates/connector-ipc/src/supervisor.rs:28-42 | the entry to evict expires no later than any other |
| `CancelProtocol.CallsInvAlways` | crates/connector-ipc/src/supervisor.rs:90-212 | in every reachable state sends, generations and attempts of each call agree with its phase |
| `CancelProtocol.ResendDiscipline` | crates/connector-ipc/src/supervisor.rs:116-139 | over any failures a write is given to a worker client at most once and any other call at most twice |
| `CancelProtocol.CancelledWriteNeverHanded` | apps/sql-connector/src/worker.rs:339-397 | a write answered as cancelled never reached an adapter, and no message of it is left |
| `CancelProtocol.HandedAtMostOnce` | crates/connector-ipc/src/supervisor.rs:116-139 | however workers fail and are replaced, an adapter is given a write once at most |
| `CancelProtocol.InterruptedWriteIsUnknown` | apps/sql-connector/src/worker.rs:363-397 | the answer of a write that was handed over is its adapter's own, or the wait was cut short and then it is an unknown outcome if and only if the client did not fail to decode the reply |
| `CancelProtocol.UndecodableReplyHidesOutcome` | crates/connector-ipc/src/connector.rs:218-235 | for every write a run in which the adapter was given it and an undecodable reply is reported as a plain error |
| `CancelProtocol.OtherCallsAreAnsweredPlainly` | apps/sql-connector/src/worker.rs:384-397 | over all runs a call that is no write gets its adapter's answer as it is, a cancellation, or a plain error, and an unknown outcome only from its adapter |
| `CancelProtocol.RetryGoesToNewerWorker` | crates/connector-ipc/src/supervisor.rs:187-212 | in every reachable state a recovering call gets the worker of the current generation, newer than the one that failed it |
| `CancelProtocol.FailureDecides` | crates/connector-ipc/src/supervisor.rs:116-139 | after a failed first attempt a write ends with an unknown outcome; another call is cancelled if barred, an error if there is no worker, and else goes once more to the worker there is by then |
| `CancelProtocol.DeliveryDecides` | apps/sql-connector/src/worker.rs:238-262 | a delivered call is refused as running already, as cancelled before, or as busy, in this order, and else begun |
| `CancelProtocol.CancellationDecides` | apps/sql-connector/src/worker.rs:95-107 | a cancellation that is read is in force in that worker, by token or tombstone, and confirmed |
| `CancelProtocol.StoppedForGood` | crates/connector-ipc/src/supervisor.rs:154-162 | over every run after a shutdown no worker is replaced and no call begun later is ever sent |
| `CancelBarrier.BarrierHolds` | crates/connector-ipc/src/supervisor.rs:277-285 | no step lets a data call for a barred id through, as a first send or as a retry |
| `CancelBarrier.BarrierAcrossGenerations` | crates/connector-ipc/src/supervisor.rs:90-152 | over any run while the id stays barred: a call about to be sent was let through before the cancellation was recorded, however many workers were replaced |
| `CancelBarrier.OneReplacementPerGeneration` | crates/connector-ipc/src/supervisor.rs:164-211 | concurrent failures of one generation replace it at most once, below counter saturation |
| `CancelBarrier.CancelShields` | apps/sql-connector/src/worker.rs:95-107 | once a worker has read a cancellation it stops the id, whether the call came before or comes after |
| `CancelBarrier.RegisteredAlways` | apps/sql-connector/src/worker.rs:228-251 | every running attempt is registered under its id in its worker before it can be handed over |
| `WorkerShield.LifeFollows` | apps/sql-connector/src/worker.rs:228-284 | a worker's bookkeeping changes by the operations of its lifecycle and by nothing else |
| `WorkerShield.WorkersConsistentAlways` | apps/sql-connector/src/worker.rs:59-159 | in every run of supervisor and workers every worker's tombstones are listed once, within capacity, and apart from its running calls |
| `WorkerShield.ForceLasts` | apps/sql-connector/src/worker.rs:59-159 | a cancellation stays in force over any run until its time is over or 4096 tombstones were inserted behind it |
| `WorkerShield.ShieldLasts` | apps/sql-connector/src/worker.rs:95-107 | once worker g has read a cancellation it shields the id for the whole time to live while it inserts fewer than 4096 tombstones behind it, whatever else happens; a repeated one counts from the tombstone still held |
| `WorkerShield.CancelledAttemptIsStopped` | apps/sql-connector/src/worker.rs:228-251 | from then on and within that time every attempt for the id is refused on delivery, has its token cancelled and is ended by its next poll, is over, or is in another generation |
| `WorkerShield.NoHandoverAfterCancel` | apps/sql-connector/src/worker.rs:363-382 | from then on and within that time the worker's adapters are handed no further call for the id |
| `EndToEnd.SidesRun` | crates/connector-ipc/src/connector.rs:35-46 | in a joint run of runtime and workers each side runs by its own protocol, so every theorem of either side holds |
| `EndToEnd.InvAlways` | crates/connector-runtime/src/runtime.rs:1014-1116 | in every joint run a request has a call only once dispatched; a finished write reports an unknown outcome, its call's reply, or, after a successful reply whose result was checked and does not fit, a result too large; an applied write was handed to an adapter |
| `EndToEnd.CallAsksForTheOperation` | crates/connector-ipc/src/connector.rs:35-46 | in every joint run a request's call asks for that request's operation, on its connection, under its name |
| `EndToEnd.CancelledMeansNotExecuted` | crates/connector-runtime/src/runtime.rs:1671-1712 | through runtime, supervisor and worker: a write the runtime reports as cancelled was not applied, and no call was made or no adapter was given it and none will be |
| `EndToEnd.HandedWriteIsReported` | crates/connector-runtime/src/runtime.rs:1014-1116 | a finished write whose adapter was given the call is reported with an unknown outcome or with its call's own answer, except if and only if the answer was success and the result does not fit the limits, and then as too large |
| `OversizedResult.AppliedWriteIsReportedAsError` | crates/connector-runtime/src/runtime.rs:1086-1116 | for every result that does not fit a run in which the write is applied, answered with success and recorded as succeeded, while its caller is told of an error |
| `EndToEnd.AppliedWriteWasHandedOnce` | crates/connector-ipc/src/supervisor.rs:116-139 | one request's applied write goes back to exactly one hand-over to an adapter |
| `Masking.OneMorePath` | crates/connector-runtime/src/runtime.rs:1977-2012 | masking one more path of an already masked record is masking the larger set |
| `Masking.MaskingIsBySet` | crates/connector-runtime/src/runtime.rs:1942-1950 | masking path after path equals one simultaneous masking of the set of paths |
| `Masking.OrderAndRepetitionDoNotMatter` | crates/connector-runtime/src/runtime.rs:1942-1950 | the order and repetition of masked fields do not change the result |
| `Masking.ExactlyResolvedPositionsAreMasked` | crates/connector-runtime/src/runtime.rs:1977-2012 | each position a path resolves to, over the dots of the path and with an exactly spelled key first, shows the text [MASKED], itself or at an ancestor resolved to; every other position is kept: scalars as they are, arrays and documents with the same items or fields |
| `Masking.SplitIsAtFirstDot` | crates/connector-runtime/src/runtime.rs:1982 | a path splits exactly at its first dot into name and rest, and not at all without one |
| `Masking.OperationResult.MaskInPlace` | crates/connector-runtime/src/runtime.rs:1942-1950 | the loops over rows and fields mask each row by all fields and nothing else |
| `Masking.OperationResult.EnforceLimitsAndMasking` | crates/connector-runtime/src/runtime.rs:1923-1975 | succeeds if and only if an acceptable prefix fits, keeps the longest one, never drops a row by size when a cursor is present and never empties a page |
| `Masking.PresentableIff` | crates/connector-runtime/src/runtime.rs:1952-1972 | without a cursor a result is refused exactly when not even its first row fits, or, having no row, its bare metadata |
| `MongoBound.BoundCovers` | crates/connectors-document/src/mongo.rs:1378-1393 | when the lists it counts hold no pattern, a filter with bound n has n listed ids that cover every document its compiled form can match |
| `MongoBound.CompiledMeansFilter` | crates/connectors-document/src/mongo.rs:1336-1376 | on every server and document the compiled selector matches if and only if the filter holds by its own recursive meaning: each comparison with its own operator and value, AND all, OR some, NOT the opposite |
| `MongoBound.CompilesIff` | crates/connectors-document/src/mongo.rs:1336-1376 | a filter compiles if and only if every field is valid, every list and boolean filter non-empty, and every value converts |
| `MongoBound.ValidFieldIff` | crates/connectors-document/src/mongo.rs:1695-1705 | a field path is valid if and only if it has no NUL, no leading dollar sign and no empty part between its dots |
| `MongoBound.SmallestIsLeast` | crates/connectors-document/src/mongo.rs:1378-1393 | a conjunction has the least bound among its parts that have one |
| `MongoBound.TotalIsSum` | crates/connectors-document/src/mongo.rs:1378-1393 | a disjunction has a bound when every part has, and it is their sum, saturating at 2^64 - 1 |
| `MongoBound.ExtendedPatternConverts` | crates/connectors-document/src/mongo.rs:1625-1637 | the extended regular-expression form converts to a pattern with its text and options |
| `MongoBound.DisjunctsCover` | crates/connectors-document/src/mongo.rs:1378-1393 | for a disjunction the ids of all branches together cover |
| `MongoBound.CountWithinKeys` | crates/connectors-document/src/mongo.rs:1014-1049 | documents with distinct ids cannot outnumber the ids that cover them |
| `MongoBound.MatchesWithinBound` | crates/connectors-document/src/mongo.rs:1336-1393 | at most n documents of any collection with unique ids match a filter whose explicit bound is n, when what the bound counts are ids and not patterns |
| `MongoBound.BoundKeptIffNoPattern` | crates/connectors-document/src/mongo.rs:1353-1393 | for id equalities and id lists joined by OR, the bound is kept on every server and collection if and only if no listed value converts to a regular expression |
| `MongoBound.UnconfinedExceeds` | crates/connectors-document/src/mongo.rs:1353-1393 | a filter whose id lists all hold a pattern matches entire collections of any size, also in conjunction with conditions on other fields |
| `MongoExact.MatchIsPossible` | crates/connectors-document/src/mongo.rs:1336-1376 | whatever matches a filter has an id that its evaluation over id sets leaves possible |
| `MongoExact.PossibleMatches` | crates/connectors-document/src/mongo.rs:1336-1376 | without NOT, every document whose id is left possible matches on a server where the other conditions hold |
| `MongoExact.BoundKeptIff` | crates/connectors-document/src/mongo.rs:1336-1393 | for every filter without NOT and every bound: it is kept on all servers with given id keys and all collections if and only if the evaluation over id sets leaves a limited set no larger than the bound |
| `MongoBound.PatternsAreDocuments` | crates/connectors-document/src/mongo.rs:1625-1637 | a caller can tell a pattern from the value: it is a document of the extended regular-expression form |
| `MongoBound.PatternUpdateExceeds` | crates/connectors-document/src/mongo.rs:1014-1049 | one listed pattern under a limit of one: the update is refused as exceeded after it changed every document |
| `MongoBound.SurvivorsDoNotMatch` | crates/connectors-document/src/mongo.rs:1058-1086 | a delete leaves exactly the documents that do not match |
| `MongoBound.SurvivorsKeepOrder` | crates/connectors-document/src/mongo.rs:1058-1086 | and they stay in order |
| `MongoBound.ModifiedWithinMatched` | crates/connectors-document/src/mongo.rs:1043-1056 | the reported number of changed documents is at most the number that matched |
| `MongoBound.Collection.ExecuteUpdate` | crates/connectors-document/src/mongo.rs:1014-1056 | exactly the documents of which the filter holds have the changes, all others stay, and the number that really changed is reported; an error after the fact exactly when more match than request or policy allow, and never when the bound counts ids |
| `MongoBound.Collection.ExecuteDelete` | crates/connectors-document/src/mongo.rs:1058-1093 | exactly the documents of which the filter does not hold stay; the same exact condition for the error after the fact |
| `SqlppFilter.SqlBuilder.CompileFilter` | crates/connectors-document/src/couchbase.rs:810-859 | succeeds if and only if all fields, lists and boolean filters are non-empty and all values convert, and binds exactly those values behind the ones already there |
| `SqlppFilter.ConsecutivePlaceholders` | crates/connectors-document/src/couchbase.rs:798-859 | the placeholders of a compiled filter are numbered consecutively, one for each bound value, in order |
| `SqlppFilter.ReadsBack` | crates/connectors-document/src/couchbase.rs:810-859 | a precedence reader (NOT over AND over OR) consumes exactly the emitted text, followed by anything that is not AND or OR |
| `SqlppFilter.TreeMeans` | crates/connectors-document/src/couchbase.rs:810-859 | the condition read back has the filter's value in four-valued logic when placeholder i reads parameter i |
| `SqlppFilter.TrueIff` | crates/connectors-document/src/couchbase.rs:810-859 | in that logic a document satisfies AND with every part, OR with some part, and NOT exactly when the inner filter is false |
| `SqlppFilter.CompiledMeansFilter` | crates/connectors-document/src/couchbase.rs:810-859 | compilation followed by reading preserves meaning on every document and for every way the server decides atoms; a filter's `$document_id` means the document's id, any other name the field of that name |
| `SqlppFilter.WhereClause` | crates/connectors-document/src/couchbase.rs:498-524 | the condition of a read: placeholders $1 to $n for its n parameters and the filter's meaning |
| `Common.EnforceRecordsSize` | crates/connectors-document/src/common.rs:122-138 | keeps the longest prefix whose saturating total is within the limit, and reports truncation exactly when the whole does not fit |
| `Common.KeptIsLongest` | crates/connectors-document/src/common.rs:122-138 | a prefix fits if and only if it is no longer than the kept one |
| `CqlPaging.ExecuteRead` | crates/connectors-document/src/cql.rs:978-1031 | draining, truncating and trimming compute the specified page, cursor or error |
| `CqlPaging.PageWithinLimits` | crates/connectors-document/src/cql.rs:978-1031 | a page has at most the rows asked for and allowed by either ceiling, and the bytes allowed; the page size asked of the server is within both ceilings and 31 bits |
| `CqlPaging.DecodesIff` | crates/connectors-document/src/cql.rs:1522-1547 | to which place a cursor decodes: inside its page, with its own page size when it skips, and never the start |
| `CqlPaging.StartsIff` | crates/connectors-document/src/cql.rs:978-998 | a read starts from a cursor if and only if it decodes to a page size within both ceilings |
| `CqlPaging.PageIsStretch` | crates/connectors-document/src/cql.rs:999-1031 | a page is the stretch of the full result at its cursor's place; without a cursor it reaches the end |
| `CqlPaging.NextContinues` | crates/connectors-document/src/cql.rs:1022-1031 | whatever limits the next call has, the cursor resumes exactly behind the page |
| `CqlPaging.TruncatedPageAdvances` | crates/connectors-document/src/cql.rs:1007-1031 | a page cut by rows or bytes is not empty and its cursor skips further |
| `CqlPaging.EmittedCursorDecodes` | crates/connectors-document/src/cql.rs:1522-1577 | an emitted cursor passes every check of the decoder under every limit if and only if it does not stand behind a whole page that the server continued with an empty state, and its skip lies inside the page it resumes |
| `CqlPaging.EmptyStateIsRefused` | crates/connectors-document/src/cql.rs:1522-1560 | a server that pages correctly with an empty state, and whose first cursor is refused |
| `CqlPaging.ChainGivesWholeResult` | crates/connectors-document/src/cql.rs:978-1031 | concatenated pages are a prefix of the full result, and all of it once a page has no cursor, for any page lengths of the server and any limits per call |
| `HBaseScan.LeastAbove` | crates/connectors-document/src/hbase.rs:650-653 | a key with a zero byte appended is the least byte string above the key |
| `HBaseScan.LessIsLexicographic` | crates/connectors-document/src/hbase.rs:650-653 | the order of keys is that of the first byte in which they differ, a prefix coming first |
| `HBaseScan.ScanStartsAbove` | crates/connectors-document/src/hbase.rs:650-670 | for any cursor, known to the table or not, the scan starts at the first row above it |
| `HBaseScan.ReadSync` | crates/connectors-document/src/hbase.rs:649-710 | the steps of a read compute the specified page, cursor or error |
| `HBaseScan.KeyIsKept` | crates/connectors-document/src/hbase.rs:1037-1053 | projection never removes or changes the row key |
| `HBaseScan.RecordShows` | crates/connectors-document/src/hbase.rs:1037-1053 | a record has, with their values, exactly the row key and the cells asked for by full name or by family, or all cells when no fields are named |
| `HBaseScan.PageShowsColumns` | crates/connectors-document/src/hbase.rs:649-702 | every record of a page shows exactly those columns of its row, and the page is within the rows asked for, both ceilings and the bytes allowed |
| `HBaseScan.ReadAnswers` | crates/connectors-document/src/hbase.rs:674-702 | a read's page holds the first rows of what was fetched, is marked truncated exactly when some are missing, and is empty only if there is no row or no room by the row limit |
| `HBaseScan.PageIsStretch` | crates/connectors-document/src/hbase.rs:649-702 | the page is the next stretch of rows and its cursor stands behind it; a page without a cursor is the last exactly when the limit is between 1 and 2^31 - 2 or no more rows are left than can be asked for |
| `HBaseScan.ChainGivesWholeTable` | crates/connectors-document/src/hbase.rs:649-702 | chained pages return every row once and in key order, each makes progress, and there are at most one more pages than rows |
| `HBaseScan.ZeroCeilingStopsTheScan` | crates/connectors-document/src/hbase.rs:674-702 | with a row ceiling of zero the page is truncated but has no cursor |
| `CatalogPaging.Fetch` | crates/connectors-document/src/common.rs:158-206 | fetching one entity too many yields the next window and a cursor exactly when the catalog goes on; the largest 32-bit limit is an error |
| `CatalogPaging.CollectPages` | crates/connector-runtime/src/runtime.rs:487-532 | the loop over connector pages terminates with the answer defined on the whole catalog, and the guard against a stuck cursor never fires |
| `CatalogPaging.SearchCatalog` | crates/connector-runtime/src/runtime.rs:482-532 | the same for a request with its limits, and the exact cases in which it is an error |
| `CatalogPaging.Round` | crates/connector-runtime/src/runtime.rs:499-530 | one round never overshoots the limit and either completes the answer or leaves a longer part of it pending |
| `CatalogPaging.UnfinishedPageIsFull` | crates/connector-runtime/src/runtime.rs:508-517 | a page with a cursor holds exactly as many visible entities as asked for |
| `CatalogPaging.ChainGivesVisibleCatalog` | crates/connector-runtime/src/runtime.rs:487-532 | following cursors yields the visible entities of the whole catalog in order, once each; non-final pages are exactly full; the chain is finite |
| `Admission.InvAlways` | crates/connector-runtime/src/runtime.rs:1341-1399 | in every reachable state free and held permits add up, all references of a connection are to one semaphore, and map entries and owners correspond |
| `Admission.LimitsAlwaysHold` | crates/connector-runtime/src/runtime.rs:1341-1399 | under every interleaving held permits stay within the global and the per-connection limit, although semaphores are held weakly and recreated |
| `Admission.RefusalIsExact` | crates/connector-runtime/src/runtime.rs:1365-1391 | a reservation is refused if and only if the limit's number of permits is held at that moment |
| `Admission.ReservationSucceedsIff` | crates/connector-runtime/src/runtime.rs:1341-1399 | from every reachable state an uninterrupted reservation succeeds if and only if its id is not in use and both limits leave room |
| `Admission.MapHoldsOnlyLive` | crates/connector-runtime/src/runtime.rs:1372-1391 | after looking for a semaphore the capacity map holds none that nobody refers to |
| `Admission.EntriesOfOthersStay` | crates/connector-runtime/src/runtime.rs:142-149 | no step of one request, failing or dropping, removes or replaces another's entry |
| `Admission.NothingLeaks` | crates/connector-runtime/src/runtime.rs:142-149 | when all requests are over, no entry is left and every permit is back |
| `TwoStoreAdmin.ConnectionManager.Create` | crates/connector-control/src/lib.rs:199-225 | full effect exactly when acceptable and no access fails, otherwise none; profiles never change on failure; a pre-existing credential under the reference is lost exactly when the failure comes after the put |
| `TwoStoreAdmin.ConnectionManager.UpdateProfile` | crates/connector-control/src/lib.rs:227-240 | all or nothing; the stored profile has the caller's policy and settings, a caller cannot choose the version, and no other profile changes |
| `TwoStoreAdmin.ConnectionManager.SetPolicy` | crates/connector-control/src/lib.rs:242-252 | all or nothing; the stored profile has exactly the given policy, a new version and everything else as before, and no other profile changes |
| `TwoStoreAdmin.ConnectionManager.SetEnabled` | crates/connector-control/src/lib.rs:254-262 | all or nothing; the stored policy is the old one with the flag as asked, with a new version only on a change, and nothing else changes |
| `TwoStoreAdmin.ConnectionManager.ReplaceSecret` | crates/connector-control/src/lib.rs:264-282 | all or nothing, and consistent even if the compensation fails |
| `TwoStoreAdmin.ConnectionManager.ReplaceConnection` | crates/connector-control/src/lib.rs:284-308 | all or nothing across both stores; the stored profile has the caller's policy and settings and the kind of the new credential, and no other profile changes |
| `TwoStoreAdmin.ConnectionManager.Delete` | crates/connector-control/src/lib.rs:310-327 | all or nothing, and consistent even if the compensation fails |
| `TwoStoreAdmin.EffectKeepsConsistency` | crates/connector-control/src/lib.rs:199-327 | every operation keeps secret references unique and every profile valid with a credential of its kind |
| `TwoStoreAdmin.StoresWhatWasAsked` | crates/connector-control/src/lib.rs:199-327 | every accepted operation stores exactly what it was asked to in the one profile it is about, and leaves every other profile alone |
| `TwoStoreAdmin.OneStep` | crates/connector-control/src/lib.rs:660-662 | the version moves by one exactly when the operation sets a policy, switches the flag or brings a different policy, and the policy is then the one asked for |
| `TwoStoreAdmin.ConsistentAlways` | crates/connector-control/src/lib.rs:199-327 | the same over every sequence of operations with failing accesses |
| `TwoStoreAdmin.RunsFollowEvents` | crates/connector-control/src/lib.rs:199-327 | every run of the manager's methods whose failures are compensated for goes through exactly the specified stores: a failure leaves no trace |
| `TwoStoreAdmin.RunsStayConsistent` | crates/connector-control/src/lib.rs:199-327 | so every such run stays consistent |
| `TwoStoreAdmin.VersionCountsChanges` | crates/connector-control/src/lib.rs:660-662 | over every run, deletions and creations included, the stored version is the one the connection last came to be with, moved once per change since, and the stored policy is the one asked for last |
| `TwoStoreAdmin.LaterWraps` | crates/connector-control/src/lib.rs:660-662 | a version comes back after 2^64 changes and not before |
| `TwoStoreAdmin.GrantMatchesIff` | crates/connector-policy/src/grant.rs:96-151 | after any run a grant verifies if and only if it verifies apart from the version and claims the version the connection last came to be with, moved once per change since |
| `TwoStoreAdmin.EarlierGrantsStopVerifying` | crates/connector-policy/src/grant.rs:133-135 | a grant issued before a policy change does not verify after it, short of 2^64 changes and of delete and create |
| `TwoStoreAdmin.RecreationReusesVersions` | crates/connector-control/src/lib.rs:199-225 | delete and create can bring an old version back with another policy |

## Left out

- The parser and the full SQL syntax tree: the analysis is modelled on a reduced tree of queries, WITH clauses, set expressions, table factors and expressions with sub-queries.
- Functions with outside effects called from SQL expressions: an engine's functions see their arguments only.
- Case-insensitive storage of identifiers: names are folded as the dialect says and then compared exactly.
- Glob matching, `operation_target`, limits on the shape of single operations and the read-only checks of native commands: finite checks or library calls.
- Search paths, synonyms and views: a relation is what is stored under the parts of its name, so `users` and `public.users` are unrelated.
- Metadata visibility beyond an arbitrary predicate on entities.
- SHA-256, Ed25519 (RFC 8032) and canonical JSON (section 3.2 of RFC 8785): a replay key is an injective pair, a signature an abstract predicate, an argument hash a string.
- WriteProtocol.AtMostOnce: assumes that a connector error other than an unknown outcome means "not applied", because the proxy and the MongoDB connector do not guarantee it; the run that shows why is in `MisreportedWrite`.
- WriteAuthorization.EveryWriteSpentItsOwnGrant: that the hashed arguments describe the operation is not claimed, because the runtime takes both from its caller.
- MongoBound.Collection.ExecuteUpdate: a dotted path in `$set` is modelled as one flat field name.
- Liveness and real time: a timeout may happen at any step, and nothing is said about when anything happens.
- Order of messages between supervisor and worker: any message in the pipe may be read next, which covers the ordered channel.
- `MaskedCursorRegistry` and the byte bound after a masked cursor replaced the connector's: the bound is stated for the trimming itself.
- Masking.OperationResult.MaskInPlace: nested values are rewritten as values, not by reference into the record.
- MongoDB: conversion of values other than extended regular expressions is an arbitrary partial function, conditions other than equality and membership on the id are decided arbitrarily, and nothing is claimed about progress of read pages.
- MongoExact.BoundKeptIff: filters with NOT are bounded in one direction only (`MatchIsPossible`), because whether they exceed a bound depends on the satisfiability of the whole filter.
- EndToEnd.AppliedWriteWasHandedOnce: an adapter is taken to apply a call it was given at most once; what a driver repeats by itself is not modelled.
- SqlppFilter.SqlBuilder.CompileFilter: tokens instead of characters; JSON quoting of field names and whitespace are not modelled. Sorting and projection clauses are left out.
- CQL filters, primary-key completeness and identifier quoting: local checks of single statements.
- Errors of serializing a record for its size, and HBase rows that the connector refuses to represent (partial rows, names that are not UTF-8).
- Exact-row HBase reads: one row, no paging.
- HBase scans that select columns: the table of the model is the rows that have one of the selected columns, so "every row" means every such row.
- CatalogPaging.SearchCatalog: the connector's catalog is one fixed sorted sequence during a chain of searches.
- TwoStoreAdmin: a failing access has no effect, and operations run one after the other.
- Locks and database transactions are single steps; the request, capacity and tombstone maps are modelled as values or fields updated in such steps.
- Connection pools, TLS, key chains, the desktop and command-line front ends and the tool declarations.

# Igris: a verified model of its append-only and at-most-once protocols

Igris is a control plane for consequential actions. SDKs send it signed, hash-chained evidence of the
decisions and outcomes of those actions; operators reconcile actions whose effect is uncertain; action
contracts are synchronized under Idempotency-Keys and bound to execution inputs; adapters perform the
effects behind durable ledgers. Each of these parts rests on a small protocol that has to hold in every
interleaving and across crashes. This project models those protocols in Dafny and proves what they
keep, with no bound on the number of requests, threads, events or steps.

`dafny verify dfyconfig.toml` checks all of it.

## How the model is laid out

Protocols with interleavings are state machines: a function `Step(s, action)`, a function `Run` over any
sequence of actions from the empty state, an invariant, and theorems about `Run`. Operations that change
fields or loop are methods (in classes where the program has objects), each proved against a
specification function that the lemmas then reason about. `ServeIsSoloRun` and `SoloSync` connect the two
forms: the method's specification is what the state machine does when nothing else runs. What such a
specification gives is then stated a second time without it, case by case, as in `ServeMeans`,
`ReportedIff` and `RecordIsFirstAnswer`.

| files | part of the program |
|---|---|
| `EvidenceEvents`, `EvidenceVerify`, `EvidenceAcceptance`, `EvidenceFindings`, `EvidenceIssues` | evidence events, the verification loop and its declarative specification, what each event is reported for, the dominant issue code, the nesting limit |
| `EvidenceTables`, `EvidenceChain`, `EvidenceProtocol`, `EvidenceTheorems` | the evidence tables, what every committed state keeps, submissions interleaved statement by statement, the theorems |
| `EvidenceAnswers`, `EvidenceReplay`, `EvidenceRejection`, `EvidenceWithheld`, `EvidenceDenial` | what submissions are told over a whole run, and what Idempotency-Keys and signing keys are bound to; when a stored rejection is final and when it withholds an acceptance; when an outcome follows a denial |
| `EvidenceStore`, `EvidenceKeyReuse`, `EvidenceSamples` | the tables as a mutable object with the handler's methods; the Idempotency-Key counterexample; concrete events |
| `DeployLedger`, `ClockLedger` | the two durable effect ledgers, with threads and crashes |
| `ContractSync`, `ContractHistory`, `InputMapping` | contract synchronization, the security delta over a version history, parameter mappings |
| `Reconciliation` | the operator reconciliation log and its read-back |
| `BehaviorTree` | flattening of behaviour-tree snapshots |
| `AlertDedupe`, `AlertQueue`, `AlertHistory` | alert deduplication, delivery, retry and dead letters |
| `Metadata`, `MetadataOrder` | the recursive agent-metadata sanitizer and its dependence on map order |
| `Options`, `Sequences`, `Strings` | shared helpers |

Modelling decisions that matter for reading the theorems:

- An event hash is a free constructor `Digest(payload)` over the payload without its hash and signature;
  the payload includes the previous hash. Distinct payloads have distinct hashes and no hash can occur
  inside its own payload, by construction and not by assumption.
- The checks that lie outside the model (the action-name pattern, timestamp parsing, Ed25519
  verification) are function-valued parameters, so every theorem holds for any of them.
- A database statement is one atomic step, a transaction's writes become visible at its commit, and the
  unique indexes are the ones the program names. Which row an unordered or tied `LIMIT 1` returns is a
  free parameter of the step.
- Map iteration order in Go is arbitrary: methods pick the next key nondeterministically, and their
  contracts hold whatever is picked.

## Where the program does not do what is promised

Each entry names the failing input or run and the theorem that says when the promise holds.

- `docs/architecture/igris-connected-evidence-slice.md` lines 86-89 promise a conflict for an evidence
  Idempotency-Key reused with other content. Two overlapping requests escape it
  (`OverlappingReuseIsMissed`). A submission is answered that conflict exactly when its key was recorded for
  other content before its own key check, whatever happens later (`ReuseIsRefusedIff`).
- A comment at line 271 of `igris-overture/api/evidence_verify.go` calls a denial terminal. A later approval
  under the same decision id reopens it (`DeniedDecisionCanSucceed`); an outcome follows a denial of its
  decision exactly when that id occurs with two values before it (`OutcomeFollowsDenialIff`).
- A stored rejection answers every later submission of the same bytes. It withholds an acceptance in two
  ways. Under another public key with the same key id, which the program derives from the first 16 hexadecimal
  digits of the key's SHA-256, so that the two keys have to agree on that prefix (`RejectionBindsOtherKeys`).
  And under the same key, when a decision id is stored with two values and the lookup's `LIMIT 1` reads one now
  and another later (`AmbiguityWithholdsFromSameKey`). While the stream ends where the batch starts and no
  decision id is stored with two values, every stored rejection is exactly what verifying its submission again
  gives (`StoredRejectionIsFinal`), and a submission of those bytes under any key would be accepted exactly when
  every stored issue is a bad signature and every event is signed under that key (`WithheldIff`; one way only if
  the list of issues was cut off at 20). That no id has two values is sufficient and not necessary.
- Input-mapping validation checks the trimmed target field but stores and applies the untrimmed one
  (`PaddedFieldIsAcceptedButInvalid`). The applied field is a valid name exactly when it was stored
  trimmed (`AppliedFieldIsValidIff`).
- Declaring an older, weaker contract again creates no version and reports the old row's flags
  (`ResyncCanWeakenSilently`). Such a step is reported exactly when the contract's hash is new, or when its
  stored version departed from its own predecessor (`WeakeningReportedIff`).
- A failing alert without a Details map ends the process instead of being dead-lettered, and takes other
  alerts with it (`AnotherAlertCanBeLost`). After any run that has not panicked, alerts can be lost exactly
  when one of those queued, in process or awaiting retry has no Details map (`CanLoseIff`); a run lost
  something exactly when it contains the last failing delivery of such an alert (`ConservedIffNoPanic`).
- The retry backoff is 2^(n-1) minutes only up to the 28th retry; after that the 64-bit product wraps
  (`BackoffExactIff`).
- The sanitized metadata can depend on the order in which Go visits map keys (`TwoSpellingsDependOnOrder`). It does
  not exactly when keys of one object that normalise alike hold values that come out the same, at every
  depth (`DeterminedIff`).

## Model

| member | source | states |
|---|---|---|
| EvidenceEvents.LinkedHeight | igris-overture/api/evidence_verify.go:206-239 | in a linked run the i-th hash commits to exactly i+1 events more than its start, so following previous hashes always ends |
| EvidenceEvents.LinkedDistinct | igris-overture/api/evidence_verify.go:206-239 | no two events of a linked run share a hash: a chain cannot loop back on itself |
| EvidenceEvents.LinkedAppend | igris-overture/api/evidence_verify.go:206-239 | a run linked to the end of another makes one linked run with it |
| EvidenceVerify.CheckTransition | igris-overture/api/evidence_verify.go:241-278 | the decision and outcome rules of one event: which codes it earns, how the remembered decisions and outcomes change, and that it fails exactly when a needed stored-decision query fails |
| EvidenceVerify.CheckEvent | igris-overture/api/evidence_verify.go:117-301 | one loop iteration equals the iteration function, whose codes and remembered values `EvidenceFindings` states on the events: structural stop, query-error stop, or continue with the codes added under the cap |
| EvidenceVerify.VerifyEvidenceEvents | igris-overture/api/evidence_verify.go:104-307 | the whole loop equals the recursive verdict that the acceptance, findings and query-error theorems are about |
| EvidenceAcceptance.AcceptedIffAcceptable | igris-overture/api/evidence_verify.go:104-307 | a batch is accepted if and only if every event is well shaped, linked, correctly hashed and signed, and every outcome names a decision that is not a denial and is unused in the batch; acceptance returns all events |
| EvidenceAcceptance.VerdictIsCappedFindings | igris-overture/api/evidence_verify.go:104-307 | from any loop state, the verdict is the first 20 of all findings, and acceptance means there are none |
| EvidenceAcceptance.RejectionIsBounded | igris-overture/api/evidence_verify.go:105-110 | a rejection reports between 1 and 20 issues, a prefix of all findings and all of them when fewer than 20: the cap never turns a failing batch into an accepted one |
| EvidenceAcceptance.TamperIsLocalised | igris-overture/api/evidence_verify.go:206-239 | altering one event of an accepted batch under its old hash is always rejected, and every reported issue carries that event's index |
| EvidenceAcceptance.HashCoversPayload | igris-overture/api/evidence_verify.go:211-224 | two events have the same hash exactly when they agree on every field but the hash and the signature |
| EvidenceFindings.ReportedIff | igris-overture/api/evidence_verify.go:117-301 | while all earlier events are well shaped, an event is reported under each code exactly when it has that fault: previous hash not the one submitted before it, hash not that of its payload, other key id, unverified signature, value out of range, no such decision, denied or already used decision; a misshapen one exactly under the first thing wrong with it |
| EvidenceFindings.RejectionReports | igris-overture/api/evidence_verify.go:104-307 | a rejection lists only such faults, and one it leaves out comes after all of the twenty it lists |
| EvidenceFindings.ShapeFaultIff | igris-overture/api/evidence_verify.go:124-204 | the structural code is the first failing of: schema, event type, presence of every field of its kind, types and forms of fields, timestamp |
| EvidenceFindings.NothingAfterMisshapen | igris-overture/api/evidence_verify.go:124-204 | from any loop state, nothing is reported for an event after a misshapen one |
| EvidenceFindings.FindingsInOrder | igris-overture/api/evidence_verify.go:206-278 | findings come event by event and, within one event, chain, hash, key or signature, value, reference; only an invalid outcome status and an empty reference repeat a code |
| EvidenceFindings.NextHolds | igris-overture/api/evidence_verify.go:241-301 | after every event, faulty or not, the loop remembers the submitted hash, the latest valid decision of each id, and exactly the decisions that an outcome used up |
| EvidenceFindings.QueryErrorIff | igris-overture/api/evidence_verify.go:248-265 | verification ends in a query error exactly when the loop reaches an outcome whose decision is not in the batch and whose query fails |
| EvidenceIssues.DominantIssueCode | igris-overture/api/evidence_verify.go:309-325 | whatever order the tally map is walked in, the answer is a most frequent code, whose name comes first in the alphabet among those; none exactly when there is no issue |
| EvidenceIssues.RankIsAlphabetical | igris-overture/api/evidence_verify.go:309-325 | the order used for ties is the alphabetical order of the reported names |
| EvidenceIssues.DominantIsUnique | igris-overture/api/evidence_verify.go:309-325 | at most one code is dominant, so the answer does not depend on map order |
| EvidenceIssues.CountCodes | igris-overture/api/evidence_verify.go:309-325 | the tally holds exactly the number of occurrences of each code that occurs |
| EvidenceDepth.JsonDepth | igris-overture/api/routes_evidence.go:507-531 | despite its early cutoff, the result exceeds 64 exactly for values that nest deeper than 64 containers |
| EvidenceChain.PersistKeepsTables | igris-overture/api/routes_evidence.go:202-291 | the insert transaction keeps chain, event table, key and grounding invariants for any verdict computed against any earlier state of the tables |
| EvidenceChain.FreeSlotExtendsHead | igris-overture/api/evidence_store.go:158-200 | a batch that once started at the head and finds its chain slot free starts at the present head: the slot index alone prevents forks |
| EvidenceChain.ChainHeadIsHead | igris-overture/api/evidence_store.go:134-156 | in a consistent table the NOT EXISTS query returns the end of the stream, whichever row ties would pick |
| EvidenceChain.InsertEventsAppends | igris-overture/api/evidence_store.go:202-214 | inserting a linked continuation never meets ON CONFLICT DO NOTHING: every row is appended |
| EvidenceProtocol.RunKeepsInv | igris-overture/api/routes_evidence.go:68-197 | every interleaving of submissions, aborts and single statements keeps the table invariant and what each submission in flight relies on |
| EvidenceProtocol.PhaseStable | igris-overture/api/routes_evidence.go:148-197 | what a submission verified stays true while others commit |
| EvidenceTheorems.VerifiedBatchesFormOneChain | igris-overture/api/evidence_store.go:134-200 | in every reachable state the verified batches are one chain from genesis: each starts at its predecessor's head, is linked to its own head, and no head repeats |
| EvidenceTheorems.HeadQueryIsChainEnd | igris-overture/api/evidence_store.go:134-156 | when anything is verified exactly one row satisfies the head query, the last of the chain; otherwise the answer is genesis |
| EvidenceTheorems.EventTableIsTheStream | igris-overture/api/evidence_store.go:202-214 | the event table is exactly the verified batches' events in order, with unique hashes, and the accepted counts add up to its size |
| EvidenceTheorems.RejectionIsInert | igris-overture/api/routes_evidence.go:218-291 | storing a rejected batch adds no event, registers no key and never moves the head |
| EvidenceTheorems.OutcomesFollowAllowedDecisions | igris-overture/api/evidence_store.go:216-231 | every outcome in the stream follows an allowed decision with the id it names, although lookups happen outside the insert transaction |
| EvidenceTheorems.StoredEventsAreSigned | igris-overture/api/routes_evidence.go:202-291 | every stored event is well shaped and validly signed under the stream's one registered key |
| EvidenceTheorems.NothingIsRewritten | igris-overture/api/evidence_store.go:158-214 | batches, events, key and replay records survive everything that follows |
| EvidenceTheorems.ReportedRowHoldsSubmission | igris-overture/api/routes_evidence.go:296-334 | whichever path answered, created, raced or replayed, the reported row stores exactly the submitted events |
| EvidenceAnswers.CreatedIsReportedOnce | igris-overture/api/routes_evidence.go:120-196 | over the whole history of answers, also to requests that are gone, a row is reported created first-hand at most once, to a submission whose events it stores, and every other such report is a later replay of that one under the same Idempotency-Key and content |
| EvidenceAnswers.ReuseIsRefusedIff | igris-overture/api/routes_evidence.go:120-137 | whatever happens afterwards, a submission is answered an Idempotency-Key conflict exactly when its key was recorded for other content before its key check |
| EvidenceAnswers.RecordedKeyIsRefused | igris-overture/api/routes_evidence.go:120-137 | a submission that finds its key recorded for other content can only wait or be refused, however many others escaped the check |
| EvidenceAnswers.PastKeyCheckIsNeverRefused | igris-overture/api/routes_evidence.go:120-197 | a submission past its key check is never answered an Idempotency-Key conflict, whatever is recorded later |
| EvidenceAnswers.MismatchIsTrue | igris-overture/api/routes_evidence.go:148-191 | in every run a submission told of a chain-head mismatch is told a head that is not its own start, also after it lost its slot |
| EvidenceReplay.RecordIsFirstAnswer | igris-overture/api/routes_evidence.go:317-334 | in every run an Idempotency-Key is recorded exactly when some submission was answered under it, and the record holds the events and the body of the first such answer |
| EvidenceReplay.AnsweredKeyIsRecorded | igris-overture/api/routes_evidence.go:317-334 | in every run the key of a submission that was answered is recorded from then on |
| EvidenceReplay.FirstAnswerBindsKey | igris-overture/api/routes_evidence.go:120-137 | from the first answer under a key on, whatever else happens, a submission under that key that reaches the key check is replayed that body for the same events and told of a conflict for any other |
| EvidenceReplay.OtherKeyIsRefused | igris-overture/api/routes_evidence.go:109-118 | whatever happens afterwards, a submission with another signing key than the stream's is told so at its first check, and any other goes on with nothing changed |
| EvidenceReplay.KeyConflictIsTrue | igris-overture/api/routes_evidence.go:109-118 | in every run whoever is told of a signing-key conflict came with another key than the stream has |
| EvidenceReplay.StoredBytesAreReported | igris-overture/api/routes_evidence.go:139-172 | once its bytes are stored by whichever request, a submission past the key check that has not lost its slot is told about that row and never of a mismatch, in every continuation, unless its signing key differs |
| EvidenceReplay.TakenSlotIsLost | igris-overture/api/routes_evidence.go:202-291 | a verified submission whose place in the chain was taken by other bytes loses its slot and changes nothing |
| EvidenceReplay.OtherKeyLosesInsert | igris-overture/api/routes_evidence.go:202-291 | a verified submission under another key than the one registered meanwhile changes nothing, even if its bytes are stored |
| EvidenceReplay.LostSlotIsToldTheHead | igris-overture/api/routes_evidence.go:180-191 | in every run whoever lost its slot is told where the chain ends now |
| EvidenceReplay.StoredBatchesFit | igris-overture/api/routes_evidence.go:451-491 | in every run every stored batch has 1 to 500 events with well-formed hashes and starts where its first event says |
| EvidenceRejection.StoredRejectionIsFinal | igris-overture/api/routes_evidence.go:139-196 | in every reachable state, whether or not the storing request still exists, a stored rejection is exactly what verifying its submission gives now, if the stream still ends where it starts and no decision id is stored with two values |
| EvidenceRejection.RunKeepsRows | igris-overture/api/routes_evidence.go:202-291 | every row of every run holds the submission that stored it, started at some head of the stream, and stays final under that condition |
| EvidenceWithheld.WithheldIff | igris-overture/api/routes_evidence.go:139-196 | under that condition, a submission of the stored bytes under any key would be accepted only if every stored issue is a bad signature and every event is signed under that key, and exactly then if fewer than 20 issues were stored |
| EvidenceWithheld.FindingsUnderOtherKey | igris-overture/api/evidence_verify.go:206-239 | from any loop state, a batch has no findings under a key exactly when all its events are signed under it and its findings under any other key are bad signatures only |
| EvidenceWithheld.AmbiguityWithholdsFromSameKey | igris-overture/api/evidence_store.go:216-231 | a run exists in which a batch is rejected and stored by the decision row its query read, although verifying it under the same key would accept it |
| EvidenceRejection.RunKeepsFaithful | igris-overture/api/routes_evidence.go:148-197 | under that condition a verification whose lookups were spread over many states agrees at every step with one made against the present tables |
| EvidenceRejection.LookupIgnoresChoice | igris-overture/api/evidence_store.go:216-231 | the stored-decision query does not depend on which row LIMIT 1 returns when no decision id has two values |
| EvidenceWithheld.RejectionBindsOtherKeys | igris-overture/api/routes_evidence.go:139-147 | a run exists in which an acceptable batch is answered with the rejection its bytes earned under another public key with the same key id |
| EvidenceDenial.OutcomeFollowsDenialIff | igris-overture/api/evidence_verify.go:241-278 | in every reachable stream an outcome follows a denial of its decision exactly when that decision id occurs with two values before it |
| EvidenceDenial.DeniedDecisionCanSucceed | igris-overture/api/evidence_verify.go:241-278 | a run exists whose verified stream has an outcome after a denial of its own decision |
| EvidenceKeyReuse.OverlappingReuseIsMissed | igris-overture/api/routes_evidence.go:120-137 | a run exists in which two different batches under one Idempotency-Key are both reported created |
| EvidenceStore.ServeIsSoloRun | igris-overture/api/routes_evidence.go:68-197 | the handler's sequential specification is what the protocol does for a submission without interference |
| EvidenceStore.TicksAreARun | igris-overture/api/routes_evidence.go:68-197 | consecutive statements of one submission are a run of the protocol that leaves all other submissions alone |
| EvidenceStore.ServeMeans | igris-overture/api/routes_evidence.go:109-196 | for any consistent tables and decoded request, the answer and the tables it leaves: signing-key conflict, replay or key conflict, the stored row, mismatch with the chain's end, or a new row, verified with its event rows and key exactly when acceptable and rejected with its issues otherwise; and the Idempotency-Key record added under an unused key |
| EvidenceStore.ServeExtendsRun | igris-overture/api/routes_evidence.go:68-197 | after any run of the protocol one more request can be served as the sequential handler specifies |
| EvidenceStore.Store.CurrentChainHead | igris-overture/api/evidence_store.go:134-156 | the newest-first scan returns the head query's answer |
| EvidenceStore.Store.InsertEventRow | igris-overture/api/evidence_store.go:202-214 | appends the row unless its hash is stored |
| EvidenceStore.Store.PersistEvidenceBatch | igris-overture/api/routes_evidence.go:202-291 | leaves the tables and the outcome the protocol's insert transaction specifies, for every verdict and conflict |
| EvidenceStore.Store.Respond | igris-overture/api/routes_evidence.go:317-334 | afterwards a key is recorded exactly if it was before or is this request's; old records stay, and a new one holds these events and this body |
| EvidenceStore.Store.SubmitBatch | igris-overture/api/routes_evidence.go:68-197 | the sequential handler leaves the tables and gives the answer of its specification, and on consistent tables those that `ServeMeans` spells out |
| DeployLedger.RunKeepsInv | examples/deploy_staging_https_adapter.py:65-119 | locks, snapshots, reservations and rows stay consistent over all interleavings of threads, exceptions and crashes |
| DeployLedger.AtMostOneRowPerKey | examples/deploy_staging_https_adapter.py:65-119 | at most one deployment row is ever created for an idempotency key |
| DeployLedger.RecordsNameTheirRow | examples/deploy_staging_https_adapter.py:90-119 | a completed key's result, and an uncertain key's id, name the row made for that key |
| DeployLedger.DeletedReservationHasNoRow | examples/deploy_staging_https_adapter.py:102-109 | a reservation is deleted only by its own thread and only if no row was created for it |
| DeployLedger.NoWriteIsLost | examples/deploy_staging_https_adapter.py:57-119 | a thread's load-modify-save changes no other key's record |
| DeployLedger.RowsAreAppended | examples/deploy_staging_https_adapter.py:144-156 | no step loses or rewrites a deployment row |
| DeployLedger.SettledForEver | examples/deploy_staging_https_adapter.py:65-119 | after a crash or a recorded end, a key's record never changes and its effect is never performed again |
| DeployLedger.ReturnedResultIsStored | examples/deploy_staging_https_adapter.py:65-119 | every result returned, first time or replayed, is the one stored for that key and digest |
| DeployLedger.DurableLedger.TryReserve | examples/deploy_staging_https_adapter.py:65-86 | reserves a free key; a known key is refused with the answer its record calls for and nothing changes |
| DeployLedger.DurableLedger.Settle | examples/deploy_staging_https_adapter.py:90-119 | writes or deletes this key's record only |
| DeployLedger.DeploymentStore.Create | examples/deploy_staging_https_adapter.py:144-156 | appends exactly the returned row |
| DeployLedger.Execute | examples/deploy_staging_https_adapter.py:65-119 | files and answer for every case, spelled out: conflict, replay and unresolved for a known key, failure before the effect, failure after it, success |
| DeployLedger.KnownKeyIsAnswered | examples/deploy_staging_https_adapter.py:66-81 | in every run a thread that has read the ledger and finds its key is answered with nothing changed: a conflict exactly for another digest, the stored result for a completed one, unresolved exactly for an unfinished one |
| DeployLedger.SoloExecute | examples/deploy_staging_https_adapter.py:65-119 | what the eleven steps of a new, uninterrupted request leave in both files and answer, with and without a failure after the effect |
| DeployLedger.SoloFailsBefore | examples/deploy_staging_https_adapter.py:102-109 | a new request that fails before its effect leaves both files as they were and is told so |
| DeployLedger.SoloRaise | examples/deploy_staging_https_adapter.py:102-109 | an exception at any step of writing the deployment row gives the reservation back and leaves no row |
| DeployLedger.LocksHaveHolders | examples/deploy_staging_https_adapter.py:65-119 | in every run a lock is held only by a live thread inside its critical section, so no crash leaves one locked |
| ClockLedger.RunKeepsInv | examples/clock_3b_contract_bound_adapter.py:128-177 | ledger, effect log and counters stay consistent with a crash possible between any two writes |
| ClockLedger.EffectAtMostOnce | examples/clock_3b_contract_bound_adapter.py:128-177 | over all runs and crashes the effect of a key is performed at most once |
| ClockLedger.CountersAreOrdered | examples/clock_3b_contract_bound_adapter.py:128-177 | effect_count = completed records <= effects performed <= endpoint_invocation_count = number of records |
| ClockLedger.ReplayReturnsStoredResult | examples/clock_3b_contract_bound_adapter.py:113-177 | in every run a returned result, first-time or replayed, is the one stored for that key and request hash |
| ClockLedger.SettledForEver | examples/clock_3b_contract_bound_adapter.py:113-127 | an orphaned reservation is never permission to execute again, and a recorded end never changes |
| ClockLedger.DurableLedger.Execute | examples/clock_3b_contract_bound_adapter.py:128-177 | ledger, effect log, counters and answer for every case, spelled out: conflict, replay and unresolved for a known key; success, failure before and failure after the effect for a new one |
| ClockLedger.KnownKeyIsAnswered | examples/clock_3b_contract_bound_adapter.py:113-144 | in every run a known key is answered at once with nothing changed: a conflict exactly for another request hash, the stored result for a completed one, unresolved exactly for an unfinished one |
| ClockLedger.SoloExecute | examples/clock_3b_contract_bound_adapter.py:128-177 | what the steps of a new, uninterrupted request leave on disk and answer, for each way its effect can end |
| ClockLedger.LockHasHolder | examples/clock_3b_contract_bound_adapter.py:128-177 | in every run the lock is held only by a live thread inside its critical section |
| ContractSync.RunKeepsInv | igris-overture/api/routes_contracts.go:312-357 | committed rows, uncommitted rows and answers agree over all interleavings and rollbacks |
| ContractSync.KeyCommitsOnce | igris-overture/api/contract_store.go:241-267 | at most one transaction with a given Idempotency-Key commits a sync |
| ContractSync.SameKeySameResponse | igris-overture/api/routes_contracts.go:312-357 | callers replayed under a key get the exact status and body that its one sync was answered with |
| ContractSync.StatusTellsCreation | igris-overture/api/routes_contracts.go:280-283 | in every run a sync or its replay is answered 201 exactly when that sync created the version, else 200 |
| ContractSync.CreatedIffAdded | igris-overture/api/routes_contracts.go:241-283 | in every run a committing sync says created exactly when it adds the version row, names that row either way, and is told 201 or 200 accordingly |
| ContractSync.ActionIsInsertedOnce | igris-overture/api/contract_store.go:60-79 | in every run at most one transaction inserts the logical action, and none once it is there |
| ContractSync.RollbackLeavesNothing | igris-overture/api/routes_contracts.go:216-231 | a rolled-back transaction leaves no row, holds nothing up and touches no other transaction |
| ContractSync.PlaceholderIsInvisible | igris-overture/api/contract_store.go:241-289 | the placeholder status 0 is never returned |
| ContractSync.DifferentFingerprintConflicts | igris-overture/api/routes_contracts.go:320-336 | once a key is answered for one fingerprint, a request with another one only gets a conflict or an error |
| ContractSync.ConflictIsReal | igris-overture/api/routes_contracts.go:320-336 | a conflict is only reported for a key stored with another fingerprint |
| ContractSync.VersionCreatedExactlyOnce | igris-overture/api/contract_store.go:128-157 | every version row is reported created by exactly one committed sync |
| ContractSync.ReReadsFindTheRow | igris-overture/api/routes_contracts.go:263-275 | the re-reads after a lost insert always find the surviving row: only a rollback makes a sync err |
| ContractSync.CommittedRowsStay | igris-overture/api/contract_store.go:128-157 | committed versions and responses are never rewritten |
| ContractSync.SoloSync | igris-overture/api/routes_contracts.go:233-357 | while nobody else holds a row, the state machine does in six statements what the sequential sync specifies |
| ContractSync.ContractStore.Claim | igris-overture/api/contract_store.go:241-267 | claims exactly the unused keys, with the placeholder row |
| ContractSync.ContractStore.Complete | igris-overture/api/contract_store.go:268-289 | stores the response only on a row with this fingerprint |
| ContractSync.ContractStore.SyncInTx | igris-overture/api/routes_contracts.go:233-310 | resolves the version of a hash or appends it, and says which |
| ContractSync.ContractStore.Perform | igris-overture/api/routes_contracts.go:312-357 | tables and answer of the whole sequential sync, spelled out: replay or conflict for a known key; otherwise 201 and a new row, or 200 and the stored one, recorded under the key |
| ContractHistory.ContractSecurityDelta | igris-overture/api/routes_contracts.go:489-504 | flags exactly a risk lowered in the order low, medium, high, critical, a required approval dropped, and a changed execution mode, with the old and new values; sensitive exactly when there is a flag |
| ContractHistory.LowersRiskIff | igris-overture/api/routes_contracts.go:62 | risk is lowered exactly for the six pairs of levels that go down |
| ContractHistory.DeltaMeans | igris-overture/api/routes_contracts.go:489-504 | each flag occurs exactly when its change does |
| ContractHistory.VersionTable.SyncInTx | igris-overture/api/routes_contracts.go:233-275 | appends a flagged version exactly when the hash is new, else reports the stored one |
| ContractHistory.SyncAllIsWellFlagged | igris-overture/api/routes_contracts.go:240-252 | in every history each version carries the delta against the one before it, and hashes are unique |
| ContractHistory.DeclarationHasVersion | igris-overture/api/routes_contracts.go:233-275 | in every history each declared hash has a version |
| ContractHistory.VersionIsFirstDeclaration | igris-overture/api/routes_contracts.go:233-275 | in every history each version holds the contract that declared its hash first |
| ContractHistory.SyncOnlyAppends | igris-overture/api/routes_contracts.go:233-275 | a declaration changes no version and adds its own exactly when its hash is new |
| ContractHistory.WeakeningIsNeverSilent | igris-overture/api/routes_contracts.go:240-252 | between any two versions where the later asks for less scrutiny, some version is flagged, however the weakening was spread out |
| ContractHistory.FlaggedBetweenIff | igris-overture/api/routes_contracts.go:489-504 | a stretch of history carries a flag exactly when some version in it weakens its predecessor or changes the execution mode |
| ContractHistory.ResyncCanWeakenSilently | igris-overture/api/routes_contracts.go:233-275 | a concrete history in which declaring an older contract again weakens the latest one without a flag |
| ContractHistory.WeakeningReportedIff | igris-overture/api/routes_contracts.go:233-275 | in every history a weakening sync is reported as sensitive exactly when its hash is new, or its stored version departed from its own predecessor |
| InputMapping.ValidateContractInputMapping | igris-overture/api/routes_contracts.go:843-875 | accepts exactly the mappings that give each parameter its own valid field; the final unknown-parameter loop can never fail |
| InputMapping.BindsIsABijection | igris-overture/api/routes_contracts.go:843-875 | an accepted mapping implies distinct parameter names, keys equal to those names and injective fields (pigeonhole) |
| InputMapping.CheckTargetFields | igris-overture/api/routes_contracts.go:847-861 | the first loop succeeds exactly when every parameter has its own valid field, and otherwise names the error of the first that does not |
| InputMapping.FieldNameIff | igris-overture/api/routes_contracts.go:55 | a field name is one to 128 letters, digits and _ . : -, a letter first |
| InputMapping.AllParametersKnown | igris-overture/api/routes_contracts.go:862-874 | the last loop succeeds exactly when every key is a parameter's name |
| InputMapping.MapBoundActionInput | igris-overture/api/routes_actions.go:1151-1184 | succeeds exactly on inputs that are known, complete and well typed, and then returns them under their target fields |
| InputMapping.HasUnexpected | igris-overture/api/routes_actions.go:1159-1167 | finds an unexpected input exactly when some key is no parameter's name |
| InputMapping.MappedInputIsInvertible | igris-overture/api/routes_actions.go:1151-1184 | reading the target fields back through an accepted mapping returns exactly the input: nothing lost, merged or invented |
| InputMapping.PaddedFieldIsAcceptedButInvalid | igris-overture/api/routes_contracts.go:843-875 | a concrete accepted mapping whose applied field is not a valid name |
| InputMapping.AppliedFieldIsValidIff | igris-overture/api/routes_contracts.go:843-875 | the applied field of an accepted mapping is a valid name exactly when it was stored trimmed |
| Reconciliation.EventTable.Observe | igris-overture/database/migrations/072_operator_reconciliation_events.sql:92-94 | the unresolved observation is recorded once |
| Reconciliation.EventTable.AppendOperatorReconciliation | igris-overture/api/operator_reconciliation.go:225-333 | the locked append path leaves the log and gives the answer of its specification for every case |
| Reconciliation.OneTerminalAfterObservation | igris-overture/api/operator_reconciliation.go:225-333 | every run has at most one terminal resolution and no operator event before the observation |
| Reconciliation.TerminalIsFinal | igris-overture/api/operator_reconciliation.go:225-333 | nothing is ever appended after a terminal resolution |
| Reconciliation.RunOnlyAppends | igris-overture/api/operator_reconciliation.go:225-333 | no run removes or rewrites an event |
| Reconciliation.MatchesIffSameContent | igris-overture/api/operator_reconciliation.go:335-349 | for decoded requests a stored event matches exactly the requests with its actor, resolution, reason and reference |
| Reconciliation.EmptyReferenceWouldMatchNone | igris-overture/api/operator_reconciliation.go:335-349 | without the decoder's non-empty rule an empty reference would match an absent one |
| Reconciliation.RepeatedRequest | igris-overture/api/operator_reconciliation.go:225-333 | repeating an accepted request id at any later time appends nothing: the first event is returned for the same content, a conflict for any other |
| Reconciliation.NewRequestIsAnswered | igris-overture/api/operator_reconciliation.go:261-333 | after any run a new request id conflicts exactly when success or failure is confirmed, is not required exactly when nothing was observed, and otherwise is appended with its own id, actor, resolution, reason and reference |
| Reconciliation.ObservedIffObservation | igris-overture/database/migrations/072_operator_reconciliation_events.sql:92-94 | a log has an observation exactly when the run made one |
| Reconciliation.LoadOperatorReconciliationState | igris-overture/api/operator_reconciliation.go:372-423 | the read-back loop returns the history and the order-free meaning of its rows |
| Reconciliation.AgreeingRowsIgnoreOrder | igris-overture/api/operator_reconciliation.go:372-423 | rows whose terminal resolutions agree read back the same in every order |
| Reconciliation.ReadBackIgnoresOrder | igris-overture/api/operator_reconciliation.go:372-423 | every log the append path can produce reads back as one state in every order: its terminal resolution, else unknown if an operator spoke, else required |
| Reconciliation.OrderIgnoredIff | igris-overture/api/operator_reconciliation.go:372-423 | rows read back the same in every order exactly when their terminal resolutions agree |
| BehaviorTree.FlattenBTTree | igris-overture/api/routes_execution.go:32-80 | appends the tree's flat listing to the shared list in place |
| BehaviorTree.FlattenChildren | igris-overture/api/routes_execution.go:77-79 | the loop appends the listings of all children in order |
| BehaviorTree.FlattenIsPreorder | igris-overture/api/routes_execution.go:32-80 | the listing is the preorder of the tree with unnamed and unparsable subtrees pruned and labels normalised |
| BehaviorTree.FlattenIsInvertible | igris-overture/api/routes_execution.go:32-80 | reading the depths back gives exactly that pruned, normalised tree, with nothing left over |
| BehaviorTree.NodeIdParts | igris-overture/api/routes_execution.go:53 | an id is the lower-case type, the name with spaces as underscores and the decimal depth, joined by underscores, and its number reads back as the depth |
| BehaviorTree.EveryNamedNodeIsListed | igris-overture/api/routes_execution.go:47-52 | as many nodes are listed as have a name and only named nodes above them |
| BehaviorTree.FlatteningIff | igris-overture/api/routes_execution.go:32-80 | a list is the flattening of some tree if and only if it has one root at depth 0, everything else below it, no depth rising by more than one, and well-made entries |
| BehaviorTree.RebuildFlattens | igris-overture/api/routes_execution.go:32-80 | rebuilding a tree from such a list and flattening it again returns the list |
| BehaviorTree.NormalizeMeaning | igris-overture/api/routes_execution.go:54-63 | a missing status becomes pending; reported values are kept, and a missing envelope status is filled in exactly for the statuses that decide one |
| AlertDedupe.DedupeCache.IsDuplicate | igris-overture/alerts/alert_sender.go:323-334 | true exactly when the key was marked less than a window ago |
| AlertDedupe.DedupeCache.MarkSent | igris-overture/alerts/alert_sender.go:336-342 | remembers the key's latest mark and changes no other |
| AlertDedupe.DedupeCache.Cleanup | igris-overture/alerts/alert_sender.go:344-367 | whatever order keys are visited in, exactly the entries older than the window go |
| AlertDedupe.SweepingIsInvisible | igris-overture/alerts/alert_sender.go:323-367 | with sweeps at arbitrary times every check is answered, and every alert let through, as with a cache that is never cleaned |
| AlertDedupe.SentAreSpaced | igris-overture/alerts/alert_sender.go:161-168 | two alerts let through under one key are at least a window apart, for any window |
| AlertDedupe.SuppressedIffSentWithin | igris-overture/alerts/alert_sender.go:161-168 | a key counts as a duplicate exactly when an alert with it was let through within the window |
| AlertDedupe.OfferIsAnswered | igris-overture/alerts/alert_sender.go:161-168 | after any ordered run an alert is suppressed exactly when it has a key that was let through within the window, and otherwise marked exactly when it has a key |
| AlertDedupe.SweepBoundsTheCache | igris-overture/alerts/alert_sender.go:344-367 | after a sweep no entry is older than the window |
| AlertQueue.AlertQueue.Enqueue | igris-overture/alerts/alert_sender.go:149-187 | defaults, deduplication, redaction and push: the queue, the counters and the cache after every case |
| AlertQueue.RedactSensitive | igris-overture/alerts/alert_sender.go:370-386 | exactly the seven sensitive details are masked; every other detail and the set of keys stay |
| AlertQueue.SecretsAreNeverStored | igris-overture/alerts/alert_sender.go:170-186 | over all runs no sensitive detail of an accepted alert is kept in the queue, by a worker or timer, or in the dead letters |
| AlertQueue.AlertQueue.Pop | igris-overture/alerts/alert_sender.go:208-239 | a worker takes the oldest queued alert |
| AlertQueue.AlertQueue.ProcessAlert | igris-overture/alerts/alert_sender.go:242-281 | the channel loop ends in finished, retried, dead-lettered or crashed as specified, with the counters |
| AlertQueue.AlertQueue.RetryAlert | igris-overture/alerts/alert_sender.go:284-296 | the alert waits its backoff and is counted |
| AlertQueue.AlertQueue.SendToDLQ | igris-overture/alerts/alert_sender.go:299-308 | dead-letters the alert, or panics on a nil Details map and loses what was in memory |
| AlertQueue.AlertQueue.Requeue | igris-overture/alerts/alert_sender.go:290-293 | the timer puts the alert back at the queue's entry |
| AlertQueue.NothingIsLost | igris-overture/alerts/alert_sender.go:149-308 | over all runs with Details present, every accepted alert is in exactly one of queue, worker, timer, dead letters and finished, and their sizes add up to the enqueued counter |
| AlertQueue.ConservedIffNoPanic | igris-overture/alerts/alert_sender.go:242-308 | a run accounts for every accepted alert exactly when none of its deliveries is the last failing one of an alert without a Details map |
| AlertQueue.CanLoseIff | igris-overture/alerts/alert_sender.go:242-308 | after any run that has not panicked, some way of working on what was accepted loses an alert exactly when one that is queued, in process or awaiting retry has no Details map |
| AlertQueue.AnotherAlertCanBeLost | igris-overture/alerts/alert_sender.go:299-308 | a run in which one alert without a Details map takes down any other alert |
| AlertQueue.TriedAtMostLimit | igris-overture/alerts/alert_sender.go:242-281 | wherever an alert is, it was delivered at most max(1, MaxAttempts - Attempts at acceptance) times |
| AlertQueue.DeadLetterHistory | igris-overture/alerts/alert_sender.go:242-308 | a dead-lettered fresh alert was tried exactly MaxAttempts times and, up to 29, waited 2^(MaxAttempts-1)-1 minutes in all |
| AlertQueue.BackoffExactIff | igris-overture/alerts/alert_sender.go:284-287 | the n-th retry's backoff in signed 64-bit nanoseconds is 2^(n-1) minutes exactly when n <= 28 |
| AlertQueue.BackoffMeans | igris-overture/alerts/alert_sender.go:284-287 | the backoff is a signed 64-bit count of nanoseconds, 2^(attempts-1) minutes up to a multiple of 2^64, and zero for a shift outside 0 to 63 |
| AlertHistory.ItemsAreAcceptedAlerts | igris-overture/alerts/alert_sender.go:149-187 | in every run each item anywhere is one accepted alert, by its place in the order of acceptance, with three attempts as default and exactly the seven sensitive details masked |
| AlertHistory.OldestIsTakenFirst | igris-overture/alerts/alert_sender.go:208-239 | in every run a worker takes a queued alert, and among those not tried yet the one accepted first |
| AlertHistory.DeliveryEnds | igris-overture/alerts/alert_sender.go:242-308 | one delivery leaves its alert finished, waiting with its backoff added, dead-lettered with why and when, or ends the process, in exactly the cases the source has |
| AlertHistory.StatsAreCounts | igris-overture/alerts/alert_sender.go:149-308 | in every run the counters are the numbers of accepted, suppressed, delivered, retried and dead-lettered alerts |
| Metadata.RejectForbiddenMetadataKey | igris-overture/agentregistry/metadata.go:84-98 | passes exactly the non-empty keys that are not listed and contain no forbidden marker |
| Metadata.AllowedKeyIff | igris-overture/agentregistry/metadata.go:84-98 | the allowed keys, with the 26 names and ten markers spelled out and a marker occurring at some position |
| Metadata.SensitiveIff | igris-overture/agentregistry/metadata.go:136-156 | the sensitive strings, with markers, prefixes, phrases and the length 512 spelled out |
| Metadata.NormalizeKeyMeans | igris-overture/agentregistry/metadata.go:80-82 | a normalised key is what lies between the white space at both ends, letter by letter in lower case |
| Metadata.SanitizeMetadataValue | igris-overture/agentregistry/metadata.go:100-134 | succeeds exactly on values without forbidden key or sensitive string at any depth, in whatever order keys come, and then changes nothing but key spelling; a refusal names a problem the value has |
| Metadata.SanitizeMetadata | igris-overture/agentregistry/metadata.go:54-78 | answers a sanitizing within 4096 bytes, a refusal of an unacceptable value, or a refusal of one that is too long; a nil map gives the empty one |
| Metadata.NormalizeKeyTwice | igris-overture/agentregistry/metadata.go:80-82 | normalising a key is idempotent |
| Metadata.SanitizedIsClean | igris-overture/agentregistry/metadata.go:100-134 | what comes out has only normalised, allowed keys and no sensitive string at any depth |
| Metadata.CleanIsFixed | igris-overture/agentregistry/metadata.go:100-134 | a clean value is its own only sanitizing |
| Metadata.CleanAnswer | igris-overture/agentregistry/metadata.go:54-78 | a clean object is answered with itself up to 4096 bytes and as too large beyond |
| Metadata.ReadReturnsWhatWasAccepted | igris-overture/agentregistry/store.go:176-206 | what a write accepted, the re-sanitizing read returns unchanged, even where keys collided |
| MetadataOrder.SanitizesIffVisited | igris-overture/agentregistry/metadata.go:54-134 | the results that the contracts allow are exactly those that some order of visiting the keys of every nested object gives |
| MetadataOrder.DeterminedIff | igris-overture/agentregistry/metadata.go:54-134 | for every value all visiting orders give one result exactly when keys of one object that normalise alike hold values that come out the same, at every depth |
| MetadataOrder.CollidingScalarsIff | igris-overture/agentregistry/metadata.go:54-78 | two spellings of one key are harmless exactly when they hold the same number |
| MetadataOrder.TwoSpellingsDependOnOrder | igris-overture/agentregistry/metadata.go:54-78 | the object {"a": 1, "A": 2} is accepted and its result depends on the order of visiting keys |

## Left out

- SHA-256, Ed25519, PEM parsing and canonical JSON bytes: hashes are ideal, signature checks are a parameter.
- HTTP handling, authentication, rate limits, body size limits, logging and the wording of messages.
- Postgres internals: tables are sequences and maps with the unique constraints the program names; a lost connection is an abort or a rollback.
- Several evidence streams at once: the tables of one tenant and signing key are modelled; streams do not share rows.
- One outcome per decision across batches: the program enforces it inside one batch only, and no theorem claims more.
- Strings beyond Latin-1: white space and lower-casing follow Go on ASCII letters and Latin-1 spaces; other Unicode case and space rules are not modelled.
- EvidenceVerify.VerifyEvidenceEvents: timestamps and action names are judged by parameter predicates, not parsed.
- ContractHistory.WeakeningIsNeverSilent: serial syncs only, because the program does not serialise concurrent ones and the version a concurrent sync compares with is then arbitrary (`sensitive` is a free flag in ContractSync).
- AlertDedupe.SweepingIsInvisible: the clock does not go back, and checking and marking a key is one step; the program takes the lock twice, so two concurrent Enqueue calls with one key can both pass.
- AlertQueue.NothingIsLost: Redis reads and writes succeed, and stored alerts decode; the program ignores the errors of these calls.
- AlertQueue.AlertQueue.Enqueue: generated ids and timestamps are not modelled, and a detail that is itself a map is one value.
- Metadata.SanitizeMetadata: the JSON text length is a parameter, strings are counted in characters, and storing a value and reading it back is taken to return it unchanged.
- BehaviorTree.FlattenBTTree: JSON text is taken as parsed; null, empty or unparsable input is one constructor.
- The Clock 3B ledger's orphan-marking test helper, which would add records that no request made.
- Uniqueness of generated ids: where it matters the id is a parameter of the step.
- TaskCoordinator, dispatch, approval and recovery internals and the Rust runtime.
- Cost, affinity, intelligence, API-key, health and fleet routes, response redaction and URL policy: aggregation, CRUD or string tables.

# Verified model of the receipt service

A Dafny model of the protocols and algorithms behind receipt capture, enrichment, audit and
reconciliation, with proofs of what they are meant to guarantee. `dafny verify dfyconfig.toml`
checks all of it.

## What is modelled

**Uploads** (`Reassembly`, `UploadWorld`, `UploadSafety`, `UploadQuota`, `UploadService`,
`UploadParts`, `UploadEndToEnd`, `UploadLosses`). A session goes from OPEN through COMPLETING to
COMPLETE, FAILED or EXPIRED by compare-and-set. Fixed-size parts lie in an object store, a completion
reads them back in a loop, and one transaction then files the receipt, its byte charge, its audit
event and its outbox row. `UploadWorld` is the state machine: every database transaction and every
object write or delete is one action of one call, and calls interleave and crash anywhere. A delete
request can take effect and raise all the same, and a commit can go through while its answer is lost.
`UploadSafety` proves what every run keeps and exactly which deletes can lose an image, `UploadLosses`
has the runs that do, `UploadQuota` the byte accounting, `UploadParts` what the lock on a part keeps.
`UploadService` is the service itself, a class whose methods update rows and objects in place; each
method, undisturbed, is a run of the machine. `UploadEndToEnd` goes from the first part to the answer.

**Enrichment** (`Pipeline`, `PipelineRetries`, `Leases`). `Pipeline` has the transactions on one
receipt: stage claims with five attempts, versioned results with one callback each, projection on the
receipt row, and human review by version. A run is any sequence of transactions, which covers every
interleaving with crashes and stale workers. `PipelineRetries` is a worker's try of one queue message
as a sequence of them, with its termination measure and the message budget. `Leases` is the leased,
backed-off claim that the outbox and the local queue share.

**Audit** (`Hashing`, `AuditChain`, `AuditRuns`, `AuditDag`). Hashes are a free datatype: the digest
of a body chained to a hash is that pair. `AuditChain` has appending under the lock, the one-pass
verifier and the effect of retention, `AuditRuns` runs of appends and retention passes, `AuditDag` the
edge worker's breadth-first DAG verifier and its linear one.

**Limits and counters** (`SlidingWindow`, `DeviceGate`, `DailyAdmission`, `DailyCounters`). Each
bounded table is proved to answer as the full history would, and the daily receipt limits are followed
through concurrent transactions.

**Formats** (`Csv`, `Reconciliation`, `Base64`). The Tally export reader, the grouping of ordered and
received quantities, and the mobile app's base64 decoder.

`Options`, `Sums` and `Spaces` are shared helpers.

## Assumptions and findings

* Upload ids are fresh, and receipt ids are unique among sessions
  (`services/enrichment/migrations/0005_production_tenancy.sql:211`) and not chosen by a device once
  filed. Image invoices get fresh receipt ids.
* `workflow_stages.attempts` starts at 1 (`services/enrichment/migrations/0002_release_hardening.sql:17`).
* "COMPLETE implies image present" fails in three ways. A cleanup reads the status first and deletes
  the final object later; its delete can take effect and still raise, which leaves the session
  COMPLETING (`services/enrichment/app/image_store.py:11-35`); and if the answer of the receipt
  transaction's commit is lost, the except branch deletes the image of a COMPLETE session. `HarmlessIff`
  says exactly which deletes are harmless, `LostAnswerIff` when the third one is, and
  `CleanupInBetweenLoses`, `RaisingCleanupLoses` and `LostAnswerLoses` are the runs from a new tenant
  that lose an image. Everything else that `ExactlyOnce` says holds in every run.
* A delete that does not raise has removed the object.
* The byte limit may change at any time (`services/enrichment/app/authoritative.py:1664-1676`), so the
  counter is bounded by the highest limit so far.
* The audit verifier orders a chain by `created_at`, which is the start of the appending transaction,
  while the lock is taken later. Appends can therefore be out of order, and `AppendVerifiesIff` shows
  that a single inversion makes the verifier reject an untouched log (`InvertedAppendsRejected`).
* Retention deletes audit events by receipt, which leaves a chain verifiable only if it deletes a
  suffix of it (`RetentionSurvivesIff`, `RetentionRejected`), or, with later appends, if no row left was
  chained to a deleted one (`RunVerifiesIff`).
* A rejection after a verification leaves the verified row, which reconciliation goes on counting
  (`StaleRowIff`, `VerifiedThenRejected`).
* A worker that crashes in a stage's fifth attempt, or between failing a stage for good and recording
  it, strands the receipt (`StrandedIff`, `Strandings`, `GoodTryIff`).
* Queue completions are not fenced by attempt. A late failure report can free a row that another worker
  holds (`LateWriteIff`, `LateWriteDoubleLease`) or revive one in its tenth attempt
  (`LateWriteHarmlessIff`, `TenthAttemptRevived`); late deliveries do neither.
* The advisory locks of a filing transaction are named after the service's date, while the receipts it
  counts and the one it files are dated by the database. Around midnight (or with a session in another
  time zone) two transactions of one day can hold different locks, count the same receipts and both
  file: the daily limits fail then, and exactly then (`LimitHoldsIff`), by at most one receipt for each
  further lock name (`DailyBound`, `BoundReached`). Manual invoices are counted by the others but take
  neither locks nor limits themselves (`services/enrichment/app/authoritative.py:733-827`), so the bound
  is on the other receipts.
* A finalize reads the day once for the user's counter, again for the global one, and the time of
  creation last. If midnight falls in between, the counters of a day do not add up (`CountersAddUpIff`,
  `MidnightSplitsCharge`) or the global one differs from the invoices created that day
  (`CreatedTodayIff`, `MidnightBeforeCreation`). A user called "global" would share the global counter.
* The joined reconciliation key merges different triples where a colon of a component runs into the
  separator (`SharedKeyIff`, `JoinCollides`).
* The header names that the Tally reader lists with spaces, underscores or dots never match, because
  the header loses these characters before the comparison (`apps/edge/src/tally.ts:165-175`): a name is
  matched by some cell exactly if it is all small letters and digits (`RecognisedIff`). A header "po no"
  or "purchase order" names no column (`ListedButUnread`), and a file that has its order numbers there
  is refused (`ListedHeaderRefused`).

## Model

| member | source | states |
|---|---|---|
| `Reassembly.AssembledIff` | services/enrichment/app/authoritative.py:462-475 | A completion rebuilds an image exactly if every part 0 to ceil(total/256000) − 1 is recorded and its object is still stored; the result then has the declared length and holds each object at its part's offset. |
| `Reassembly.ContiguousIff` | services/enrichment/app/authoritative.py:465-474 | The contiguity loop succeeds exactly if the recorded part numbers are 0 to ceil(total/256000) − 1, as long as no recorded part lost its object. |
| `Reassembly.RoundTrip` | services/enrichment/app/authoritative.py:357-475 | Whatever order an image's parts are put in, and however often each, putting them and reading them back rebuilds exactly that image. |
| `Reassembly.ResumedRoundTrip` | services/enrichment/app/authoritative.py:357-475 | So it does from a session that holds some of the parts already. |
| `Reassembly.SlicesDetermine` | scripts/run-local-acceptance.py:90-91 | The client's slices determine the image: two images of one length with the same slices are equal. |
| `Reassembly.ReadParts` | services/enrichment/app/authoritative.py:463-475 | The reassembly loop returns the assembled bytes, and nothing where an offset, a length or the total is off. |
| `Reassembly.CheckPutCases` | services/enrichment/app/authoritative.py:366-394 | When a part is refused out of range, for its length, its digest or a conflict, when it is already stored and when it is new, in bytes. |
| `UploadSafety.ExactlyOnce` | services/enrichment/app/authoritative.py:439-614 | In every run of creations, part puts, concurrent completions, failures, lost answers, crashes, cleanups, retention passes and purges: a session is COMPLETE exactly if its receipt is filed; it then has exactly one RECEIVED event and one enrichment outbox row, and none before; and until retention its final object has the declared length and digest, unless a delete outside the protocol's order hit it while something relied on it (`Hits`). |
| `UploadSafety.OneCompletionAtATime` | services/enrichment/app/authoritative.py:441-461 | No session ever has two live completions, and none is at work on an OPEN, COMPLETE or FAILED session. |
| `UploadSafety.ClosedStep` | services/enrichment/app/authoritative.py:421-436 | No action moves a COMPLETE, FAILED or EXPIRED session, except that the yearly purge drops a COMPLETE one with its receipt. |
| `UploadSafety.ClosedForever` | services/enrichment/app/authoritative.py:439-614 | COMPLETE, FAILED and EXPIRED are absorbing over whole runs: the status stays, or a COMPLETE session is purged. |
| `UploadSafety.GoneForever` | services/enrichment/app/jobs.py:287-289 | A purged upload id never comes back in any later run. |
| `UploadSafety.NextInv` | services/enrichment/app/authoritative.py:357-614 | Every action keeps the invariant behind the three theorems above, if its delete of a final object, should it be one that the protocol's own order does not cover, is safe: no COMPLETE session outside retention has its image there and no completion stands between storing it there and committing. |
| `UploadSafety.RunInv` | services/enrichment/app/authoritative.py:357-614 | Every run of such actions keeps that invariant. |
| `UploadSafety.CommittedInv` | services/enrichment/app/authoritative.py:506-604 | A receipt transaction that commits, heard or not, keeps that invariant: receipt, event, outbox row and COMPLETE mark stay in step. |
| `UploadSafety.StoreImageInv` | services/enrichment/app/authoritative.py:488-498 | Storing the final object keeps it, so it spoils no image that a COMPLETE session or another completion relies on. |
| `UploadSafety.UndoInv` | services/enrichment/app/authoritative.py:605-613 | The failure path's delete of the final object keeps it, so it takes no image that a COMPLETE session or another completion relies on. |
| `UploadSafety.CleanUpInv` | services/enrichment/app/jobs.py:141-167 | A cleanup with nothing of another call in between keeps the invariant if it goes through, if it raises before its delete of the final object took effect, and if it raises after, as long as nothing relied on that object. |
| `UploadSafety.SweepFinalInv` | services/enrichment/app/jobs.py:149-153 | A cleanup's delete of a final object alone, its session read earlier, keeps the invariant if nothing relies on the object. |
| `UploadSafety.CloseCleanupInv` | services/enrichment/app/jobs.py:160-166 | A cleanup's last transaction alone, its deletes done earlier, keeps the invariant. |
| `UploadSafety.HarmlessIff` | services/enrichment/app/jobs.py:129-166 | Any action, in any state that keeps the invariant, is harmless in every continuation of safe actions exactly if it is safe itself; otherwise some such continuation ends with a COMPLETE session whose image is gone. |
| `UploadSafety.UnsafeLoses` | services/enrichment/app/jobs.py:129-166 | That continuation: an admin raises the byte limit and the completion commits without its object, or nothing more is needed. |
| `UploadSafety.LostAnswerIff` | services/enrichment/app/authoritative.py:604-613 | A receipt transaction that goes through unheard, with the except branch right after it, loses the image of its COMPLETE session exactly if the delete takes effect and no retention pass has asked for that image. |
| `UploadSafety.WaivedRun` | services/enrichment/app/authoritative.py:357-614 | In a run with unsafe deletes the invariant goes on holding for all sessions but those whose image was hit. |
| `UploadParts.PartsIntact` | services/enrichment/app/authoritative.py:357-406 | In every run no two calls put the same part at a time, and what is stored for a recorded part is what was recorded, whatever crashes, repetitions, concurrent puts of other contents and cleanups there were. |
| `UploadParts.PartsStep` | services/enrichment/app/authoritative.py:357-406 | Every action keeps the invariant behind that. |
| `UploadLosses.RaisingCleanupLoses` | services/enrichment/app/jobs.py:147-159 | From a new tenant: a cleanup whose delete of the final object took effect and raised, and the completion it met commits; the session is COMPLETE, everything is filed and the image is gone. |
| `UploadLosses.CleanupInBetweenLoses` | services/enrichment/app/jobs.py:147-159 | The same run with the completion committing between the cleanup's delete and its last transaction. |
| `UploadLosses.LostAnswerLoses` | services/enrichment/app/authoritative.py:604-613 | From a new tenant: a commit whose answer is lost, and the except branch deletes the image of a COMPLETE session. |
| `UploadSafety.PurgeInv` | services/enrichment/app/jobs.py:279-289 | The yearly purge keeps events, outbox rows, sessions and receipts in step. |
| `UploadQuota.QuotaStep` | services/enrichment/app/authoritative.py:550-573 | Every action keeps the byte counter at least at the bytes of all undeleted images, and ten times the counter within nine times the highest limit so far; all but the purge keep the difference. |
| `UploadQuota.NeverClamped` | services/enrichment/app/jobs.py:264-268 | The refund's GREATEST(0, …) never clamps: what is taken off was charged. |
| `UploadQuota.ExactStep` | services/enrichment/app/jobs.py:279-289 | From an exact counter an action leaves it exact exactly if it purges no receipt whose image is still charged. |
| `UploadQuota.QuotaRun` | services/enrichment/app/authoritative.py:550-560 | Over whole runs, in which an admin may change the limit, the counter covers the undeleted bytes, ten times it stays within nine times the highest limit, and its excess never shrinks. |
| `UploadQuota.ExactRun` | services/enrichment/app/jobs.py:251-290 | From an exact counter it is exact at the end of a run exactly if no purge on the way took a charged image. |
| `UploadQuota.ByteQuota` | services/enrichment/app/authoritative.py:929-963 | The same from a new tenant on, device uploads and image invoices together. |
| `UploadQuota.SessionAdmittedIff` | services/enrichment/app/authoritative.py:296-297 | With everything else in order a session is opened exactly if ten times the counter with its bytes is within nine times the limit. |
| `UploadQuota.CompletionAdmittedIff` | services/enrichment/app/authoritative.py:550-560 | So is a completion's receipt filed and charged. |
| `UploadQuota.InvoiceAdmittedIff` | services/enrichment/app/authoritative.py:929-939 | So is an image invoice of the dashboard. |
| `UploadService.UploadService.PutUploadPart` | services/enrichment/app/authoritative.py:357-406 | A part upload is accepted exactly if the session is OPEN, the part is in range (256000 bytes a part), of its length, of its declared digest and of the digest and length of a row already there; each error is that of the first of these that fails; row and object are written exactly if it is accepted and new; and all this is the run of its three actions. |
| `UploadService.SetOnce` | services/enrichment/app/authoritative.py:421-436 | Of two compare-and-sets from the same status only the first takes effect. |
| `UploadService.UploadService.AssembleParts` | services/enrichment/app/authoritative.py:462-478 | The reassembly loop over stored objects gives the assembled body, or leaves the call about to reopen its session. |
| `UploadService.UploadService.RecordFinalKey` | services/enrichment/app/authoritative.py:486-493 | Records the final key of a session that is still COMPLETING and touches no other. |
| `UploadService.UploadService.CommitReceipt` | services/enrichment/app/authoritative.py:506-604 | The receipt transaction commits exactly if the session is COMPLETING, the limits admit it, the quota has room and the receipt is not filed, whether or not its answer comes through; then receipt, event, outbox row, charge and COMPLETE mark are written, and otherwise nothing is. |
| `UploadService.UploadService.FileReceipt` | services/enrichment/app/authoritative.py:486-614 | From a judged body on: either the session is OPEN again with nothing filed, or it is COMPLETE with its receipt, event, outbox row and charge, and its image stored under its final key, except where the answer was lost and the except branch deleted it. |
| `UploadService.UploadService.ExceptBranch` | services/enrichment/app/authoritative.py:605-614 | The except branch, which cannot tell whether the transaction went through: the final object goes if its delete takes effect, and the session is OPEN again, or stays COMPLETE if it had. |
| `UploadService.UploadService.TidyParts` | services/enrichment/app/authoritative.py:615-629 | The part objects whose delete takes effect go, and no others; the rows go exactly if every delete worked; images and statuses stay. |
| `UploadService.UploadService.CompleteUploadSession` | services/enrichment/app/authoritative.py:439-630 | One completion call, undisturbed: its answer in each case, what it files and charges if it commits, what it leaves of the session if not, the image it stores, and that its effect is a run of the machine. |
| `UploadEndToEnd.PutRunRefines` | services/enrichment/app/authoritative.py:357-406 | Part uploads of an image, one after the other, change the parts of their session as the plain specification of a part store does, and nothing else. |
| `UploadEndToEnd.ImageReceived` | services/enrichment/app/authoritative.py:357-630 | End to end, from any reachable state with an OPEN session that holds any of an image's parts: put at least the others, in any order and any number of times, and complete; the answer is a receipt exactly if the image is a WEBP file of the declared digest, admitted and within the byte quota (and the answer comes through), and else the first of these that fails. |
| `UploadEndToEnd.CompletionCases` | services/enrichment/app/authoritative.py:439-614 | The answer of a completion from any reachable state: not open, duplicate, incomplete exactly if some part is not recorded or its object not stored in full, and else by the part objects put one after the other: invalid image, wrong digest, not admitted or over quota, received or lost. |
| `UploadWorld.IsWebpIff` | services/enrichment/app/authoritative.py:409-410 | The signature that decides, byte by byte. |
| `UploadService.UploadService.CleanupSession` | services/enrichment/app/jobs.py:141-166 | The deletes of one session, up to the first that raises: the session counts as cleaned exactly if every delete worked; then exactly its part objects are gone, and its final one unless it is COMPLETE, it has no rows, and it is EXPIRED unless COMPLETE; otherwise its row stays as it was. |
| `UploadService.UploadService.CleanupOrphanUploads` | services/enrichment/app/jobs.py:124-167 | A cleanup pass is a run of cleanup actions, each going through exactly if every delete of its session works; every session where it did ends neither OPEN nor COMPLETING, and without part rows if COMPLETE, and the count is theirs. |
| `UploadService.UploadService.ApplyRetention` | services/enrichment/app/jobs.py:211-292 | A retention pass is a run of the machine; exactly the images whose delete took effect are gone, those whose delete worked are marked deleted, all selected ones have a tombstone, exactly the expired receipts and their sessions go, and the two counts say so. |
| `AuditChain.ChainBinding` | services/enrichment/app/audit_chain.py:10-12 | Two verifying chains that end in the same hash agree on every body and every hash. |
| `AuditChain.SublistVerifiesIff` | services/enrichment/app/jobs.py:280 | A sublist of a verifying chain verifies exactly if it is a prefix. |
| `AuditChain.VerifyAuditChains` | services/enrichment/app/audit_chain.py:24-35 | The one-pass verifier accepts exactly if each chain verifies on its own, counts all events and chains, and otherwise names the chain of the first row that breaks one. |
| `AuditChain.VerifyLocalOperatorChain` | services/enrichment/app/audit_chain.py:47-56 | The operator chain is valid exactly if every row is linked; otherwise the count names the first that is not. |
| `AuditChain.RetentionSurvivesIff` | services/enrichment/app/jobs.py:280 | A verifying log still verifies after retention exactly if, in every chain, whatever follows a deleted event is deleted too. |
| `AuditChain.AppendVerifiesIff` | services/enrichment/app/authoritative.py:1261-1281 | A log built by locked appends is accepted by the verifier's query order exactly if every append's (created_at, id) exceeds all earlier ones of its chain; one inversion rejects it. |
| `AuditChain.LastAppendedIsLast` | services/enrichment/app/authoritative.py:579-594 | In a listing of a chain that verifies, the row appended last comes last. |
| `AuditChain.SortedUnique` | services/enrichment/app/audit_chain.py:17-23 | The verifier's ORDER BY determines the listing: two increasing listings of the same rows are equal. |
| `AuditChain.AuditLog.Append` | services/enrichment/app/authoritative.py:1261-1281 | An append chains to the greatest (created_at, id) row of its chain, if any is left, and changes nothing else; a log that appends built stays one. |
| `AuditRuns.RunVerifiesIff` | services/enrichment/app/authoritative.py:1261-1281 | After any run of appends and retention passes in which keys go up, the verifier accepts what is left exactly if no surviving row was chained to a deleted one. |
| `AuditRuns.InvertedAppendsRejected` | services/enrichment/app/authoritative.py:1261-1281 | Two appends whose transactions began in the other order than they took the lock: the untouched log is rejected. |
| `AuditRuns.RetentionRejected` | services/enrichment/app/jobs.py:280 | A receipt's first event deleted and the event after it kept: the log is rejected. |
| `AuditDag.BuildChildren` | apps/edge/src/audit-chain.ts:321-326 | The adjacency map holds, for every hash, exactly the events that chain to it. |
| `AuditDag.Traverse` | apps/edge/src/audit-chain.ts:348-386 | The worklist loop terminates with an empty queue, each event visited once and after one it chains to, and has recorded no error exactly if every visited event is sound. |
| `AuditDag.VisitedExactly` | apps/edge/src/audit-chain.ts:353-386 | With an empty queue exactly the events reachable through parsing ones were visited. |
| `AuditDag.TraversalDecides` | apps/edge/src/audit-chain.ts:346-393 | All events visited and sound: exactly if there is one genesis, everything is reachable from it and every digest is right. |
| `AuditDag.CheckHead` | apps/edge/src/audit-chain.ts:402-416 | The head test over the leaves fails exactly if there are leaves, a recorded head, and no leaf with its hash. |
| `AuditDag.LeafExists` | apps/edge/src/audit-chain.ts:402-406 | If every digest is right there is a leaf, so the head test is never skipped. |
| `AuditDag.VerifyChainDag` | apps/edge/src/audit-chain.ts:290-424 | The DAG check accepts exactly the logs with one genesis, everything reachable from it, every stored hash equal to the digest of the parent's stored hash and the body, and a recorded head that is a leaf; it reports exactly the forked hashes, each with its children in order. Its errors name exactly the visited events that do not parse, exactly the unvisited ones as orphans, the first unsound event with the digest it should have, and a head that no leaf has. |
| `AuditDag.DagValidLocally` | apps/edge/src/audit-chain.ts:339-393 | Once digests are right, "reachable from the genesis" is "every other event has a parsing parent": there are no cycles. |
| `AuditDag.VerifyChain` | apps/edge/src/audit-chain.ts:434-504 | The linear check accepts exactly the non-empty logs whose every event is linked to the one before it, without forks and with the recorded head last; it reports exactly the events with a wrong previous hash, with a body that does not parse and with a wrong digest (against the last event that parsed), the forks and the head. |
| `AuditDag.FindForks` | apps/edge/src/audit-chain.ts:476-487 | The fork query reports each previous hash that several events share once, with their number. |
| `AuditDag.LinearImpliesDag` | apps/edge/src/audit-chain.ts:346-416 | A log that passes the linear check passes the DAG check and has no forks. |
| `AuditDag.DagImpliesLinear` | apps/edge/src/audit-chain.ts:434-504 | A log that passes the DAG check without forks passes the linear check in traversal order. |
| `AuditDag.VerifiersAgree` | apps/edge/src/audit-chain.ts:290-504 | On any stored order the linear check accepts exactly if the DAG check does, nothing forks and the order puts parents first. |
| `Leases.LeasesAreExclusive` | services/enrichment/app/outbox.py:28-68 | As long as workers write only within their leases, at most one holds a live lease on a row, attempts counts the claims, and there are at most ten besides takeovers of leases that ran out. |
| `Leases.NewRowsAreExclusive` | services/enrichment/app/outbox.py:28-68 | So it is for every new row. |
| `Leases.LateWriteIff` | services/enrichment/app/queueing.py:121-147 | After a write past its lease, some continuation in which everybody writes in time ends in two live leases exactly if the write is a failure report of an attempt before the tenth and another lease is still live when the backoff it starts has passed. |
| `Leases.LateWriteDoubleLease` | services/enrichment/app/queueing.py:134-147 | The run from a new row that shows it: a late failure report frees a row that another worker holds. |
| `Leases.LateWriteHarmlessIff` | services/enrichment/app/queueing.py:121-147 | Every continuation in which everybody writes in time keeps one live lease and the ten-claim bound exactly if the late write neither frees a held row in that way nor is a failure report of an attempt before the tenth on a row in its tenth. |
| `Leases.EleventhClaim` | services/enrichment/app/queueing.py:134-147 | A row revived in its tenth attempt is claimed an eleventh time, without another lease having run out. |
| `Leases.TenthAttemptRevived` | services/enrichment/app/queueing.py:134-147 | The run that shows it, nobody holding a live lease when the late report comes. |
| `Leases.AlwaysFailing` | services/enrichment/app/outbox.py:112-136 | A new row that always fails is claimed at most ten times, is FAILED_TERMINAL exactly after the tenth, and each claim comes no sooner than the backoffs before it. |
| `Leases.FailedBecomesEligible` | services/enrichment/app/queueing.py:91-118 | Until then a failed row becomes eligible again once its backoff has passed, so the tenth claim does happen. |
| `Leases.TenthClaim` | services/enrichment/app/queueing.py:134-147 | The tenth claim of an always-failing outbox row comes at least 1022 seconds after the first, that of a local queue row at least 766. |
| `Leases.LeaseLengths` | services/enrichment/app/outbox.py:42-44 | An outbox row is leased for two minutes, a local queue row for three. |
| `Leases.FailureDelays` | services/enrichment/app/queueing.py:134-147 | A failed attempt n delays the next claim by 2^n seconds, in the outbox up to 1024 and in the local queue up to 256, and the tenth is for good. |
| `Leases.LeaseTable.Enqueue` | services/enrichment/app/queueing.py:64-81 | Enqueueing a key again replaces its payload only: no duplicate, no revival, no rescheduling. |
| `Leases.LeaseTable.ClaimBatch` | services/enrichment/app/outbox.py:33-48 | Claims the first eligible rows in creation order, up to the limit, and touches no other. |
| `Leases.FinishedForever` | services/enrichment/app/outbox.py:88-123 | A delivered or finally failed row is never touched again: no mark, late or not, acts on it and no claim takes it. |
| `Pipeline.LockstepAlways` | services/enrichment/app/storage.py:76-177 | In every interleaving, crashes and stale workers included: callback versions are exactly 1 up to the result's version, which counts the saves and terminal failures; the newest callback carries the result; no callback is ever rewritten; no stage is tried more than five times. |
| `Pipeline.LockstepStep` | services/enrichment/app/storage.py:236-268 | Each transaction keeps that, and moves the version by exactly its own saves. |
| `Pipeline.ClaimHolds` | services/enrichment/app/storage.py:18-27 | A claim holds its stage for five minutes: until then nobody else can claim it, and after that anybody can while tries are left. |
| `Pipeline.CompletedUntilFailed` | services/enrichment/app/storage.py:45-73 | A completed stage stays completed, cannot be claimed and keeps its attempts until somebody fails it; and a failure, even a stale worker's, always undoes it. |
| `Pipeline.LastSaveDecides` | services/enrichment/app/storage.py:120-130 | Whatever else runs, the result has the reading saved last, which no later failure loses, and is ready for review exactly if that reading scored 60 and no failure came after it. |
| `Pipeline.ReviewsAlone` | services/enrichment/app/outbox.py:155-176 | Enrichment never touches a human decision: the reviews taken alone out of any run leave the same version, fields and verified row, and where they leave RECEIVED, the receipt is NEEDS_REVIEW exactly if a callback was projected. |
| `Pipeline.ProjectedInAnyOrder` | services/enrichment/app/outbox.py:155-176 | Projecting callbacks in any order, any number of times: the row then shows the status and the reading of the one projected last, goes from RECEIVED, and from no other status, to NEEDS_REVIEW, and keeps its version, fields and verified row. |
| `Pipeline.NewestShown` | services/enrichment/app/outbox.py:160-173 | So the receipt shows the current result's status and reading if the newest callback came last, and an older one's if that one did. |
| `Pipeline.OneReviewPerVersion` | services/enrichment/app/authoritative.py:1080-1105 | Of two reviews of the same version at most one is accepted, whatever runs in between. |
| `Pipeline.VerifiedAlways` | services/enrichment/app/authoritative.py:1091-1125 | The status is the last accepted decision, and a VERIFIED receipt's verified row has its version and fields; the upsert's guard never refuses. |
| `Pipeline.StaleRowIff` | services/enrichment/app/authoritative.py:1106-1125 | The verified row of a receipt that is not VERIFIED stays, and is counted by reconciliation, exactly if an accepted review verified it once and the last accepted one rejected it. |
| `Pipeline.VerifiedThenRejected` | services/enrichment/app/authoritative.py:1106-1125 | The run that shows it: verify, then reject. |
| `Pipeline.DeliveryOrderIrrelevant` | services/enrichment/app/reconciliation.py:90-105 | Review events delivered in any order and any number of times leave the same verified row, that of the newest. |
| `Pipeline.FirstOfVersionStays` | services/enrichment/app/reconciliation.py:90-105 | A delivery of a version already there, or of an older one, changes nothing. |
| `PipelineRetries.TryIsARun` | services/enrichment/app/workflow.py:36-93 | A try is a run of those transactions, so all that holds of every run holds of it. |
| `PipelineRetries.TryDecreases` | services/enrichment/app/workflow.py:36-93 | With one worker and no crash, a try leaves and returns a result at version 1, or raises the outside error and makes (5 − image attempts) + (5 − OCR attempts) + [image COMPLETED] smaller by exactly one. |
| `PipelineRetries.TryAgain` | services/enrichment/app/workflow.py:37-39 | Once there is a result, further tries return it and change nothing. |
| `PipelineRetries.GoodTrySaves` | services/enrichment/app/workflow.py:66-84 | If the image is done or claimable and OCR is claimable, a good image and a good OCR run save the reading as the first result and callback, ready for review exactly if it scored 60, and complete both stages. |
| `PipelineRetries.FailedTrySaves` | services/enrichment/app/workflow.py:53-90 | A bad image ends the receipt at once, another failure at the fifth attempt of its stage: the result is for human review and carries the error of the call that failed. Before the fifth it is raised, and the stage can be retried. |
| `PipelineRetries.ResultWithinNineTries` | services/enrichment/app/queueing.py:134-147 | Whatever the outside calls do, nine deliveries of a new message yield a result, so the message's budget of ten is never used up. |
| `PipelineRetries.CanFailToTheEnd` | services/enrichment/app/storage.py:14-73 | The bound is tight: from every idle receipt as many tries can fail as the measure exceeds two by, so eight from a new one. |
| `PipelineRetries.StrandedIff` | services/enrichment/app/storage.py:18-27 | A receipt without a result is stranded, no try at any time ever changing it, exactly if its image stage has not completed and can no longer be claimed. |
| `PipelineRetries.Strandings` | services/enrichment/app/storage.py:14-73 | Both ways there from a new receipt: five workers that each crash before their stage is over, or one that crashes between failing it for good and recording that. |
| `PipelineRetries.GoodTryIff` | services/enrichment/app/workflow.py:42-66 | A good image and a good OCR run give a result at some time exactly if neither stage is stranded so. |
| `PipelineRetries.ReceiptRows.ClaimStage` | services/enrichment/app/storage.py:14-33 | Claims an absent, retryable or expired stage with fewer than five attempts, and changes nothing otherwise. |
| `PipelineRetries.ReceiptRows.FailStage` | services/enrichment/app/storage.py:58-73 | Fails the stage whatever its status, for good on request or at five attempts, and says which. |
| `PipelineRetries.ReceiptRows.SaveOcrResult` | services/enrichment/app/storage.py:92-177 | The result transaction: the reading with the status of its score (60 is enough) at the next version, both stages completed, its callback queued. |
| `PipelineRetries.ReceiptRows.FinalizeProviderFailure` | services/enrichment/app/storage.py:236-268 | The terminal record: the next version, for human review, with the earlier reading or else the error, its callback queued. |
| `PipelineRetries.ReceiptRows.ReviewReceipt` | services/enrichment/app/authoritative.py:1080-1125 | A review is accepted exactly if it names the current version; it sets status, fields and the next version, a verification also the verified row; otherwise nothing changes. |
| `PipelineRetries.ReceiptRows.ProcessReceiptEvent` | services/enrichment/app/workflow.py:36-93 | The staged workflow in place: an idle receipt gets its first result or loses one unit of the measure, a good image and OCR run save the reading at version 1 with the status of its score, and a finished receipt is returned unchanged. |
| `SlidingWindow.SlidingWindowCounter.IsAllowed` | services/enrichment/app/rate_limiting.py:20-30 | For a clock that never goes back, the pruned list answers as the full history of accepted requests would ("fewer than the maximum in [now − W, now]"), and other keys are not affected. |
| `SlidingWindow.RateAlwaysOk` | services/enrichment/app/rate_limiting.py:20-30 | Whatever the request times, no closed interval of the window's length holds more than the maximum of accepted requests. |
| `SlidingWindow.CountSuffix` | services/enrichment/app/rate_limiting.py:24-27 | In an ordered history the count is what is left once the older times are popped. |
| `DeviceGate.ConsumeRefines` | services/enrichment/app/authoritative.py:100-144 | The gate decides by its two purged tables exactly as the full history would: a replay if the timestamp is over a minute off, the nonce not of 16 to 128 characters or used by the device in the last ten minutes, else inactive if the organization is, else rate-limited if the calendar minute has no room, else accepted; a refusal leaves both tables, and so the nonce, as they were. |
| `DeviceGate.AcceptedTables` | services/enrichment/app/authoritative.py:109-116 | An accepted request leaves its nonce for ten minutes and its window, and of the other rows those not yet expired and those not older than ten minutes. |
| `DeviceGate.AtMostOnce` | services/enrichment/app/authoritative.py:100-144 | In every run the same device, timestamp and nonce are accepted at most once although nonce rows expire, and a device gets no more than the highest limit in force (at least one) accepted per calendar minute. |
| `DeviceGate.AtMostOnceFromStart` | services/enrichment/app/authoritative.py:100-144 | So it is from empty tables on. |
| `DeviceGate.ReplayIsRecent` | services/enrichment/app/authoritative.py:105-117 | A timestamp is in time for less long than a nonce row lives, so a repeated request always finds its nonce. |
| `DeviceGate.DeviceTables.ConsumeDeviceNonce` | services/enrichment/app/authoritative.py:100-144 | The transaction in place, with its rollbacks. |
| `DailyAdmission.DailyBound` | services/enrichment/app/authoritative.py:505-546 | With filing transactions interleaving between their locks, their two counts and their inserts: in every run a day gets, of a site or of the organization, at most one receipt more than its limit for each lock name beyond the first that the day's transactions use. |
| `DailyAdmission.BoundReached` | services/enrichment/app/authoritative.py:505-546 | For every limit and every set of lock names some run reaches that bound. |
| `DailyAdmission.LimitHoldsIff` | services/enrichment/app/authoritative.py:505-546 | So the daily limit holds in every run exactly if the day's transactions all name their locks alike. |
| `DailyAdmission.MidnightBound` | services/enrichment/app/authoritative.py:905-927 | With lock dates at most a day off a day gets at most two receipts too many, and none if every lock is named after its transaction's own date. |
| `DailyCounters.CountersAlwaysOk` | services/gcp-api/app/store.py:60-87 | In every run of reservations, finalizes, confirmations, OCR updates and deletions: a day's global counter is the number of invoices charged to it globally, a user's counter the number of the user's invoices charged to that; the two days of one charge are read apart. |
| `DailyCounters.GlobalLimitIff` | services/gcp-api/app/store.py:69-85 | A finalize keeps the global counters within their limit, except for a user called "global" whose two days differ and whose first is full. |
| `DailyCounters.GlobalLimitHolds` | services/gcp-api/app/store.py:69-85 | So over runs the global counters stay within the limit, as long as no such user with a higher limit finalizes across midnight. |
| `DailyCounters.UserLimitHolds` | services/gcp-api/app/store.py:80-83 | No user's counter exceeds the highest daily limit the user was given. |
| `DailyCounters.CountersAddUpIff` | services/gcp-api/app/store.py:69-85 | A day's user counters add up to the global one exactly if as many invoices were charged to a user that day and globally on another as the other way round (a user called "global" being charged globally only). |
| `DailyCounters.AllDaysAddUpIff` | services/gcp-api/app/store.py:69-85 | They add up on every day exactly if every invoice was charged to one day only, and to nobody called "global". |
| `DailyCounters.MidnightSplitsCharge` | services/gcp-api/app/store.py:69-70 | The run that shows it: midnight falls between the two readings of the day. |
| `DailyCounters.CreatedTodayIff` | services/gcp-api/app/store.py:69-85 | A finalize keeps each global counter equal to the invoices created that day exactly if its guards refuse it (not the user's upload, existing, expired or at a limit), or its global day is the day it creates the invoice on and, for a user called "global", so is the user's. |
| `DailyCounters.CreatedRunIff` | services/gcp-api/app/store.py:60-87 | Over whole runs whose clock does not go back: the global counters are the invoices created on their days exactly if every invoice was charged to its own day, and the sums of all days agree exactly if every invoice was charged to one day and to nobody called "global". |
| `DailyCounters.MidnightBeforeCreation` | services/gcp-api/app/store.py:69-85 | The run that shows it: midnight falls between reading the days and creating the invoice. |
| `DailyCounters.FinalizeAgain` | services/gcp-api/app/store.py:74-77 | Repeating a successful finalize, on whatever day and under whatever limits, returns the same invoice and changes nothing. |
| `DailyCounters.FinalizeCases` | services/gcp-api/app/store.py:60-87 | A finalize's answer by the first test that fails; the invoice it creates, its counters and that nothing else changes. |
| `DailyCounters.ConfirmCases` | services/gcp-api/app/store.py:102-112 | A confirmation is accepted exactly from the owner for the current version, whatever the state, and changes that invoice only. |
| `DailyCounters.OcrCases` | services/gcp-api/app/store.py:114-126 | OCR results land exactly on PROCESSING and NEEDS_CORRECTION invoices; with fields the invoice is ready to confirm, without it needs correction. |
| `DailyCounters.DeleteCases` | services/gcp-api/app/store.py:128-129 | A deletion drops fields and object and keeps the rest. |
| `DailyCounters.DayOfIff` | services/gcp-api/app/store.py:11 | A day runs from midnight to midnight of Indian Standard Time. |
| `DailyCounters.VersionCountsConfirmations` | services/gcp-api/app/store.py:102-112 | An invoice is never lost or handed to another user, and its version counts its accepted confirmations. |
| `DailyCounters.SettledStaysIff` | services/gcp-api/app/store.py:114-126 | A confirmed invoice stays as it is, late OCR results included, unless confirmed again or deleted; a deleted one stays deleted exactly until a matching confirmation. |
| `DailyCounters.FirestoreStore.FinalizeUpload` | services/gcp-api/app/store.py:60-87 | Finalize in place, the day read once for each counter: the order of its checks, its error in each case, all four writes or none, and the user's counters within the limit. |
| `DailyCounters.FirestoreStore.ConfirmInvoice` | services/gcp-api/app/store.py:102-112 | Confirmation by compare-and-set on the version, as `ConfirmCases` has it, the counters kept. |
| `DailyCounters.FirestoreStore.RecordOcr` | services/gcp-api/app/store.py:114-126 | OCR results in place, as `OcrCases` has them, the counters kept. |
| `Csv.ParseCsvLine` | apps/edge/src/tally.ts:133-156 | The loop with its skip over doubled quotes computes the fields of the line. |
| `Csv.LineRoundTrip` | apps/edge/src/tally.ts:133-156 | Any non-empty list of fields, quoted as section 2 of RFC 4180 allows wherever the writer likes and at least where it must, is read back as it was. |
| `Csv.FileRoundTrip` | apps/edge/src/tally.ts:71-73 | Whatever line end each line is written with, and with a byte order mark or without, the reader sees the lines as they were, the blank ones left out. |
| `Csv.LinesLaw` | apps/edge/src/tally.ts:71-73 | The lines of any text are its stretches between carriage returns and newlines that hold something besides white space, in order. |
| `Csv.TableRoundTrip` | apps/edge/src/tally.ts:66-91 | So a whole written table is read back cell by cell. |
| `Csv.RowsRoundTrip` | apps/edge/src/tally.ts:66-128 | Rows written under any header whose cleaned cells name the seven columns, in any order and among any others, with any quoting and line ends, are parsed to exactly those rows and no errors. |
| `Csv.BuildColumnMap` | apps/edge/src/tally.ts:162-184 | Each column gets the first header cell that, once trimmed, lower-cased and stripped to letters and digits, is one of its names; no other cell. |
| `Csv.CleanHeaderLaw` | apps/edge/src/tally.ts:175 | A header cell is cleaned character by character: letters and digits stay, lower-cased, and everything else goes. |
| `Csv.NamesIff` | apps/edge/src/tally.ts:165-183 | The names that each column really answers to. |
| `Csv.RecognisedIff` | apps/edge/src/tally.ts:165-175 | Some header cell is read as a given name exactly if the name is made of small letters and digits; so the listed names with a space, an underscore or a dot are never recognised. |
| `Csv.ListedButUnread` | apps/edge/src/tally.ts:165 | "po no" and "purchase order" are listed, but a cell with just that text names no column. |
| `Csv.ListedHeaderRefused` | apps/edge/src/tally.ts:73-91 | A file whose order numbers stand under one of these is refused for missing columns. |
| `Csv.OneEach` | apps/edge/src/tally.ts:87-127 | Every data line gives exactly one row or one error, and the errors carry increasing line numbers of lines that failed so. |
| `Csv.RowsInOrder` | apps/edge/src/tally.ts:87-127 | The rows are those of the good lines, in order. |
| `Csv.LineRead` | apps/edge/src/tally.ts:92-124 | A data line gives a row exactly if the required columns are within it, order number and material code are not blank, the quantity is finite and positive, and the header's other columns are within it too; else the error of the first test that fails. The row's values, with those for absent columns and for numbers that are none. |
| `Csv.LinesRead` | apps/edge/src/tally.ts:73-127 | The parse of a file is those rows and errors, line by line, or the header if it lacks a required column. |
| `Csv.DigitsAre` | apps/edge/src/tally.ts:102 | Of a number's text exactly the commas and quotes are removed. |
| `Csv.TrimIs` | apps/edge/src/tally.ts:100-101 | A trimmed text is what is left between two stretches of white space, and it neither starts nor ends in any. |
| `Csv.ParseTallyCsv` | apps/edge/src/tally.ts:66-128 | The parse of a file: too short, missing columns, or the rows and errors of its lines, which together number the data lines (what becomes of each line: `LinesRead`). |
| `Csv.ParseUnique` | apps/edge/src/tally.ts:66-128 | Text and cell readers determine the parse. |
| `Reconciliation.SplitJoinIff` | apps/edge/src/tally.ts:213 | A joined key splits back to its triple exactly if no component holds "::" and neither the order number nor the material code ends in a colon. |
| `Reconciliation.SharedKeyIff` | apps/edge/src/tally.ts:197 | Another triple has the same key exactly if the order number ends in a colon or holds "::", or the material code, not empty, starts or ends in a colon or holds "::", or the unit starts with a colon or holds "::". |
| `Reconciliation.JoinInjective` | apps/edge/src/tally.ts:197 | Triples whose key splits back share it only if they are equal. |
| `Reconciliation.JoinCollides` | apps/edge/src/tally.ts:197 | Two different triples that are grouped together, one of which even splits back. |
| `Reconciliation.DeltasConserve` | apps/edge/src/tally.ts:190-224 | There is one row for each distinct key of an order or a receipt, and the rows' totals are the totals ordered and received. |
| `Reconciliation.DeltasByTriple` | apps/edge/src/tally.ts:190-224 | Where no component holds a separator: one row for each triple ordered or received, with the sums of its own orders and receipts, over exactly if more came in than was ordered. |
| `Reconciliation.KeysOfBoth` | apps/edge/src/tally.ts:208-212 | The union of the two groups' keys is the keys of both lists read one after the other, in first-occurrence order. |
| `Reconciliation.DeltasMatch` | services/enrichment/app/reconciliation.py:51-62 | For duplicate-free orders in normalised units, nothing holding a separator and both services normalising the receipts' units alike, the grouping's first rows are one for one the rows the enrichment service computes. |
| `Reconciliation.GroupQuantities` | apps/edge/src/tally.ts:194-206 | The grouping loop maps each key to the sum of its quantities. |
| `Reconciliation.CalculateReconciliationDeltas` | apps/edge/src/tally.ts:190-224 | The edge worker's loops compute those rows and keep both totals. |
| `Reconciliation.IdentitiesCount` | services/enrichment/app/reconciliation.py:45-47 | Comparing the number of identities with the number of rows finds duplicates exactly. |
| `Reconciliation.ParseRecords` | services/enrichment/app/reconciliation.py:29-48 | An import is accepted exactly if it has a row, every record gives a valid one and no two share their identity; the error says which failed. |
| `Reconciliation.ImportRowIff` | services/enrichment/app/reconciliation.py:29-44 | A record gives a row exactly if its quantity is a number and not negative and no other field is empty; and the row's values. |
| `Base64.RoundTrip` | apps/mobile/src/engine/base64.ts:5-33 | Decoding the encoding (section 4 of RFC 4648) of any bytes, padded or not and with any white space, returns the bytes; with padding every byte of the array is written once and none outside it. |
| `Base64.DecodeEncoded` | apps/mobile/src/engine/base64.ts:5-33 | In short, decoding what was encoded returns the bytes. |
| `Base64.WrittenEncoded` | apps/mobile/src/engine/base64.ts:11-30 | On a padded encoding the loop writes exactly the bytes, and the computed length is theirs, in all three padding cases. |
| `Base64.WrittenUnpadded` | apps/mobile/src/engine/base64.ts:7-30 | Without the padding it writes up to two bytes more, and exactly those fall outside the array. |
| `Base64.GroupIs` | apps/mobile/src/engine/base64.ts:13-28 | The three bytes of any group: a character outside the alphabet counts as the last one in it, and a second one outside makes the first count so too. |
| `Base64.EncodedInjective` | apps/mobile/src/engine/base64.ts:3-33 | No two byte sequences share an encoding. |
| `Base64.Base64ToBytes` | apps/mobile/src/engine/base64.ts:5-33 | The loop over groups of four, for any string of basic-plane characters, leaves the specified array; writes past its end are ignored. |

## Left out

- CalculateReconciliationDeltas: the rows are stated before the final sort by order number, whose locale-dependent comparison is not modelled; sorting only permutes them.
- CommitReceipt: the daily receipt counts and the activity checks of site and organization are one parameter (`admitted`); what the counts guarantee is `DailyAdmission`, a state machine of its own.
- CompleteUploadSession: the same parameter stands for those checks in its `NotAdmitted` answer, which in the code is one of five errors; device and tenant ownership of the session are not modelled.
- CleanupOrphanUploads: takes any sessions of a status the query selects, not just those whose expiry or age qualifies, so what is proved holds whenever it runs; listing the untracked part objects is left out, deleting one is an action (`DropUntracked`).
- ApplyRetention: which images and receipts are old enough is a parameter, and so is what comes of each delete.
- ParseTallyCsv: number parsing and unit normalisation are parameters, and quoted fields cannot hold line breaks, as in the code.
- DeltasConserve: quantities are reals, where the code adds doubles and the order of additions can show in the last digits.
- DeltasMatch: the two services' unit tables are parameters, and they do differ ("TONNES" is "MT" in one and "TONNE" in the other); the lemma asks that they agree on the units that occur.
- Base64ToBytes: a character outside the basic plane counts as two in the source; for such a string, read it with two unlisted characters in its place.
- VerifyChainDag: an event body of the JSON text `null` parses and then makes the check throw in the source; here every body that parses has its fields.
- ParseRecords: the records are those of Python's CSV reader; parsing a quantity, trimming and unit normalisation are parameters, and not-a-number quantities are not modelled.
- ConsumeDeviceNonce: one clock stands for the service's and the database's.
- ReviewReceipt: the review's descriptive fields and the upper-casing of the identity fields are not modelled, and its audit event is `AuditLog.Append`.
- ByteQuota: nine tenths of the limit is exact integer arithmetic; the code multiplies by a floating-point 0.9.
- SHA-256, HMAC and JSON canonicalisation: hashes are a free datatype and bodies opaque values.
- Image decoding, EXIF, OCR and other outside calls: their outcomes are parameters.
- The GST stage: production requires it to be disabled (`services/enrichment/app/config.py:107-109`).
- Retention of manual invoices, which have no image bytes: retention is modelled for receipts with an image.
- The object store's part of image invoices made at the dashboard: only their quota transaction is modelled.
- Edge append and genesis (`apps/edge/src/audit-chain.ts:73-177`): the genesis hash is taken over a body that differs from the stored one, so append properties are stated on the Python service.
- Edge upload handlers, graph queries and the edge's verification of all chains.
- The outbox's credit deliveries, its mirror rows for delivery stages and the SQS consumer: the local queue is the modelled one.
- Progress of test runs, billing, checkout, support grants and consent in the other services.
- HTTP routing, sessions, identity providers, key management, user interfaces and infrastructure.

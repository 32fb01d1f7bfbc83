# Payments platform: the parts where a crash, a replay or an interleaving could break a promise

A Dafny 4.11 model of the stateful core of a payments platform, with proofs. Each module is one
cluster of the code; external stores are small classes or state machines, and every call to one is a
separate step between which other callers act. `dafny verify dfyconfig.toml` checks the whole project.

- **AmlDestinationSet, AmlRules, AmlSweep**: the anti-money-laundering sweep. A trimmed sorted set per
  payout destination stands in for "distinct senders in 30 days"; a ledger rule fires on a rising edge;
  a cursor walks the ledger while other sweeps, late inserts and Redis failures interfere.
- **RefundMachine**: refunds, holds and cancels of one row. Staff actions are transactions with an
  advisory read, a guarded claim and an outbox insert; they race with each other, the sender, the worker
  and the funding provider. An action carries the row it read, which may be any earlier version.
- **TotpAcceptance**: one-time use of a code (section 5.2 of RFC 6238) over an expiring lock, a last-step
  value and per-step markers, one Redis call at a time.
- **Reseal**: the loop of both re-encryption scripts over one column, by pages and compare-and-set, with
  symbolic cryptography. A pass value selects what counts as stale: v2 blobs under another key id, or v1.
  The key-ring script sorts and compares typed keys. The other one sorts by the key as text and compares
  it uncast; its loop is this one because every table that can hold v1 values has text keys.
- **DocMigration**: copy, rewrite, delete, with failures, concurrent edits and stops anywhere.
- **StaffSessions, CustomerSessions, SessionOverlap, LoginThrottle**: session records with expiry and
  their revoke indexes, the purge of the older index, sign-ins that overlap revocations, and the password
  throttle.
- **ClaimFirst**: bind an idempotency key, then mint that id, for scheduled sends, bills and nudges.
- **Csv**: the CSV printer and the hand-written scanner (section 2 of RFC 4180), on UTF-16 code units.
- **CorridorDemand**: an aggregation that must not depend on input order, in exact arithmetic.
- **EasternTime**: the two-pass offset correction behind day and month starts.

Interleaving is modelled in one of two ways. A machine (`Action`, `Enabled`, `Apply`, `Runs`, `Exec`)
states the property over all runs, and the class beside it performs the operation call by call, with
arbitrary steps of everyone else in between, so that its executions are runs of the machine. Where
operations run one at a time but may be slow or stop, the class alone carries the invariant.

## What the proofs found

Where a promise fails for some runs or inputs, a lemma names one, and another says when it holds.

- The trim loses a cluster when a destination key is used with thresholds of which one exceeds twice
  another (`TrimInvisibleExactly`).
- The comment at `src/lib/dashboard-ops.ts:351-356` says a reject never leaves a charged row unrefunded.
  That holds in every run without an escalated hold (`UnescalatedRejectRefunds`); after one, a reject can
  restart a failed refund whose key is spent, and nothing is queued (`EscalatedRejectStrands`).
- The comment at `src/lib/dashboard-ops.ts:554-556` takes the first effect as drained when a retry
  starts. The provider's verdict (`src/app/api/funding-webhook/[provider]/route.ts:72-74`) does not
  finish it, so a retry can leave two (`RetryAfterVerdictQueuesTwo`). The exact condition is
  `PromiseKeptExactly` for `OneEffect`.
- A charge recorded on a row that was cancelled first is not returned by any step: the write looks at the
  reference and the intent, not at the status (`LateCaptureStays`). It is the only step that breaks this
  promise (`ChargeReturnedStep`); the code knows of the race and raises an alert.
- A row can be paid without a payout queued: the rail's own callback may move a row that still awaits
  payment (`CallbackPaysUninstructed`). It is the only step that does (`InstructedStep`), and over a run
  every paid row has its payout queued if and only if there is none (`PromiseKeptExactly` for `Instructed`).
- The worker sends a refund again when it drains the effect of a refund that the provider has reported
  failed and staff then retry it (`DrainAfterVerdictSendsTwice`). The money is sent at most
  once, and the refund is then completed, throughout a run if and only if no send in it is for a failed
  refund or stops before the row is updated (`PromiseKeptExactly` for `SentOnce`); beyond that the code
  relies on the provider to recognise the transfer id.
- The comment at `src/lib/customer-mfa.ts:103-107` says two different valid steps can never both pass
  concurrently. They can when a holder outlives the lock (`StoppedHolderBreaksTheOrder`): the order is
  kept if and only if every hold ends within the lock's TTL (`OrderKeptExactly`). No step is ever accepted
  twice as long as check to claim takes at most 30 s, and that bound is exact (`OneTimeUseExactly`).
- A revoke index can run out between the SADD and the EXPIRE of a new session, which then escapes it
  (`StaffSessions.LapseHidesASession`, `CustomerSessions.LapseHidesASession`). A creation of at most d ms
  is safe if and only if the index does not run out within that time
  (`StaffSessions.CreateIsRevocableExactly`, `CustomerSessions.CreateIsSafeExactly`).
- A new session also escapes a revocation that overlaps it (`OverlapHidesASession`). None does as long as
  no sign-in and revocation of one user are under way at once (`ApartKeepsListed`); over any run, none
  does if and only if no step is of two kinds (`SessionOverlap.ListedExactly`).
- The comment at `src/lib/cron-run.ts:170-171` says the link of an already charged row is never sent
  again. The lookup tests that and the mint does not (`ChargedRowGetsALink`): it is so in a run if and
  only if no mint returns a row that is charged and awaiting payment (`NeverLinksChargedExactly`).
- A password attempt that is under way when its counter is cleared can be admitted after it, beyond the
  limit of that counter (`OvershootIsReached`). The attempts admitted since a clear exceed the limit by at
  most those that were under way past the counter then (`InterleavedCaps`).
- A public document URL in two rows dangles when one of them changed during the migration
  (`SharedUrlDangles`), and so does one named twice in a row of which one slot was skipped. The delete is
  safe if and only if every slot naming a copied URL is in the same row and was copied too
  (`DeleteIsSafeExactly`); before a run, if and only if each public URL is in one slot
  (`AnySkipIsSafeExactly`).
- The purge of the raw session index can leave a live session that no revoke reaches, when the hashed
  index it fills runs out between two of its commands (`LapseLosesASession`). A fill is safe if and only
  if its target does not run out during it before a session of one of its raw tokens
  (`FillIsSafeExactly`); what was lost by the end is `PurgedExactly`.
- The comment at `src/db/repos/transfer-repo.ts:1690` says a re-scan is deterministic. It is exactly while
  no counted row has been blocked or cancelled since (`RescanReadsTheSameExactly`); otherwise it can raise
  a hit the first scan did not have (`CancelledRowRaisesAHit`).
- A table whose text starts with a BOM loses it from its first cell; every other table within the caps
  comes back (`TableComesBackExactly`).

## Model

| member | source | states |
|---|---|---|
| AmlDestinationSet.TrimmedAgrees | src/lib/aml-sweep.ts:282-289 | Top-k commutes with raise-score inserts and with cutoff eviction, over every history of visits in any score order |
| AmlDestinationSet.StoredSetIsTopOfUntrimmed | src/lib/aml-sweep.ts:280-291 | With one threshold on a key, the stored set is exactly the top 2 x senders of the never-trimmed set, with the same scores, and both give the same cluster verdict |
| AmlDestinationSet.VerdictsAgree | src/lib/aml-sweep.ts:283-292 | The last verdict of any history is the same with and without the trim, as long as no threshold used on the key exceeds twice another |
| AmlDestinationSet.MixedThresholdsMissACluster | src/lib/aml-sweep.ts:285-289 | A threshold above twice another one used on the same key makes the trimmed set miss a true cluster |
| AmlDestinationSet.TrimInvisibleExactly | src/lib/aml-sweep.ts:285-291 | The trim never changes a verdict on a key if and only if every threshold used on it is at most twice every other one |
| AmlDestinationSet.AlertCountsDistinctSenders | src/lib/aml-rules.ts:131-135 | With nondecreasing scores the verdict is exactly: at least `senders` distinct senders in the last 30 days |
| AmlDestinationSet.ExpiryInvisible | src/lib/aml-sweep.ts:290-290 | With processing lag under a day the 31-day key expiry never changes the stored set |
| AmlDestinationSet.ExpiryInvisibleExactly | src/lib/aml-sweep.ts:290-290 | The expiry changes the stored set in no history of visits if and only if every row is visited less than a day after its creation |
| AmlDestinationSet.SortedSet.VisitDestination | src/lib/aml-sweep.ts:280-291 | One visit, command by command: the key becomes the trimmed set of the specification and the returned count is its size |
| AmlRules.FiresOnTheEdge | src/lib/aml-rules.ts:91-107 | Structuring fires exactly when a sub-threshold send turns the band-or-sum condition from false to true, and reports the counts of that window |
| AmlRules.StatsCount | src/db/repos/transfer-repo.ts:1697-1727 | The aggregates are the number of sends in the band in the last seven days, and the number and cents of those under the threshold in the last thirty |
| AmlRules.NoSecondHitInTheWindow | src/lib/aml-rules.ts:91-107 | After a hit, a later send stays silent while its window still holds every send the hit counted |
| AmlRules.HitsAreApart | src/lib/aml-rules.ts:91-107 | Between two hits some send counted by the first has left the window of the second |
| AmlRules.RescanReadsTheSameExactly | src/db/repos/transfer-repo.ts:1682-1728 | When rows may be blocked or cancelled between two scans, the second reads the same aggregates if and only if none that left was counted in the thirty days |
| AmlRules.RescanRepeats | src/db/repos/transfer-repo.ts:1691-1727 | Then a re-scan repeats the verdict, whatever was sent since |
| AmlRules.CancelledRowRaisesAHit | src/db/repos/transfer-repo.ts:1714-1714 | Otherwise it may not: cancelling one of two earlier sends in the band makes the re-scan of the third raise a hit the first scan did not have |
| AmlSweep.ListingIsContiguous | src/db/repos/transfer-repo.ts:1656-1680 | A listed batch has nothing between its start and any of its rows but its own rows |
| AmlSweep.SafePastFirst | src/lib/aml-sweep.ts:190-210 | The cursor may stand on the first listed row once that row was evaluated or is settled |
| AmlSweep.StepKeepsAlerts | src/lib/aml-sweep.ts:305-327 | Every step keeps one alert per dedupe key and exactly one audit row per alert |
| AmlSweep.StepKeepsInv | src/lib/aml-sweep.ts:172-222 | Each store call of any sweep, and each move of the world, keeps all of the invariants |
| AmlSweep.CursorNeverPassesUnevaluated | src/lib/aml-sweep.ts:172-222 | Over every interleaving of sweeps: behind the cursor each live row was evaluated to completion with Redis up to the last write, which remembers its destination, each hit found there is alerted exactly once, and each alert has one audit row |
| AmlSweep.CommitLagExactly | src/lib/aml-sweep.ts:64-64 | The cursor is safe for every interleaving if and only if rows commit within the two minutes of the guard |
| AmlSweep.AdvanceKeepsTheLater | src/lib/aml-sweep.ts:212-222 | With nothing in between, the re-read and the write leave the cursor at the later of the stored one and the last row completed |
| AmlSweep.SweepEndsOnLastRow | src/lib/aml-sweep.ts:188-222 | Every lone sweep without a failure ends with the cursor on the last row it listed |
| AmlSweep.EveryRowIsPassed | src/lib/aml-sweep.ts:147-233 | Whatever the batch size, finitely many such sweeps carry the cursor past any row older than the guard |
| AmlSweep.EveryRowIsPassedInTime | src/lib/aml-sweep.ts:147-233 | So every row is passed once the clock has moved on far enough |
| AmlSweep.Stores.ListBatch | src/lib/aml-sweep.ts:161-184 | Lock, cursor read and batch query as steps of the machine |
| AmlSweep.Stores.RaiseHits | src/lib/aml-sweep.ts:305-327 | The alert transactions of a row, each of which may fail |
| AmlSweep.Stores.EvaluateRow | src/lib/aml-sweep.ts:190-210 | One row of the batch: passed when it completed, otherwise the batch stops where it was |
| AmlSweep.Stores.EvaluateBatch | src/lib/aml-sweep.ts:188-210 | The batch loop: all rows are scanned unless the time was up or a row failed, and the cursor is to be written, to the last row scanned, exactly when at least one was completed and Redis never failed |
| AmlSweep.Stores.AdvanceCursor | src/lib/aml-sweep.ts:212-222 | The second cursor read and the write: it is written exactly when the read went well and lies before the last completed row, and is then that row, with other sweeps in between |
| AmlSweep.Stores.AmlSweep | src/lib/aml-sweep.ts:147-233 | A whole sweep is a run of the machine, scans all that it listed unless it was cut short, and leaves the cursor, when a row was completed and Redis was up to the re-read, at the later of what it read and the last row completed |
| RefundMachine.RunKeepsCore | src/lib/dashboard-ops.ts:337-587 | Every interleaving keeps: refund keys are unused exactly until the refund starts, one completion, one decision of a hold |
| RefundMachine.AtMostOnce | src/lib/dashboard-ops.ts:337-517 | From a minted row: at most one refund completes, at most one of release and reject takes effect, and refund:<id> is unused exactly while the refund is none or requested, so approve always finds it fresh |
| RefundMachine.PaidExactlyWhenInstructed | src/lib/settlement.ts:122-140 | Over every run of a minted row the payout is queued only for a row that was paid, and for every paid or delivered row as long as the callback of the rail moves no row that still awaits payment |
| RefundMachine.InstructedStep | src/db/repos/transfer-repo.ts:381-430 | A step leaves a paid or delivered row without its payout exactly when it is a callback of the rail that moves a row still awaiting payment |
| RefundMachine.CallbackPaysUninstructed | src/db/repos/transfer-repo.ts:381-430 | Such a run is reached from a minted row |
| RefundMachine.StepInstructs | src/db/repos/transfer-repo.ts:896-907 | A step that pays a row out finds it funded and not sanctioned, held or cleared, and no other step instructs the rail |
| RefundMachine.StaffStartsExactly | src/lib/dashboard-ops.ts:104-587 | Issue, reverse, approve and retry of the row as read: the refund becomes pending with its own new effect exactly when that row allows it, and otherwise nothing changes |
| RefundMachine.StaffDecidesExactly | src/lib/dashboard-ops.ts:291-551 | So do dismiss, release and reject of the row as read |
| RefundMachine.FailureReturnsTheMoney | src/db/repos/transfer-repo.ts:436-470 | A paid row that fails is cancelled, and its money starts on its way back if any was taken or pulled |
| RefundMachine.DrainCompletes | src/lib/outbox-worker.ts:772-835 | A worker that is not stopped sends a pending refund once, completes it and finishes its effect |
| RefundMachine.StatusMovesExactly | src/db/repos/transfer-repo.ts:381-430 | A pay, a hold and a callback of the rail land exactly from the status, the funding, the refund and the verdict that allow them |
| RefundMachine.MoneyMovesExactly | src/db/repos/transfer-repo.ts:499-540 | A charge is recorded exactly while no intent is bound, and an intent is bound exactly to an uncharged row that awaits payment |
| RefundMachine.ScreeningMovesExactly | src/db/repos/transfer-repo.ts:824-855 | A screening at payment marks exactly a row that awaits payment and is not sanctioned yet, and blocks it for a sanctions hit with no money behind it |
| RefundMachine.VerdictsExactly | src/app/api/funding-webhook/[provider]/route.ts:60-75 | A verdict of the provider ends a pending refund, one way or the other, and no other refund |
| RefundMachine.RunMovesForward | src/db/repos/transfer-repo.ts:890-907 | A row that left a status never comes back to it |
| RefundMachine.CancelVoidsExactlyUncharged | src/lib/dashboard-cancel-policy.ts:47-79 | The shown policy and the guarded claim agree, and a cancel that lands changes the status of an uncharged row and nothing else |
| RefundMachine.NeverStrandedStep | src/lib/dashboard-ops.ts:382-587 | A step leaves a pending refund without an effect exactly when it restarts a failed refund on a spent key with nothing queued, or discards the last effect |
| RefundMachine.OneEffectStep | src/lib/dashboard-ops.ts:424-587 | A step breaks pending-means-one-undrained-effect exactly when it is one of four named kinds: a restart on a spent key, a discard, a drain that stops before the effect is marked done, a verdict that does not finish its effect |
| RefundMachine.ChargeReturnedStep | src/lib/dashboard-ops.ts:357-389 | A step leaves a cancelled charged row without a refund exactly when it records a charge on an already cancelled row |
| RefundMachine.SentOnceStep | src/lib/outbox-worker.ts:772-835 | A step breaks sent-at-most-once-and-then-completed exactly when the worker sends for a failed refund, or stops between the send and the update of the row |
| RefundMachine.PromiseKeptExactly | src/lib/dashboard-ops.ts:337-587 | Over every run of a minted row, each of the five promises holds at every point if and only if no step breaks it |
| RefundMachine.OneEffectCounts | src/lib/dashboard-ops.ts:424-587 | The number of undrained refund effects is one while the refund is pending and zero otherwise |
| RefundMachine.UnescalatedRejectRefunds | src/lib/dashboard-ops.ts:357-389 | In a run without an escalation an effective reject cancels the row and, when it was charged, makes the refund pending with its own new effect |
| RefundMachine.EscalatedRejectStrands | src/lib/dashboard-ops.ts:381-387 | A reachable run in which rejecting an escalated, failed refund leaves it pending with nothing to drain |
| RefundMachine.RetryAfterVerdictQueuesTwo | src/lib/dashboard-ops.ts:553-576 | A reachable run in which a retry after the provider failure verdict leaves two undrained effects |
| RefundMachine.DrainAfterVerdictSendsTwice | src/lib/outbox-worker.ts:772-830 | A reachable run in which the worker drains the first effect after that verdict, staff retry, and the money is sent twice |
| RefundMachine.LateCaptureStays | src/db/repos/transfer-repo.ts:499-507 | A reachable run that records a charge on a row cancelled before it, and queues nothing to return it |
| RefundMachine.Ledger.ClaimRefund | src/db/repos/transfer-repo.ts:640-669 | updateRefund as compare-and-set over the legal predecessors |
| RefundMachine.Ledger.EnqueueEffect | src/db/repos/outbox-repo.ts:151-178 | enqueue inserts only on an unused dedupe key and says whether it did |
| RefundMachine.Ledger.CancelTransfer | src/lib/dashboard-ops.ts:42-56 | The cancel transaction is the cancel step of the machine; a refusal changes nothing |
| RefundMachine.Ledger.ReverseB2bSettlement | src/lib/dashboard-ops.ts:104-133 | The reverse transaction is the reverse step; on a used key everything is rolled back |
| RefundMachine.Ledger.ReleaseTransfer | src/lib/dashboard-ops.ts:291-322 | The release transaction is the release step: it succeeds on the row as read exactly when that is held, funded and not sanctioned, and then the row is paid and its payout queued |
| RefundMachine.Ledger.RejectTransfer | src/lib/dashboard-ops.ts:337-392 | The reject transaction is the reject step, counts as one decision of the hold, and succeeds on the row as read exactly when that is held |
| RefundMachine.Ledger.IssueRefund | src/lib/dashboard-ops.ts:424-481 | The issue transaction is the issue step; success means none became pending on a new key, and comes on the row as read exactly when that is paid or delivered, charged, settled and without a refund |
| RefundMachine.Ledger.ApproveRefund | src/lib/dashboard-ops.ts:489-517 | The approve transaction is the approve step; under the invariant its key was unused |
| RefundMachine.Ledger.DismissRefund | src/lib/dashboard-ops.ts:524-551 | The dismiss transaction succeeds exactly on a requested refund |
| RefundMachine.Ledger.RetryRefund | src/lib/dashboard-ops.ts:559-587 | The retry transaction is the retry step; success means failed became pending |
| TotpAcceptance.NoStepAcceptedTwice | src/lib/customer-mfa.ts:102-124 | For any interleaving of any number of calls, even with the lock expiring while held, no step is accepted twice if each call takes at most 30 s from check to claim |
| TotpAcceptance.SlowReplayAcceptsTwice | src/lib/customer-mfa.ts:114-117 | One millisecond more and a step can be accepted twice |
| TotpAcceptance.OneTimeUseExactly | src/lib/customer-mfa.ts:102-124 | One-time use holds for all runs if and only if the check-to-claim delay is at most 30 s |
| TotpAcceptance.AcceptedStepsIncrease | src/lib/customer-mfa.ts:102-124 | When every call is over before its lock can expire, accepted steps strictly increase over the whole run, also when Redis calls throw and calls stop half way |
| TotpAcceptance.LoneCodeIsAccepted | src/lib/customer-mfa.ts:102-124 | With the lock free, no failure and nothing in between, a code of a step above the last one and not used yet is accepted, stored and marked, and the lock freed |
| TotpAcceptance.KeysLiveTheirTtl | src/lib/customer-mfa.ts:116-119 | The last step is read for a day from its write, and a marker for two minutes, and no longer |
| TotpAcceptance.StoppedHolderBreaksTheOrder | src/lib/customer-mfa.ts:103-118 | For every longer bound on a hold there is a run within it in which a holder that stood between its claim and its write accepts its step after the next call accepted a newer one |
| TotpAcceptance.OrderKeptExactly | src/lib/customer-mfa.ts:102-124 | Accepted steps increase in every run in which each hold ends within h if and only if h is at most the TTL of the lock |
| TotpAcceptance.MfaRedis.AcceptCode | src/lib/customer-mfa.ts:102-124 | acceptCode call by call is a run of the machine: true means this call accepted a step after its own claim and write; false means it accepted none, for one of three reasons that held at that point of the run: the lock was held, no new step matched, or its marker was there; it throws exactly when a Redis call did |
| TotpAcceptance.MfaRedis.Attempt | src/lib/customer-mfa.ts:111-119 | The try block: read, check, claim and write, or a throw at any of them, and then the finally block |
| TotpAcceptance.MfaRedis.ClaimStep | src/lib/customer-mfa.ts:116-119 | The marker and the last-step write |
| TotpAcceptance.MfaRedis.Release | src/lib/customer-mfa.ts:120-123 | The release: read the lock, then delete it if it is still ours; either call may throw |
| Reseal.DisagreementSkips | scripts/reencrypt-key-ring.ts:111-126 | Two stale rows on which sort order and cursor order disagree: with pages of one, the second is skipped |
| Reseal.OrdersMustAgree | scripts/reencrypt-key-ring.ts:111-126 | No stale row is skipped, for any table and page size, if and only if the sort order is the cursor order |
| Reseal.Table.CompareAndSet | scripts/reencrypt-key-ring.ts:143-149 | The write lands exactly when the row still holds the value read |
| Reseal.SealOpensExactly | scripts/reencrypt-aad-v2.ts:190-193 | A sealed value opens to its text exactly with its key at hand and in the row it was sealed for |
| Reseal.ResealRow | scripts/reencrypt-aad-v2.ts:185-206 | One row: counted once, as failed exactly when it does not open, as resealed exactly when a write of ours landed, as skipped never when alone; any write keeps the opened text |
| Reseal.ResealPage | scripts/reencrypt-key-ring.ts:129-150 | A page of rows: each counted once, resealed = writes of ours, failed = rows that do not open; with no other writer none is skipped, each that opens becomes current and the rest stay |
| Reseal.ResealNext | scripts/reencrypt-key-ring.ts:115-152 | One turn of the loop: the cursor moves on through finitely many keys, nothing behind it was missed, and resealed counts the writes of ours |
| Reseal.ResealColumn | scripts/reencrypt-key-ring.ts:101-153 | Ends for every batch size of at least one; visits keys in strictly increasing order; resealed + skipped + failed = visited, with resealed the number of our writes; misses only rows not stale at some moment; every own write keeps the opened text of one stale row; alone, none is skipped, only rows that do not open stay stale, every v2 value under an old key that opens is sealed under the current one (or every v1 value becomes v2) and no other value changes |
| DocMigration.RewriteKeepsReferences | scripts/migrate-partner-docs-private.ts:236-253 | A rewritten row still names only existing objects, with the same titles, types and bytes |
| DocMigration.RewriteFrees | scripts/migrate-partner-docs-private.ts:259-262 | After a rewrite no row names the old URL of a copied slot, if every slot naming it is in that row and was copied |
| DocMigration.SharedUrlDangles | scripts/migrate-partner-docs-private.ts:275-279 | In any table, a copied URL that another row names too dangles when the delete comes after the rewrite of its row alone |
| DocMigration.DeleteIsSafeExactly | scripts/migrate-partner-docs-private.ts:229-284 | Whichever rows could be rewritten before it, the delete leaves no document without its object, if and only if every slot naming the URL of a copied slot is in the same row and was copied too |
| DocMigration.AnySkipIsSafeExactly | scripts/migrate-partner-docs-private.ts:151-174 | That holds whatever phase 1 skips if and only if each public URL is in one slot |
| DocMigration.World.Put | scripts/migrate-partner-docs-private.ts:175-180 | put makes a new object with the given bytes, or fails and may leave an orphan |
| DocMigration.World.Del | scripts/migrate-partner-docs-private.ts:276-284 | del removes all of the named objects, or some of them when it fails, and no other |
| DocMigration.World.RewriteIfUnchanged | scripts/migrate-partner-docs-private.ts:245-254 | The row transaction writes exactly when the row equals the snapshot, or throws before or after its commit |
| DocMigration.CopySlot | scripts/migrate-partner-docs-private.ts:151-203 | One public slot: skipped exactly when its bytes do not show its declared type, otherwise migratable, and then copied or a failure; on success a private copy that nothing names yet |
| DocMigration.CopyRow | scripts/migrate-partner-docs-private.ts:140-207 | docsPublic = docsMigratable + docsSkipped row by row; without a failure exactly the slots whose bytes match are copied |
| DocMigration.CopyPhase | scripts/migrate-partner-docs-private.ts:137-213 | Phase 1 under any failure, edit or stop: only good, unreferenced copies; a dry run makes no write call |
| DocMigration.OldUrls | scripts/migrate-partner-docs-private.ts:262-262 | The old URLs of a row are exactly those of its copied slots |
| DocMigration.RewriteRow | scripts/migrate-partner-docs-private.ts:233-268 | One row of phase 2, counted once as rewritten, changed or failed, as its transaction ended; its old URLs are collected exactly when it was rewritten |
| DocMigration.RewritePhase | scripts/migrate-partner-docs-private.ts:229-268 | Phase 2: every URL collected for deletion is public, and named by no row under the condition of DeleteIsSafeExactly |
| DocMigration.CleanUp | scripts/migrate-partner-docs-private.ts:215-227 | The abort path deletes only copies nothing names |
| DocMigration.MoveCopies | scripts/migrate-partner-docs-private.ts:229-287 | Phases 2 and 3: no public object is deleted unless every row rewrite went well, and then only those of copied slots; all of those when the delete went well and no row had changed; no reference dangles under the condition of DeleteIsSafeExactly |
| DocMigration.DeleteOld | scripts/migrate-partner-docs-private.ts:275-284 | Phase 3: all collected objects are gone when it went well, at most those otherwise, and deleted counts the former |
| DocMigration.Migrate | scripts/migrate-partner-docs-private.ts:109-288 | On any table, at every point of a run every document URL in a row names an existing object under the condition of DeleteIsSafeExactly, so when no public URL is named twice, or none in two rows and nothing was skipped, and always after a dry or a clean run; a put or rewrite that failed keeps every public object; a clean run leaves nothing public and none of the objects that was named by a public URL; a table with nothing public gets no write call |
| DocMigration.RunTwice | scripts/migrate-partner-docs-private.ts:28-28 | After a clean run on any table, and any edits since, a second run does nothing |
| StaffSessions.SeenTtlCovers | src/lib/auth-store.ts:61-64 | Re-arming never shortens a seen record below the absolute window plus the grace, nor below a second plus the grace, and lengthens it by less than a second beyond |
| StaffSessions.KeysLiveTheirTtl | src/lib/auth-store.ts:385-399 | A session lives 12 h from its write, a seen record for its TTL and an index for 7 days, and no longer |
| StaffSessions.SetSessionExactly | src/lib/auth-store.ts:391-397 | The write that makes a session live keeps each promise exactly when the index and the seen record already stand and last long enough |
| StaffSessions.StoredLags | src/lib/auth-store.ts:428-432 | The stored last-seen time lags the exact one by less than the refresh interval |
| StaffSessions.LazyClockRefinesExact | src/lib/auth-store.ts:408-434 | Unused for over 30 minutes or older than 12 hours: refused; unused for at most 29 minutes and inside 12 hours: accepted |
| StaffSessions.ForgivenGapExactly | src/lib/auth-store.ts:420-432 | A gap is always forgiven if and only if it is at most the idle window less the refresh interval plus a millisecond |
| StaffSessions.CreateExactly | src/lib/auth-store.ts:385-399 | After a creation with any waits: every live session is revocable exactly when the index did not run out between the SADD and the EXPIRE and outlives the session, and has a seen record that outlives it exactly when the call took at most an hour |
| StaffSessions.CreateIsRevocableExactly | src/lib/auth-store.ts:389-397 | Before a creation of at most d ms: it leaves every live session revocable, whatever the waits, if and only if the user index does not run out within d ms and d is at most the index TTL less the session TTL |
| StaffSessions.CreateIsSeenExactly | src/lib/auth-store.ts:394-397 | It leaves each with a seen record that outlives it, whatever the waits, if and only if d is at most an hour |
| StaffSessions.SafeToCreateExactly | src/lib/auth-store.ts:385-399 | So it is safe in both respects, whatever the waits, if and only if the user index does not run out within d ms and d is at most an hour |
| StaffSessions.LapseHidesASession | src/lib/auth-store.ts:391-397 | For any keys with an index that expires there are waits after which the new session is live and no revoke finds it |
| StaffSessions.Redis.IndexToken | src/lib/auth-store.ts:391-393 | The two index writes of a creation, as the pure run of SADD and EXPIRE with the waits that passed |
| StaffSessions.Redis.CreateSession | src/lib/auth-store.ts:385-399 | Stopped before its last write it keeps both promises; complete, it is the pure run of its four writes, and keeps both when the index did not run out within the time it took and that was at most an hour |
| StaffSessions.Redis.RevokeExpired | src/lib/auth-store.ts:420-427 | The refusal path deletes the session record first and keeps both promises at every stop; complete, it leaves neither record nor listing |
| StaffSessions.Redis.GetSessionUser | src/lib/auth-store.ts:408-434 | A live session is accepted exactly when it passes both windows at the clock reading, unless it ended during the call; refused it is deleted, accepted it keeps its creation time and is refreshed after a minute; against its last accepted read in the whole history, over 30 minutes is refused and at most 29 accepted |
| StaffSessions.Redis.Adopt | src/lib/auth-store.ts:414-418 | For sessions of this build the adopt-once writes happen only after the session is gone |
| StaffSessions.Redis.PeekSessionUser | src/lib/auth-store.ts:442-451 | The same verdict, also against the exact clocks, without any write |
| StaffSessions.Redis.DeleteSession | src/lib/auth-store.ts:452-460 | Sign-out removes the session, its seen record and its listing, and keeps both promises at every stop |
| StaffSessions.Redis.DeleteAllSessionsFor | src/lib/auth-store.ts:462-472 | Complete, it leaves no live session of the user, no record of those it listed and no index; stopped anywhere, it keeps both promises |
| StaffSessions.Redis.Serve | src/lib/auth-store.ts:385-472 | Any history of the operations keeps both promises while no creation began with an index that ran out before it was over or took more than an hour; every read that its session outlived follows the exact clocks; and no dead session is ever accepted again |
| SessionOverlap.HidesExactly | src/lib/auth-store.ts:385-397 | When sign-ins and revocations overlap, a step hides a session exactly when it writes a record whose listing is gone, or deletes an index with a live session of its user |
| SessionOverlap.EndsExactly | src/lib/customer-auth-store.ts:159-166 | A sign-out ends its own session only, and a revocation with nothing left empties the index |
| SessionOverlap.ListedExactly | src/lib/auth-store.ts:385-472 | Over any run of overlapping sign-ins, sign-outs and revocations every live session is listed at every point if and only if no step is one of those two |
| SessionOverlap.ApartKeepsListed | src/lib/auth-store.ts:462-472 | Every live session stays listed as long as no sign-in and revocation of one user are under way at once |
| SessionOverlap.ApartRevokeIsComplete | src/lib/customer-auth-store.ts:159-166 | And then a revocation leaves no live session of its user |
| SessionOverlap.OverlapHidesASession | src/lib/customer-auth-store.ts:159-166 | One overlap is enough: SADD, SMEMBERS, DEL, DEL of the index, SET leave a live session in no index |
| CustomerSessions.ScanAll | scripts/purge-legacy-session-keys.ts:55-64 | The distinct keys of any SCAN replies, repeated keys counted once |
| CustomerSessions.DelLegacyExactly | scripts/purge-legacy-session-keys.ts:95-96 | Deleting the raw index keeps every session reachable if and only if what it reached is in the hashed one |
| CustomerSessions.KeysLiveTheirTtl | src/lib/customer-auth-store.ts:431-442 | A session is inside its life for 12 h from its creation, an index lives as long from its EXPIRE, and no longer |
| CustomerSessions.ExpireMigrates | scripts/purge-legacy-session-keys.ts:84-91 | The EXPIRE leaves every session of the phone in the hashed index if and only if every raw token of one inside its life is a member by then |
| CustomerSessions.FillIsSafeExactly | scripts/purge-legacy-session-keys.ts:84-91 | Every fill of a target within d ms, in any order and with any waits, covers its phone if and only if the target does not run out within d ms before a session of one of its raw tokens |
| CustomerSessions.LapseLosesASession | scripts/purge-legacy-session-keys.ts:84-96 | A target with 1 ms left and two raw tokens: SADD, the lapse, SADD, EXPIRE and DEL leave a live session in no index |
| CustomerSessions.PurgedExactly | scripts/purge-legacy-session-keys.ts:95-96 | After any of the deletes every session is reachable if and only if each raw token of a session inside its life, of a key deleted, is in the hashed index |
| CustomerSessions.SetRecordExactly | src/lib/customer-auth-store.ts:436-440 | The record write of a sign-in keeps every session reachable exactly when its own is indexed, or over already |
| CustomerSessions.CreateExactly | src/lib/customer-auth-store.ts:431-442 | After a sign-in with any waits every session is reachable exactly when the index did not run out between the SADD and the EXPIRE, or the session is over already or has a raw token |
| CustomerSessions.CreateIsSafeExactly | src/lib/customer-auth-store.ts:431-442 | Before a sign-in of at most d ms: it leaves every session reachable, whatever the waits, if and only if the index of the phone does not run out within d ms (or twelve hours, if less) or the session has a raw token |
| CustomerSessions.LapseHidesASession | src/lib/customer-auth-store.ts:438-440 | For any keys with an index that runs out within twelve hours there are waits after which the new session is live and no revoke finds it |
| CustomerSessions.Redis.IndexToken | src/lib/customer-auth-store.ts:438-439 | The two index writes of a sign-in, as the pure run of SADD and EXPIRE with the waits that passed |
| CustomerSessions.Redis.CreateSession | src/lib/customer-auth-store.ts:431-442 | Stopped before its last write a sign-in keeps every session reachable; complete, it is the pure run of its three writes, and keeps them reachable when the index did not run out within the time it took |
| CustomerSessions.Redis.DeleteListed | src/lib/customer-auth-store.ts:160-163 | The deletes of revokeAll: no session of the phone inside its twelve hours is left, if all could be reached |
| CustomerSessions.Redis.RevokeAll | src/lib/customer-auth-store.ts:159-166 | Complete, it leaves no session of the phone inside its twelve hours and neither of its indexes; stopped anywhere, all stay reachable |
| CustomerSessions.Redis.MigrateKey | scripts/purge-legacy-session-keys.ts:84-91 | The migration of a key is a fill: it covers the phone when the key was not at risk while it took, and in any case a session inside its life is covered exactly when it is a member |
| CustomerSessions.Redis.DeleteKeys | scripts/purge-legacy-session-keys.ts:95-96 | The delete loop: at every stop each deleted key is one that was settled before, and covered unless it was at risk |
| CustomerSessions.Redis.PurgeLegacy | scripts/purge-legacy-session-keys.ts:67-103 | Wherever the purge stops, every session inside its twelve hours is reachable from a revoke index if and only if, for each raw index deleted, every raw token of such a session is in the hashed one; so it is when no key was at risk for the time the purge took; a dry run changes nothing |
| CustomerSessions.Redis.PurgeThenRevoke | scripts/purge-legacy-session-keys.ts:15-20 | revokeAll at any time after a purge that stopped anywhere ends every session of the phone, under the same conditions |
| LoginThrottle.ReserveExactly | src/lib/customer-auth-store.ts:528-540 | An attempt is admitted exactly when none of its counters was used up, and a refusal leaves every later counter alone |
| LoginThrottle.AdmittedWithinLimit | src/lib/customer-auth-store.ts:516-540 | For any log and any counter: the attempts admitted since it was last cleared are at most its limit |
| LoginThrottle.CapsHold | src/lib/customer-auth-store.ts:528-555 | Over any log: the attempts admitted since the last clear are at most 30 on a phone in a day, 10 on a phone from one IP in an hour, and 50 from one IP in an hour, each counted by its own phone, IP and time |
| LoginThrottle.RoomLeftAdmits | src/lib/customer-auth-store.ts:528-540 | And an attempt under caps with room left is admitted |
| LoginThrottle.InterleavedCaps | src/lib/customer-auth-store.ts:528-555 | With each INCR and each delete its own step, and any number of attempts at once: at most the limit of attempts pass a counter between two deletes of it, and the attempts admitted since then exceed the limit by at most those under way past the counter at the delete |
| LoginThrottle.OvershootIsReached | src/lib/customer-auth-store.ts:534-555 | A reachable run with one attempt under way at a clear in which eleven are admitted after it |
| LoginThrottle.IncrsAreOneReservation | src/lib/customer-auth-store.ts:534-540 | With no step in between, the three INCRs are the atomic reservation |
| LoginThrottle.IpCounterNeverCleared | src/lib/customer-auth-store.ts:542-547 | No clear touches the counter of an IP, so its cap holds for the whole hour |
| LoginThrottle.OneIpAdvancesDayAtMostTen | src/lib/customer-auth-store.ts:63-69 | One IP advances the day counter of a phone at most ten times an hour between clears of its own counter |
| LoginThrottle.AttemptAdvancesDay | src/lib/customer-auth-store.ts:63-69 | Each attempt within its own hourly cap advances the day counter of its phone, and no other of that IP does |
| LoginThrottle.TtlCoversBucket | src/lib/customer-auth-store.ts:75-76 | A counter armed at its first write outlives its bucket |
| LoginThrottle.Throttle.BumpCounter | src/lib/customer-auth-store.ts:152-156 | The atomic increment |
| LoginThrottle.Throttle.ReserveLoginAttempt | src/lib/customer-auth-store.ts:528-540 | A reservation is the step of the specification and its answer is the admission, whose caps are CapsHold and RoomLeftAdmits |
| LoginThrottle.Throttle.ClearLoginFailures | src/lib/customer-auth-store.ts:548-555 | A clear is the step of the specification |
| ClaimFirst.RunKeepsInv | src/lib/cron-run.ts:146-217 | Every interleaving keeps: claims permanent and distinct, every row minted for the claim on its id, outputs only for rows that exist |
| ClaimFirst.OneTransferPerClaim | src/lib/cron-run.ts:146-217 | Over any interleaved or stopped calls: at most one row per schedule day or bill, every link, recorded day and finished payment names it, and each nudge goes out at most once |
| ClaimFirst.RowBeforeRecord | src/lib/cron-run.ts:163-217 | A link is sent and a day is recorded only when the row is already in the ledger |
| ClaimFirst.PayableExactly | src/lib/cron-run.ts:167-213 | A lookup or a mint decides to send the link exactly when the row awaits payment, and for a lookup is not charged |
| ClaimFirst.LinkExactlyWhenPayable | src/lib/cron-run.ts:146-217 | A schedule day first claimed in a run, whatever interleaves: if its row did not move after the mint, its link is out only when the row awaits payment, and exactly then once the day is recorded |
| ClaimFirst.LoneScheduleFires | src/lib/cron-run.ts:146-217 | With no failure and nothing in between, a day not claimed before gets its row, its link and its record |
| ClaimFirst.LookupExactly | src/lib/cron-run.ts:163-181 | A later run of a day finds the row of the first one if it is there; otherwise, and for the first one, the id is minted |
| ClaimFirst.FirstClaimWins | src/db/repos/aux-repos.ts:468-481 | The first caller of a key gets its own id and any later one the id bound then; only the first sends a nudge |
| ClaimFirst.NeverLinksChargedExactly | src/lib/cron-run.ts:163-208 | A run never decides to link a row that is charged at that moment if and only if no mint in it returns an existing row that is charged and still awaiting payment |
| ClaimFirst.ChargedRowGetsALink | src/lib/cron-run.ts:167-208 | A reachable run in which two runs of a day look before either mints, the sender of the first is charged, and the second sends the link again |
| ClaimFirst.Stores.ClaimKey | src/db/repos/aux-repos.ts:468-481 | A claim with a fresh candidate; for a nudge only the winner goes on |
| ClaimFirst.Stores.TryMint | src/lib/transfer-create.ts:653-669 | createTransfer returns the row of an id that exists, and otherwise inserts it, or refuses; a busy lock lets a schedule try once more |
| ClaimFirst.Stores.Settle | src/lib/cron-run.ts:163-209 | Lookup, mint, and for a schedule exactly one retry when the sender lock is busy |
| ClaimFirst.Stores.FireSchedule | src/lib/cron-run.ts:146-238 | A schedule that fired has its day recorded, and its link by LinkExactlyWhenPayable; it passes exactly when the mint found it paused, and fails exactly when the mint was refused or stayed busy, or the link of a payable row was not sent |
| ClaimFirst.Stores.NudgeOnce | src/lib/cron-run.ts:283-338 | A nudge that was sent was sent once |
| ClaimFirst.Stores.RunDueSchedules | src/lib/cron-run.ts:63-242 | Every due schedule that is ready or lacks a name is counted as fired or failed or was found paused at the mint, and every one that fired has its day recorded, with its link by LinkExactlyWhenPayable |
| ClaimFirst.Stores.FinalizeBill | src/lib/b2b-pay-finalize.ts:76-272 | Every answer with a transfer id gives the id bound to the bill, and its row exists; a bill already paid gives one exactly when it was bound and minted, an unpaid one exactly when the mint went well |
| Csv.ParseCsv | src/lib/csv-parse.ts:50-131 | The loop over local variables computes the stepwise scanner |
| Csv.ScanCell | src/lib/csv-parse.ts:40-43 | Scanning a printed cell appends exactly its safe value to the field |
| Csv.ScanRows | src/lib/csv-parse.ts:46-48 | Scanning printed rows keeps exactly the rows the caps and the blank-row rule keep |
| Csv.RoundTrip | src/lib/csv-parse.ts:40-131 | parse(print(rows)) is the non-blank rows with the apostrophes, or the first cap they break, for all rows whose text is within the size cap and does not start with a BOM |
| Csv.TableComesBack | src/lib/csv-parse.ts:40-131 | A table of at least two rows within the caps, none blank, comes back whole but for the apostrophes |
| Csv.ReprintComesBack | src/lib/csv-parse.ts:40-131 | Printing any accepted table and parsing it again gives the same table up to the apostrophes, and prints to the same text from then on |
| Csv.PrintIsStable | src/lib/csv-parse.ts:40-48 | The apostrophe is added once |
| Csv.SpacesExactly | src/lib/csv-parse.ts:72-72 | What counts as blank is exactly what trim removes: tab to carriage return, the Unicode blanks, both separators and the byte-order mark |
| Csv.NoFormulaIsLeft | src/lib/csv-parse.ts:35-43 | No printed cell starts a formula; one that did has an apostrophe before it, and any other is as it was |
| Csv.LeadingBomIsLost | src/lib/csv-parse.ts:53-53 | A table whose text starts with a BOM comes back with that BOM missing from its first cell |
| Csv.TableComesBackExactly | src/lib/csv-parse.ts:40-131 | Within the caps a table without blank rows comes back whole if and only if its text does not start with a BOM |
| Csv.LinesCountBreaks | src/lib/csv-parse.ts:82-130 | Each reported line is one plus the line breaks before the start of its row, CRLF counted once and breaks inside quotes counted |
| Csv.ScanKeepsRecords | src/lib/csv-parse.ts:70-80 | Every kept row has a non-blank cell, at most fifty cells, and there are at most maxRows + 1 of them |
| CorridorDemand.FlagFollowsKeyExactly | src/lib/corridor-demand.ts:180-192 | The supported flag is a function of the key if and only if the lower case of each supported code in the alias table is itself an alias |
| CorridorDemand.EntryIsDetermined | src/lib/corridor-demand.ts:209-245 | The entry of a key is the same for every permutation of the leads |
| CorridorDemand.RankingIgnoresOrder | src/lib/corridor-demand.ts:141-257 | Any two rankings of permuted leads are equal |
| CorridorDemand.OrderIndependentExactly | src/lib/corridor-demand.ts:141-257 | The ranking ignores the order of all leads if and only if the alias table meets its condition |
| CorridorDemand.StatsCount | src/lib/corridor-demand.ts:259-282 | The stats of a window are the number of its leads, of its distinct senders and of its priced leads |
| CorridorDemand.GrowthCompares | src/lib/corridor-demand.ts:217-234 | Growth is reported exactly when a lead is older than the shortest window, and is the leads of that window less those of the equally long one before it, also as a percentage when there were any |
| CorridorDemand.RoundsToCents | src/lib/corridor-demand.ts:279-279 | Rounding gives whole cents, at most half a cent away, and up at half a cent |
| CorridorDemand.WindowsNest | src/lib/corridor-demand.ts:210-215 | Leads, senders and priced leads of a window are at most those of a longer window and of the total |
| CorridorDemand.LeadsAreConserved | src/lib/corridor-demand.ts:178-204 | The total leads of all entries sum to the number of requests |
| CorridorDemand.StatsFor | src/lib/corridor-demand.ts:259-282 | The loop computes the stats of a window |
| CorridorDemand.PickLabel | src/lib/corridor-demand.ts:285-295 | The most frequent spelling, the first in string order among equals, whatever order the map is walked in |
| CorridorDemand.Bucket | src/lib/corridor-demand.ts:178-204 | Each lead is in the bucket of its key, in order, with its label counts |
| CorridorDemand.Growth | src/lib/corridor-demand.ts:217-234 | The slope is reported once history reaches before the shortest window |
| CorridorDemand.WindowStats | src/lib/corridor-demand.ts:211-215 | One stats record per window |
| CorridorDemand.RollUp | src/lib/corridor-demand.ts:209-245 | A bucket becomes the entry of its key |
| CorridorDemand.SortByRank | src/lib/corridor-demand.ts:247-255 | The sorted entries are the same ones, strictly in ranking order |
| CorridorDemand.RankCorridorDemand | src/lib/corridor-demand.ts:141-257 | The result is strictly sorted, holds only entries of the leads, and has one for every lead |
| EasternTime.TwoPassesSuffice | src/lib/dates.ts:32-41 | For any offset function taking -5 h and -4 h whose changes are at 02:00 local, two passes from any start give local midnight of the date |
| EasternTime.MidnightIsUnique | src/lib/dates.ts:32-41 | There is one such instant |
| EasternTime.DayStartIsLocalMidnight | src/lib/dates.ts:50-54 | easternDayStart is the midnight of the local date of its argument |
| EasternTime.DayContainsInstant | src/lib/dates.ts:50-54 | start <= at < next start, also on 23 h and 25 h days |
| EasternTime.DayStartIdempotent | src/lib/dates.ts:50-54 | The start of a day start is itself |
| EasternTime.DayStartMonotone | src/lib/dates.ts:50-54 | A later instant has no earlier day start |
| EasternTime.MidnightChangeBreaksTwoPasses | src/lib/dates.ts:35-37 | With a change just after local midnight two passes can give different starts of one day |
| EasternTime.MonthStartIsFirstMidnight | src/lib/dates.ts:57-61 | easternMonthStart is the midnight of the first day of the month, and the month contains the instant |
| EasternTime.MonthStartSeparatesMonths | src/lib/dates.ts:57-61 | Two instants share a month start exactly when their local dates share a month |
| EasternTime.MonthStartIdempotent | src/lib/dates.ts:57-61 | The start of a month start is itself |
| EasternTime.MonthStartMonotone | src/lib/dates.ts:57-61 | A later instant has no earlier month start |

## Left out

- AmlSweep.CursorNeverPassesUnevaluated: starts from a stored cursor that is trusted and assumes it is not lost; blocked and cancelled are taken as final, all clocks as one clock, and a row whose destination cannot be opened counts as evaluated on the ledger rules, as in the code.
- AmlSweep.Stores.AmlSweep: the hits of a row are arbitrary here; which rules fire is AmlRules and AmlDestinationSet. The cursor's text format and its parser are not modelled.
- AmlDestinationSet.SortedSet.VisitDestination: blind indexes are numbers in their byte order; hashing is not modelled.
- AmlRules.FiresOnTheEdge: amounts are whole cents and the band's lower bound an exact real; the first-transfer rule is left out, it reads directly off its two comparisons.
- RefundMachine.PromiseKeptExactly: one row; audit rows, customer messages, tenants' scopes, assignment and notes are left out, a funding reference is a yes or no (an empty string counts as none for a refund and as a charge for a cancel in the code), and a provider verdict may or may not finish an effect, although the webhook never does.
- RefundMachine.Ledger.ReleaseTransfer: the partner-scoped release and reject add predicates on the sender's customer row; those only refuse more.
- TotpAcceptance.MfaRedis.AcceptCode: the code's step is a parameter within one of the clock step; HMAC, enrolment and reset are left out. All calls and Redis read one clock, and a throw of the first SET may leave the lock behind, as a stop does.
- Reseal.ResealColumn: other writers use keys from a finite set, which is what makes the loop end; cryptography is symbolic; the two orders of a page query are taken as one, which for the v1 to v2 script rests on text keys; the outer loop over tables, the dry-run count and argument parsing are left out.
- DocMigration.Migrate: others neither delete objects nor name a public object their row did not name or a copy of this run; what a fetch and the sniffing of its bytes give is a parameter and hosts and paths are left out.
- StaffSessions.Redis.Serve: sessions minted by this build; the adopt-once path of the build before keeps its own longer lifetime and is outside the theorem. Legacy plaintext keys, staff records and passwords are left out.
- RefundMachine.CallbackPaysUninstructed: the reconcile sweep, which instructs a row again that stays paid for 15 minutes, is not part of this model; nor are the amount checks before a delivery.
- RefundMachine.DrainAfterVerdictSendsTwice: counts the sends the worker makes; a provider that recognises the transfer id may still move the money once.
- AmlRules.RescanRepeats: the rules are pure functions of the aggregates; that the corridor settings stayed the same between two scans is assumed.
- CustomerSessions.Redis.PurgeLegacy: nobody signs in while the purge runs, only time passes; the staff patterns, whose keys no code reads, are left out. A session in its last millisecond of twelve hours counts as over.
- CustomerSessions.Redis.CreateSession: the sliding idle window only shortens a session, so records last their full twelve hours here.
- LoginThrottle.AdmittedWithinLimit: reservations and clears are atomic here; InterleavedCaps has each increment as its own step. OneIpAdvancesDayAtMostTen is on atomic reservations only.
- SessionOverlap.ListedExactly: one index a user, no expiry, and a sign-out is one step; a raw-token index of a customer adds listings and hides nothing.
- ClaimFirst.OneTransferPerClaim: one tenant; claims are permanent and rows are not deleted; amounts, screening, caps and the checks before the claim are a yes or no.
- Csv.ParseCsv: the result also carries where each row starts inside the scanner, to state the line property; texts are code units, without decoding.
- CorridorDemand.RankCorridorDemand: spellings and keys are numbers in string order, rates are given, the alias table is a map (in the code it is an object, so a destination spelled "constructor" or "__proto__" finds an inherited member and the ranking throws), and sums are exact reals rounded once; duplicate window lengths count once.
- EasternTime.MonthStartIsFirstMidnight: the calendar is any division of days into months; reading the wall clock through Intl is the offset function.
- Pages, language-model code, network and store clients, and the branch tables of the compliance rules are left out: they hold no invariant over runs, or are true by reading.

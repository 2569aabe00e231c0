# Verified model of the TSK high-availability protocol

A Dafny model of the control state machine, the durable outbox, the canonical encoding and the
credential core of the TSK protocol repository, with proofs over every input, every run or every
reachable state.  `dafny verify dfyconfig.toml` checks the whole project.

## What is modelled

**Control (`ControlModel`, `ControlSystem`, `CutoverShape`, `ControlInvariant`, `ControlTheorems`,
`ControlAdmission`, `ControlGrants`, `ControlRetry`, `FirstPromotion`, `SignedChain`,
`ControlDatabase`).**  The five signed histories of a
stream are a value, each transaction a function on it, and `ControlSystem` runs them together with the
Redis fence record, a non-decreasing control clock and any number of `advanceEpoch` callers stalled
between their two transactions.  `ControlDatabase.ControlTables` keeps the same histories as head and
history tables with digests and signatures, updated in place, and each of its methods is proved to do
what the transaction says.  `ControlAdmission` and `ControlGrants` say in plain terms, for every reachable
state, exactly when each transaction is admitted and what it writes.  Verification of a presented signature is an input of the step; digests are
parameters, and no property of the receipt digests is assumed.

**Outbox (`OutboxLog`, `OutboxSystem`, `OutboxRules`, `HotpOutbox`).**  A hash-linked source log, leased publishers and
a receiver as a three-party transition system, generic in the mutation and the replica; the HOTP counter
stream is one instance, the credential stream another.  The network may deliver any record at any time,
any number of times; the head verifier accepts only committed source heads; receipts are authentic.

**Credentials (`Credential`, `CommitRules`, `CredentialMap`, `SingleUse`, `CredentialLog`,
`CredentialRefinement`, `CredentialRules`, `CredentialStore`, `CredentialKeys`).**  The atomic commit of a
validated request and its exact conditions, all interleavings of requests on one stored map, the admission
of a map, the store operations with the mutations they append and what none of them takes back, the
replica built from them, and which admitted credentials can be used.

**Encodings (`JsText`, `Framing`, `EvidenceCodec`, `CanonicalJson`, `CanonicalWriter`, `OpDigest`).**
JavaScript strings as UTF-16 code units, UTF-8, the two framings, the FENCED evidence column, the
canonical JSON text (RFC 8785 section 3.2 over the values of RFC 7493 section 2) and the bytes under the
operation and head digests, each with a reader written from the format alone that gives the value back.

**Keys (`KeyLayout`, `KeyAssembly`, `KeyValidation`).**  Random layouts, the positional server key on a
JavaScript array that grows, the concatenated client key, and validation with look-ahead and tolerance,
joined from generation to acceptance.  HMAC under a well-formed secret is a function returning 43
characters.

**Smaller cores.**  `PrincipalLedger` and `LedgerRules`, `PromotionGate` and `PromotionRules`,
`CommitOutcome`, `ReplayNonce`.

## Where the code does not keep a promise

- `beginPromotionIntent` does not ask whether the ACTIVE head was activated.  An intent begun before
  `activateSource` can never be bound, aborted or overtaken: `ControlTheorems.BindPassesIff` and
  `ControlAdmission.BindAdmittedIff` give the exact condition, `ControlTheorems.StrandedForever` and `FirstPromotion.StrandedReached` the consequence.
- `appendInTx` of the HOTP outbox does not compare counters, so a committed row can be a fork for the
  receiver: `HotpOutbox.CommittedRowDecision` is exact, `HotpOutbox.ForkReached` gives the input (one
  counter appended twice) and by `HotpOutbox.ForkBlocks` no receiver ever passes such a row.
- `commitValidation` of the credential store accepts a use time before the stored one; the receiver
  rejects that in-order row as a fork and never passes it: `CredentialRefinement.CommittedRowDecision` is
  exact, `CredentialRefinement.LateReached` gives the input (two successful commits with use times 9 and
  then 4) and `CredentialRefinement.LateBlocks` the consequence for every run.
- `validateMap` does not ask that the checksum be twelve characters, while `validateTSKKey` compares it
  with twelve.  The store admits such a map (`CredentialKeys.ShortChecksumAdmitted`) and no key is ever
  accepted for it; `CredentialKeys.UsableIff` is the exact condition for a key to exist.
- A request is accepted at most once only while the time from its freshness check to its nonce check
  stays within the retention's slack: `ReplayNonce.AcceptedOnceIff`.  The constructor's safety margin is
  exactly such a delay (`ReplayNonce.MarginCovers`).
- A bind onto a stream id that another principal owns is accepted and breaks the owner's continuity.  The
  real input is two principals whose stream ids collide: `makeStreamId`
  (packages/server/src/principal-session.ts:519-521) keeps 24 hexadecimal digits of a hash and the ledger
  does not compare the owner on a bind.  `PrincipalLedger.CollisionReached` is that run, and a ledger
  stays continuous exactly while no bind is of this kind: `PrincipalLedger.StaysContinuousIff` for one
  operation, `PrincipalLedger.ContinuousThroughoutIff` for every run.
- Framing loses lone surrogates, so it is injective exactly up to them: `Framing.FrameSameIff`,
  `JsText.LoneSurrogateCollides`.

## Model

| member | source | states |
|---|---|---|
| `ControlTheorems.WriterMutualExclusion` | packages/server/src/ha-control-fencing.ts:972-1024 | in every reachable state two active grants with different holders are never both unexpired on the control clock |
| `ControlTheorems.ActivationLedger` | packages/server/src/ha-control-fencing.ts:1402-1550 | activation epochs strictly increase, each has an ACTIVE cutover row of its own command, and every skipped epoch has exactly one terminal row, ABORTED |
| `ControlTheorems.TwoResourceAgreement` | packages/server/src/ha-control-fencing.ts:1173-1235 | witness <= Redis epoch <= witness + 1 across any crashes and repeats, ahead only under the in-flight SOURCE_FENCED command, and otherwise the record is the tuple signed into the FENCED row |
| `ControlTheorems.FenceProofComplete` | packages/server/src/ha-control-fencing.ts:1219-1233 | every FENCED row's evidence names the witness step, the claim digest, a claim with the required time left, and the lease it closed: a revocation of the epoch before by its holder, sequence and head digest, the last row of that epoch, with a horizon that bounds every grant of it and has elapsed |
| `ControlTheorems.RedisNeverQuarantines` | packages/server/src/ha-control-fencing.ts:202-229 | with only advanceEpoch claiming, neither the Tx1 cross-check nor the reconciliation of a retry can fail |
| `ControlTheorems.NoSplice` | packages/server/src/ha-control-fencing.ts:1316-1359 | every activation traces through ACTIVE and READY to the one SOURCE_FENCED row of its command and epoch, with equal freeze digest, N, head and state, and with the previous activation's epoch as source epoch |
| `ControlTheorems.CutoverPaths` | packages/server/src/ha-control-fencing.ts:1101-1162 | the history is epochs 1, 2, 3, ... each a legal path under one command, all but the newest finished, and the witness follows from the newest row |
| `ControlTheorems.HistoriesGrow` | packages/server/src/ha-control-fencing.ts:1101-1112 | no step rewrites any history and the clock never goes back |
| `ControlTheorems.GapPassesIff` | packages/server/src/ha-control-fencing.ts:234-254 | for a PREPARING intent the gap rule passes exactly when every ACTIVE cutover has been activated |
| `ControlTheorems.BindPassesIff` | packages/server/src/ha-control-fencing.ts:1250-1279 | a well-formed freeze of the current source is bound exactly in that case |
| `ControlTheorems.IntentStrands` | packages/server/src/ha-control-fencing.ts:1118-1134 | beginPromotionIntent over an unactivated ACTIVE head is admitted and leaves that condition false |
| `ControlTheorems.StrandedForever` | packages/server/src/ha-control-fencing.ts:1118-1134 | from then on no run changes the cutover history, the witness or the activation ledger |
| `ControlRetry.RetryIsQuiet` | packages/server/src/ha-control-fencing.ts:860-1548 | any operation accepted in a reachable state (provisioning, lease write, intent, freeze binding, claim, fence, import, ratification, go-live, abort, source activation), repeated after any run whatever, changes neither a table nor the fence record |
| `ControlRetry.ActivateRetry` | packages/server/src/ha-control-fencing.ts:1453-1497 | a source activation repeated after any run, at its later clock, returns the first grant exactly until the next promotion begins and is refused from then on; a second grant is never minted |
| `ControlRetry.GrantExtendsChain` | packages/server/src/ha-control-fencing.ts:1515-1526 | the minted grant, appended to the chain the target presented, is again a chain a later activation accepts |
| `FirstPromotion.FirstActivation` | packages/server/src/ha-control-fencing.ts:860-1550 | a first promotion runs from an empty database to an activated source |
| `FirstPromotion.StrandedReached` | packages/server/src/ha-control-fencing.ts:1118-1134 | the stranded intent is reachable and stays at the head in every continuation |
| `ControlInvariant.ReachableInv` | packages/server/src/ha-control-fencing.ts:860-1566 | the invariant behind the theorems holds in every reachable state |
| `ControlAdmission.FrozenThroughout` | packages/server/src/ha-control-fencing.ts:987-989 | from any reachable state in PREPARING, SOURCE_FENCED, FENCED, IMPORTING or READY, no run within that promotion adds an active grant |
| `ControlAdmission.FrozenStep` | packages/server/src/ha-control-fencing.ts:987-989 | no single step adds an active grant during a promotion |
| `ControlAdmission.LeaseAdmittedIff` | packages/server/src/ha-control-fencing.ts:972-1024 | a grant is appended exactly for the witnessed epoch, by a new command of that epoch's one writer, with a horizon not shorter than before, within 24 hours of the clock and, if active, outside a promotion; a repeat is exactly the stored row |
| `ControlAdmission.LeasesAdmitted` | packages/server/src/ha-control-fencing.ts:972-1024 | in every run each lease row met those conditions in the state and at the clock of its own step |
| `ControlAdmission.ProvisioningAdmittedIff` | packages/server/src/ha-control-fencing.ts:860-890 | each provisioning step's exact outcome: its own marker, one state on, the witness with it |
| `ControlAdmission.BeginAdmittedIff` | packages/server/src/ha-control-fencing.ts:1118-1134 | an intent is begun exactly at witness + 1 with no promotion in flight, and repeated exactly while it is PREPARING or SOURCE_FENCED |
| `ControlAdmission.AbortAdmittedIff` | packages/server/src/ha-control-fencing.ts:1141-1162 | a promotion is abandoned exactly from FENCED, IMPORTING or READY by its own command, with the reason written; a repeat needs the same reason |
| `ControlAdmission.BindAdmittedIff` | packages/server/src/ha-control-fencing.ts:1250-1279 | a freeze is bound exactly when it is a verified one of the current source for the PREPARING command and every live promotion was activated, with every field written |
| `ControlAdmission.ImportAdmittedIff` | packages/server/src/ha-control-fencing.ts:1288-1300 | the import opens exactly from FENCED, with the fence's evidence |
| `ControlAdmission.RatifyAdmittedIff` | packages/server/src/ha-control-fencing.ts:1316-1359 | B is ratified exactly from IMPORTING by a verified, recomputing receipt of a third system for the bound freeze, with every field written |
| `ControlAdmission.GoLiveAdmittedIff` | packages/server/src/ha-control-fencing.ts:1369-1389 | a promotion goes live exactly from READY with the ratified fields, and its repeat is always answered |
| `ControlAdmission.PrepareAdmittedIff` | packages/server/src/ha-control-fencing.ts:1183-1200 | advanceEpoch proceeds exactly over a bound freeze whose newest lease is a revocation of the epoch before with every grant of it expired for the margin |
| `ControlAdmission.FenceAdmittedIff` | packages/server/src/ha-control-fencing.ts:1211-1234 | the second transaction fences exactly then, over the same lease digest, with the call's own claim read back and enough of it left, and writes witness and evidence of that call |
| `ControlAdmission.PrepareAnyState` | packages/server/src/ha-control-fencing.ts:202-215 | for any database and any fence record the first transaction proceeds exactly then, with the record missing only before the first fence, never behind the witness and ahead only as this command's claim |
| `ControlAdmission.ReconcileIff` | packages/server/src/ha-control-fencing.ts:216-229 | a retry over a FENCED head passes exactly when the fence record is the very tuple the row was signed over |
| `ControlGrants.ActivationAdmittedIff` | packages/server/src/ha-control-fencing.ts:1402-1550 | a source is activated exactly on a sound request for the live promotion's ratified receipt of the current source, by a command never activated, all stored grants valid and a returning target's chain holding its last grant |
| `ControlGrants.FreshGrant` | packages/server/src/ha-control-fencing.ts:1515-1548 | the answer of a fresh activation is the stored grant: active, in this stream, for this command, epoch and target, lease id bsrc- plus the command, next in the presented chain, expiring at the clock plus the guard's horizon or at the largest time |
| `ControlGrants.GrantsMinted` | packages/server/src/ha-control-fencing.ts:1515-1548 | in every run each stored activation grant is such a grant for the clock of its own step |
| `ControlGrants.ChainSoundIff` | packages/server/src/ha-control-fencing.ts:1419-1436 | a presented lease chain passes exactly when every grant verifies, is of this stream and below the target, is numbered and linked in order, and no epoch has two leases or a grant after its revocation |
| `CutoverShape.EpochPath` | packages/server/src/ha-control-fencing.ts:1101-1162 | the rows of one epoch are a prefix of the promotion, or a fenced prefix closed by ABORTED; only the newest epoch is unfinished |
| `SignedChain.VerifyChain` | packages/server/src/ha-control-fencing.ts:780-795 | accepts exactly contiguous, linked, recomputing histories, every row and the head signed over its fields and its place, whose head repeats the newest row |
| `SignedChain.WriteKeeps` | packages/server/src/ha-control-fencing.ts:1101-1112 | a written table still verifies and holds the old rows and the new one |
| `SignedChain.HeadPinsHistory` | packages/server/src/ha-control-fencing.ts:777-795 | two accepted histories with one head digest hold the same rows |
| `SignedChain.HeadIsNewest` | packages/server/src/ha-control-fencing.ts:792-794 | an accepted head carries the newest row, so an older signed row is never accepted over it |
| `ControlDatabase.Read` | packages/server/src/ha-control-fencing.ts:1046-1058 | a table touched only by transitions always passes verification, and its head is the newest row |
| `ControlDatabase.AssertConsumedActivationEpochs` | packages/server/src/ha-control-fencing.ts:234-254 | passes exactly when every epoch in between has one terminal row, ABORTED, and no activation |
| `ControlDatabase.CheckPriorChain` | packages/server/src/ha-control-fencing.ts:1419-1436 | finds the first fault of a returning target's lease chain: contiguity, epoch bound, one holder per epoch, nothing after a revoke |
| `ControlDatabase.CheckRequest` | packages/server/src/ha-control-fencing.ts:1402-1445 | the faults of an activation request before any table is read, a missing source guard included |
| `ControlDatabase.ControlTables.ProvisionA` | packages/server/src/ha-control-fencing.ts:865-869 | leaves an intent row of the first caller's genesis marker, and refuses another marker with nothing changed |
| `ControlDatabase.ControlTables.ProvisionB` | packages/server/src/ha-control-fencing.ts:871-878 | moves an intent to incomplete together with the epoch-0 witness, once |
| `ControlDatabase.ControlTables.ProvisionC` | packages/server/src/ha-control-fencing.ts:880-890 | moves incomplete to provisioned together with the provisioned witness, once |
| `ControlDatabase.ControlTables.GrantLease` | packages/server/src/ha-control-fencing.ts:972-1024 | appends a grant only for the witnessed epoch, its one holder and a horizon that does not shrink, and no active one during a promotion; a known command returns its row |
| `ControlDatabase.ControlTables.BeginPromotionIntent` | packages/server/src/ha-control-fencing.ts:1118-1134 | one intent at a time, at witness + 1; its own repeat returns it |
| `ControlDatabase.ControlTables.AbortFencedPromotion` | packages/server/src/ha-control-fencing.ts:1141-1162 | only a fenced, unfinished cutover at its own witness becomes ABORTED |
| `ControlDatabase.ControlTables.Bind` | packages/server/src/ha-control-fencing.ts:1250-1279 | PREPARING becomes SOURCE_FENCED only for a freeze of the current source epoch across a consumed gap |
| `ControlDatabase.ControlTables.ProveOldFenced` | packages/server/src/ha-control-fencing.ts:1555-1567 | proves exactly a revoked current lease at target - 1 whose horizon and margin have elapsed, with its digest |
| `ControlDatabase.ControlTables.AdvanceEpochTx1` | packages/server/src/ha-control-fencing.ts:1183-1200 | prepares exactly a provable fence of the SOURCE_FENCED intent, or reports it already fenced |
| `ControlDatabase.ControlTables.CheckFence` | packages/server/src/ha-control-fencing.ts:1219-1231 | the re-assertions of the second transaction and the evidence they yield |
| `ControlDatabase.ControlTables.AdvanceEpochTx2` | packages/server/src/ha-control-fencing.ts:1211-1234 | the second transaction: witness and FENCED row together, or the reconciled retry |
| `ControlDatabase.ControlTables.Import` | packages/server/src/ha-control-fencing.ts:1288-1300 | FENCED becomes IMPORTING with the fence evidence carried on |
| `ControlDatabase.ControlTables.CheckFreeze` | packages/server/src/ha-control-fencing.ts:1334-1345 | B's receipt against the bound freeze and the current source epoch |
| `ControlDatabase.ControlTables.Ratify` | packages/server/src/ha-control-fencing.ts:1316-1359 | IMPORTING becomes READY only for a receipt binding the freeze, from a system that is neither source nor control |
| `ControlDatabase.ControlTables.GoLive` | packages/server/src/ha-control-fencing.ts:1369-1389 | READY becomes ACTIVE with the ratified binding carried on |
| `ControlDatabase.ControlTables.ActivateTarget` | packages/server/src/ha-control-fencing.ts:1402-1550 | a sound request against the ratified ACTIVE head yields one grant, the stored one on a repeat |
| `ControlDatabase.ControlTables.ActivateNew` | packages/server/src/ha-control-fencing.ts:1498-1548 | a fresh activation: rooted lease chain, consumed gap, minted grant, one new row |
| `OutboxLog.CommittedPins` | packages/server/src/ha-outbox-contract.ts:540-548 | a genuine record under a committed head is a row of the source log, field for field |
| `OutboxLog.ApplyMirrors` | packages/server/src/tsk-hotp-outbox-pg.ts:1255-1264 | applying one record keeps the receiver the image of a prefix of the log |
| `OutboxSystem.EndToEnd` | packages/server/src/tsk-hotp-outbox-pg.ts:1194-1265 | in every run the applied history is a prefix of the source log by digest, the receiver's head is the source's head there, and the replica is the fold of that prefix |
| `OutboxSystem.PublisherOrdering` | packages/server/src/tsk-hotp-outbox-pg.ts:1036-1149 | with leases lost and taken over at any point, settled rows form a prefix and every acknowledged row was applied with the same digest |
| `OutboxSystem.AllAckedAgree` | packages/server/src/tsk-hotp-outbox-pg.ts:1113-1120 | once every row is acknowledged the source and receiver checkpoints coincide |
| `OutboxSystem.RunInv` | packages/server/src/tsk-hotp-outbox-pg.ts:672-1265 | the invariant of source, publishers and receiver over every run |
| `OutboxRules.AppendOutcome` | packages/server/src/tsk-hotp-outbox-pg.ts:672-729 | each refusal of an append has its own condition, in order; otherwise exactly one row is added, next in sequence, at its fence, hash-linked and pending |
| `OutboxRules.BackpressureHolds` | packages/server/src/tsk-hotp-outbox-pg.ts:690-729 | in no run do more rows wait than the largest bound asked for |
| `OutboxRules.LeaseKept` | packages/server/src/tsk-hotp-outbox-pg.ts:1036-1049 | until it runs out or is released, a publisher lease is never taken over in any run |
| `OutboxRules.SettledBy` | packages/server/src/tsk-hotp-outbox-pg.ts:1113-1120 | a row is settled only from pending by the lease holder that was handed it, and acknowledged only on the receiver's own receipt for it |
| `OutboxRules.SettleOutcome` | packages/server/src/tsk-hotp-outbox-pg.ts:1113-1149 | and that is enough: such a row is acknowledged, or quarantined with the stream halted |
| `OutboxRules.HaltedIff` | packages/server/src/tsk-hotp-outbox-pg.ts:1130-1149 | in every run the stream is halted exactly when a row is quarantined |
| `HotpOutbox.DeciderSensible` | packages/server/src/tsk-hotp-outbox-pg.ts:1206-1253 | the receiver applies only what it may and calls a duplicate only what it recorded |
| `HotpOutbox.DecisionTable` | packages/server/src/tsk-hotp-outbox-pg.ts:1206-1253 | each decision of the counter receiver has its own exact condition |
| `HotpOutbox.ConsiderTable` | packages/server/src/tsk-hotp-outbox-pg.ts:1092-1125 | which answers acknowledge a row, leave it for later, or refuse it for good |
| `HotpOutbox.CountersIncrease` | packages/server/src/tsk-hotp-outbox-pg.ts:1246-1253 | in every run applied counters of a tumbler strictly increase |
| `HotpOutbox.CommittedRowDecision` | packages/server/src/tsk-hotp-outbox-pg.ts:1206-1264 | in every run a committed row delivered at an equal fence and epoch is a duplicate if applied, a gap if ahead, and the next one is applied exactly when its counter exceeds all earlier ones of its tumbler, else a fork |
| `HotpOutbox.ForkBlocks` | packages/server/src/tsk-hotp-outbox-pg.ts:1246-1253 | a row whose counter does not exceed all earlier ones of its tumbler is never passed, in any continuation of the run |
| `HotpOutbox.ForkReached` | packages/server/src/tsk-hotp-outbox-pg.ts:672-729 | one counter appended twice and delivered once: the second committed row is a fork and the checkpoint stays at the first for ever |
| `HotpOutbox.HotpEndToEnd` | packages/server/src/tsk-hotp-outbox-pg.ts:1194-1265 | the end-to-end statement for the counter stream |
| `HotpOutbox.HotpPublished` | packages/server/src/tsk-hotp-outbox-pg.ts:1036-1149 | settled rows form a prefix, acknowledged rows were applied by the same digest, and with all rows acknowledged both checkpoints coincide |
| `HotpOutbox.ReceiverTables.VerifyAndApply` | packages/server/src/tsk-hotp-outbox-pg.ts:1194-1265 | the decision in the order of the checks, and the tables it leaves |
| `HotpOutbox.SourceTables.AppendInTx` | packages/server/src/tsk-hotp-outbox-pg.ts:672-729 | the append with its fence, source-lease, backpressure and range refusals, each leaving the log as it was |
| `HotpOutbox.SourceTables.NextDeliverable` | packages/server/src/tsk-hotp-outbox-pg.ts:1050-1057 | the oldest unsettled row |
| `HotpOutbox.SourceTables.DrainRows` | packages/server/src/tsk-hotp-outbox-pg.ts:1072-1125 | rows leave strictly in order, each acknowledged on its own matching answer, up to the first that is not or to the loss of the lease |
| `HotpOutbox.SourceTables.DrainOnce` | packages/server/src/tsk-hotp-outbox-pg.ts:1063-1130 | a refusal quarantines exactly one row and halts the stream, a lease lost at any point leaves only acknowledged rows settled, and a halted stream is left alone |
| `CredentialRefinement.LogRefinement` | packages/server/src/ha-tumbler-map-store.ts:937-1079 | for every sequence of store operations, folding the appended mutations gives exactly the public image of the table |
| `CredentialRefinement.OpRefines` | packages/server/src/ha-tumbler-map-store.ts:165-269 | each operation's mutation carries the image forward and is taken by the replica exactly unless it is a commit that back-dates the last use |
| `CredentialRefinement.ReplicaFollows` | packages/server/src/ha-tumbler-map-store.ts:1098-1194 | under any deliveries the replica is the fold of the store's mutations up to its checkpoint |
| `CredentialRefinement.CommittedRowDecision` | packages/server/src/ha-tumbler-map-store.ts:1120-1192 | a committed row delivered at an equal fence and epoch is a duplicate if applied, a gap if ahead, and the next one is applied exactly unless it back-dates, else a fork |
| `CredentialRefinement.CaughtUp` | packages/server/src/ha-tumbler-map-store.ts:1098-1194 | a replica at the end of the log is the public image of the source table |
| `CredentialRefinement.LateReached` | packages/server/src/ha-tumbler-map-store.ts:1037-1059 | a run in which the rows of two successful commits, use times 9 then 4, are appended and delivered in order and the receiver rejects the second as a fork |
| `CredentialRefinement.LateAppended` | packages/server/src/ha-tumbler-map-store.ts:1037-1059 | on an admitted map both commits succeed and append, and exactly the second is late |
| `CredentialRefinement.LateBlocks` | packages/server/src/ha-tumbler-map-store.ts:1120-1192 | in every run carrying the store's mutations the receiver's checkpoint stays before a late row |
| `CredentialRefinement.DeciderSensible` | packages/server/src/ha-tumbler-map-store.ts:1098-1194 | the credential receiver applies only what it may and calls a duplicate only what it recorded |
| `CredentialRefinement.DecisionTable` | packages/server/src/ha-tumbler-map-store.ts:1098-1194 | each decision of the credential receiver has its own exact condition |
| `CredentialLog.AssertMonotonic` | packages/server/src/ha-tumbler-map-store.ts:449-476 | accepts exactly moves with the same identity and layout, risen counters and usage, and no way back from a terminal status |
| `CredentialLog.MovesMonotonic` | packages/server/src/ha-tumbler-map-store.ts:449-476 | a counter or status move is monotonic exactly when its use time is not earlier |
| `CredentialRules.MonotonicIff` | packages/server/src/ha-tumbler-map-store.ts:449-476 | one admitted map may follow another exactly with the same identity and secret, the same segments up to counters that rose, and use and status not taken back |
| `CredentialRules.StoreNoWayBack` | packages/server/src/ha-tumbler-map-store.ts:960-1079 | in every run, until it is deleted, a credential keeps identity and secret, forgets no counter and no use, and once expired or revoked stays so |
| `CredentialRules.ConsumeIff` | packages/server/src/ha-tumbler-map-store.ts:1010-1035 | consumeCounter takes exactly a counter not yet consumed and stores the one after it, or expires a live credential whose segment is used up |
| `CredentialRules.ConsumedOnce` | packages/server/src/ha-tumbler-map-store.ts:1010-1035 | no counter up to a consumed one is taken again |
| `CredentialRules.UpdateAllIff` | packages/server/src/ha-tumbler-map-store.ts:985-1008 | counter updates pass exactly when each names a counter-based segment and moves it forward in range, and each counter is then the last one given |
| `CredentialRules.SetOutcome` | packages/server/src/ha-tumbler-map-store.ts:960-972 | set writes exactly an admissible map under its own id that follows the stored one, at the next revision with its public snapshot |
| `CredentialRules.ReplaceOutcome` | packages/server/src/ha-tumbler-map-store.ts:1061-1079 | a live credential is replaced by an admissible, live map under a new id, both rows and one mutation or nothing |
| `CredentialRules.SanitizedIff` | packages/server/src/ha-tumbler-map-store.ts:499-545 | what the mutation sanitizer lets through |
| `CredentialRules.NoSecretLeaves` | packages/server/src/ha-tumbler-map-store.ts:487-497 | no mutation of any run carries a secret |
| `CredentialMap.ValidateMap` | packages/server/src/ha-tumbler-map-store.ts:377-447 | one pass with a cursor accepts exactly maps with fields in range, distinct ids and segments that follow each other from 0 to the checksum, one of them counter-based |
| `CredentialMap.ScanSegments` | packages/server/src/ha-tumbler-map-store.ts:397-425 | the segment loop: kinds, ids and positions checked in order, with the cursor and the count it leaves |
| `CredentialMap.AdmissionInNumbers` | packages/server/src/ha-tumbler-map-store.ts:377-447 | what validateMap accepts, in numbers: a key of 20 to 512 characters shared out among 2 to 9 distinctly named segments without gap or overlap up to the checksum, each with the one factor of its kind, and every field in range |
| `CredentialKeys.UsableIff` | packages/server/src/ha-tumbler-map-store.ts:426-431 | an admitted credential accepts some key exactly when its checksum is twelve characters, no counter is exhausted and the configuration admits its length and windows |
| `CredentialKeys.ShortChecksumAdmitted` | packages/server/src/ha-tumbler-map-store.ts:426-431 | the store admits a map whose checksum is not twelve characters |
| `CredentialStore.CredentialTable.Put` | packages/server/src/ha-tumbler-map-store.ts:960-972 | a map that validateMap accepts and that follows the stored one is written at the next revision with its snapshot appended; anything else changes nothing |
| `CredentialStore.CredentialTable.Drop` | packages/server/src/ha-tumbler-map-store.ts:974-983 | an existing map is removed with a deletion at the next revision |
| `CredentialStore.CredentialTable.SetCounters` | packages/server/src/ha-tumbler-map-store.ts:985-1008 | updateCounters: in order, only forward, only on HOTP segments |
| `CredentialStore.CredentialTable.Consume` | packages/server/src/ha-tumbler-map-store.ts:1010-1035 | an unconsumed counter is consumed, an exhausted segment expires the map, anything else changes nothing |
| `CredentialStore.CredentialTable.CommitUse` | packages/server/src/ha-tumbler-map-store.ts:1037-1059 | the commit's result, with the map written and appended only if it changed; malformed input, or a map the store cannot write, throws with nothing changed |
| `CredentialStore.CredentialTable.Rotate` | packages/server/src/ha-tumbler-map-store.ts:1061-1079 | a live credential is revoked and a replacement that validateMap accepts inserted by one mutation |
| `CredentialStore.ReplicaTables.VerifyAndApply` | packages/server/src/ha-tumbler-map-store.ts:1098-1194 | the receiver's decision and the tables it leaves |
| `Credential.SuccessConsumes` | packages/server/src/store.ts:152-178 | a successful commit consumes each matched counter and stores the one after it, leaves every other counter, counts one use under the cap and names each segment once |
| `Credential.FailureChangesNothing` | packages/server/src/store.ts:125-170 | a failed commit changes no counter and no usage field |
| `Credential.CommitFields` | packages/server/src/store.ts:172-178 | the fields a successful commit writes, and no others but the status |
| `CommitRules.CommitAcceptedIff` | packages/server/src/store.ts:125-170 | a commit succeeds exactly when the counter state is sound, the credential neither expired nor revoked, in time and under its cap, with one match per counter-based segment, each naming its own and at or past the stored counter and below 2147483647 |
| `CommitRules.LifecycleErrors` | packages/server/src/store.ts:125-151 | each check before the matches has its own error, in order |
| `CommitRules.MatchErrors` | packages/server/src/store.ts:152-170 | past those, the error is that of the first match that cannot be consumed |
| `CommitRules.FailureExpires` | packages/server/src/store.ts:125-170 | a failure expires a live credential exactly when it is past its time, at its cap or used up |
| `CommitRules.CommitAnswer` | packages/server/src/store.ts:172-204 | the counts a success reports, when it asks for rotation, and the status it leaves |
| `SingleUse.SingleUse` | packages/server/src/middleware.ts:106-164 | in every interleaving of reads, stale expiry writes, deletions and commits each segment counter is consumed by at most one success, and successes stay within a positive cap |
| `SingleUse.NoSuccessPastExpiry` | packages/server/src/store.ts:136-139 | in no interleaving does a request succeed at a use time past the credential's expiry |
| `SingleUse.DeadForever` | packages/server/src/middleware.ts:111-134 | an expired, revoked or dropped credential never validates again |
| `SingleUse.StaleWriteRestores` | packages/server/src/middleware.ts:118-123 | a stale expiry write can put old counters back |
| `SingleUse.Stored.CommitValidation` | packages/server/src/store.ts:125-204 | the in-place commit: every check before any write |
| `SingleUse.CheckMatches` | packages/server/src/store.ts:147-170 | the first fault among the matches, in order |
| `SingleUse.Stored.ReconcileStatus` | packages/server/src/store.ts:69-79 | the status after counters moved |
| `JsText.NoLoneSurrogate` | packages/server/src/ha-outbox-contract.ts:95-106 | accepts exactly strings without a lone surrogate |
| `JsText.Utf8Injective` | packages/server/src/ha-outbox-contract.ts:92-110 | UTF-8 is injective on well-formed strings |
| `JsText.Utf8Inverse` | packages/server/src/ha-outbox-contract.ts:108-110 | a UTF-8 decoder by RFC 3629 section 3, shortest form only, gives every well-formed string back |
| `JsText.DecimalInverse` | packages/server/src/ha-outbox-contract.ts:125-132 | a numeral read by positional weights, with its sign, gives the integer back |
| `JsText.Utf8SameIff` | packages/server/src/ha-outbox-contract.ts:92-106 | two strings have the same bytes exactly when they agree up to lone surrogates |
| `JsText.LoneSurrogateCollides` | packages/server/src/ha-outbox-contract.ts:92-94 | a lone surrogate and U+FFFD have the same bytes |
| `Framing.FrameFields` | packages/server/src/ha-control-fencing.ts:137-146 | the tagged frame of a list of optional strings, or the range error |
| `Framing.FrameFieldLayout` | packages/server/src/ha-control-fencing.ts:137-146 | null is one zero byte; a string a one, its length in four bytes, most significant first, and its UTF-8 |
| `Framing.FrameSameIff` | packages/server/src/ha-control-fencing.ts:134-146 | two field lists frame alike exactly when they agree, null for null, up to lone surrogates |
| `Framing.FrameInjective` | packages/server/src/ha-control-fencing.ts:134-146 | injective on well-formed strings: null, empty and shifted fields never coincide |
| `Framing.UnframeFields` | packages/server/src/ha-control-fencing.ts:1575-1588 | reads a frame back or reports a bad tag, length or body |
| `Framing.UnframeInverse` | packages/server/src/ha-control-fencing.ts:1575-1588 | reading back what was framed gives every field |
| `Framing.BlocksInjective` | packages/server/src/ha-outbox-contract.ts:207-215 | length prefixes alone keep well-formed field lists apart |
| `Framing.BlocksInverse` | packages/server/src/ha-outbox-contract.ts:207-215 | reading the length prefixes back gives every field in order |
| `EvidenceCodec.EvidenceRoundTrip` | packages/server/src/ha-control-fencing.ts:1570-1611 | decodeEvidence inverts encodeEvidence exactly on the records in range |
| `EvidenceCodec.EvidenceLayout` | packages/server/src/ha-control-fencing.ts:1570-1590 | the column, decoded and unframed, is fourteen texts each in its place |
| `EvidenceCodec.DecodeEvidence` | packages/server/src/ha-control-fencing.ts:1591-1611 | whatever it accepts is in range |
| `EvidenceCodec.B64Inverse` | packages/server/src/ha-control-fencing.ts:148-149 | base64url decoding inverts encoding |
| `CanonicalJson.CanonicalInjective` | packages/server/src/ha-outbox-contract.ts:112-204 | two accepted values have the same text only if they are the same value, objects compared as maps |
| `CanonicalJson.ParseInverse` | packages/server/src/ha-outbox-contract.ts:140-204 | a JSON reader written from the grammar gives every accepted value back from its text |
| `CanonicalJson.TextRead` | packages/server/src/ha-outbox-contract.ts:140-204 | and so it does when the text goes on with anything but a digit |
| `CanonicalJson.QuoteRead` | packages/server/src/ha-outbox-contract.ts:88-123 | the escape table reads back to the string's code units |
| `CanonicalJson.TextPrefix` | packages/server/src/ha-outbox-contract.ts:149-204 | and no text of a value continues into another's before a non-digit |
| `CanonicalJson.SortedKeys` | packages/server/src/ha-outbox-contract.ts:195-195 | every key once, in UTF-16 code unit order |
| `CanonicalJson.LessIff` | packages/server/src/ha-outbox-contract.ts:195-195 | the key order is the lexical one on code units: the smaller unit at the first difference, a proper prefix first |
| `CanonicalWriter.JcsString` | packages/server/src/ha-outbox-contract.ts:112-123 | the quoted text of a well-formed string in bounds, refused otherwise |
| `CanonicalWriter.Writer.Walk` | packages/server/src/ha-outbox-contract.ts:149-201 | succeeds exactly when the value is accepted and both running totals stay in bounds, and then has pushed its text |
| `CanonicalWriter.Canonicalize` | packages/server/src/ha-outbox-contract.ts:140-204 | the canonical text of exactly the admissible values, which parses back to the value |
| `CanonicalWriter.AcceptedIff` | packages/server/src/ha-outbox-contract.ts:149-201 | a value is accepted exactly when every part of it is in order on its own and none lies more than 64 levels down |
| `OpDigest.TextCounted` | packages/server/src/ha-outbox-contract.ts:144-148 | an accepted value's text is well-formed and as many bytes as the walk counted |
| `OpDigest.OpMessage` | packages/server/src/ha-outbox-contract.ts:233-269 | the bytes under opDigest, or the refusal |
| `OpDigest.CanonicalizableIff` | packages/server/src/ha-outbox-contract.ts:40-46 | canonicalization succeeds exactly for such a value of at most 10000 nodes and 1048576 bytes of text |
| `OpDigest.OpBytesRead` | packages/server/src/ha-outbox-contract.ts:233-269 | the bytes under an opDigest read back as the operation, seven fields in their order |
| `OpDigest.OpBytesInjective` | packages/server/src/ha-outbox-contract.ts:233-269 | equal bytes mean equal stream, epoch, sequence, fence token and mutation |
| `OpDigest.OpDigestPins` | packages/server/src/ha-outbox-contract.ts:233-269 | under a collision-free hash an opDigest names one operation |
| `OpDigest.HeadBytesInjective` | packages/server/src/ha-outbox-contract.ts:582-601 | a head digest binds every field of the head |
| `OpDigest.HeadBytesRead` | packages/server/src/ha-outbox-contract.ts:582-601 | the bytes under a head digest read back as the head, eight fields in their order |
| `OpDigest.DomainsApart` | packages/server/src/ha-outbox-contract.ts:593-597 | no head input is an operation input |
| `KeyLayout.RandomSegments` | packages/core/src/tumbler-map.ts:266-309 | for any jitter and shuffle the ranges tile the body in pieces of at least eight, each starting at its share plus its jitter as far as that leaves room; refused exactly when they cannot |
| `KeyLayout.Reorder` | packages/core/src/tumbler-map.ts:295-304 | shuffling the cut points and sorting them again changes nothing |
| `KeyLayout.GenerateMap` | packages/core/src/tumbler-map.ts:74-173 | for every random outcome: a static anchor, then tumblers counter-based or with the drawn window as drawn, at least one HOTP segment, tiling the body before the checksum at their cuts; refused exactly on bad options |
| `KeyAssembly.PadOrTruncate` | packages/core/src/segment.ts:99-111 | exactly the requested length, by chained rounds |
| `KeyAssembly.DerivedBlocks` | packages/core/src/segment.ts:99-111 | a segment's value starts with its own MAC, and every later block is the MAC over its round and all characters before it |
| `KeyAssembly.KeyFromMap` | packages/core/src/key-gen.ts:33-66 | for every map the array written in list order, grown past its length if need be, with its checksum; where the segments cover the body, in whatever order they are listed, that is the body by position plus its checksum; refused exactly on an unusable counter, with the first one's error |
| `KeyAssembly.LastWriter` | packages/core/src/key-gen.ts:34-42 | a position holds the character of the last listed segment that covers it |
| `KeyAssembly.Unwritten` | packages/core/src/key-gen.ts:34-42 | a position no segment covers keeps the fill character, or is a hole past the key length |
| `KeyAssembly.ClientKey` | packages/core/src/key-gen.ts:82-137 | the parts concatenated in payload order with the client's counters, then the checksum of the payload's length; refused exactly on an unusable counter |
| `KeyAssembly.GeneratedLaid` | packages/core/src/tumbler-map.ts:129-173 | a generated map covers its body, and the positional sort of the payload keeps its order |
| `KeyAssembly.KeysAgree` | packages/core/src/key-gen.ts:33-137 | server and client refuse the same counters; for every map whose segments cover the body, in any listing order, the two keys are equal, character for character |
| `KeyValidation.ValidateKey` | packages/core/src/validate.ts:67-227 | the nested loops compute the recursive definition, including the early stops and the refusals of a bad look-ahead or clock |
| `KeyValidation.AcceptedIff` | packages/core/src/validate.ts:67-227 | a key is accepted exactly when length and checksum are right and every segment's text is one it can derive in its windows or from its counters; the counters reported are the least matching ones, of the last segment of each id and of no other id |
| `KeyValidation.RefusalTable` | packages/core/src/validate.ts:67-227 | each refusal has its own condition, in the order of the checks |
| `KeyValidation.CounterRefusal` | packages/core/src/validate.ts:165-186 | past the checksum the first counter that is out of range or exhausted names the refusal |
| `KeyValidation.FirstMatch` | packages/core/src/validate.ts:187-203 | the least counter from the stored one within the lookahead that derives the text |
| `KeyValidation.InWindows` | packages/core/src/validate.ts:153-163 | some window within tolerance derives the text |
| `KeyValidation.ClientKeyAccepted` | packages/core/src/validate.ts:111-227 | on every map that covers its body, each key derived from usable counters within look-ahead and clocks within tolerance is accepted, with distinct segment ids each matched counter between the stored and the client's |
| `KeyValidation.GenerateProvisionValidate` | packages/core/src/key-gen.ts:8-18 | for all accepted options and every random outcome the server and client keys are the same, and the key validates whenever its counters are within look-ahead and the clocks within tolerance |
| `PrincipalLedger.AlwaysContinuous` | packages/server/src/principal-session.ts:178-246 | every ledger reached by binds, appends and closes with stream ids distinct across principals verifies |
| `PrincipalLedger.HeadPinsLedger` | packages/server/src/principal-session.ts:529-555 | two valid ledgers with one checkpoint head have equal checkpoints, the same streams and equal events in each |
| `PrincipalLedger.ForeignBindBreaks` | packages/server/src/principal-session.ts:333-344 | a bind onto another principal's stream, by a known or a new principal, makes the owner's ledger invalid |
| `PrincipalLedger.StaysContinuousIff` | packages/server/src/principal-session.ts:178-246 | after one operation every ledger verifies exactly when the operation is not a bind onto another principal's stream |
| `PrincipalLedger.ContinuousThroughoutIff` | packages/server/src/principal-session.ts:178-246 | every ledger verifies after every operation of a run exactly when the run has no such bind |
| `PrincipalLedger.CollisionReached` | packages/server/src/principal-session.ts:519-521 | two principals bound under one stream id leave the first one's ledger invalid |
| `LedgerRules.AppendOutcome` | packages/server/src/principal-session.ts:228-246 | an append is recorded exactly for a known principal's own stream: one event, one checkpoint, nothing else |
| `LedgerRules.BindOutcome` | packages/server/src/principal-session.ts:178-226 | a bind is always recorded, in the ledger that admits its principal and stream |
| `LedgerRules.NamesAlwaysRight` | packages/server/src/principal-session.ts:361-415 | in every run each event carries its stream's names and each checkpoint its principal's |
| `PrincipalLedger.SessionLedger.BindSession` | packages/server/src/principal-session.ts:178-226 | principal and stream are created on first use, one event and one checkpoint follow |
| `PrincipalLedger.SessionLedger.AppendStreamEvent` | packages/server/src/principal-session.ts:228-246 | only the owner's stream grows, by one event and one checkpoint |
| `PrincipalLedger.SessionLedger.AppendEvent` | packages/server/src/principal-session.ts:361-392 | the event links to the stream head and carries the stream's own identity |
| `PrincipalLedger.SessionLedger.AppendCheckpoint` | packages/server/src/principal-session.ts:394-415 | appendCheckpoint over all current stream heads |
| `PrincipalLedger.SessionLedger.VerifyPrincipalContinuity` | packages/server/src/principal-session.ts:260-303 | valid exactly when streams, checkpoints and heads agree |
| `PromotionGate.PromotionIsComplete` | packages/server/src/promotion.ts:159-181 | a replica that converges to an issued checkpoint has applied, in order and once each, exactly the mutations enqueued when it was issued |
| `PromotionGate.DroppedNeverReached` | packages/server/src/replicating-tumbler-store.ts:249-288 | a mutation dropped at the queue bound is never reached, and no checkpoint is issued from then on |
| `PromotionRules.IngestOutcome` | packages/server/src/replica-receiver.ts:271-335 | a message is applied exactly when addressed, next, linked, recomputing, unsealed and stored; integrity is lost exactly on a gap, a broken link or a mutation that cannot be unsealed or stored |
| `PromotionRules.SpoiledForever` | packages/server/src/replica-receiver.ts:271-335 | a replica that lost integrity or was given an unusable secret never converges again |
| `PromotionRules.IssuedMeansApplied` | packages/server/src/replicating-tumbler-store.ts:249-258 | a source checkpoint is issued only when the replica has already applied every mutation behind it |
| `PromotionRules.IssuedIff` | packages/server/src/replicating-tumbler-store.ts:249-258 | a checkpoint is issued exactly with integrity kept, no drain under way, an empty queue and an attested store |
| `PromotionGate.ReplicatingStore.EnqueueMutation` | packages/server/src/replicating-tumbler-store.ts:260-288 | the mutation joins the hash chain; at the bound it is dropped and integrity lost |
| `PromotionGate.ReplicatingStore.Drain` | packages/server/src/replicating-tumbler-store.ts:290-314 | with mutations arriving at any point, exactly confirmed envelopes leave the queue, in order |
| `PromotionGate.ReplicaReceiver.IngestEnvelope` | packages/server/src/replica-receiver.ts:271-335 | only a fresh envelope of this stream and epoch that is next, linked and recomputing is applied; a gap or a bad link loses integrity for good |
| `PromotionGate.FencingStore.ClaimFence` | packages/server/src/promotion.ts:57-63 | only a strictly higher epoch replaces the record |
| `PromotionGate.FencingStore.ReleaseFence` | packages/server/src/promotion.ts:65-72 | only the exact active grant is released |
| `PromotionGate.Controller.Activate` | packages/server/src/promotion.ts:159-181 | succeeds exactly for a command this node may act on, at the required checkpoint, with a higher epoch |
| `PromotionGate.Controller.StepDown` | packages/server/src/promotion.ts:183-191 | releases fence and lease exactly for a demotion of this node at its lease's epoch whose fence is still this lease; otherwise changes nothing |
| `PromotionGate.Controller.IsWritable` | packages/server/src/promotion.ts:193-204 | exactly while the unexpired lease is the store's active record |
| `PromotionGate.LostForever` | packages/server/src/promotion.ts:57-72 | a released or overtaken lease is never writable again |
| `PromotionGate.OneWriter` | packages/server/src/promotion.ts:159-204 | whatever any number of controllers on one fencing store activate and step down, in any order, no two of them are writable at once, each by its own clock |
| `PromotionGate.OvertakenUntilReactivated` | packages/server/src/promotion.ts:159-204 | once another controller has activated, the earlier one is never writable until it activates again itself |
| `PromotionRules.WriterOrdered` | packages/server/src/promotion.ts:159-204 | in every run a controller that may write was activated by a command for its own node and role, a replica at the very checkpoint it had reached |
| `PromotionRules.WritesIff` | packages/server/src/promotion.ts:193-204 | a node may write exactly while its lease is unexpired and is, field for field, the active record |
| `PromotionRules.StepDownHarmless` | packages/server/src/promotion.ts:183-191 | stepping down takes writing from nobody else |
| `CommitOutcome.Attempt.Run` | packages/server/src/pg-transactor.ts:363-522 | the client is released exactly once and reused exactly after a clean commit, which alone returns the value; ambiguity arises exactly on dispatch with neither tag; before COMMIT the first step that went wrong is reported; a retryable error means COMMIT was never sent |
| `CommitOutcome.Attempt.Conclude` | packages/server/src/pg-transactor.ts:490-516 | the catch block: disposal once, then the error it names |
| `CommitOutcome.Attempt.TerminalRelease` | packages/server/src/pg-transactor.ts:370-380 | at most one release |
| `CommitOutcome.Transaction` | packages/server/src/pg-transactor.ts:297-329 | for every outcome of acquisition and every moment the signal fires, the callback is rerun only after retryable passes that never sent COMMIT, and a retryable failure is given up only for the bound or the signal; the outcome is the last pass's or an abort with nothing sent, a COMMIT without a clear reply is always reported as ambiguous and a confirmed one never as retryable |
| `ReplayNonce.AcceptedOnceIff` | packages/server/src/http-outbox-transport.ts:369-408 | no run accepts a request twice exactly when the delay from freshness check to nonce check stays within the retention's slack |
| `ReplayNonce.MarginCovers` | packages/server/src/http-outbox-transport.ts:369-376 | the constructor's inequality covers every delay below its safety margin |
| `ReplayNonce.SlowRunReplays` | packages/server/src/http-outbox-transport.ts:404-408 | beyond it one request is accepted twice |
| `ReplayNonce.MemoryNonces.CheckAndStore` | packages/server/src/http-outbox-transport.ts:122-128 | prunes expired nonces, then stores a new one |
| `ReplayNonce.DatabaseNonces.CheckAndStore` | packages/server/src/http-outbox-transport.ts:158-169 | refuses a skewed clock, prunes, then inserts |

## Left out

- The receipts' and lease grants' own making and signing (`tsk-source-fence.ts`): their verification is a boolean input of the step that reads them.
- SHA-256, HMAC and ed25519: functions passed in; where a theorem needs it, injectivity is its hypothesis.
- The database: every transaction is one atomic step, and the Redis reads inside a transaction are atomic with it; catalog attestation, roles, search path, schema provisioning and the v1-to-v2 migration are not part of this model.
- The 2^40 bound on history sequence numbers and the 2^53 bound on the control clock; one stream at a time.
- A released or lost Redis record under the control plane: `ControlTheorems.TwoResourceAgreement` and `ControlTheorems.RedisNeverQuarantines` speak of a record that only advanceEpoch claims.  What the transactions do over any other record is `ControlAdmission.PrepareAnyState`, `ControlAdmission.FenceAnyState` and `ControlAdmission.ReconcileIff`.
- The evidence column of the other cutover phases is a record compared for equality, not its JSON text; the FENCED evidence is encoded in `EvidenceCodec`.
- Number() and the UTF-8 decoder of the host are parameters of `EvidenceCodec.DecodeEvidence`; it may accept other spellings of the same numbers.
- JavaScript values that differ only as 0 and -0 are one integer; property descriptors, symbols and prototypes are the single refused kind JOther.
- `activateFinalizedReceiverAsSource`, epoch transitions of the outbox, and the publisher's stored lease expiry beyond its comparison at acquisition.
- HotpOutbox.SourceTables.DrainOnce: rows appended by others while it runs are not part of it; every such interleaving is part of `OutboxSystem`.
- HotpOutbox.SourceTables.DrainRows: likewise.
- The size and depth bounds of a credential map's JSON and the refusal of unknown fields; the mutation ticket of the SQL function.
- The default usage-warning window is a parameter, since the source multiplies by a floating-point tenth; it only affects the expiring status.
- The TOTP window number is a function of the clock, since the source divides in floating point.
- Store capacity, access order and the age limit of the in-memory store, apart from the deletion it causes.
- PrincipalLedger: session id lists, authorization contexts, proofs and the sealed cache.
- PromotionGate.ReplicatingStore.Drain: stops after any given number of answers, where the source retries for as long as the queue is not empty; back-off times are not modelled.
- ReplayNonce: the database clock is taken to be within the asserted skew at every statement, as the store checks only before the first; PgReplayNonceStore's durability is not modelled.
- CommitOutcome: time itself (a time-out is one of the outcomes) and the SQL guard on the callback's queries.
- KeyLayout, KeyAssembly, KeyValidation: negative or fractional positions, which no generated or admitted map has; the per-segment report for the anomaly engine.
- Liveness of clients, publishers and replication.
- Demo servers, framework adapters, the client SDK and runtime capture: they forward to the modelled operations and promise nothing of their own about keys, counters or histories.
- Anomaly scoring: tunable thresholds over recent failures with bounded memory; what it promises is size bounds, not a relation between parties.
- The agent cache: its sealing is a platform call (DPAPI) outside the repository.
- The provisioner around map generation: input checks, rate limits and audit callbacks.

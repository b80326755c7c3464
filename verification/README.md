# Validator accountability between a provider chain and its consumers

A Dafny model of the `vaas` modules: a consumer chain borrows the provider's validators, follows the provider's
validator set, and reports validators that are absent; the provider judges the reports, slashes after a challenge
window, withholds fees meanwhile, and runs each consumer's life cycle and fee pool.

## Parts

- `Common`, `MapSum`, `Ordering`, `Bitmaps`: shared types, sums over maps, key order of stores, the bitmap.
- Consumer side. `Wire` is the evidence packet and its stateless checks, `DowntimeTracking` the vote tracking that
  produces packets, `EvidenceQueue` the queue they wait in. `ValidatorUpdates` and `Relay` take in validator set
  packets: accumulation, the pending diff, the flush to the consensus engine.
- Accusations on the provider. `Accusations` is the state machine of windows, slashes and floors as values, with
  ghost logs of every window accepted and every slash executed. `AccusationRuns` states what it guarantees over
  runs, `AccusedWindows` what becomes of that when consensus keys move, `ValidatorWindows` what it means for a
  validator with several addresses. `DowntimeLedger` is the keeper that carries the state machine out.
- Fees. `FeePool` is the pool as a value - shares, escrow, distribution - and `FeeKeeper` the keeper with its bank
  accounts.
- Life cycle. `TimeQueue` is the schedule the queues share, `Lifecycle` the phases with their times and queues,
  `KeyAssignment` the consumer keys.
- The provider as a whole. `Agreement` relates the parts to each other as values, `BlockSteps` describes what a loop
  over consumers does, `Provider` is the keeper: every transaction and the begin blocker keep
  `Agreement.Consistent`. It says that life cycle, accusations and pools are each in order, that only launched
  consumers have slashes and marks in flight, and that a pool covers its escrow until the consumer stops.
  `ChallengeWindow` is what the keeper promises about time: a slash waits a whole challenge window, accepted windows
  are remembered long enough and no longer. `Effects` says what each step means for one consumer, one record, one
  pool, read off the state before and after.
- `Equivocation` covers double signing, `Genesis` export and import.

Methods stand for the keepers' functions and are proved against functions on values; the lemmas are about those
functions.

## Findings

1. A snapshot that repeats a key can empty the validator set. `wouldEmptyValidatorSet`
   (x/vaas/consumer/keeper/relay.go:137-158) refuses a snapshot only if no entry has positive power, but the last
   entry of a key wins. `Relay.RepeatedKeyDefeatsGuard` is the input: one key with power 1 and then 0.
   `Relay.AcceptedTarget` is the exact condition for every packet: some key's last entry is positive. With distinct
   keys, which the provider sends, the guard is exact (`Relay.SnapshotGuardExact`) and the set is never empty over
   any run (`Relay.NeverEmpties`).
2. A key rotation can lose track of an accepted window. x/vaas/provider/keeper/cons_pubkey_rotation.go:255-266 says
   windows move with the address an accusation resolves to. They do except for one case: an accusation that named
   the rotating validator by its own provider address, with no mapping for it - the key it ran before it was
   assigned one. `migrateKeyAssignment` repoints existing mappings only, so that address still resolves to itself
   while its windows have moved. `AccusedWindows.RotationForgetsDefaultKey` is a run in which the same packet is
   accepted twice and two slashes for the same heights fall due. The exact conditions, decidable before the step:
   `AccusedWindows.RotationFiled` for a rotation on one consumer, `Agreement.RotationFiled` and
   `Provider.Keeper.MigrateStateOnConsPubKeyRotation` for all of them, `AccusedWindows.AssignmentFiled` and
   `PruningFiled` for a first assignment and the pruning of a superseded key, which can lose windows the same way,
   and `AccusedWindows.StepFiled` for any step. Over runs that meet them an accused address is never slashed twice
   for a height (`AccusedWindows.AccusedSlashedOnce`); where a rotation does not, the window is accepted again
   (`AccusedWindows.UnfaithfulReadmits`), and the handler's check of the validator set does not prevent it
   (`AccusedWindows.SamePacketStaysAdmissible`).
3. Windows are kept apart per provider address, and a validator can have several: after a rotation without an
   assigned key its earlier windows stay under the old address by design
   (x/vaas/provider/keeper/cons_pubkey_rotation.go:29-40), and `accusedConsumerValidatorAddr` admits accusations
   that name it. So heights accepted under one address of a validator can be accepted again under another:
   `ValidatorWindows.RotationLeavesWindowsBehind` is a run with two slashes due for the same heights,
   `SameHeightsStayAdmissible` shows that the handler lets it happen, `AccusedUnderBothAddresses` is the general form.
   `ValidatorWindows.StepValidatorApart` is the exact condition, on the stored windows and floors: the window would
   pass the floor and intersection check under every other address of its validator too. Over runs that meet it no
   height of a validator is slashed for twice (`ValidatorWindows.ValidatorSlashedOnce`).
4. Where documentation and code disagree, the model follows the code. docs/consumer-downtime.md:186-192 defers
   matured slashes of a consumer whose removal is being voted on, and docs/consumer-downtime.md:296-298 pauses a
   consumer on a refusal threshold; the code at hand does neither. docs/consumer-lifecycle.md:119-123 has `InitGenesis`
   create a client; the code does not.

## Model

| member | source | states |
|---|---|---|
| `Wire.MaxMissedIsTheThreshold` | x/vaas/types/wire.go:67-69 | For acceptable parameters the threshold lies in `0..window-1`, and missing more than it is having signed a smaller fraction than required, in exact decimal arithmetic. |
| `Wire.CountMissed` | x/vaas/types/wire.go:105-114 | The loop counts exactly the set bits below the span; trailing bits never count. |
| `Bitmaps.CountIsNumberOfSetBits` | x/vaas/types/wire.go:105-114 | What is counted is the number of heights whose bit is set. |
| `Bitmaps.BitmapSet` | x/vaas/types/utils.go:84-86 | Setting a bit in place sets that bit and leaves every other bit as it was. |
| `DowntimeTracking.Tracker.TrackMissedBlocks` | x/vaas/consumer/keeper/downtime.go:19-59 | Every committed height is recorded once; exactly before the multiples of the window length a window closes, and then one packet is queued for each validator absent more often than the threshold over the window, and none for anyone else; the closed spans partition all heights seen, and every packet ever sent reports the votes of one closed span. |
| `DowntimeTracking.EveryHeightInOneSpan` | x/vaas/consumer/keeper/downtime.go:19-59 | Each height tracked lies in exactly one closed window, whatever the window length was changed to in between. |
| `DowntimeTracking.ClosesBeforeMultiple` | x/vaas/consumer/keeper/downtime.go:19-59 | Windows end exactly at the heights before the multiples of their length. |
| `DowntimeTracking.EveryOffenderTracked` | x/vaas/consumer/keeper/downtime.go:64-123 | Judging only the validators that hold a bitmap misses no offender. |
| `DowntimeTracking.WindowCount` | x/vaas/consumer/keeper/downtime.go:64-123 | Counting from the first sighting gives the number of absences in the whole window. |
| `DowntimeTracking.BuildsReport` | x/vaas/consumer/keeper/downtime.go:64-123 | A packet built from the rebased bits reports exactly the absences and passes the stateless checks of the receiver. |
| `DowntimeTracking.Tracker.Evaluate` | x/vaas/consumer/keeper/downtime.go:64-123 | A packet is produced for a validator if and only if its absences exceed the threshold, and it says so truthfully. |
| `DowntimeTracking.CountMissedBits` | x/vaas/consumer/keeper/downtime.go:127-135 | Counts the bits of a range. |
| `DowntimeTracking.RebaseBitmap` | x/vaas/consumer/keeper/downtime.go:140-148 | Moves a range of bits to the front, drops everything else. |
| `DowntimeTracking.Tracker.StageDowntimeParams` | x/vaas/consumer/keeper/downtime.go:165-191 | The parameters the next boundary will have are the ones given, if acceptable, and otherwise those it would have had; the invariant stays. |
| `EvidenceQueue.QueueKeepsHighest` | x/vaas/consumer/keeper/evidence_packet.go:47-84 | Queueing leaves a validator exactly the sixteen highest window ends of its old set and the new one, with the packets that stood there, and touches no other validator. |
| `EvidenceQueue.PendingSentOrEvicted` | x/vaas/consumer/keeper/evidence_packet.go:47-260 | Over any run of queueing, requeueing and send passes, a packet ever queued is pending, or was sent, or was evicted while at least sixteen newer windows of the same validator had been queued. |
| `EvidenceQueue.PassIsStep` | x/vaas/consumer/keeper/evidence_packet.go:153-260 | What a send pass guarantees makes it a step of such a run: it drops only undecodable entries beyond those it sent. |
| `EvidenceQueue.QueueStaysWithinBounds` | x/vaas/consumer/keeper/evidence_packet.go:63-84 | The per-validator bound is kept by queueing. |
| `EvidenceQueue.Queue.QueueEvidencePacket` | x/vaas/consumer/keeper/evidence_packet.go:47-58 | Refines the queue function the lemmas above are about. |
| `EvidenceQueue.Queue.EvictOldestPendingEvidence` | x/vaas/consumer/keeper/evidence_packet.go:63-84 | The loop that deletes the lowest ends refines keeping the sixteen highest. |
| `EvidenceQueue.Queue.RequeueEvidencePacket` | x/vaas/consumer/keeper/evidence_packet.go:94-103 | Queues exactly the decodable and valid payloads; any other leaves the queue alone. |
| `EvidenceQueue.Queue.SendEvidencePackets` | x/vaas/consumer/keeper/evidence_packet.go:153-260 | At most fifty packets leave, in key order; an entry stays exactly if the limit was reached before its turn or it is a packet IBC refuses, so undecodable entries walked past are gone; what stays is unchanged. |
| `ValidatorUpdates.AccumulateChanges` | x/vaas/types/utils.go:14-41 | Whatever order the maps are walked in, the outcome is one sorted list of the last writes. |
| `ValidatorUpdates.SortedListingUnique` | x/vaas/types/utils.go:14-41 | A map has one sorted listing, so map iteration order never shows. |
| `ValidatorUpdates.AccumulateAssociative` | x/vaas/types/utils.go:14-41 | Accumulating three lists groups either way. |
| `ValidatorUpdates.AccumulateOverlays` | x/vaas/types/utils.go:14-41 | Applying the accumulated list is applying the two lists in turn, and its keys are distinct. |
| `Relay.Convergence` | x/vaas/consumer/keeper/relay.go:23-119 | From any state, after an accepted faithful snapshot and any faithful consecutive packets since - with losses, repeats, reorderings and refusals in between - the set at the end of a block is the provider's set at the watermark. |
| `Relay.FaithfulAccepted` | x/vaas/consumer/keeper/relay.go:23-119 | The provider's own next packet is never refused by a synced consumer. |
| `Relay.WatermarkRises` | x/vaas/consumer/keeper/relay.go:23-119 | Over any run the accepted ids strictly rise and end at the watermark. |
| `Relay.NeverEmpties` | x/vaas/consumer/keeper/relay.go:137-158 | Over any run whose snapshots have distinct keys, neither the set nor what is due ever becomes empty. |
| `Relay.SnapshotGuardExact` | x/vaas/consumer/keeper/relay.go:137-158 | With distinct keys the guard refuses exactly the snapshots that build an empty set. |
| `Relay.AcceptedTarget` | x/vaas/consumer/keeper/relay.go:137-158 | Exact condition for all packets: what an accepted packet makes due is non-empty if and only if it is a diff or some key's last write in it is positive. |
| `Relay.RepeatedKeyDefeatsGuard` | x/vaas/consumer/keeper/relay.go:137-158 | The guard's promise fails at a concrete input: a snapshot that repeats a key is accepted and empties the set. |
| `Relay.ReplaceReachesTarget` | x/vaas/consumer/keeper/validators.go:311-335 | A target together with a removal of everyone else leaves exactly the target. |
| `Relay.EngineFollows` | x/vaas/consumer/keeper/validators.go:21-70 | The updates forwarded turn the engine's set into the stored one and meet everything the engine demands of them. |
| `Relay.Consumer.OnRecvVSCPacketV2` | x/vaas/consumer/keeper/relay.go:23-119 | Accepted if and only if well formed, newer than the watermark, from the pinned client of the pinned chain, and leaving validators; an accepted packet takes effect whole and its parameters are those of the next window, any other changes nothing but a first chain-id pin; health is kept while snapshots have distinct keys. |
| `Relay.Consumer.WouldEmptyValidatorSet` | x/vaas/consumer/keeper/relay.go:137-148 | A snapshot is judged by having a positive entry, a diff by what it would leave of the set now due; the accumulated list the code walks gives the same answer as that set. |
| `Relay.Consumer.ComputeReplaceUpdates` | x/vaas/consumer/keeper/validators.go:311-335 | Overlaying the result gives the target alone, and distinct keys stay distinct. |
| `Relay.Consumer.ApplyVaasValidatorChanges` | x/vaas/consumer/keeper/validators.go:21-70 | The store ends as the overlay of the changes; unknown removals are not forwarded. |
| `Relay.Consumer.AuthenticateProviderChainID` | x/vaas/consumer/keeper/relay.go:179-202 | Accepts exactly a live light client of the pinned chain; the first one pins it and the pin never changes. |
| `Relay.Consumer.EnforcePinnedProviderClient` | x/vaas/consumer/keeper/relay.go:220-232 | Passes exactly the pinned client. |
| `Relay.Consumer.EndBlock` | x/vaas/consumer/module.go:165-184 | A flush carries the stored set to the target; a healthy consumer stays healthy and every flush is accepted by the engine. |
| `TimeQueue.TakesTheFirstDue` | x/vaas/provider/keeper/consumer_lifecycle.go:120-194 | Taking is the first `limit` ids of the due list, and what is left over, read in order, is the rest: nothing lost, nothing duplicated, nothing early. |
| `TimeQueue.DrainsInCeilCalls` | x/vaas/provider/keeper/consumer_lifecycle.go:120-194 | With limit l, n due ids are all taken after ceil(n/l) calls and not before. |
| `TimeQueue.TakeKeepsExact` | x/vaas/provider/keeper/consumer_lifecycle.go:120-194 | A queue that holds each id once at its time still does, without the ids taken, all of which were due. |
| `TimeQueue.Queue.ConsumeIdsFromTimeQueue` | x/vaas/provider/keeper/consumer_lifecycle.go:120-194 | The two-pass loop with its rewritten bucket refines that. |
| `TimeQueue.RemovedKeepsExact` | x/vaas/provider/keeper/keeper.go:776-807 | Removing an id at its time finds it and leaves a queue exact for the others. |
| `TimeQueue.Queue.Remove` | x/vaas/provider/keeper/keeper.go:776-807 | Fails, changing nothing, exactly when the id is not in that bucket. |
| `Accusations.AdmittedIsNew` | x/vaas/provider/keeper/downtime.go:84-338 | What passes the floor and the retained windows shares no height with any window ever accepted for the pair. |
| `Accusations.AcceptKeeps` | x/vaas/provider/keeper/downtime.go:84-338 | Accepting a window keeps the accusation invariant. |
| `Accusations.PruneKeeps` | x/vaas/provider/keeper/downtime_slash.go:120-192 | Pruning lowest-first behind floors keeps the invariant: every accepted window is still retained or below its floor. |
| `Accusations.RenameKeeps` | x/vaas/provider/keeper/cons_pubkey_rotation.go:267-345 | Moving a pair to a fresh address keeps the invariant. |
| `AccusationRuns.RunKeeps` | x/vaas/provider/keeper/downtime_slash.go:33-192 | Any run of acceptances, executions, prunings, cancellations, deletions and rotations keeps the invariant. |
| `AccusationRuns.NoHeightSlashedTwice` | x/vaas/provider/keeper/downtime.go:381-412 | Over any run, no height of a pair is slashed for twice, and only accepted windows are executed. |
| `AccusationRuns.AcceptedWindowsDisjoint` | x/vaas/provider/keeper/downtime.go:381-412 | Over any run, no height of a pair is covered by two accepted windows. |
| `AccusationRuns.RunAges` | x/vaas/provider/keeper/downtime_slash.go:120-192 | Over any chronological run, every floor is the end of a window accepted longer than the horizon ago. |
| `AccusationRuns.PruningIsInvisible` | x/vaas/provider/keeper/downtime_slash.go:104-192 | For evidence that passes the age check, judging by retained windows and the floor is judging by every window ever accepted. |
| `AccusationRuns.RunTakes` | x/vaas/provider/keeper/downtime.go:84-338 | However a disjoint family of windows is delivered - any order, repeats, executions and prunings in between - exactly those that meet no window accepted before are accepted. |
| `AccusationRuns.DeliveryOrderIrrelevant` | x/vaas/provider/keeper/downtime.go:84-338 | Two such runs that offer the same windows accept the same windows. |
| `AccusationRuns.DeliveredAsIfAlone` | x/vaas/provider/keeper/downtime.go:84-338 | In an uninterrupted batch, windows apart from each other are each accepted as if they came alone. |
| `AccusationRuns.BatchOrderIrrelevant` | x/vaas/provider/keeper/downtime.go:84-338 | Two orders of one batch leave the same accepted windows, pending slashes and floors. |
| `KeyAssignment.ResolutionFollows` | x/vaas/provider/keeper/cons_pubkey_rotation.go:195-224 | A rotation redirects exactly the mappings that named the old address; every other resolution stays. |
| `KeyAssignment.ResolutionIsRenaming` | x/vaas/provider/keeper/cons_pubkey_rotation.go:195-224 | Resolving after the rotation is renaming the pair resolved before if and only if the accusation does not name the old address itself with no mapping. |
| `AccusedWindows.RotationFiled` | x/vaas/provider/keeper/cons_pubkey_rotation.go:195-312 | On a consumer with an assigned key, a rotation keeps every accepted window under the address its accused resolves to if and only if none of them accused the old provider address unmapped. |
| `AccusedWindows.AssignmentFiled` | x/vaas/provider/keeper/key_assignment.go:110-172 | A first mapping of an address keeps the filing if and only if it maps the address to itself or nothing accused it yet. |
| `AccusedWindows.PruningFiled` | x/vaas/provider/keeper/key_assignment.go:192-204 | Forgetting a mapping keeps the filing if and only if it mapped the address to itself or nothing accused it. |
| `AccusedWindows.StepFiled` | x/vaas/provider/keeper/cons_pubkey_rotation.go:53-65 | For every step of the accusations and the mappings: the filing survives if and only if the step meets the conditions above. |
| `AccusedWindows.StepApart` | x/vaas/provider/keeper/downtime.go:84-338 | While every window is filed where its accused resolves, no step accepts a second window of one accused over a height. |
| `AccusedWindows.AccusedOnce` | x/vaas/provider/keeper/downtime.go:381-412 | Over any run whose key moves meet the conditions, no height of one accused address on one consumer is covered by two accepted windows. |
| `AccusedWindows.AccusedSlashedOnce` | x/vaas/provider/keeper/downtime_slash.go:33-103 | Nor is one slashed for twice. |
| `AccusedWindows.UnfaithfulReadmits` | x/vaas/provider/keeper/cons_pubkey_rotation.go:195-312 | The condition is necessary in every state: after a rotation that breaks it, the same packet is accepted again. |
| `AccusedWindows.SamePacketStaysAdmissible` | x/vaas/provider/keeper/downtime.go:84-373 | The handler does not stop it: a packet naming the default key, credible and priced before a rotation with an assigned key, is admissible after it, whatever was accepted under that key - itself, for one. |
| `AccusedWindows.RotationForgetsDefaultKey` | x/vaas/provider/keeper/cons_pubkey_rotation.go:195-312 | Concrete run: accept, rotate, accept the same packet again; two slashes for the same heights are due. |
| `ValidatorWindows.StepValidatorApart` | x/vaas/provider/keeper/downtime.go:340-412 | For every step: a validator's windows on a consumer, under all its addresses, stay apart if and only if evidence taken would pass the floor and intersection check under each of its other addresses too. |
| `ValidatorWindows.ElsewhereByStoredState` | x/vaas/provider/keeper/downtime.go:374-412 | For evidence that passes the age check, that condition on the retained windows and floors holds if and only if the window meets none ever accepted under another address of the validator, pruned or not. |
| `ValidatorWindows.JudgedValidatorApart` | x/vaas/provider/keeper/downtime.go:84-338 | What the evidence handler accepts keeps a validator's windows apart if and only if it would have passed the floor and intersection check under the validator's other addresses. |
| `ValidatorWindows.ValidatorSlashedOnce` | x/vaas/provider/keeper/downtime_slash.go:33-103 | Over any chronological run whose evidence meets that condition on the state it finds, no height of a validator on a consumer is slashed for twice, whatever is pruned, executed, rotated or deleted in between. |
| `ValidatorWindows.AccusedUnderBothAddresses` | x/vaas/provider/keeper/downtime.go:340-373 | The condition is necessary: heights accepted under one address of a validator are accepted again under a fresh one, and both slashes stand. |
| `ValidatorWindows.SameHeightsStayAdmissible` | x/vaas/provider/keeper/downtime.go:84-373 | The handler does not stop it: a packet credible and priced before a rotation is admissible after it when it names the new address. |
| `ValidatorWindows.RotationLeavesWindowsBehind` | x/vaas/provider/keeper/cons_pubkey_rotation.go:53-65 | Concrete run without an assigned key: accept under the old address, rotate, which moves the mark and no window, accept the same heights under the new one; two slashes are due. |
| `DowntimeLedger.WindowEndTimestamp` | x/vaas/provider/keeper/downtime.go:458-498 | Finds the time of the highest consensus state at or below the window end, or reports that there is none. |
| `DowntimeLedger.AnchorIsLowerBound` | x/vaas/provider/keeper/downtime.go:458-498 | That time never lies after the window end's own time, so evidence is never judged younger than it is. |
| `DowntimeLedger.DecidedByFullHistory` | x/vaas/provider/keeper/downtime.go:84-412 | Credible, timely and priced evidence is accepted if and only if its window shares no height with any window ever accepted for the pair, pruned or not. |
| `DowntimeLedger.QueuedStands` | x/vaas/provider/keeper/downtime.go:84-338 | What accepted evidence leaves: its window, a slash at today's price due one challenge window from now that reports exactly the heights the packet does, and the mark of the validator in the consumer's set exactly if the window's epoch was not distributed; nothing else changes. |
| `DowntimeLedger.ResolveEpochShare` | x/vaas/provider/keeper/fees.go:68-84 | Returns the share of the first run at or after the time, or none exactly when there is no such run. |
| `DowntimeLedger.Ledger.HandleConsumerDowntime` | x/vaas/provider/keeper/downtime.go:84-338 | No error if and only if all checks hold; then what `QueuedStands` says is recorded, otherwise nothing changes. |
| `DowntimeLedger.Ledger.SweepPendingDowntimeSlashes` | x/vaas/provider/keeper/downtime_slash.go:33-103 | Executes exactly the matured slashes that staking lets through, drops the other matured ones, keeps the rest; names the pairs left with nothing pending. |
| `DowntimeLedger.Ledger.PruneAcceptedDowntimeWindows` | x/vaas/provider/keeper/downtime_slash.go:120-192 | The loop that re-reads the lowest retained window each time refines pruning in one go: a window goes only if all lower ones of its pair go. |
| `DowntimeLedger.Ledger.LowestAcceptedWindowEnd` | x/vaas/provider/keeper/downtime_slash.go:196-212 | The least retained end of the pair, or none if nothing is retained. |
| `DowntimeLedger.Ledger.MigrateDowntimeAcceptance` | x/vaas/provider/keeper/cons_pubkey_rotation.go:267-312 | Moving entries one at a time refines renaming the pair. |
| `DowntimeLedger.Ledger.MigrateDowntimeWindowFloor` | x/vaas/provider/keeper/cons_pubkey_rotation.go:319-345 | The floor moves to the new pair; where both pairs have one the higher survives; no other floor changes. |
| `DowntimeLedger.Ledger.FindPendingDowntimeSlashContaining` | x/vaas/provider/keeper/downtime_challenge.go:167-199 | Finds the pending slash whose window holds the height under the resolved address, else the first in key order that named the accused; none exactly when neither exists. |
| `DowntimeLedger.Ledger.FindPendingDowntimeSlashUnderProviderAddr` | x/vaas/provider/keeper/downtime_challenge.go:206-225 | Finds the one pending slash of the pair whose window holds the height, or says that there is none. |
| `DowntimeLedger.ChallengeFindsSlash` | x/vaas/provider/keeper/downtime_challenge.go:167-225 | No accusation escapes challenge: a pending slash that holds the height is the one found if its accused resolves to its address, and some slash holding it is found for whom it named. |
| `ChallengeWindow.JudgedByHistory` | x/vaas/provider/keeper/downtime.go:84-412 | While slashes and windows are kept as promised, evidence is accepted if and only if it charges a member of the set with more misses than the fraction allows, ended in time, can be priced, and meets no window ever accepted for the pair, pruned or not - each condition in the packet's own terms. |
| `ChallengeWindow.SweptTimed` | x/vaas/provider/keeper/downtime_slash.go:33-103 | A sweep executes exactly the slashes let through that were accepted at least a challenge window ago, leaves none that old pending and every younger one, and keeps the promise. |
| `ChallengeWindow.PruneTimed` | x/vaas/provider/keeper/downtime_slash.go:120-192 | Pruning at challenge window plus evidence age keeps it: a floor stands only for windows accepted longer ago than that, and pending slashes keep their windows. |
| `ChallengeWindow.PruneLeavesNothingStale` | x/vaas/provider/keeper/downtime_slash.go:120-192 | Pruning is prompt: the lowest window retained for a pair is still pending or not older than the horizon. |
| `ChallengeWindow.RotationTimed` | x/vaas/provider/keeper/cons_pubkey_rotation.go:267-345 | A rotation keeps the promise on every consumer. |
| `ChallengeWindow.BlockTimed` | x/vaas/provider/module.go:145-204 | So does a whole block, which executes exactly the slashes accepted at least a challenge window ago whose consumers are still launched, and leaves none that old pending. |
| `FeePool.DrawIsFair` | x/vaas/provider/keeper/fee_pool_shares.go:48-63 | A draw burns no more than held, pays no more than the limit or the balance, and never lowers the balance per remaining share. |
| `FeePool.DrawIsAmple` | x/vaas/provider/keeper/fee_pool_shares.go:48-63 | A draw gives the shares burned what they are worth to the last whole token, burns as many as the limit allows, and is nothing if and only if nothing fits within the limit. |
| `FeePool.SettledAccounted` | x/vaas/provider/keeper/fee_pool_shares.go:128-148 | Settling leaves every token backed by shares, even over share records whose total was lost; worthless shares go, an unaccounted balance belongs to the community pool, and a pool that has shares and tokens is not changed. |
| `FeePool.DepositIsFair` | x/vaas/provider/keeper/fee_pool_shares.go:156-221 | A deposit keeps the accounts and never dilutes the earlier holders. |
| `FeePool.DepositIsAmple` | x/vaas/provider/keeper/fee_pool_shares.go:156-221 | A deposit is credited all the shares it pays for, nobody else's change, and it is refused only if it pays for none. |
| `FeePool.NoProfit` | x/vaas/provider/keeper/fee_pool_shares.go:156-290 | Depositing and withdrawing at once never yields more than the deposit. |
| `FeePool.WithdrawalIsFair` | x/vaas/provider/keeper/fee_pool_shares.go:230-290 | A withdrawal keeps the accounts and the price of everyone else's shares; burning the last share takes the whole balance. |
| `FeePool.WithdrawalIsAmple` | x/vaas/provider/keeper/fee_pool_shares.go:230-290 | A withdrawal gives its depositor all that the amount asked for and the unreserved balance allow, changes nothing else, and is refused if and only if it could give nothing. |
| `FeePool.WithdrawalStaysSolvent` | x/vaas/provider/keeper/fee_pool_shares.go:230-290 | A withdrawal within the unreserved balance leaves the escrow covered. |
| `FeePool.ClaimsWithinBalance` | x/vaas/provider/keeper/fee_pool_shares.go:74-106 | All claims together never exceed the balance. |
| `FeePool.ClaimIsQuoted` | x/vaas/provider/keeper/fee_pool_shares.go:74-106 | The quote is what a withdrawal of any amount up from the balance delivers, and is zero only if nothing can be withdrawn. |
| `FeePool.SlicesAndDust` | x/vaas/provider/keeper/fee_pool_shares.go:322-440 | Slices of any balance over any holders fall short of it by less than one unit per holder. |
| `FeePool.SweepDust` | x/vaas/provider/keeper/fee_pool_shares.go:322-440 | A sweep never overpays, and the residue is smaller than the number of holders. |
| `FeePool.DistributionStaysSolvent` | x/vaas/provider/keeper/fees.go:229-385 | A fee run pays only from what is not escrowed and keeps what it withholds. |
| `FeePool.RecordedAllOutstanding` | x/vaas/provider/keeper/fees.go:395-418 | Recording one share for each excluded validator raises the escrow by exactly that many shares when the challenge window is positive, and never by more. |
| `FeePool.RecordedEach` | x/vaas/provider/keeper/fees.go:395-418 | Each validator listed has one share more withheld on top of what it has unexpired, until a challenge window from now; no other record changes. |
| `FeeKeeper.EveryoneCounted` | x/vaas/provider/keeper/fees.go:229-385 | Eligible and excluded validators together are all bonded ones. |
| `FeeKeeper.ChargedAsDue` | x/vaas/provider/keeper/fees.go:229-385 | A run pays if and only if there is a whole share each, covered beyond the escrow, and the transfer goes through; then equal shares, as large as the fee allows, leave for the unmarked validators and are withheld from exactly the marked ones, and the escrow grows by just those; otherwise only the debt flag and the recorded zero share change. |
| `FeeKeeper.PaidAsDue` | x/vaas/provider/keeper/fees.go:229-385 | Every account grows by the share recorded, once for each unmarked validator paid to it. |
| `FeeKeeper.OwedMakesWhole` | x/vaas/provider/keeper/fees.go:448-525 | Whoever had something withheld and can be paid gets at least that, exactly that if nobody else is paid to its account; no other account changes; if all can be paid the pool loses exactly its escrow. |
| `FeeKeeper.SweepIsFair` | x/vaas/provider/keeper/fee_pool_shares.go:322-440 | In a sweep each holder's account grows by its part of the balance to the last whole token, and no other account changes. |
| `FeeKeeper.Pools.OutstandingWithheldFees` | x/vaas/provider/keeper/fees.go:192-210 | The loop sums exactly the unexpired records. |
| `FeeKeeper.Pools.ComputeClaim` | x/vaas/provider/keeper/fee_pool_shares.go:74-106 | Computes what a withdrawal could draw now, escrow excluded: all that the unreserved balance allows, or nothing if nothing can be withdrawn. |
| `FeeKeeper.Pools.FundConsumerFeePool` | x/vaas/provider/keeper/fee_pool_shares.go:156-221 | Names the error exactly; otherwise the depositor is credited all the shares the deposit pays for, the tokens move, and no other account or share does. |
| `FeeKeeper.Pools.WithdrawShares` | x/vaas/provider/keeper/fee_pool_shares.go:230-290 | Succeeds if and only if something can be withdrawn; then the pool loses and the depositor gets what the shares burned are worth to the last whole token, as many shares as the limit allows, and nothing else changes. |
| `FeeKeeper.Pools.DistributeToOne` | x/vaas/provider/keeper/fees.go:229-385 | Charges one consumer: the pool ends as `ChargedAsDue` says, every account as `PaidAsDue` says, and tokens are conserved between them. |
| `FeeKeeper.Pools.PayWithheldFees` | x/vaas/provider/keeper/fees.go:448-525 | A solvent pool repays every unexpired record whose payee resolves and whose send goes through, each account by exactly its sum, and clears all records; tokens are conserved whether it is solvent or not. |
| `FeeKeeper.Pools.SweepConsumerFeePoolDenom` | x/vaas/provider/keeper/fee_pool_shares.go:322-440 | Every holder gets its slice, the residue goes to the community pool, the module account ends where it started, no other pool moves. |
| `FeeKeeper.Pools.SweepExpiredWithheldFeeRecords` | x/vaas/provider/keeper/fees.go:531-557 | Deletes exactly the expired records; no tokens move. |
| `FeeKeeper.Pools.PruneEpochShareRecords` | x/vaas/provider/keeper/fees.go:90-114 | Deletes exactly the runs before the bound. |
| `FeeKeeper.Pools.MigrateWithheldRecord` | x/vaas/provider/keeper/cons_pubkey_rotation.go:361-413 | A record at the old address alone stands at the new one with its amount and expiry; where both have one both stay; no other record changes. |
| `Lifecycle.EachInItsOwnQueue` | x/vaas/provider/keeper/consumer_lifecycle.go:29-194 | Between blocks a consumer is in the launch, removal or auto-stop queue if and only if it is initialized, stopped or paused, once, at its recorded time. |
| `Lifecycle.StopKeeps` | x/vaas/provider/keeper/consumer_lifecycle.go:330-371 | Stopping keeps phases, times and queues in step and is a legal move. |
| `Lifecycle.PauseKeeps` | x/vaas/provider/keeper/consumer_lifecycle.go:398-441 | So does pausing. |
| `Lifecycle.ResumeKeeps` | x/vaas/provider/keeper/consumer_lifecycle.go:532-589 | So does resuming. |
| `Lifecycle.DeleteKeeps` | x/vaas/provider/keeper/consumer_lifecycle.go:700-809 | So does deleting. |
| `Lifecycle.Registry.UpdateConsumer` | x/vaas/provider/keeper/msg_server.go:416-612 | Succeeds exactly before launch, or on a launched consumer without new launch parameters; before launch it plans the launch again in phase, time and queue. |
| `Lifecycle.Registry.PrepareConsumerForLaunch` | x/vaas/provider/keeper/consumer_lifecycle.go:29-39 | Moves the queue entry, failing exactly when the previous one is missing. |
| `Lifecycle.Registry.ResumeConsumerChain` | x/vaas/provider/keeper/consumer_lifecycle.go:532-589 | Succeeds exactly when all conditions hold and the snapshot is sent; otherwise nothing changes. |
| `Lifecycle.Registry.GetAllLaunchedConsumerIds` | x/vaas/provider/keeper/keeper.go:587-596 | Exactly the launched consumers, each once. |
| `KeyAssignment.KeyBook.AssignConsumerKey` | x/vaas/provider/keeper/key_assignment.go:59-172 | Succeeds exactly when assignable; the new key's address is mapped, that of the key replaced stays mapped until its time if the consumer serves a set and goes at once otherwise, and nothing else changes. |
| `KeyAssignment.KeyBook.PruneKeyAssignments` | x/vaas/provider/keeper/key_assignment.go:192-204 | Forgets exactly the mappings whose time has come. |
| `KeyAssignment.KeyBook.EraseConsumer` | x/vaas/provider/keeper/key_assignment.go:207-224 | Deletes exactly the consumer's assignments, mappings, prune times and stored set, and keeps the keys in order. |
| `KeyAssignment.KeyBook.MigrateKeyAssignment` | x/vaas/provider/keeper/cons_pubkey_rotation.go:195-224 | Moves the assignment and repoints exactly the mappings to the old address; reports whether there was an assignment. |
| `KeyAssignment.KeyBook.MigrateConsumerValidator` | x/vaas/provider/keeper/cons_pubkey_rotation.go:234-253 | Moves the stored entry under the new address. |
| `Agreement.RotationIsRenaming` | x/vaas/provider/keeper/cons_pubkey_rotation.go:53-65 | Over all consumers: with an assigned key every window, slash and floor follows to the new address, and everything else stays untouched. |
| `Agreement.RotationMovesMarks` | x/vaas/provider/keeper/cons_pubkey_rotation.go:361-413 | Marks follow on every consumer, key or not, and no other mark moves. |
| `Agreement.RotationFiled` | x/vaas/provider/keeper/cons_pubkey_rotation.go:53-65 | For the whole rotation: every window stays filed where its accused resolves if and only if no keyed consumer holds one that accused the old address unmapped. |
| `Agreement.JudgedSound` | x/vaas/provider/keeper/downtime.go:84-338 | Evidence judged under the mappings as they are keeps windows of one accused apart. |
| `Effects.AllTaken` | x/vaas/provider/keeper/consumer_lifecycle.go:120-194 | A block takes off a queue only ids that are due, and all of those unless there are more than it takes. |
| `Effects.FatesDecided` | x/vaas/provider/module.go:145-204 | The phase every consumer ends a block in, from its own phase, times and last acknowledgement: launched or fallen back once its time has come, paused if frozen, stopped if silent too long or paused to the limit, deleted once its removal time has come; it waits only for its time or behind more than a block takes. |
| `Effects.StagesTimeline` | x/vaas/provider/keeper/consumer_lifecycle.go:330-441 | Whoever is stopped after a block was stopped before it and keeps its removal time, or is due for removal an unbonding period from now; whoever is paused keeps its limit, or has the whole limit from now; whoever waits for launch keeps its time. |
| `Effects.AcksAfterBlock` | x/vaas/provider/keeper/consumer_lifecycle.go:198-236 | A launch starts the clock of silence, a removal drops it, and no other changes in a block. |
| `Effects.RecordsFollow` | x/vaas/provider/keeper/cons_pubkey_rotation.go:357-413 | Over all consumers that are not deleted, withheld records follow a rotation as `MigrateWithheldRecord` says, and nothing else about a pool changes. |
| `Effects.AccusationsFollow` | x/vaas/provider/keeper/cons_pubkey_rotation.go:53-65 | Over all consumers at once, windows, slashes, floors and marks follow a rotation, and every other stays where it was. |
| `Effects.SettledForfeit` | x/vaas/provider/keeper/downtime_slash.go:33-103 | Exactly the validators executed with nothing left pending lose their withheld record; nothing else about a pool changes. |
| `Effects.ChargedAll` | x/vaas/provider/keeper/fees.go:229-385 | At an epoch's end exactly the launched consumers' pools are charged, each as `ChargedAsDue` says. |
| `Effects.PoolsAfterBlock` | x/vaas/provider/module.go:145-204 | After a block no record is left whose time is over, of the earlier runs exactly those are left that evidence still acceptable or a challenge of it can refer to, a removed consumer's pool is empty, and one that paused has no escrow. |
| `Provider.Keeper.SolventUntilStopped` | x/vaas/provider/keeper/fees.go:183-210 | In every reachable state, a consumer's pool covers its outstanding withheld fees until the consumer stops. |
| `Provider.Keeper.CreateConsumer` | x/vaas/provider/keeper/msg_server.go:317-413 | A new id, in the phase and at the time asked for; the joint invariant is kept. |
| `Provider.Keeper.UpdateConsumer` | x/vaas/provider/keeper/msg_server.go:416-612 | Succeeds exactly before launch, or on a launched consumer without new launch parameters; before launch it is planned for the new time or not at all; joint invariant kept. |
| `Provider.Keeper.RemoveConsumer` | x/vaas/provider/keeper/msg_server.go:627-708 | Deletes a consumer that never launched, stops one that is launched or paused, to be removed an unbonding period later, refuses any other; joint invariant kept. |
| `Provider.Keeper.PauseConsumerChain` | x/vaas/provider/keeper/consumer_lifecycle.go:398-441 | Pauses exactly a launched consumer, for the whole limit from now, having made everyone whole who had fees withheld and dropped what was in flight; nothing changes otherwise. |
| `Provider.Keeper.StopConsumerChain` | x/vaas/provider/keeper/consumer_lifecycle.go:330-371 | Stops a running consumer, cancelling what is in flight; joint invariant kept. |
| `Provider.Keeper.ResumeConsumerChain` | x/vaas/provider/keeper/consumer_lifecycle.go:532-589 | Resumes exactly when possible, after a light-client attack only once the fork's evidence has aged out, and starts the clock of silence again; joint invariant kept. |
| `Provider.Keeper.DeleteConsumerChain` | x/vaas/provider/keeper/consumer_lifecycle.go:700-809 | Sweeps the pool, erases windows, floors, slashes, marks, records and exactly this consumer's keys and stored set; joint invariant and findable windows kept. |
| `Provider.Keeper.FundConsumerFeePool` | x/vaas/provider/keeper/msg_server.go:771-859 | Succeeds exactly for a consumer not deleted, a deposit worth a share and a depositor who has it, who is credited all the shares it pays for; joint invariant kept. |
| `Provider.Keeper.ReceiveUnaccounted` | x/vaas/provider/keeper/fee_pool_shares.go:108-148 | Tokens sent to a pool without shares keep the joint invariant; no shares are minted. |
| `Provider.Keeper.WithdrawConsumerFeePool` | x/vaas/provider/keeper/msg_server.go:869-954 | Depositors are locked out exactly while launched or paused; otherwise it succeeds if and only if something can be withdrawn, and gives all that the request and the unreserved balance allow; the escrow stays covered. |
| `Provider.Keeper.SweepConsumerFeePool` | x/vaas/provider/keeper/msg_server.go:956-994 | Allowed exactly before launch and once stopped; joint invariant kept. |
| `Provider.Keeper.HandleConsumerEvidencePacket` | x/vaas/provider/keeper/downtime.go:28-48 | Only a launched consumer is heard; accepted if and only if `ChallengeWindow.DecidedByHistory` says so, leaving what `DowntimeLedger.Stands` says; the slash waits a whole challenge window; if one accused's windows were apart and findable they still are. |
| `Provider.Keeper.HandleChallengeConsumerDowntime` | x/vaas/provider/keeper/downtime_challenge.go:53-144 | A challenge pauses the consumer, and makes everyone whole who had fees withheld, if and only if the pending slash found for the address the accused resolves to, or else for the accused itself, reports the height as missed and the header checks out; a slash kept under that address is always the one found. |
| `Provider.Keeper.MigrateStateOnConsPubKeyRotation` | x/vaas/provider/keeper/cons_pubkey_rotation.go:53-65 | The loop over all consumers moves windows, slashes, floors, marks, withheld records, keys and stored members to the new address, and nothing else; windows stay findable if and only if the exact condition holds. |
| `Provider.Keeper.AssignConsumerKey` | x/vaas/provider/keeper/key_assignment.go:59-172 | Succeeds if and only if the consumer is active and the key is free; windows stay findable if and only if none accused the newly mapped address or the one dropped, unless that is the provider address. |
| `Provider.Keeper.EndBlockPruneKeyAssignments` | x/vaas/provider/keeper/relay.go:414-419 | Over all launched consumers: exactly the mappings due are forgotten, and windows stay findable if and only if none accused a forgotten address that resolved elsewhere. |
| `Provider.Keeper.SweepPendingDowntimeSlashes` | x/vaas/provider/keeper/downtime_slash.go:33-103 | Executes exactly the slashes accepted at least a challenge window ago that staking lets through, all of launched consumers; none that old stays pending and every younger one does; validators with nothing left pending lose their withheld record. |
| `Provider.Keeper.DistributeConsumerFees` | x/vaas/provider/keeper/fees.go:229-385 | Exactly the launched consumers are charged: shares leave for the unmarked validators and are withheld from the marked ones on top of what they have unexpired; joint invariant kept. |
| `Provider.Keeper.BeginBlock` | x/vaas/provider/module.go:145-204 | One block end to end: every consumer's phase, times and clock of silence; what executes, by when it was accepted; that windows are remembered for challenge window plus evidence age and no longer; that no expired record or unneeded run is left; where every pool ends, as repaid, emptied, settled, aged and charged; that exactly the removed consumers lose their keys; the joint invariant and findable windows are kept. |
| `Equivocation.SlashesExactlyNew` | x/vaas/provider/keeper/consumer_equivocation.go:33-145 | A submission slashes if and only if it proves an infraction not yet punished, of a bonded validator that is not tombstoned and can be jailed. |
| `Equivocation.SubmissionLeaves` | x/vaas/provider/keeper/consumer_equivocation.go:33-145 | A slash is logged once, tombstones if it should and is not repeated under any address of the validator; a tombstoned validator has no record left on the chain; nothing else changes. |
| `Equivocation.PunishedOnce` | x/vaas/provider/keeper/consumer_equivocation.go:33-145 | Over any run of submissions, rotations and registrations, each infraction of each validator is slashed at most once. |
| `Equivocation.RotateKeeps` | x/vaas/provider/keeper/cons_pubkey_rotation.go:71-114 | Moving the records with a rotation keeps every punished infraction guarded. |
| `Equivocation.RecordsFollowRotation` | x/vaas/provider/keeper/cons_pubkey_rotation.go:71-114 | Exactly the validator's records on living chains follow it to the new address. |
| `Equivocation.Equivocations.HandleConsumerDoubleVoting` | x/vaas/provider/keeper/consumer_equivocation.go:33-145 | Refines the judgement; a failure after the slash rolls everything back. |
| `Equivocation.Equivocations.MigratePunishedEquivocations` | x/vaas/provider/keeper/cons_pubkey_rotation.go:71-114 | Moves exactly the validator's records on living chains. |
| `Genesis.StateRoundTrip` | x/vaas/provider/keeper/genesis.go:29-594 | Import after export of a consistent state between blocks is a consistent state: same accusations, same pools, same phases and times, and queues with the same ids in every bucket. |
| `Genesis.LifecycleRoundTrip` | x/vaas/provider/keeper/genesis.go:29-594 | Phases, times, acks and the id sequence come back, and every queue bucket as a set. |
| `Genesis.PendingRoundTrip` | x/vaas/provider/keeper/genesis.go:720-735 | Slashes exported without their keys come back under the keys they had. |
| `Genesis.LedgerRoundTrip` | x/vaas/provider/keeper/genesis.go:617-735 | Pending slashes, windows, floors and marks all come back. |
| `Genesis.PoolsRoundTrip` | x/vaas/provider/keeper/genesis.go:767-856 | Every pool comes back, its share total recomputed, provided its tokens are all accounted for. |
| `Genesis.UnaccountedIsAbsorbed` | x/vaas/provider/keeper/genesis.go:809-856 | The one pool import changes: a balance nobody holds shares of is booked to the community pool. |
| `Genesis.KeysRoundTrip` | x/vaas/provider/keeper/genesis.go:423-594 | Assignments, mappings, prune times and punished equivocations come back. |
| `Genesis.ExportGenesis` | x/vaas/provider/keeper/genesis.go:423-594 | Lists every consumer, window, slash, floor, mark, share, record, run, key and punished record, and nothing else. |
| `Genesis.InitPools` | x/vaas/provider/keeper/genesis.go:29-355 | Assembles each pool from the flat tables and the bank balance. |
| `Genesis.InitLifecycle` | x/vaas/provider/keeper/genesis.go:29-355 | Restores every listed consumer and derives the three queues from phases and times; the id sequence continues after the highest id. |
| `Genesis.InitLedger` | x/vaas/provider/keeper/genesis.go:29-355 | Restores windows, floors and marks as listed and files slashes under keys derived from them; the log carries over. |
| `Genesis.InitKeys` | x/vaas/provider/keeper/genesis.go:29-355 | Restores assignments, mappings, prune times and punished records as listed. |
| `Genesis.InitGenesis` | x/vaas/provider/keeper/genesis.go:29-355 | Builds life cycle, ledger, pools and keys from one genesis state and the balances the bank imported. |
| `Genesis.GenesisRestart` | x/vaas/provider/keeper/genesis.go:29-594 | An export followed by the import gives back the provider exported: consistent, same accusations, pools, phases, times and queue contents, same keys and punished records. |
| `Equivocation.Equivocations.AfterConsensusPubKeyUpdate` | x/vaas/provider/keeper/cons_pubkey_rotation.go:53-114 | Repointing the validator and moving its records together refine one rotation step. |

## Left out

- Equivocation.PunishedOnce: speaks of one lifetime of a chain id; a consumer that reuses the id of a deleted one
  starts afresh.
- AccusationRuns.NoHeightSlashedTwice: a pair is a consumer and a provider address; what holds of accused
  addresses and of validators is stated by `AccusedWindows.AccusedSlashedOnce` and
  `ValidatorWindows.ValidatorSlashedOnce`, under conditions shown necessary.
- Provider.Keeper.MigrateStateOnConsPubKeyRotation: demands that nothing is recorded under the new address on the
  consumers with an assigned key, which x/staking's ban on reusing keys provides; a pending slash, window or floor
  already there would be overwritten or merged.
- Provider.Keeper.BeginBlock: says where phases, accusations and pools end, not what each depositor's or
  validator's account receives; the steps inside it say so for single consumers. The promises about time hold while
  the infraction parameters stay the same; a change of them is not followed.
- Provider.Keeper.HandleChallengeConsumerDowntime: the header, seal, commit signature and light client proof are
  one boolean.
- Provider.Keeper.UpdateConsumer: metadata, owner, chain id and client of a consumer are not kept, so what an update
  changes about them is not stated.
- Lifecycle.Registry.UpdateConsumer: of what an update may change only the launch is kept.
- Genesis.ExportGenesis: validator set packets waiting to be sent, their counters, fee overrides, parameters and what
  is only shown to users are not carried.
- Genesis.StateRoundTrip: the accusation logs are ghost state that an import carries over from the state before; the
  order inside a queue bucket after import is not stated; stored validator sets are rebuilt from staking and not
  imported.
- Relay.Consumer.OnRecvVSCPacketV2: the chain id pinned by the first packet of an authentic client stays pinned
  even if the packet is then refused.
- Slash amounts: the price of a slash and the slashed fraction use decimal arithmetic on stake and are parameters;
  whether staking lets a slash through is a parameter too.
- The provider's queueing, sending and acknowledging of validator set packets, and its snapshots on rotation; acks
  enter as the time of the last one.
- Other denominations in a fee pool, per-consumer fee overrides, and the floor on deposits.
- Ownership and authority of messages, metadata, chain ids of consumers before launch, parameter validation.
- Light client misbehaviour: a frozen client is an input of the block.
- Historical info, the staleness clock of the consumer, `MsgSetProviderClient`, events, queries and logs.
- Store, codec, bank and IBC failures other than those named in a contract.
- Undecodable public keys are the negative integers; addresses are natural numbers; heights and
  amounts do not overflow.

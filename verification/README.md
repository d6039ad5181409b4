# Queue-as-a-service: the delivery engine, verified

A Dafny model of the core of `qaas-core`: the durable, lease-based consumer group with its
dead-letter queue, the write-ahead log under both, the sliding-window budgets, and the smaller
state machines beside them (Raft log store and snapshots, priority queue, circuit breaker, retry
policy), with proofs of what they promise over every run.

Check the whole project with `dafny verify dfyconfig.toml`.

## How the model is laid out

- `Messages.dfy` holds the data and what replaying the two logs rebuilds. `Steps.dfy` is the
  transition system: every lock section and every log append is one step, a call in the middle of
  its work is a task, any task may move next, an append may fail, and a crash keeps only the logs.
- `Census.dfy`, `Durability.dfy`, `Provenance.dfy`, `Partition.dfy`, `Keys.dfy`, `Leases.dfy`,
  `Delivery.dfy`, `Recovery.dfy` and `Ordering.dfy` prove what all step-level runs keep; each counts
  something (copies, places, holders, tokens, claims) and shows that every step balances it.
  `Claims.dfy` says which message a claim takes and how long it holds it, `Exhaustion.dfy` when a
  message becomes a dead letter.
  `Losses.dfy` and `KeySplits.dfy` say exactly when a crash loses a message, when a restart forgets a
  key and when a crash splits one, `Overlaps.dfy` when verdicts and checkpoints survive interleaving;
  `Witnesses.dfy` reaches each of the exceptions.
- `Serial.dfy`, `Registry.dfy`, `SerialRuns.dfy` and `SerialTheorems.dfy` are about runs of
  completed calls with restarts between them, where recovery is exact and its two exceptions (the
  keys of purged messages, the checkpoints of reprocessed ones) are characterised. `Wake.dfy`
  covers the claim loop's wake time, `Faults.dfy` completed calls one of whose appends fails.
- `ConsumerGroup.dfy` has the two objects as the program has them: fields changed in place, replay
  loops, drain loops. Each method is proved equal to the completed call of the step system, and its
  effect on the fields is stated beside that in its own terms.
- `Wal.dfy`, `Admission.dfy`, `Quota.dfy`, `Retry.dfy`, `RaftLog.dfy`, `RaftReplica.dfy`,
  `PriorityQueue.dfy`, `PersistentPriorityQueue.dfy` and `CircuitBreaker.dfy` each hold one part: a
  specification, theorems over all its runs, and the object proved against the specification.

## Where the code and its documentation differ

The model follows the code.

- `purge_dead_letter` is documented to release the message's key. It does until the next restart;
  purging writes nothing to the main log, so replay registers the key to the purged id again
  (`PurgedKeyComesBack`).
- Reprocessing starts a message over without its checkpoint, but the Checkpoint record is still in
  the main log, so a restart resumes it from there (`RecoveredCheckpointCanDiffer`).
- `has_headroom` is documented to return false only after a ceiling was lowered. It also returns
  false when usage equals a ceiling exactly (`HeadroomEndsAtTheCeiling`).
- `set_config` is documented to measure recorded usage against the new window; usage evicted under
  a shorter window is already gone when the window is lengthened (`LengtheningLosesEntries`).
- An ack releases the key before its record is durable. A crash in between can leave two messages
  under one key, and even without a crash the Ack record can land after the next holder's Enqueue
  record, so that a restart forgets the next holder's key, and one more message may take it
  (`CrashSplitsKeyExactly`, `RestartRegistersExactly`).
- A lease is documented to end by ack, nack or expiry. After a crash in the middle of a burial the
  message is both pending and a dead letter; reprocessed, it is pending twice, and claiming the
  second copy overwrites the lease on the first (`ClaimOverwritesLease`, `RunLeaseEndsExactly`).
- `annotate` is documented to have one race, with a removal. Two calls at once can also leave one
  verdict in memory and the other in the log (`RestartSwapsVerdict`).
- A lease token is documented to mean nothing after a restart, but nothing refuses one: the counter
  starts over, and a token carried over from before is accepted when the number fits
  (`OldTokenDecides`).
- Reprocessing writes Remove to the dead-letter log before Enqueue to the main one, so a crash or a
  failed append in between loses the message (`CrashLosesExactly`).

## Model

| member | source | states |
|---|---|---|
| `Durability.StepKeepsCopies` | crates/qaas-core/src/consumer_group.rs:410-461 | Every step of every interleaving keeps, for each id, the copies in memory plus the removals not yet logged at or below the copies the main log replays to, and the gap between the two is unchanged by any step that is not a crash, a failed append or an overwritten lease. |
| `Durability.StepKeepsNoLoss` | crates/qaas-core/src/consumer_group.rs:573-602 | A step never loses the last durable trace of a logged message: it stays acknowledged, purged, in the dead-letter log, in the main log with a copy to spare for any burial under way, or caught in a reprocess gap, now or by a crash or failed append no restart has undone. |
| `Durability.RunKeepsNoLoss` | crates/qaas-core/src/consumer_group.rs:394-476 | The same after every run of steps, with crashes, restarts and failed appends anywhere in it. |
| `Durability.CrashRecoversEveryMessage` | crates/qaas-core/src/consumer_group.rs:394-476 | After a crash at any step of any run, failed appends and earlier crashes included, a message whose Enqueue was written and which has no Ack record and no durable purge is recovered, with its own id, key and item, as pending or as a dead letter, if and only if it is not caught in a reprocess gap; only a re-Enqueue in flight, or one cut off earlier and not recovered since, catches it. |
| `Losses.CrashLosesExactly` | crates/qaas-core/src/consumer_group.rs:1225-1235 | After any run without failed appends whose restarts came between calls, a crash at any step loses a logged message that was neither acknowledged nor purged if and only if a reprocess is between its Remove and its re-Enqueue and no DeadLettered record of the message is outstanding. |
| `Witnesses.CrashInReprocessLoses` | crates/qaas-core/src/consumer_group.rs:1225-1235 | A reachable group in which that crash recovers nothing of the message. |
| `Witnesses.BurialOutstandingSaves` | crates/qaas-core/src/consumer_group.rs:1101-1114 | A reachable group in which the same crash recovers it, the DeadLettered record still to be written. |
| `Provenance.RunKeepsTraceable` | crates/qaas-core/src/consumer_group.rs:869-896 | Over every run, everything held or logged is a message that was really created, and memory is never ahead of the log: a checkpoint anywhere in memory has a Checkpoint record. |
| `Recovery.StepKeepsExact` | crates/qaas-core/src/consumer_group.rs:1092-1128 | A step that is neither a crash nor a failed append keeps the live and the logged state in exact agreement, copy by copy and letter by letter, in-flight calls accounted for. |
| `Recovery.RestartRecoversExactly` | crates/qaas-core/src/consumer_group.rs:394-476 | After any run without failed appends that stops, as at each earlier restart, with no call in flight, reopening lists exactly the live pending, leased and delayed messages, each once, with delivery count zero, and exactly the live dead letters up to triage verdicts, however the calls interleaved. |
| `Ordering.SurvivorsTrack` | crates/qaas-core/src/consumer_group.rs:410-449 | For any main log whatever, replay's pending entries come in log order of the Enqueue records they stem from, and an Enqueue later than a surviving one of the same id survives too. |
| `Ordering.SoleSurvivorIsLatest` | crates/qaas-core/src/consumer_group.rs:410-449 | An id replay lists once is listed by its latest Enqueue record. |
| `Ordering.RecoveryOrder` | crates/qaas-core/src/consumer_group.rs:410-449 | After any such run, recovered messages are ordered by each id's latest Enqueue record. |
| `SerialTheorems.RestartRecoversAll` | crates/qaas-core/src/dead_letter.rs:150-169 | After any run of completed calls and restarts, reopening gives the dead-letter map equal to the live one, triage verdicts included, and every live message once, undelivered. |
| `SerialTheorems.CallsAreSteps` | crates/qaas-core/src/consumer_group.rs:667-721 | Every run of completed calls is a run of single steps without failed appends, so all step-level results hold of it. |
| `Keys.StepKeepsRegistered` | crates/qaas-core/src/consumer_group.rs:535-554 | Every step short of a crash keeps each held key registered to its holder, in-flight enqueues, failures, reprocesses and dead letters included. |
| `Keys.KeyHasOneHolder` | crates/qaas-core/src/consumer_group.rs:535-554 | In every crash-free interleaving at most one place in the whole group holds a given producer key, and the key is registered to the message there. |
| `Keys.CreationsMatchReleases` | crates/qaas-core/src/consumer_group.rs:741-760 | In every crash-free interleaving the messages created under a key are the messages released from it, plus one exactly while the key is registered: any number of racing enqueues create at most one message between releases. |
| `KeySplits.StepKeepsKeyed` | crates/qaas-core/src/consumer_group.rs:535-554 | Every step short of a crash and a failed append keeps held keys registered to their holders, each registered key that of the message that enqueued it last or is about to, and replay in step with the log's acknowledgements, where they were so before. |
| `KeySplits.RestartRegistersExactly` | crates/qaas-core/src/consumer_group.rs:412-461 | After any interleaved run without failed appends, its restarts between calls and whatever they forgot, a restart with no call in flight leaves a live message's key registered to it if and only if no dead letter is under the key, the message was the last to enqueue it, and no Ack of an earlier holder followed in the main log. |
| `KeySplits.RestartRegistersLetters` | crates/qaas-core/src/consumer_group.rs:456-461 | After any such run it leaves a dead letter's key registered to it if and only if the letter is the last under the key that the map iterates. |
| `KeySplits.RestartKeepsKeysExactly` | crates/qaas-core/src/consumer_group.rs:394-476 | After any such run a restart leaves every recovered key registered to its holder if and only if every live message owns its key in that sense and no two dead letters share one. |
| `KeySplits.ReopenedKeyExactly` | crates/qaas-core/src/consumer_group.rs:535-554 | After such a restart an enqueue under a live message's key creates another holder if and only if no dead letter is under the key and an Ack of a holder followed its latest Enqueue. |
| `KeySplits.RegisteredExactly` | crates/qaas-core/src/consumer_group.rs:394-476 | In any interleaved run with restarts between calls and no failed append, every held key is registered to its holder at all times if and only if every restart found no live message's key acknowledged away. |
| `KeySplits.OrderlyKeysAreUnique` | crates/qaas-core/src/consumer_group.rs:535-554 | In such a run at most one place in the group holds a given key, restarts included. |
| `KeySplits.CrashSplitsKeyExactly` | crates/qaas-core/src/consumer_group.rs:741-763 | In such a run a crash at any step recovers two messages under one key if and only if one of them is gone from memory with its Ack or DeadLettered record outstanding and the logs answer for the other. |
| `KeySplits.CrashRecoversTwoExactly` | crates/qaas-core/src/consumer_group.rs:394-476 | Whatever its restarts found, a crash at any step after a run without failed appends and with restarts between calls recovers two messages under one key if and only if memory or calls in flight stand for two of them in the logs. |
| `Witnesses.CrashInAckSplitsKey` | crates/qaas-core/src/consumer_group.rs:741-763 | A reachable group, an ack in flight, whose crash recovers two messages under one key. |
| `Witnesses.CrashAfterPurgeSplitsKey` | crates/qaas-core/src/consumer_group.rs:1246-1254 | Another without any acknowledgement: a purged message, its burial outstanding, comes back beside the one that took its key. |
| `Witnesses.RestartCanForgetKey` | crates/qaas-core/src/consumer_group.rs:412-438 | A reachable group with no call in flight whose restart forgets the key of a pending message, because the Ack of the earlier holder was written after its Enqueue; a third message takes the key. |
| `Witnesses.RestartLeavesKeyToAnother` | crates/qaas-core/src/consumer_group.rs:412-438 | Continuing it: a second restart, no call in flight and no Ack after the latest Enqueue, leaves the key of the still pending message to the third. |
| `SerialTheorems.KeysStayUnique` | crates/qaas-core/src/consumer_group.rs:394-476 | Where calls run one at a time, uniqueness survives every restart between them. |
| `SerialTheorems.RestartRecoversKeys` | crates/qaas-core/src/consumer_group.rs:412-461 | For runs of completed calls, a key is registered after a restart if and only if it was before or the last message to enqueue it was purged, and always to the last message that enqueued it. |
| `SerialTheorems.RegistrySurvivesUnlessPurged` | crates/qaas-core/src/consumer_group.rs:412-461 | The recovered registry equals the live one if and only if no purged message was the last to enqueue a key that is now free. |
| `SerialTheorems.PurgedKeyComesBack` | crates/qaas-core/src/consumer_group.rs:1246-1254 | Purging a keyed dead letter frees its key until the next restart and no longer; after the restart an enqueue under it is answered with the purged id. |
| `SerialTheorems.RecoveredRegistryCanDiffer` | crates/qaas-core/src/consumer_group.rs:1246-1254 | A concrete reachable group whose registry a restart changes. |
| `Registry.HeldKeysReplay` | crates/qaas-core/src/consumer_group.rs:412-430 | A key held by a live message or dead letter is in the replayed registry, to the same holder. |
| `SerialRuns.RecoveredRegistry` | crates/qaas-core/src/consumer_group.rs:456-461 | In serial runs seeding from the dead letters adds nothing to the replayed registry. |
| `Partition.StepKeepsPlaces` | crates/qaas-core/src/consumer_group.rs:667-721 | Every step short of a crash keeps each live id in exactly one place and every other id in none. |
| `Partition.EveryMessageIsSomewhereOnce` | crates/qaas-core/src/consumer_group.rs:667-721 | In every crash-free run a created id that was not acknowledged, purged or dropped by a failed append is at exactly one position of pending, delayed, the lease map, the dead-letter map or the in-flight calls, and any other id is nowhere. |
| `Leases.RunKeepsLeases` | crates/qaas-core/src/consumer_group.rs:683-708 | Over every run, tokens of held leases are distinct, each was issued for the message it leases, and within each process each token is issued once, resolved at most once and never both resolved and outstanding. |
| `Leases.TokenIssuedAndResolvedOnce` | crates/qaas-core/src/consumer_group.rs:741-819 | In the lease history of each process of every run no token is issued twice and none is resolved twice: of ack, nack and expiry at most one ever takes effect. |
| `Leases.TokenDecides` | crates/qaas-core/src/consumer_group.rs:741-940 | An ack, nack, checkpoint or published chunk takes effect if and only if the lease held on that id now carries that token. |
| `Leases.OldTokenDecides` | crates/qaas-core/src/consumer_group.rs:468-475 | The counter starts over at each restart, so a token of an earlier process takes effect if and only if the lease now held on its id carries the same number, and then on the running process's lease. |
| `Witnesses.TokenComesBack` | crates/qaas-core/src/consumer_group.rs:468-475 | A reachable group in which it does. |
| `Leases.StaleResolutionChangesNothing` | crates/qaas-core/src/consumer_group.rs:741-819 | An ack or nack without the token of the lease held on that id leaves the whole system unchanged, although the lease is taken out and put back. |
| `Leases.StaleWriteChangesNothing` | crates/qaas-core/src/consumer_group.rs:869-940 | The same for a checkpoint or a published chunk: without the token of the lease held nothing changes, not even the log. |
| `Leases.RunLeaseEndsExactly` | crates/qaas-core/src/consumer_group.rs:683-708 | Over every run, crashes and failed appends included, a step other than a crash ends a held lease if and only if it is its own ack or nack, a reclaim at or after its expiry, or a claim whose front is another copy of the same message; being past expiry alone does not end it. |
| `Leases.LeaseOutlivesExpiry` | crates/qaas-core/src/consumer_group.rs:994-1017 | In crash-free runs the last case does not arise: only its own ack or nack, or a reclaim at or after its expiry, ends a lease. |
| `Witnesses.ClaimOverwritesLease` | crates/qaas-core/src/consumer_group.rs:683-708 | A reachable group in which it does: a crash in mid-burial and a reprocess leave a message pending twice, and a plain claim of the second copy overwrites the unexpired lease on the first. |
| `Delivery.RunKeepsPaced` | crates/qaas-core/src/consumer_group.rs:1092-1128 | With max_attempts = n, in every crash-free and reprocess-free run each id's delivery count is its true number of claims, at most max(1, n) while leased or failing and below it while pending or delayed. |
| `Delivery.ClaimsAreBounded` | crates/qaas-core/src/consumer_group.rs:667-721 | In every such run the number of claims is at most the number of created messages times max(1, n). |
| `Delivery.SpentClaimsLeaveNothingWaiting` | crates/qaas-core/src/consumer_group.rs:1092-1128 | Once that many claims were made nothing is pending or delayed: no further claim is possible. |
| `Exhaustion.LettersUsedEveryClaim` | crates/qaas-core/src/retry.rs:101-103 | With max_attempts = n, in every crash-free and reprocess-free run every dead letter, in the map, in the log or on its way into or out of either, carries the true number of claims of its message, and that number is exactly max(1, n): none is made a claim early. |
| `Exhaustion.FailedDeliveryWaitsOrDies` | crates/qaas-core/src/consumer_group.rs:1092-1128 | In every such run a failed delivery carries the true number of claims, between 1 and max(1, n); below n it goes back to wait for the policy's delay with its count and checkpoint, and no letter is written, from n on it becomes a letter with the reason given and does not wait. |
| `Exhaustion.NoLimitNoLetters` | crates/qaas-core/src/retry.rs:101-103 | Without max_attempts no run at all, crashes and reprocessing included, ever makes a dead letter. |
| `Claims.FirstComeFirstClaimed` | crates/qaas-core/src/consumer_group.rs:683-708 | In any crash-free run from any group, whatever nacks, retries, enqueues and reprocesses come between, the messages pending at the start are claimed in their order and before any other, under consecutive tokens, and what is not yet claimed stays at the front. |
| `Claims.LeaseDatesFromItsClaim` | crates/qaas-core/src/consumer_group.rs:690-704 | In every run, crashes included, a held lease still has the message, token, count and expiry of the claim that made it: the front of the queue, its count plus one, the claim's instant plus the visibility timeout. |
| `Claims.LeaseExpiresOnTime` | crates/qaas-core/src/consumer_group.rs:994-1017 | So a lease claimed at t is reclaimed by a reclaim at now if and only if t plus the visibility timeout is not after now. |
| `Claims.PromotionKeepsOrder` | crates/qaas-core/src/consumer_group.rs:1135-1155 | Promotion treats delayed entries one by one and in order: promoting a concatenation is promoting its parts. |
| `Claims.PromotionOfOne` | crates/qaas-core/src/consumer_group.rs:1135-1155 | And an entry is promoted, with its count and checkpoint, exactly from its retry time on. |
| `Retry.DelayWithinBounds` | crates/qaas-core/src/retry.rs:83-119 | Whatever the multiplier, the jitter and the draw, the delay lies between zero and max_delay: within the jitter band below the capped delay, or zero where a negative multiplier makes that negative. |
| `Retry.DelayNeverShrinks` | crates/qaas-core/src/retry.rs:83-119 | Without jitter and with multiplier at least one, the delay is non-decreasing in the delivery count. |
| `Retry.DelayMultiplies` | crates/qaas-core/src/retry.rs:83-93 | Without jitter and with multiplier at least one, a base delay within the cap is the first delay and, for up to thirty-two further failures below the cap, each multiplies the delay by the multiplier. |
| `Retry.RaisedMultiplies` | crates/qaas-core/src/retry.rs:84-89 | Before the cap, the first failure waits the base delay, each of the next thirty-two multiplies it, and then it stays. |
| `Retry.JitterSpreadsEvenly` | crates/qaas-core/src/retry.rs:115-119 | The draw moves the delay evenly from (1 - jitter) of the capped delay up to it, the jitter clamped to between 0 and 1. |
| `SerialTheorems.RestartRecoversCheckpoint` | crates/qaas-core/src/consumer_group.rs:409-450 | After any run of completed calls a restart gives a live message exactly its live checkpoint if and only if it was not re-enqueued from the dead-letter queue since its last logged checkpoint. |
| `Overlaps.RestartRecoversVerdict` | crates/qaas-core/src/dead_letter.rs:270-288 | After any interleaved run without failed appends, its restarts between calls, in which annotate calls on a letter never overlap each other or its taking, a restart with no call in flight brings the letter back whole, triage verdict included. |
| `Witnesses.RestartSwapsVerdict` | crates/qaas-core/src/dead_letter.rs:270-288 | A reachable group, two annotate calls having overlapped, whose restart brings back the other verdict. |
| `Overlaps.RestartRecoversCheckpoint` | crates/qaas-core/src/consumer_group.rs:869-896 | After any such run in which checkpoint calls on a message never overlap each other or the end of their lease, a restart with no call in flight brings back a live message's checkpoint if and only if it was not re-enqueued from the dead-letter queue since the last one was written. |
| `Witnesses.RestartFindsLateCheckpoint` | crates/qaas-core/src/consumer_group.rs:883-895 | A reachable group, a checkpoint call having outlived its lease, whose restart brings back a checkpoint the live message does not have. |
| `SerialTheorems.NeverReprocessedNeverStale` | crates/qaas-core/src/consumer_group.rs:869-896 | A message never reprocessed is never in that exception, through any nacks, expiries and restarts. |
| `SerialTheorems.RecoveredCheckpointCanDiffer` | crates/qaas-core/src/consumer_group.rs:592-598 | A concrete reachable group in which a reprocessed message has no checkpoint in memory and its old one again after a restart. |
| `Wake.PassChangesExactly` | crates/qaas-core/src/consumer_group.rs:671-719 | With nothing pending, whatever its clock readings, a claim pass changes the group if and only if a lease has expired when it reclaims or a delayed entry is due when it promotes. |
| `Wake.WakeIsExact` | crates/qaas-core/src/consumer_group.rs:671-719 | With nothing pending, a pass that reads the clock before the earliest lease expiry or retry time throughout changes nothing, one that reclaims from then on changes something, and at a single reading it is an equivalence. |
| `Wake.NotDueIsUntouched` | crates/qaas-core/src/consumer_group.rs:671-719 | In any group with no call in flight, a claim pass leaves every delayed entry not due when it promotes where it was, and a lease not expired when it reclaims as it was if and only if it does not lease the same message (issued tokens being below the counter, as over every run). |
| `Wake.InPlaceIsUntouched` | crates/qaas-core/src/consumer_group.rs:994-1017 | Where every message is in one place, as in runs of completed calls, no pass touches an unexpired lease. |
| `ConsumerGroups.DeadLetterQueue.Open` | crates/qaas-core/src/dead_letter.rs:150-169 | The replay loop builds the map the log describes, each letter under its own id. |
| `ConsumerGroups.DeadLetterQueue.Add` | crates/qaas-core/src/dead_letter.rs:177-186 | One record appended and one letter filed, or the append's error and no change. |
| `ConsumerGroups.DeadLetterQueue.Take` | crates/qaas-core/src/dead_letter.rs:239-246 | The letter if there is one leaves the map; a Remove record is written only then, and when that fails the letter stays out of memory. |
| `ConsumerGroups.DeadLetterQueue.Classify` | crates/qaas-core/src/dead_letter.rs:270-288 | The verdict in the log and on the letter if there is one, nothing if there is none or the append fails. |
| `ConsumerGroups.ReplayRecords` | crates/qaas-core/src/consumer_group.rs:408-447 | The replay loop computes the specification's replay, record by record. |
| `ConsumerGroups.HandOutCheckpoints` | crates/qaas-core/src/consumer_group.rs:448-450 | Each pending entry gets its id's latest checkpoint, handed out once. |
| `ConsumerGroups.SeedFromDlq` | crates/qaas-core/src/consumer_group.rs:456-461 | Registers every dead letter's key, in whatever order the map iterates. |
| `ConsumerGroups.SplitDelayed` | crates/qaas-core/src/consumer_group.rs:1135-1155 | The promotion loop splits the delayed entries at the given time, keeping their order. |
| `ConsumerGroups.SplitExpired` | crates/qaas-core/src/consumer_group.rs:1000-1017 | Exactly the leases expired at the given time leave the map, each as one failed delivery with its message, count and checkpoint and the expiry reason. |
| `ConsumerGroups.EarliestWake` | crates/qaas-core/src/consumer_group.rs:1161-1165 | The result is the minimum over all lease expiries and retry times, none if there are none. |
| `ConsumerGroups.ConsumerGroup.Open` | crates/qaas-core/src/consumer_group.rs:394-476 | Opening the logs of any previous system gives the system its crash step leads to, reachable by completed calls if the previous one was. |
| `ConsumerGroups.ConsumerGroup.EnqueueMessage` | crates/qaas-core/src/consumer_group.rs:535-602 | The whole call equals its steps run to completion, or up to the failed append, which gives the key back; field by field, a taken key is answered with its id and nothing changes, otherwise one record is logged and the message is last in pending, undelivered. |
| `ConsumerGroups.ConsumerGroup.AckMessage` | crates/qaas-core/src/consumer_group.rs:741-763 | The whole call equals its steps, the append written or failed; exactly under the token of the lease held it removes that lease and its key and logs the ack, and otherwise nothing changes. |
| `ConsumerGroups.ConsumerGroup.ResolveFailedDelivery` | crates/qaas-core/src/consumer_group.rs:1092-1128 | When there is a limit and the count has reached it, a letter with the delivery's message, count, checkpoint and reason, no verdict and this instant goes to both logs as far as the two appends succeed; otherwise the message waits for the policy's delay with its count and checkpoint; nothing else changes, and it errs exactly when an append fails. |
| `ConsumerGroups.ConsumerGroup.NackMessage` | crates/qaas-core/src/consumer_group.rs:785-819 | The whole call equals its steps, resolution of the failed delivery included, on whatever disk it meets; under the token held the lease goes, and its message waits or is a dead letter with the reason given, as the count and the limit say, otherwise nothing changes. |
| `ConsumerGroups.ConsumerGroup.ClaimPass` | crates/qaas-core/src/consumer_group.rs:667-721 | Reclaim, resolve, promote and lease equal the pass's steps, failed appends not stopping it; a claim comes back if and only if the promoted queue is not empty and carries, field by field, that queue's front, one more delivery, a fresh token and the producer's key or else one derived from the id, and the front leaves the queue for a lease to last the visibility timeout; the token counter moves exactly then. |
| `ConsumerGroups.ConsumerGroup.SaveCheckpoint` | crates/qaas-core/src/consumer_group.rs:869-896 | The whole call equals its steps; exactly under the token of the lease held the state is logged and put on the lease, and a failed append changes nothing. |
| `ConsumerGroups.ConsumerGroup.PublishPartialResult` | crates/qaas-core/src/consumer_group.rs:919-940 | Under the token of the lease held, a chunk with the next sequence number, the data and the final mark given ends the lease's stream, and nothing else changes; no effect otherwise. |
| `ConsumerGroups.ConsumerGroup.ReprocessDeadLetter` | crates/qaas-core/src/consumer_group.rs:1225-1235 | The whole call equals its steps, whichever of its two appends fails; when both are written the letter is gone and its message last in pending with no deliveries and no checkpoint, and when only the second fails its key is released. |
| `ConsumerGroups.ConsumerGroup.PurgeDeadLetter` | crates/qaas-core/src/consumer_group.rs:1246-1254 | The whole call equals its steps, the Remove append written or failed; the letter leaves, and once the append is written its key is released; pending, leases, delays and the main log stay. |
| `ConsumerGroups.ConsumerGroup.AnnotateDeadLetter` | crates/qaas-core/src/consumer_group.rs:1204-1210 | The whole call equals its steps; when the letter exists and the append is written the log and the letter have the verdict, otherwise nothing changes. |
| `Faults.FalterReaches` | crates/qaas-core/src/consumer_group.rs:580-585 | A call one of whose appends fails is a run of single steps, so all that holds of every run holds after it. |
| `Faults.DrainOnReaches` | crates/qaas-core/src/consumer_group.rs:1101-1114 | So is a batch of failed deliveries some of whose appends fail. |
| `Faults.ReviveFailsLoses` | crates/qaas-core/src/consumer_group.rs:573-585 | A reprocess whose re-Enqueue fails leaves the message in neither log's replay, where live and logged state agreed before. |
| `Faults.ReviveFailsIs` | crates/qaas-core/src/consumer_group.rs:573-585 | And its state is the one before, the letter out of memory and off the dead-letter log, the key released. |
| `Faults.AckFailsIs` | crates/qaas-core/src/consumer_group.rs:741-763 | An ack whose append fails has released the lease and the key all the same. |
| `WriteAheadLog.LittleEndianRoundTrip` | crates/qaas-core/src/wal.rs:137-140 | Reading a u32 back from its four little-endian bytes gives it again. |
| `WriteAheadLog.ValidLengthIsBoundary` | crates/qaas-core/src/wal.rs:119-162 | Whenever replay of any bytes succeeds, its valid length is within them, is reached by whole sound frames, and no sound frame starts there. |
| `WriteAheadLog.TruncationHeals` | crates/qaas-core/src/wal.rs:106-114 | Replaying any input truncated to its valid length gives the same records and the same length. |
| `WriteAheadLog.AppendAfterHealing` | crates/qaas-core/src/wal.rs:172-191 | Appending a record to any healed input and replaying gives the old records followed by the new one. |
| `WriteAheadLog.FramesRoundTrip` | crates/qaas-core/src/wal.rs:172-191 | Any sequence of records that fit the length prefix replays as itself, to the byte. |
| `WriteAheadLog.TornTailRoundTrip` | crates/qaas-core/src/wal.rs:119-162 | Any strict prefix of one further frame costs nothing but that frame: the complete records and their exact length come back. |
| `WriteAheadLog.CorruptFrameStopsReplay` | crates/qaas-core/src/wal.rs:148-153 | After any fitting records, a complete frame whose checksum word is not its payload's checksum ends replay where it starts, whatever its payload would decode to and whatever follows: the records before it and their exact length come back. |
| `WriteAheadLog.ReplayedAreFramed` | crates/qaas-core/src/wal.rs:119-162 | For any bytes whatever, the records replayed are the decodings of consecutive slices of the file, each the little-endian length word, the checksum word and the payload an append would have written, and no such slice follows where they end. |
| `WriteAheadLog.FramedAreReplayed` | crates/qaas-core/src/wal.rs:119-162 | Conversely a file that starts with such slices, and has no further one after them, replays to exactly their records and length. |
| `WriteAheadLog.FailsOnUndecodable` | crates/qaas-core/src/wal.rs:155-156 | Replay fails if and only if such slices that decode are followed by one that does not. |
| `WriteAheadLog.LittleEndianIs` | crates/qaas-core/src/wal.rs:137-140 | The first byte written of a u32 is the least significant. |
| `WriteAheadLog.LittleEndianInverse` | crates/qaas-core/src/wal.rs:137-140 | Any four bytes are written back as they were read. |
| `WriteAheadLog.FileReader.ReadExactOrEof` | crates/qaas-core/src/wal.rs:66-76 | Whatever chunk sizes the reads return, the buffer holds the next bytes, and full, short and clean end are told apart exactly. |
| `WriteAheadLog.ReadFrame` | crates/qaas-core/src/wal.rs:131-153 | Yields a payload if and only if a complete frame with a matching checksum starts at the reader's position, which `OpensExactly` shows is the slice an append of that payload writes. |
| `WriteAheadLog.OpensExactly` | crates/qaas-core/src/wal.rs:131-153 | The slice an append of a payload writes stands at a position if and only if a complete frame with a matching checksum and that payload starts there. |
| `WriteAheadLog.ReplayFile` | crates/qaas-core/src/wal.rs:119-162 | The replay loop over a chunked file computes the replay that the slice-by-slice theorems characterise, decode errors included. |
| `WriteAheadLog.OpenWal` | crates/qaas-core/src/wal.rs:106-114 | Opening truncates the file to exactly the valid length and returns the replayed records, or the decode error. |
| `WriteAheadLog.Wal.AppendRecord` | crates/qaas-core/src/wal.rs:172-191 | An append adds one frame and one record, or refuses exactly a payload of 2^32 bytes or more and changes nothing. |
| `Admission.DequeAgreesExactly` | crates/qaas-core/src/admission.rs:189-213 | Over any call history, windows lengthened and shortened at will, the deque evicted at a time is the full admission history filtered by age if and only if every admission it has lost is out of the current window by then. |
| `Admission.ReconfigureAgreesExactly` | crates/qaas-core/src/admission.rs:174-176 | A new configuration keeps that agreement at all later times if and only if its window does not reach back to an admission already evicted. |
| `Admission.DequeAgreesWithHistory` | crates/qaas-core/src/admission.rs:189-213 | So over any history of such configurations, shortened windows among them, the deque is always the filtered history. |
| `Admission.LengtheningLosesEntries` | crates/qaas-core/src/admission.rs:174-176 | Lengthening the window breaks it: a concrete history whose evicted entry does not come back. |
| `Admission.WindowNeverOverspends` | crates/qaas-core/src/admission.rs:253-298 | Under one configuration, for every time t the tokens admitted in (t - window, t], counted without saturation, never exceed a limit below u64::MAX, nor the cost a non-negative ceiling. |
| `Admission.AdmitsExactlyWhatFits` | crates/qaas-core/src/admission.rs:253-298 | Over any proper call history a request is admitted if and only if what the window ending now admitted, together with it, is within both ceilings, tokens saturated at u64::MAX; then both remaining budgets are the ceiling minus that sum and it joins the history; a refusal names the first ceiling exceeded with the sum, and hints at how long the oldest admission stays in the window exactly when the request alone would fit. |
| `Admission.RetryAfterIsExact` | crates/qaas-core/src/admission.rs:209-213 | Waiting the hint or longer puts the oldest entry out of the window, waiting less does not. |
| `Admission.HeadroomIsBelowBothCeilings` | crates/qaas-core/src/admission.rs:236-246 | Over any proper call history, ceilings lowered or not, has_headroom is true if and only if what the window ending now admitted is below both ceilings. |
| `Admission.HeadroomEndsAtTheCeiling` | crates/qaas-core/src/admission.rs:236-246 | Under one configuration, has_headroom is false if and only if usage exactly equals a ceiling. |
| `Admission.EvictExpired` | crates/qaas-core/src/admission.rs:189-197 | The eviction loop drops exactly the stale front. |
| `Admission.SumUsage` | crates/qaas-core/src/admission.rs:200-204 | The fold computes the saturated token sum and the cost sum. |
| `Admission.AdmissionController.Reconfigure` | crates/qaas-core/src/admission.rs:174-176 | Replaces the configuration, keeps the entries. |
| `Admission.AdmissionController.CheckHeadroom` | crates/qaas-core/src/admission.rs:236-246 | Evicts, then reports whether what the window ending now admitted is below both ceilings. |
| `Admission.AdmissionController.Admit` | crates/qaas-core/src/admission.rs:253-298 | The verdict, the remaining budgets, the hint and the new deque are those of the specification, and so, while the deque has lost nothing that counts, the verdict is the one on the filtered history; the token subtraction never underflows. |
| `Quota.VerdictsAgreeExactly` | crates/qaas-core/src/quota.rs:207-233 | On the same record, for any limit, try_acquire and try_admit(1, 0) give the same verdict, remaining count and hint if and only if fewer than u64::MAX requests are held. |
| `Quota.QuotaIsAdmission` | crates/qaas-core/src/quota.rs:207-233 | Over any call history, limits and windows changing between calls or not, every verdict of try_acquire is that of try_admit(1, 0) under the same token limit if and only if no call finds u64::MAX requests held. |
| `Quota.LowerLimitsAreCountable` | crates/qaas-core/src/quota.rs:217-232 | Under limits below u64::MAX none ever does. |
| `Quota.RequestRetryAfterIsExact` | crates/qaas-core/src/quota.rs:186-190 | Waiting the hint or longer puts the oldest request out of the window, waiting less does not. |
| `Quota.TenantQuota.EvictExpired` | crates/qaas-core/src/quota.rs:174-182 | The eviction loop drops exactly the stale front. |
| `Quota.TenantQuota.TryAcquire` | crates/qaas-core/src/quota.rs:207-233 | A request is allowed, and put on record, if and only if the requests still in the window are fewer than the limit, and the remaining count is what is then left of it; a refusal has the count it would make and a hint unless the limit is zero; without a limit all are allowed and none is recorded. |
| `RaftLog.StepRefines` | crates/qaas-core/src/raft/log_store.rs:62-100 | Every append, truncation or purge that respects the library's contract keeps the store hole-free above the purged id, and does to the reference journal what it should. |
| `RaftLog.RunRefines` | crates/qaas-core/src/raft/log_store.rs:62-100 | The same over every mix of such operations. |
| `RaftLog.FreshRunReportsTrueLast` | crates/qaas-core/src/raft/log_store.rs:42-47 | After every such run on a new store, get_log_state reports the purged id and the true last id, and nothing else qualifies. |
| `RaftLog.RangeIsSlice` | crates/qaas-core/src/raft/log_store.rs:30-36 | Reading a range above the purged id gives exactly that slice of the journal. |
| `RaftLog.PurgedNeverGoesBack` | crates/qaas-core/src/raft/log_store.rs:89-100 | Whatever is called, respecting the contract or not, last_purged never moves to a smaller id. |
| `RaftLog.LogIdOrder` | crates/qaas-core/src/raft/log_store.rs:89-100 | Log ids compare by term, then node, then index. |
| `RaftLog.LastInsertedWins` | crates/qaas-core/src/raft/log_store.rs:62-82 | Whatever entries are inserted, an index holds the last one inserted under it, and otherwise what it held. |
| `RaftLog.LogStore.AppendEntries` | crates/qaas-core/src/raft/log_store.rs:62-82 | The insertion loop computes the specification; the vote and last_purged are untouched. |
| `RaftLog.LogStore.TruncateFrom` | crates/qaas-core/src/raft/log_store.rs:84-87 | Keeps exactly the entries below the index. |
| `RaftLog.LogStore.PurgeUpTo` | crates/qaas-core/src/raft/log_store.rs:89-100 | Keeps exactly the entries above the index with what they held, and raises last_purged only. |
| `RaftLog.LogStore.GetLogState` | crates/qaas-core/src/raft/log_store.rs:42-47 | The last id is that of the entry with the greatest index, or the purged id when there is none. |
| `RaftLog.LogStore.TryGetLogEntries` | crates/qaas-core/src/raft/log_store.rs:30-36 | The entries of the range, in index order. |
| `RaftReplica.KeyHoldsLastWrite` | crates/qaas-core/src/raft/state_machine.rs:123-149 | After applying any entries a key holds the value of the last entry that set it, or what it held before. |
| `RaftReplica.MembershipIsLastChange` | crates/qaas-core/src/raft/state_machine.rs:140-143 | The membership is that of the last membership entry, stamped with its id, or the one before. |
| `RaftReplica.SnapshotRoundTrip` | crates/qaas-core/src/raft/state_machine.rs:161-179 | Installing a built snapshot gives the data it was built from. |
| `RaftReplica.StepKeepsHealthy` | crates/qaas-core/src/raft/state_machine.rs:123-149 | Any append, truncation, purge, application or snapshot install the library may perform leaves a replica's data equal to the state of the whole log at its position. |
| `RaftReplica.RunKeepsHealthy` | crates/qaas-core/src/raft/state_machine.rs:86-179 | The same over every mix of such events. |
| `RaftReplica.ReplicasAgree` | crates/qaas-core/src/raft/state_machine.rs:86-179 | Two replicas of one log, each through its own appends, compactions and snapshots, at the same position hold the same map, last_applied and membership. |
| `RaftReplica.ApplyAnswers` | crates/qaas-core/src/raft/state_machine.rs:123-149 | A batch read from a compacted store is answered as the same entries of the whole log are. |
| `RaftReplica.AnswerIsWhatTheKeyHolds` | crates/qaas-core/src/raft/state_machine.rs:131-146 | Entry by entry of a whole log, a write is answered with the value its key holds in the state right after it, any other entry with none. |
| `RaftReplica.AppliedIsLastId` | crates/qaas-core/src/raft/state_machine.rs:131-134 | last_applied is the id of the last entry applied. |
| `RaftReplica.CompactionPreservesMeaning` | crates/qaas-core/src/raft/state_machine.rs:86-179 | Snapshot after any prefix, purge at or below it, install, apply the retained suffix: the data and the suffix's responses are those of applying the whole log, and nothing purged is left in the store. |
| `RaftReplica.StateMachineStore.ApplyEntries` | crates/qaas-core/src/raft/state_machine.rs:123-149 | The apply loop computes the specification's data, and answers each write with the value its key then holds and anything else with none. |
| `RaftReplica.StateMachineStore.TakeSnapshot` | crates/qaas-core/src/raft/state_machine.rs:86-108 | The snapshot has the current map's encoding, position and membership under a fresh serial; the data is untouched. |
| `RaftReplica.StateMachineStore.Adopt` | crates/qaas-core/src/raft/state_machine.rs:161-179 | Replaces the data by the snapshot's, or changes nothing when it does not decode. |
| `PriorityQueues.HeldEntriesAreStrictlyOrdered` | crates/qaas-core/src/queue/priority.rs:47-56 | On the entries a queue holds, the comparison is a strict total order. |
| `PriorityQueues.GreatestHeadsTopLane` | crates/qaas-core/src/queue/priority.rs:47-56 | The greatest entry is the oldest of its priority, and no higher priority is held. |
| `PriorityQueues.StepRefines` | crates/qaas-core/src/queue/priority.rs:123-190 | One operation of a heap that only promises to pop a greatest entry has the outcome and effect of 256 FIFO lanes drained from the highest non-empty one. |
| `PriorityQueues.FreshRunRefines` | crates/qaas-core/src/queue/priority.rs:123-190 | A new queue, bounded or not, serves every operation sequence exactly as the lanes do. |
| `PriorityQueues.NeverBeyondCapacity` | crates/qaas-core/src/queue/priority.rs:184-186 | In every run of a new bounded queue it never holds more than its capacity, and an item comes back if and only if it is full; an unbounded queue never hands one back. |
| `PriorityQueues.GreatestIsHighestAndOldest` | crates/qaas-core/src/queue/priority.rs:47-56 | A greatest entry has the highest priority held and is the oldest of that priority. |
| `PriorityQueues.PriorityQueue.Offer` | crates/qaas-core/src/queue/priority.rs:144-154 | Accepted at the back of its lane under the next sequence number, or returned, nothing changed, if and only if the queue is at capacity. |
| `PriorityQueues.PriorityQueue.GreatestIndex` | crates/qaas-core/src/queue/priority.rs:174-182 | Finds an entry greater than every other. |
| `PriorityQueues.PriorityQueue.Poll` | crates/qaas-core/src/queue/priority.rs:174-182 | Pops the head of the highest non-empty lane, or nothing. |
| `PersistentPriorityQueues.RestartsAreInvisible` | crates/qaas-core/src/queue/persistent_priority.rs:43-55 | However often it restarts between calls, a durable queue hands out what one that never restarts would. |
| `PersistentPriorityQueues.RecoveredServesSame` | crates/qaas-core/src/queue/persistent_priority.rs:43-55 | After any serial run, a queue rebuilt from the log answers every further operation sequence as the live one does. |
| `PersistentPriorityQueues.UnloggedDequeueIsServedAgain` | crates/qaas-core/src/queue/persistent_priority.rs:96-100 | An item popped whose record never reached the log is the first one served after a restart, if nothing was logged in between. |
| `PersistentPriorityQueues.PersistentPriorityQueue.Open` | crates/qaas-core/src/queue/persistent_priority.rs:43-55 | The replay loop rebuilds the lanes the log leaves behind. |
| `PersistentPriorityQueues.PersistentPriorityQueue.EnqueueItem` | crates/qaas-core/src/queue/persistent_priority.rs:74-83 | Logged, then enqueued at the back of its lane, or neither when the write fails. |
| `PersistentPriorityQueues.PersistentPriorityQueue.DequeueItem` | crates/qaas-core/src/queue/persistent_priority.rs:96-100 | The head of the highest non-empty lane and one Dequeue record; when the write fails the item is out of memory and the log is as before. |
| `CircuitBreakers.RejectsUntilCooldown` | crates/qaas-core/src/circuit_breaker.rs:167-177 | In every interleaving, once opened at t the circuit is found open by every check before t + open_duration, whatever late results were recorded in between; only a failure opens it. |
| `CircuitBreakers.TrialStartsAtCooldown` | crates/qaas-core/src/circuit_breaker.rs:167-177 | The first check from t + open_duration on starts the trial with both counters at zero. |
| `CircuitBreakers.ClosesOnlyAfterTrial` | crates/qaas-core/src/circuit_breaker.rs:186-201 | The circuit closes only at a success completing exactly max(1, half_open_success_threshold) successes, with no failure, since the check that started the trial. |
| `CircuitBreakers.TrialDecides` | crates/qaas-core/src/circuit_breaker.rs:186-221 | The next event of a trial reopens if and only if it is a failure, closes if and only if it is the last success needed, and otherwise leaves the trial on. |
| `CircuitBreakers.OpensOnlyAfterStreak` | crates/qaas-core/src/circuit_breaker.rs:209-221 | A closed circuit opens only at the failure completing exactly max(1, failure_threshold) failures with no success between. |
| `CircuitBreakers.StreakDecides` | crates/qaas-core/src/circuit_breaker.rs:209-221 | And it opens if and only if the streak has reached that number. |
| `CircuitBreakers.CircuitBreaker.CurrentState` | crates/qaas-core/src/circuit_breaker.rs:155-177 | The lazy check computes the specification's step and reports its state. |
| `CircuitBreakers.CircuitBreaker.RecordSuccess` | crates/qaas-core/src/circuit_breaker.rs:186-201 | Computes the specification's step. |
| `CircuitBreakers.CircuitBreaker.RecordFailure` | crates/qaas-core/src/circuit_breaker.rs:209-232 | Computes the specification's step. |

## Left out

- File I/O and fsync: an append succeeds, fails with nothing written, or is cut short by a crash,
  leaving a strict prefix of a frame; an error that leaves partial bytes mid-file is not modelled,
  and the durability results do not cover it.
- Recovery.RestartRecoversExactly: like all results that name clean runs, supposes that no append failed; after
  one, memory and logs differ by design until the next restart, and the durability results apply.
- Keys.KeyHasOneHolder: is about crash-free runs, failed appends included; KeySplits has the exact conditions
  for restarts and crashes.
- Admission.HeadroomEndsAtTheCeiling: assumes a non-negative cost ceiling; under a negative one nothing is ever
  admitted and there is never headroom.
- Quota.TenantQuota.TryAcquire: reports one more than u64::MAX where the program's counter would overflow, with that
  many requests held. A quota without a limit is the plain early return of `try_acquire`.
- Integer widths: delivery counts, lease tokens, log indices and sequence numbers are naturals; the
  u64 saturation of the budgets and the u32 length prefix of the log are modelled.
- Clocks and randomness: each reading is a parameter of its own step, the jitter draw too. Costs,
  delays and instants are reals, without floating-point rounding; negative costs and NaN are out.
- The failed deliveries of one reclaim are independent tasks at step level, more interleavings than
  the program has; in completed calls they are resolved one after another as in the program.
- Message ids are fresh opaque values; UUIDv7 generation, JSON encoding, CRC-32 and the text of
  error and snapshot names are abstract or absent.
- Waiting: the model says what a claim, enqueue or dequeue pass does once it runs, not when the
  runtime wakes a waiter.
- Recovery of the persistent priority queue under concurrent callers, which may log in another order
  than they change memory: serial runs only.
- The binary heap's internals: a pop removes a greatest entry, whichever way it is found.
- openraft and its network and membership watcher: its calling contract is stated as `Allowed` and
  `Permitted`, the consensus protocol is not modelled.
- `partial_results_since`, `len`, `oldest_pending_age` and other read-only views: easy beside the rest.
- `FifoQueue`, `PersistentFifoQueue`, `FallbackCache`, `HybridGuard`, `semantic.rs`, `audit.rs` and
  `auth.rs`: simple durable maps, caches and counters, or floating-point scores.
- `qaas-server`: protocol plumbing around the core.

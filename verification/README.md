# Verified models of the knowledge-base platform's fail-closed protocols

This project models the protocols of the platform that must hold whatever happens around them,
and proves what they promise over every run, every input or every reachable state.

- **Uploads and quota** (`Quota`, `UploadRows`, `UploadSystem`, `UploadEffects`, `UploadOutcomes`,
  `UploadDatabase`, `UploadTiming`, `UploadSchedule`, `Publication`, `PublicationPasses`): upload
  requests and any number of maintenance workers share the upload rows, the quota counters and
  object storage. A committed transaction is one atomic step;
  a cancelled or crashed program contributes nothing further, so a sequence of steps stands for any interleaving.
  A worker acts on the claim it was granted, however long ago that was.
- **Malware scanning** (`MalwareScan`, `ScanLeases`): leases on file rows, with scans of any length.
- **One-time challenges** (`ChallengeStore`): link, fsync, unlink, fsync over a volatile and a
  durable directory, with crashes.
- **Offline collection** (`OfflineCollection`, `NftPolicy`, `NftRulesets`): the step machine with its
  `finally` recovery, and the meaning of an accepted nftables ruleset, packet by packet.
- **Acceptance runner** (`GateRun`, `Reports`, `TestEvidence`, `PytestNodes`, `StatusParser`).
- **Structural differ** (`JsonDiff`, `JsonPaths`), **resource sampling** (`Sampling`),
  **retrieval metrics** (`RagMetrics`, `RagMeanings`), **SBOM completion** (`NpmReferences`, `Sbom`) and
  **bootstrap repair** (`Bootstrap`).

`Common`, `Json`, `Sequences`, `Sorting` and `Strings` hold what several models share.

Code that updates rows, lists or counters in loops is a method or a class proved against a
specification function; the theorems are about that function. Floats are reals; the rounding of
timestamps and log2 are parameters. Clocks, storage answers, command results and file-system
failures are inputs. Hashes are modelled by the values they digest.

## What the proofs found

- Two workers never hold an upload at once if and only if, for any two of them, the lease of 900 s
  outlasts the longest cycle of one on the clock of the other
  (`UploadTiming.ExclusionIffLeasesOutlast`). For the maintenance process, whose cycles end within
  105 s, that is a skew of at most 795 s; the maintenance route
  (`app/api/v1/routes/internal.py:27-47`) sets no limit to its cycles.
- Exclusion also needs that no session is aborted for the first time while a worker acts on a claim
  of it: the first abort brings `expires_at` forward, so a second worker can claim a session that
  another still holds (`UploadTiming.AbortBreaksExclusion`). An abort at `now` lets another worker
  in exactly when the session was not aborted before, still holds quota, and `now` lies before the
  end of the holder's cycle on the other worker's clock (`UploadTiming.AbortLetsInIff`).
- FAILED and ABORTED mean released, or still HELD in an aborted session, at every point of every
  timed run if and only if every lease outlasts its cycle on every other clock, whatever owners
  abort and when (`UploadSchedule.ClocksDecideOutcomes`). Without it, a session held by two workers
  at once can end FAILED, and after an abort ABORTED, with EXPIRED instead of RELEASED reservations
  (`UploadOutcomes.HeldTwiceMayLapse`). Clocks apart, they mean released exactly in the runs in
  which no rejecting settlement finds its row already expired with lapsed quota
  (`UploadOutcomes.ReleasedIffNoLateRejection`).
- A worker whose re-lock no longer finds FINALIZING deletes the published object even if the
  session is COMPLETED (`app/maintenance.py:392-402`), and so does a completion request that finds
  its owner's authorisation revoked (`app/api/v1/routes/files.py:858-873`). Either can delete the
  object after another program has completed the session (`Publication.OverlapCanLoseTheObject`,
  `Publication.RevokedRequestLosesTheObject`), and a request also after another program has
  inspected it and before that one completes (`Publication.CompletesWithoutObject`). Two authorised
  requests suffice as well: in single mode one can promote the seal that the other has left at the
  staging key over the published object (`Publication.SealCanReplaceTheObject`). A completion is
  safe, then and ever after, exactly when the promised object is still at the published key and no
  other finalisation is in flight (`Publication.CompletionIsSafeIff`).
  `Publication.CompletedIsIntact` therefore assumes that no finalisation starts while another is in
  flight: neither a request between a worker's claim of a FINALIZING session and its re-lock, nor a
  second request, nor such a claim while a request is at work. Aborts, expiry, cleanup and
  cancellation may race it freely. The conservation results of `UploadSystem` need no such
  assumption.
- After an attempted disconnection the restore command is issued exactly when the plan's restore
  entry is well formed (`OfflineCollection.ExecuteCollection`); with a malformed one the network
  goes down and no restore is issued (`OfflineCollection.MalformedRestore`). Plans that passed
  `_validate_control_commands` always issue it.
- The artifact store refuses a repeated name, so once `rollback_cancel` has been recorded a failed
  `recovery_verify` is final: recovery can complete exactly when no cancellation was recorded before
  it (`OfflineCollection.CanRecoverIff`).
- A validation that does not consume its challenge lets it pass exactly when the challenge was issued
  and unmarked when the verifier read the directory: a verifier that started before another one
  consumed it goes on accepting it in such validations, while every later one refuses it
  (`ChallengeStore.LooksFollowTheStart`, `ChallengeStore.KnownIsRefused`).
- The differ's textual paths identify positions exactly when keys are written without `.` and
  without the combination of `[`, `]` and a digit (`JsonPaths.TextsIdentifyIffUnambiguous`).
- Two overlapping report publishers can leave a complete report without its own markdown
  (`Reports.OverlapBreaksConsistency`). Starting a publication is safe exactly when no other
  publisher is at work, one that cleans up after a failure included
  (`Reports.StartIsSafeIffAlone`).
- A gate list whose last gate is P2 with child evidence can pass without the final identity
  comparison, and no other list can (`GateRun.SkippedFinalCheckIff`). `build_profile` gives child
  evidence to P0 gates only.
- When the deadlines and the points half an interval after them are timestamps, the gate accepts
  every run whose samples are at most half an interval late exactly when the interval divides the
  duration (`Sampling.HalfIntervalPassesIffDividing`). Otherwise rounding can cost such a run up to
  twice its error (`Sampling.ErrorTolerates`).

## Model

| member | source | states |
|---|---|---|
| `Quota.CheckReservation` | app/domain/quota.py:14-41 | negative values are refused, a positive request is refused exactly when used plus reserved plus requested exceeds the limit, and an admitted one raises reserved by the request |
| `Quota.SettleIsExact` | app/services/quota.py:68-122 | settling held reservations moves exactly the held amount out of reserved, and into used only when consumed; the clamp at zero is never needed while counters cover what is held |
| `Quota.AdmittedAmounts` | app/services/quota.py:33-66 | an admitted list of reservations raises reserved by exactly what it holds and leaves used alone |
| `Quota.AdmissionRespectsLimit` | app/services/quota.py:33-66 | admission never takes used plus reserved past the limit, even for several reservations of one counter |
| `UploadSystem.StepBalances` | app/maintenance.py:384-502 | every operation keeps each counter equal to the sum of the reservations and charges it stands for |
| `UploadSystem.EveryRunConserves` | app/maintenance.py:262-502 | in every run counters balance, reservations of a row agree with one another and fit the session status |
| `UploadEffects.PublicationEffect` | app/maintenance.py:384-428 | a publication that finds the row FINALIZING leaves it COMPLETED, turns every HELD reservation CONSUMED and moves the held amount of every counter from reserved to used; any other row and its quota stay as they are |
| `UploadEffects.SettlementOfClaim` | app/maintenance.py:449-502 | the last transaction of an unpublished claim, however stale: a COMPLETED row stays, an ABORTED one releases, a rejected FINALIZING claim ends FAILED with released quota, any other EXPIRED with lapsed quota |
| `UploadEffects.CompletionEffect` | app/api/v1/routes/files.py:883-926 | a completing request finds FINALIZING, leaves COMPLETED, consumes exactly what is held and changes nothing else |
| `UploadEffects.RejectionEffect` | app/api/v1/routes/files.py:238-283 | a recorded rejection finds FINALIZING, leaves FAILED, releases exactly what is held and changes nothing else |
| `UploadEffects.AbortEffect` | app/api/v1/routes/files.py:1100-1119 | the end of an abort leaves the session ABORTED, releases exactly what it holds and changes nothing else |
| `UploadEffects.CompletionPass` | app/api/v1/routes/files.py:692-926 | an undisturbed completion ends COMPLETED with every reservation CONSUMED |
| `UploadEffects.RejectionPass` | app/api/v1/routes/files.py:692-846 | an undisturbed rejected completion ends FAILED with every reservation RELEASED |
| `UploadEffects.AbortPass` | app/api/v1/routes/files.py:1057-1119 | an undisturbed abort of a session that holds quota ends ABORTED with every reservation RELEASED |
| `UploadEffects.PassOutcome` | app/maintenance.py:262-502 | how one undisturbed pass ends, by the status claimed and what storage holds: FINALIZING ends COMPLETED and consumed, FAILED and released, or EXPIRED and lapsed; INITIATED and EXPIRED end EXPIRED and lapsed; ABORTED ends ABORTED and released |
| `UploadEffects.AdmissionEffect` | app/services/quota.py:33-146 | an admitted upload starts INITIATED with exactly its reservations HELD; a direct charge is used at once and keeps a positive request within the limit |
| `UploadEffects.ClaimMeans` | app/maintenance.py:262-304 | which sessions a worker may claim and when; a claim keeps the session from every worker for 900 s and not longer |
| `UploadEffects.FinalizeMeans` | app/api/v1/routes/files.py:714-768 | which sessions a request may finalise; the session is then out of reach of workers until 900 s have passed, or longer if its deadline was later |
| `UploadEffects.AbortMeans` | app/api/v1/routes/files.py:1070-1089 | which sessions can be aborted; a first abort makes held quota claimable from the next instant, a retry changes nothing |
| `UploadOutcomes.OutcomeMatchesSession` | app/maintenance.py:262-317 | COMPLETED and CONSUMED imply each other; FAILED and ABORTED mean RELEASED, or still HELD when ABORTED, in every run that holds no upload twice; FAILED never holds; a HELD reservation is always within reach of the claim query |
| `UploadSystem.SettledForever` | app/maintenance.py:403-487 | along any run reservations leave HELD at most once and never change again; COMPLETED and ABORTED are final |
| `UploadSystem.HeldQuotaIsRecoverable` | app/maintenance.py:262-317 | in every state that satisfies the run invariant a row that holds quota is claimable once its deadline has passed, and one undisturbed claim and settlement leaves it terminal with nothing held |
| `UploadSystem.LimitHoldsInEveryRun` | app/services/quota.py:33-146 | used plus reserved stays within a constant limit in every run |
| `UploadOutcomes.HeldTwiceMayLapse` | app/maintenance.py:461-487 | a run with two overlapping claims after which a FAILED session, and after an abort an ABORTED one, has EXPIRED reservations |
| `UploadSchedule.ClocksDecideOutcomes` | app/maintenance.py:449-502 | FAILED and ABORTED mean released at every point of every timed run, aborts under claims included, if and only if for any two workers the clock difference plus the cycle limit is at most 900 s |
| `UploadSchedule.ShortLeaseLapses` | app/maintenance.py:461-487 | for any two workers beyond that bound, a timed run after which a FAILED session has EXPIRED reservations |
| `UploadSchedule.ClocksHoldOnce` | app/maintenance.py:287-304 | within that bound, and without a first abort under a claim, no upload is held twice |
| `UploadSchedule.TransactionsReach` | app/maintenance.py:262-502 | a timed run commits exactly its transactions, in order |
| `UploadOutcomes.ReleasedWhenHeldOnce` | app/maintenance.py:449-502 | in every run in which no upload is claimed while another worker still acts on a claim of it, FAILED means RELEASED and ABORTED means RELEASED or still HELD, at every point |
| `UploadOutcomes.StepReleasesIff` | app/maintenance.py:449-502 | a transaction breaks that promise exactly when it is a rejecting settlement of a FINALIZING claim that finds the row expired and its quota lapsed |
| `UploadOutcomes.ReleasedIffNoLateRejection` | app/maintenance.py:449-502 | the promise holds throughout a run exactly when the run contains no such settlement |
| `UploadDatabase.PassFinishes` | app/maintenance.py:262-502 | a claim and its processing finish that row beyond any later claim, end the claim and touch no other row |
| `UploadDatabase.Database.Initiate` | app/services/quota.py:33-66 | the reservation loop admits all or nothing and is the specified operation |
| `UploadDatabase.Database.SettleHeld` | app/services/quota.py:68-122 | the settlement loop updates exactly the held reservations and their counters |
| `UploadDatabase.Database.ClaimNext` | app/maintenance.py:262-317 | claims the claimable row with the oldest deadline and extends it, or reports that none is claimable |
| `UploadDatabase.Database.PublishReconciled` | app/maintenance.py:384-428 | publishes exactly when the re-locked row is still FINALIZING; then it is COMPLETED and every HELD reservation CONSUMED |
| `UploadDatabase.Database.FinishClaim` | app/maintenance.py:449-502 | ends an unpublished claim with the status and outcome its original status and finding call for, unless the row is COMPLETED |
| `UploadDatabase.Database.CleanupExpiredUploads` | app/maintenance.py:244-503 | one batch claims no upload twice, finishes every upload it claims, changes no other, and stops short only when nothing is claimable |
| `UploadTiming.LeasedIsNotClaimable` | app/maintenance.py:287-304 | while a cycle that claimed the upload runs, no other worker can claim it, and neither can its own if the cycle lasts at most 15 minutes |
| `UploadTiming.NoSecondClaim` | app/maintenance.py:582-585 | if leases outlast cycles on every other clock and no first abort comes while a cycle that claimed the upload runs, no other worker claims it meanwhile and no cycle of at most 15 minutes claims it twice; retried aborts are harmless |
| `UploadTiming.ExclusionIffLeasesOutlast` | app/api/v1/routes/internal.py:27-47 | for any cycle limits, at most one worker acts on the upload in every run without a first abort under an acting worker, if and only if for any two workers the clock difference plus the cycle limit is at most 900 s |
| `UploadTiming.ExclusionIffSkewBounded` | app/maintenance.py:287-304 | for cycles of 105 s that bound is a clock difference of 795 s, exactly |
| `UploadTiming.AbortBreaksExclusion` | app/api/v1/routes/files.py:1070-1087 | a run with synchronised clocks in which an abort under a claim lets a second worker claim the upload |
| `UploadTiming.AbortLetsInIff` | app/api/v1/routes/files.py:1070-1094 | an abort under a claim lets another worker claim before the cycle ends exactly when the session was not aborted before, still holds quota, and the abort time lies before the cycle end on that worker's clock |
| `Publication.TestsAreComplementary` | app/maintenance.py:330-383 | the promotion test and the rejection tests are exact complements and both mean matching size and declared checksum |
| `Publication.PublishedContentWasVerified` | app/maintenance.py:326-448 | in every interleaving each step that makes a session COMPLETED is a re-lock by a program that inspected an object of the declared size and checksum, which the published key held at some earlier point, and it sets the file to the published key |
| `Publication.CompletedIsIntact` | app/maintenance.py:326-448 | if no finalisation starts while another is in flight, a COMPLETED upload has the promised object at its published key, in single mode the final key, whatever aborts, expiry, cleanup and cancellation do meanwhile |
| `Publication.UploadIsSoundFromStart` | app/api/v1/routes/files.py:774-946 | the same from the initiation of an upload |
| `PublicationPasses.WorkerPass` | app/maintenance.py:317-502 | an undisturbed worker pass over a FINALIZING upload: a matching published or staged object ends COMPLETED at its final key with the staging key sealed, a mismatching one FAILED and deleted, none EXPIRED with the staging key sealed |
| `PublicationPasses.RequestPass` | app/api/v1/routes/files.py:769-946 | an undisturbed, authorised completion: the assembled, published or staged object ends COMPLETED at its final key if it matches and FAILED and deleted otherwise; a missing one leaves the session FINALIZING |
| `PublicationPasses.UnauthorisedPass` | app/api/v1/routes/files.py:858-873 | a completion whose owner lost authorisation deletes the matching object and leaves the session FINALIZING |
| `PublicationPasses.ExpiryPass` | app/maintenance.py:449-502 | an undisturbed worker pass over any other upload seals the staging key and leaves it EXPIRED, or ABORTED if it was |
| `PublicationPasses.AbortPass` | app/api/v1/routes/files.py:1081-1100 | an undisturbed abort leaves the session ABORTED with the staging key sealed |
| `PublicationPasses.PublishedKeyIs` | app/api/v1/routes/files.py:87-90 | a single upload is published under objects/ in place of staging/, a multipart upload at its own key |
| `Publication.StaysIntactIffNoneInFlight` | app/maintenance.py:384-402 | a COMPLETED upload is intact under every continuation exactly when its object is there and no finalisation of a worker or a request is in flight |
| `Publication.CompletionIsSafeIff` | app/maintenance.py:384-428 | the re-lock that completes an upload leaves it intact then and ever after exactly when the promised object is still at the published key and no other finalisation is in flight |
| `Publication.OverlapCanLoseTheObject` | app/maintenance.py:384-402 | a run in which a worker's re-lock deletes the object of a session that a request has COMPLETED |
| `Publication.RevokedRequestLosesTheObject` | app/api/v1/routes/files.py:858-873 | a run in which a request whose authorisation is revoked deletes the object of a session that another request has COMPLETED |
| `Publication.CompletesWithoutObject` | app/api/v1/routes/files.py:858-873 | a run in which such a request deletes the object that a worker has inspected, and the worker then completes the session |
| `Publication.SealCanReplaceTheObject` | app/api/v1/routes/files.py:785-803 | a run of two authorised requests in single mode that ends COMPLETED with the empty seal at the published key |
| `MalwareScan.EveryRunKeepsLeases` | app/maintenance.py:80-241 | in every run attempts counts claims, at most one terminal verdict and one enqueue per file, out of quarantine only on CLEAN, every verdict under the latest lease and for the object key it granted |
| `MalwareScan.ReleasedOnlyByCurrentLease` | app/maintenance.py:173-240 | a released file has exactly one CLEAN verdict, committed under the lease current at that moment and for the object key still on the row, and one enqueue |
| `MalwareScan.StaleForever` | app/maintenance.py:173-240 | the holder of a replaced lease never changes anything again |
| `MalwareScan.ReclaimMakesStale` | app/maintenance.py:80-139 | reclaiming a file makes every earlier claim stale |
| `MalwareScan.VerdictIsFinal` | app/maintenance.py:80-139 | a terminal verdict is never revised, the file never rescanned, and a file not CLEAN stays quarantined |
| `ScanLeases.ClaimIsALease` | app/maintenance.py:86-139 | after a claim at now the file can be claimed again exactly from now plus the reclaim time on |
| `ScanLeases.OneClaimPerLease` | app/maintenance.py:86-139 | in every run no second claim of the file commits before the lease has run out; without a verdict by then it can be claimed exactly from then on, and until someone does the first worker's verdict commits |
| `ScanLeases.CancelledIsRecoverable` | app/maintenance.py:86-139 | whatever runs meanwhile, a file whose worker was cancelled keeps its lease without a verdict and is claimable exactly from its end on |
| `ScanLeases.VerdictEffect` | app/maintenance.py:188-240 | CLEAN lets the file out and queues it; INFECTED keeps it quarantined with the signature, any other result with its error code or scanner_error; no verdict leaves a file that can be claimed |
| `ScanLeases.PublishedWaitsInQuarantine` | app/maintenance.py:403-414 | a published upload is quarantined and pending, claimable at once, and an upload in progress is not |
| `MalwareScan.ScanQueue.ClaimNext` | app/maintenance.py:80-139 | claims the oldest claimable file under a fresh lease that no other claim can break before now plus the reclaim time, or reports that none is claimable |
| `MalwareScan.ScanQueue.Conclude` | app/maintenance.py:173-240 | commits a verdict exactly when the row still carries the lease and the object key, and only CLEAN leaves quarantine |
| `MalwareScan.ScanQueue.ProcessBatch` | app/maintenance.py:142-241 | an undisturbed batch concludes exactly the files it claims, each once, and releases exactly the clean ones |
| `ChallengeStore.EveryRunConsumesOnce` | scripts/functional_acceptance.py:1424-1463 | over every interleaving and crash a challenge is accepted at most once, an accepted one is durably marked, and an issued name never disappears before its marker is durable |
| `ChallengeStore.AtMostOneAcceptance` | scripts/functional_acceptance.py:1678-1722 | no two consuming validations that return True in a run are of the same challenge |
| `ChallengeStore.OnlyIssuedAreAccepted` | scripts/functional_acceptance.py:370-391 | in every run only issued challenges are accepted, marked or pass any validation |
| `ChallengeStore.LinkMeans` | scripts/functional_acceptance.py:1440-1456 | the marker is created exactly for an issued name that has none, and otherwise the consumption ends and changes nothing |
| `ChallengeStore.LooksAreUnlimited` | scripts/functional_acceptance.py:1718-1722 | validations that do not consume return True any number of times and change nothing |
| `ChallengeStore.KnownIsRefused` | scripts/functional_acceptance.py:1678-1722 | a verifier that accepted a challenge, and every verifier that starts after an acceptance, refuses it in every later validation of every run, consuming or not |
| `ChallengeStore.LooksFollowTheStart` | scripts/functional_acceptance.py:356-391 | a verifier that does not consume a challenge itself lets it pass other validations exactly when it was issued and unmarked as the verifier read the directory |
| `ChallengeStore.AcceptingMakesKnown` | scripts/functional_acceptance.py:1718-1722 | the acceptance itself makes the verifier know the challenge as consumed |
| `ChallengeStore.AcceptedStaysMarkedAfterCrash` | scripts/functional_acceptance.py:356-391 | after an acceptance, any further run and a crash, the marker is still found |
| `ChallengeStore.FreshChallengeIsAccepted` | scripts/functional_acceptance.py:1424-1463 | an issued, unmarked challenge is accepted by an undisturbed verifier |
| `ChallengeStore.Directory.ConsumeOnce` | scripts/functional_acceptance.py:1424-1463 | returns True exactly when every call succeeded on an issued, unmarked challenge; whatever fails no marker is removed, and the issued name stays unless the marker is durable |
| `OfflineCollection.GoOffline` | scripts/collect_offline_runtime_evidence.py:1508-1619 | succeeds exactly when restored, with every phase up to the restore successful in order, and otherwise ends with the failing step |
| `OfflineCollection.FinishOnline` | scripts/collect_offline_runtime_evidence.py:1620-1627 | cancels, verifies and takes the final snapshot in order, or reports the failing step |
| `OfflineCollection.Recover` | scripts/collect_offline_runtime_evidence.py:1628-1640 | the cleanup succeeds exactly when every recovery command is well formed, ends well and has recorded no artifact before; it ends recovered or with a failed recovery step, and tries the restore first when it is missing |
| `OfflineCollection.CanRecoverIff` | scripts/collect_offline_runtime_evidence.py:236-263 | with well-formed commands recovery can still complete exactly when no cancellation has been recorded before it |
| `OfflineCollection.ExecuteCollection` | scripts/collect_offline_runtime_evidence.py:1490-1640 | evidence exists exactly when each of the seventeen commands, the five snapshots and, behind a gateway, both policy checks succeeded, each in its place and nothing else was tried; every disconnection attempt comes after recorded successes of the recovery preflight, the first snapshot and the rollback arming; after it a restore is attempted before control leaves, and issued exactly when the plan has a well-formed one; the rollback is cancelled only after a successful restore; no artifact is recorded twice and no verification retried |
| `OfflineCollection.CompleteIsMandatory` | scripts/collect_offline_runtime_evidence.py:1508-1627 | in either mode exactly one log has every required phase in its place: cold start before the business steps, persistence write, restart and verification in that order, the last offline snapshot before the restore |
| `OfflineCollection.MalformedRestore` | scripts/collect_offline_runtime_evidence.py:431-445 | a plan whose restore entry is malformed disconnects and never issues a restore |
| `NftPolicy.CountersDoNothing` | scripts/collect_offline_runtime_evidence.py:1105-1145 | removing counters does not change what a rule does to a packet |
| `NftPolicy.AcceptRuleEffect` | scripts/collect_offline_runtime_evidence.py:1105-1145 | an expected accept rule accepts exactly the packets its destination allows on the uplink |
| `NftPolicy.CheckedChainIsTheAllowlist` | scripts/collect_offline_runtime_evidence.py:1148-1270 | an accepted chain accepts an uplink packet if and only if some allowed destination matches, drops it otherwise, and decides nothing on other interfaces, where the packet falls through to the policy |
| `NftPolicy.ExactRulesArePermutations` | scripts/collect_offline_runtime_evidence.py:1183-1270 | the checker accepts exactly the permutations of the expected accept rules followed by the drop rule |
| `NftPolicy.ExpectedAcceptInjective` | scripts/collect_offline_runtime_evidence.py:1088-1145 | different destinations have different accept rules |
| `NftRulesets.PacketsAreTheAllowlist` | scripts/collect_offline_runtime_evidence.py:1200-1270 | under an accepted ruleset, with rules and policy read from its entries, an uplink packet gets through if and only if some allowed destination matches it, and a packet on any other interface does |
| `NftRulesets.AcceptedIsCorrect` | scripts/collect_offline_runtime_evidence.py:1183-1270 | an accepted ruleset has exactly one such table and one such chain, a filter chain on the forward hook at priority -5 with policy accept, and its rules are one accept rule per distinct destination in some order and the drop rule last |
| `NftRulesets.CorrectRulesetIsAccepted` | scripts/collect_offline_runtime_evidence.py:1183-1270 | every such ruleset is accepted, whatever the order of the accept rules and whatever else it holds |
| `NftRulesets.CountersMayStandAnywhere` | scripts/collect_offline_runtime_evidence.py:1105-1125 | a counter anywhere among the expressions changes nothing, and expressions without one are kept |
| `NftRulesets.NetworkIsRange` | scripts/collect_offline_runtime_evidence.py:1092-1102 | a destination network holds the addresses from its base on, as many as its free bits allow |
| `GateRun.RunGates` | scripts/acceptance.py:1299-1362 | the loop produces the specified results and the specified sequence of comparisons, runs and child checks |
| `GateRun.LogIsCheckedPrefix` | scripts/acceptance.py:1299-1362 | however a run ends, what it did is a prefix of the full sequence and every comparison but the last held |
| `GateRun.LostIdentityFails` | scripts/acceptance.py:1289-1362 | the first failed comparison ends the run and forces FAIL |
| `GateRun.RejectedChildVerdict` | scripts/acceptance.py:1334-1350 | rejected child evidence can leave PASS only on a P2 last gate, and skips the final comparison |
| `GateRun.PassIff` | scripts/acceptance.py:342-363 | without P2 child gates, PASS holds exactly for distinct ids, all comparisons holding, children accepted and P0 and P1 passed; then every gate ran once, in order |
| `GateRun.VerdictMeans` | scripts/acceptance.py:342-363 | FAIL exactly for results other than the required gates or a P0 gate not passed, CONDITIONAL exactly for passed P0 gates and some P1 gate not passed, PASS otherwise |
| `GateRun.CleanVerdict` | scripts/acceptance.py:1299-1362 | the verdict of a clean run of distinct gates follows from what its P0 and P1 commands reported |
| `GateRun.CleanIff` | scripts/acceptance.py:1299-1362 | a run is clean exactly when the identity held before and after every gate, after every accepted child evidence and at the end |
| `GateRun.GatesAreBracketed` | scripts/acceptance.py:1311-1350 | every gate runs directly between its two comparisons, and one directly follows each child evidence |
| `GateRun.RejectedChildExactly` | scripts/acceptance.py:1334-1350 | rejected child evidence is FAIL for a P0 gate or if gates are left, and CONDITIONAL for a last P1 gate when P0 gates passed |
| `GateRun.SkippedFinalCheckIff` | scripts/acceptance.py:1299-1362 | a gate list can pass without the final comparison exactly when it ends in a P2 gate with child evidence |
| `Reports.PublicationIsConsistent` | scripts/acceptance.py:4279-4332 | at every crash or failure point a complete report has the markdown of its own publication, and any other report says FAIL |
| `Reports.UndisturbedPublishes` | scripts/acceptance.py:4279-4332 | an undisturbed publication replaces both files by its own pair |
| `Reports.FailureLeavesNothing` | scripts/acceptance.py:4305-4332 | a publication of which any operation fails leaves neither file once the second invalidation succeeds, however far the first got |
| `Reports.StartIsSafeIffAlone` | scripts/acceptance.py:4279-4332 | a publication that starts under a fresh number keeps every continuation consistent exactly when no other publisher is at work |
| `Reports.OverlapBreaksConsistency` | scripts/acceptance.py:4279-4301 | a run of two overlapping publishers from the empty directory that ends inconsistent |
| `PytestNodes.NormalizeIdempotent` | scripts/acceptance_gate.py:716-728 | normalising a node id twice is normalising it once, and does not change its JUnit identity |
| `PytestNodes.NormalizeIsLocal` | scripts/acceptance_gate.py:716-728 | only backslashes before the first .py:: become slashes; an id without it stays as it is |
| `TestEvidence.OutcomesPartition` | scripts/acceptance_gate.py:785-808 | the six outcomes partition the executed cases, and all passed exactly when passed counts them all |
| `TestEvidence.ExactIffPermutation` | scripts/acceptance_gate.py:809-813 | nothing missing, unexpected or repeated means a permutation, and conversely |
| `TestEvidence.KeysPermuteIff` | scripts/acceptance_gate.py:765-833 | the cases' nodes are the expected nodes exactly when their JUnit identities are |
| `TestEvidence.KeysCanCollide` | scripts/acceptance_gate.py:744-750 | a test in a class and a test in a file named after that class share a JUnit identity, and an expectation of both is refused |
| `TestEvidence.KeyRefuses` | scripts/acceptance_gate.py:744-750 | an id without a double colon or without a Python file has no JUnit identity |
| `TestEvidence.ParseJUnit` | scripts/acceptance_gate.py:765-833 | refuses exactly the empty, duplicated, invalid or ambiguous expectations; each of the six counters is the number of cases whose failure, error and skipped elements describe it; success holds exactly when there are as many cases as expected nodes, some case names each, and no case has such an element |
| `TestEvidence.ParseVitest` | scripts/functional_acceptance.py:954-1012 | success exactly for a permutation of the expected nodes, every raw status being "passed"; the counters are numbers of raw statuses |
| `TestEvidence.UnreadableIff` | scripts/functional_acceptance.py:954-987 | a suite is refused exactly for a path outside the project, a missing assertion list, or an assertion with a missing or empty title |
| `TestEvidence.EveryAssertionIsExecuted` | scripts/functional_acceptance.py:954-1000 | every assertion is among the executed nodes, under its file and its titles |
| `StatusParser.StatusCounts` | scripts/acceptance.py:2340-2363 | for any bytes the loop counts exactly the letters the record layout gives |
| `StatusParser.ReadInvertsSerialize` | scripts/acceptance.py:2340-2363 | reading a serialised list gives back its status letters, whatever the paths contain; an entry has a second path exactly when one of its letters is R or C |
| `StatusParser.CountSerialized` | scripts/acceptance.py:2340-2363 | the five counts are the numbers of entries with the letters they stand for; the tree is clean exactly when nothing is listed |
| `StatusParser.ConflictPairs` | scripts/acceptance.py:2340-2363 | the conflicts are the seven unmerged pairs of letters |
| `StatusParser.RecordMeans` | scripts/acceptance.py:2340-2363 | a record of less than three bytes is skipped, and the record after an R or C entry is its origin |
| `JsonDiff.DiffMembers` | scripts/host_isolation_guard.py:1507-1567 | the changes of two containers are exactly the changes at the positions below them |
| `JsonDiff.ReportedReallyDiffers` | scripts/host_isolation_guard.py:1507-1567 | every reported position differs, with the reported values and kind |
| `JsonDiff.ReportsAreApart` | scripts/host_isolation_guard.py:1507-1567 | no position is reported twice or together with one inside it |
| `JsonDiff.ReportIsComplete` | scripts/host_isolation_guard.py:1507-1567 | replacing the reported positions in before yields after |
| `JsonDiff.EmptyIffIdentical` | scripts/host_isolation_guard.py:1507-1567 | the report is empty exactly when the trees are identical, types included |
| `JsonDiff.ReportIsMinimal` | scripts/host_isolation_guard.py:1507-1567 | no proper subset of the reported positions yields after |
| `JsonDiff.DiffHashes` | scripts/host_isolation_guard.py:1507-1567 | the recursion with its loops produces the specified list |
| `JsonDiff.VerifyAgainstBaseline` | scripts/host_isolation_guard.py:1496-1589 | PASS exactly when the six compared fields agree, a missing one counting as null, and the reported changes explain any difference |
| `JsonPaths.TextsIdentifyIffUnambiguous` | scripts/host_isolation_guard.py:1511-1536 | textual paths identify positions exactly for unambiguous key alphabets |
| `JsonPaths.Collision` | scripts/host_isolation_guard.py:1511-1536 | two positions that an ambiguous alphabet renders alike |
| `JsonPaths.RenderMeans` | scripts/host_isolation_guard.py:1507-1536 | a path is written as a dollar sign, a dot before each key and brackets around each index |
| `Sampling.ManifestCount` | scripts/capacity_evidence_manifest.py:313-347 | the expected count is the number of whole intervals in the duration |
| `Sampling.ManifestIff` | scripts/capacity_evidence_manifest.py:278-347 | a manifest is written exactly for at least 1800 s and an interval of 1 to 10 s, with a gap of one and a half intervals; the count is then at least 180, so the last refusal never happens |
| `Sampling.CheckSamples` | scripts/enterprise_capacity_gate.py:260-314 | the gate's tests accept exactly the complete, increasing lists that start, end and step within bounds |
| `Sampling.AcceptedCovers` | scripts/enterprise_capacity_gate.py:300-314 | an accepted list leaves no instant of the run without a following sample within the maximum gap |
| `Sampling.CoverageIsExact` | scripts/enterprise_capacity_gate.py:300-314 | for times in the run, coverage of every instant is exactly what the three tests say |
| `Sampling.RunSampler` | scripts/capacity_resource_sampler.py:467-475 | the loop records the samples up to the first stop request, each against its absolute deadline |
| `Sampling.LatenessDoesNotAccumulate` | scripts/capacity_resource_sampler.py:470-475 | while each turn fits its interval a sample is late by its own oversleep only |
| `Sampling.ErrorTolerates` | scripts/capacity_resource_sampler.py:541 | a rounding tolerates lateness of half an interval less twice its error |
| `Sampling.GridTolerates` | scripts/capacity_resource_sampler.py:541 | a rounding that keeps the deadlines and the points half an interval after them tolerates half an interval |
| `Sampling.AllowedRunPassesIff` | scripts/capacity_resource_sampler.py:470-475 | a run within the tolerated lateness passes exactly when its last recorded time reaches the duration |
| `Sampling.AllRunsPassIff` | scripts/enterprise_capacity_gate.py:284-314 | all runs within the tolerated lateness pass exactly when the last deadline, as recorded, reaches the duration |
| `Sampling.DividingIntervalPasses` | scripts/enterprise_capacity_gate.py:284-314 | if the interval divides the duration, the gate accepts every run late by at most half an interval less twice the rounding error |
| `Sampling.HalfIntervalPassesIffDividing` | scripts/capacity_evidence_manifest.py:313-347 | when the deadlines and the points half an interval after them are timestamps, all runs late by at most half an interval pass if and only if the interval divides the duration |
| `Sampling.ExactClockPassesIffDividing` | scripts/capacity_evidence_manifest.py:313-347 | the same for exact timestamps |
| `RagMetrics.GainIsAtMostBest` | scripts/rag_retrieval_evaluation.py:331-334 | a ranking gains at most what its hits would in front, and all of it only then |
| `RagMetrics.NdcgBounds` | scripts/rag_retrieval_evaluation.py:354-415 | distinct ranked keys keep DCG at or below the ideal |
| `RagMetrics.ContributionBounds` | scripts/rag_retrieval_evaluation.py:354-415 | per case recall, reciprocal rank and nDCG lie in [0, 1]; nDCG is 1 exactly when the first ranks are all relevant |
| `RagMetrics.AnswerableAverages` | scripts/rag_retrieval_evaluation.py:354-415 | the running totals give the averages of the per-case contributions |
| `RagMetrics.Evaluate` | scripts/rag_retrieval_evaluation.py:337-415 | evaluates exactly the valid inputs; the averages are those of the per-case contributions, no-answer accuracy and leaks are exact counts, all ratios lie in [0, 1], and nDCG and no-answer accuracy reach 1 exactly for perfect answers |
| `RagMetrics.EvaluatedMetricsAreValid` | scripts/rag_retrieval_evaluation.py:418-448 | on metrics in [0, 1] the threshold check never takes the invalid branch and fails exactly when a threshold is missed or the leaks exceed the maximum |
| `RagMetrics.Assess` | scripts/rag_retrieval_evaluation.py:337-448 | the same for the metrics that an evaluation returns |
| `RagMeanings.RecallMeans` | scripts/rag_retrieval_evaluation.py:354-415 | recall times the number of relevant entries is the number of the first five positions that hold one |
| `RagMeanings.ReciprocalRankMeans` | scripts/rag_retrieval_evaluation.py:354-415 | the reciprocal rank is one over the position of the first relevant entry, or 0 |
| `RagMeanings.SingleAnswerNdcg` | scripts/rag_retrieval_evaluation.py:331-334 | a single relevant entry at position k of the first five has nDCG equal to its discount over the first |
| `RagMeanings.RankingsStayInScope` | scripts/rag_retrieval_evaluation.py:337-370 | in a valid evaluation each case has one observation and everything it ranks lies in the scope of the case |
| `RagMeanings.ReportsExactlyTheMissed` | scripts/rag_retrieval_evaluation.py:418-448 | the report lists exactly the metrics below their thresholds and leaks beyond the maximum |
| `NpmReferences.SegmentRoundTrip` | scripts/normalize_cyclonedx_npm_sbom.py:45-49 | parsing accepts exactly the segments written from a valid coordinate, and gives it back |
| `NpmReferences.CandidateOfReference` | scripts/normalize_cyclonedx_npm_sbom.py:52-60 | a reference written from the root and valid coordinates stands for the innermost one, at the path of all their names |
| `NpmReferences.AcceptedIsWritten` | scripts/normalize_cyclonedx_npm_sbom.py:52-60 | and no other reference is accepted |
| `NpmReferences.CandidatePathsAre` | scripts/normalize_cyclonedx_npm_sbom.py:52-60 | the paths of a package in the root and of one nested in it |
| `NpmReferences.ResolutionIsUnique` | scripts/normalize_cyclonedx_npm_sbom.py:63-88 | a reference stands for at most one lock entry, of the referenced version |
| `NpmReferences.Resolve` | scripts/normalize_cyclonedx_npm_sbom.py:63-88 | finds that entry exactly when there is one, and otherwise reports the number of candidates |
| `Sbom.BuiltFromUnique` | scripts/normalize_cyclonedx_npm_sbom.py:108-172 | the component of a reference is determined by the lock |
| `Sbom.ScopedMeans` | scripts/normalize_cyclonedx_npm_sbom.py:108-172 | a scoped name is divided at its first slash and needs something behind it; any other name has no group |
| `Sbom.FindDangling` | scripts/normalize_cyclonedx_npm_sbom.py:175-207 | the loops accept exactly the well-formed graphs and return exactly the dangling references |
| `Sbom.NothingDanglesIff` | scripts/normalize_cyclonedx_npm_sbom.py:175-207 | nothing dangles exactly when every reference from and to is the root or some component's |
| `Sbom.AppendedRefs` | scripts/normalize_cyclonedx_npm_sbom.py:224-233 | appending a component per dangling reference keeps refs unique and makes exactly those references known |
| `Sbom.Bom.Normalize` | scripts/normalize_cyclonedx_npm_sbom.py:210-240 | succeeds exactly when every missing reference can be built; then the original components are a prefix, exactly the missing references were added in order, the graph is closed, and the final checks never fail |
| `Sbom.Bom.NormalizeTwice` | scripts/normalize_cyclonedx_npm_sbom.py:210-240 | a second run adds nothing |
| `Bootstrap.SeedTable` | app/bootstrap.py:128-168 | a catalog table ends overlaid by the catalog, and is reported repaired exactly when it disagreed |
| `Bootstrap.SeedPolicy` | app/bootstrap.py:200-292 | the catalogs, role, permissions and limits after the repair, with the version raised exactly when needed |
| `Bootstrap.Store.SeedDatabase` | app/bootstrap.py:95-324 | refuses in the source's order and changes nothing, or commits exactly the repaired state |
| `Bootstrap.AcceptedIff` | app/bootstrap.py:95-127 | a run is accepted exactly for an active, unretired superuser or a new account with a password, and a system role that still is one at its priority |
| `Bootstrap.CreatedRows` | app/bootstrap.py:169-324 | a new role starts at policy version 1, a new account as an active superuser with assignment version 1 and token version 0, and neither is audited as a repair |
| `Bootstrap.SeededIsHealthy` | app/bootstrap.py:128-324 | after an accepted run the system role holds every catalog permission with every catalog limit unlimited, the account has the role, and foreign keys hold |
| `Bootstrap.UnchangedIffHealthy` | app/bootstrap.py:233-324 | a run changes nothing, audit log included, exactly when the state is healthy |
| `Bootstrap.VersionsAreExact` | app/bootstrap.py:280-321 | between the snapshots before and after a run, an existing role's version rises by one exactly when a permission, definition, grant, limit or the role's text changed, an existing account's versions exactly when the assignments changed, with one audit event each |
| `Bootstrap.OthersUntouched` | app/bootstrap.py:128-324 | nothing outside the catalogs, the system role and the administrator changes |
| `Bootstrap.RunsSettle` | app/bootstrap.py:95-324 | over any number of accepted runs only the first can change anything |
| `Bootstrap.Store.SeedTwice` | app/bootstrap.py:95-324 | a second run is accepted, without a password too, and leaves the first run's state |

## Left out

- Quota limits that change between reservations, daily windows and the row lock order of the quota service.
- The nondeterminism of skip-locked row selection: `ClaimNext` models the query without concurrent locks, while `UploadSystem` allows any claim order.
- Storage calls that outlive the cancellation of the coroutine that awaits them, and clocks that drift or jump during a cycle.
- Parsing of checksum metadata from hexadecimal to base64: a plan says whether a checksum is declared, absent or malformed.
- OKF conversion, chat idempotency cleanup, signal handling and the periodic loop of the maintenance process.
- Signature, binding and time checks of a challenge (one input), challenge contexts without a directory, and fsync calls that report an error after persisting.
- The issuer is assumed to make an issued challenge durable before handing it out.
- The size bounds and file writes of the artifact store, the topology validation of the offline collection, and everything the collectors run as subprocesses.
- nftables semantics beyond the expressions the checker compares: maps, sets, jumps, named counters and connection tracking.
- Child evidence validators, gate commands and the construction of profiles.
- XML and JSON decoding of test reports: reports are given as lists of cases and suites; lower-casing is modelled for ASCII.
- `Sampling`: floating-point division and rounding beyond monotonicity, an error bound and fixed whole seconds; the resource values inside the samples.
- `RagMetrics`: floating-point rounding, NaN and infinite metrics.
- Licence, URL, integrity and purl formatting of SBOM components: a lock entry is describable or not.
- Concurrent changes to the administrator or role rows during bootstrap, which the source excludes by locks, and password hashing.
- Path, symlink and permission checks, executable attestation, host preflight and the large schema validators.

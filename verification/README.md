# A verified model of CIPHER

CIPHER is a content-delivery network: publishers cut files into encrypted chunks and push
replicas to providers, downloaders fetch chunks from a swarm of providers, and providers are
paid for staying available. This project models the parts of it that are hard to get right
and proves what they keep over every run.

To verify it: `dafny verify dfyconfig.toml`.

## How the model is built

Concurrent code is modelled as a state machine whose steps are the sections that run under a
lock or the sends and receives on a channel. A run is any sequence of enabled steps, so a
theorem about every reachable state (`Reached`) is a theorem about every interleaving. Starting
a challenge holds the contracts' lock and takes the epochs' lock several times; what others do with
the epochs in between is a parameter of that step (`Gaps`). A publisher's upload job succeeds at
a provider only on the acknowledgements that the provider's push handler wrote to that job's own
stream.

Code that updates objects in place is also written as classes and methods, and each method is
proved to make exactly one step of the state machine (`View() == Step(old(View()), ...)`) or
to compute a specification function; the theorems are about those. What the steps make of their
inputs is pinned down over whole runs: the modules ending in `Outcomes`, `Records`, `Traces` and
`Rounds` read reports, calls, messages and attempts off the events of a run and prove that the
state is exactly what these say.

| modules | component |
|---|---|
| `Scheduler`, `SchedulerSafety`, `SchedulerOutcomes`, `Swarm`, `Download`, `DownloadProgress` | swarm download: workers, result loop, resumable sessions |
| `Ledger`, `LedgerSafety`, `LedgerStaleness`, `LedgerRecords`, `Dispatcher`, `Preimages` | payment vouchers, fail records, slashing evidence, signing payloads |
| `Merkle`, `MerklePlaces`, `ChallengeProof` | tree builder, audit paths, their verifier, challenge responses |
| `Planner`, `PushHandler`, `PushTraces`, `ReplicaTracker` | replication: placement, provider side, replica table |
| `Distribution`, `FailoverRounds`, `DistributionSafety`, `DistributionOutcome`, `DistributionRefusal`, `DistributionUnsent`, `DistributionGuarantee`, `DistributionRetry`, `DistributionRounds` | upload rounds with failover, and what a nil return means |
| `Epochs`, `EpochTraffic`, `EpochDraws`, `Contracts`, `ContractSafety`, `ContractTraces`, `ContractBook`, `Settlement` | challenge epochs, contract lifecycle, settlement |
| `Wire`, `Frames`, `PushMessages` | frame decoders, message reader and writer, push messages |
| `Content`, `ContentSafety`, `ContentRepeats`, `Rearrangement` | split, encrypt, store, reassemble |
| `Requests`, `RequestOutcomes` | active requests with timers, and demand |
| `Bytes`, `Options`, `Shared`, `Counting`, `Arithmetic` | shared definitions |

What the code obtains from outside is a parameter of the step or call: the clock, random
identifiers and nonces, whether a connection, a fetch, a disk write or a signature worked, and
what arrives on a stream. Random epoch and contract identifiers are taken to be unused. SHA-256
(section 6.2 of FIPS 180-4), Ed25519 (section 5.1 of RFC 8032) and ChaCha20-Poly1305 (section
2.8 of RFC 8439) are function-valued parameters; where a theorem needs that verification
accepts what signing made or that opening undoes sealing, that is one of its premises. Nothing
assumes that hashes never collide, which no fixed-size hash can promise: the theorems about
audit paths name the two pairs that would collide, and the one about reassembly covers files
whose pieces share identifiers. Integers are unbounded in Dafny, so every
16-, 32- and 64-bit wrap-around, truncation and saturation that the code can reach is written
out. References that outlive their table entry (push sessions, request records) are positions in
an arena.

## Where the code and its description differ

The model follows the code in each case.

- A distribution is documented to return nil only if every chunk reached R replicas. With
  `MaxRetriesPerChunk` below 1 the send loop body never runs, no error is set, and every chunk
  that could be read is marked committed once the provider has acknowledged the manifest.
  `DistributionGuarantee.GuaranteeIff` gives the exact condition under which the documented
  guarantee holds: an attempt is allowed, or the replicas were there already, or so many providers
  refuse the publisher that nil cannot be returned at all.
- The comment at network/distribution/uploader.go:96 says failover avoids providers that failed
  on a chunk; the code only avoids those that committed it or are uploading it.
  `FailoverRounds.FailedIsOfferedAgainIff` says exactly when a failed provider is asked again, and
  by `FailoverRounds.FirstIsOfferedAgain` the first one is as long as the chunk lacks replicas;
  `DistributionRetry.FailedIsAskedAgain` is a run in which it happens.
- A challenge answer is documented to prove possession of an exact chunk leaf, and the path verifier
  to validate that a hash belongs to the root at a leaf index. The verifier takes paths of any
  length, so it accepts every node of the tree with the rest of its path, down to the root with no
  path for every chunk (`ChallengeProof.RootResponseAccepted`). `MerklePlaces.AcceptedIffGenuine`
  says exactly what is accepted, and `ChallengeProof.ResponseProvesChunkIff` when an accepted answer
  proves the chunk, which a caller can tell by comparing the path's length with the tree's depth.
- The signed digest of an answer is documented to protect against replay. It joins nonce and
  challenge identifier without their lengths: it binds both for nonces of one length
  (`ChallengeProof.DigestBinds`), but not in general (`ChallengeProof.NonceIsBoundIff`).
- A failover round that finds no provider to ask ends the distribution with an error. That never
  happens: as long as a chunk lacks replicas, some provider of the plan is left
  (`DistributionRounds.RoundEndsIff`).
- Settlement multiplies in 64 bits before dividing. `Settlement.ExactShareIff` says exactly when
  the released amount is the proportional share, `Settlement.OverflowWithholdsEverything` is an
  input where it is not.
- Two schedules may share an escrow identifier, and then a PASS can be refused as stale.
  `LedgerStaleness.PassIssuedIff` says exactly when a PASS is issued and when it is stale, and by
  `LedgerStaleness.SharedEscrowGoesStale` two such schedules always get in each other's way. With
  one schedule per escrow a PASS is never stale (`LedgerSafety.PassNeverStale`).
- Slash evidence is emitted even if the failing dispatches named providers with different
  addresses, and then the evidence check refuses it. `LedgerSafety.EvidenceAcceptedIff` is the
  exact condition, `LedgerSafety.MixedEvidenceRefused` a history that ends in refused evidence.
- A challenge takes the epochs' lock anew for each step, so calls by others in between can make it
  fail with a counter mismatch or an ended epoch (`ContractSafety.OneCallDisturbs`, for contracts
  as in `ContractSafety.RunningContractReached`).
  `ContractSafety.InitiateSucceedsIff` says exactly when it succeeds.
- Settling an expired contract always returns an error but still overwrites its settlement
  (`ContractSafety.SettlingExpiredFails`).
- The provider/file key of an epoch joins the two names with a NUL. `Epochs.KeyIsUniqueIff` and,
  among non-empty names, `Epochs.KeyIsUniqueAmongNamesIff` say exactly which pairs share their key
  with no other pair; `Epochs.KeyCollision` is a shared key.
- Pieces with one identifier overwrite each other in the store. `ContentRepeats.ReassembleIff`
  says exactly when reassembly still gives the input back.
- The frame decoder accepts messages that validation refuses, for every type but tickets
  (`Frames.DecodedIsValidIff`).
- Message and chunk counts are cut to 32 bits when written. `Frames.RoundTripIff`,
  `PushMessages.PushRoundTripIff` and `PushMessages.ManifestRoundTripIff` say exactly which
  messages survive.

## Model

| member | source | states |
|---|---|---|
| `SchedulerSafety.TasksAreConserved` | network/transfer/scheduler/scheduler.go:36-110 | in every interleaving each scheduled task is queued, held by one worker, in the channel, completed, or the one a failing run gave up on, exactly once in all |
| `SchedulerSafety.CompletionsNeverBlock` | network/transfer/manager/transfer.go:124 | a completions channel with one slot per task always has room when the loop receives a result |
| `SchedulerSafety.SuccessIsComplete` | network/transfer/scheduler/scheduler.go:63-110 | a nil return means every task completed exactly as often as scheduled, nothing is queued, held or in flight, completed chunks are stored, and no worker can be stuck sending |
| `SchedulerSafety.DiedCountIsQueueLength` | network/transfer/scheduler/scheduler.go:105-107 | the count in the "all workers died" error is the length of the queue |
| `SchedulerSafety.BoundedWork` | network/transfer/scheduler/scheduler.go:76-96 | any run handles at most tasks × (sources + MaxAttempts − 1) fetch results |
| `SchedulerSafety.InvRun` | network/transfer/scheduler/worker.go:22-59 | conservation, honest reports, "done" signals last and the worker count hold after any sequence of worker and loop steps |
| `SchedulerOutcomes.GivesUpIff` | network/transfer/scheduler/scheduler.go:75-97 | for every run: a chunk is given up as not found exactly if every source, all different, has reported once that it lacks it, and after failures exactly if the allowed number of fetches, at least one, has failed; nobody is asked twice for a chunk it lacks |
| `SchedulerOutcomes.CompletesWhatIsFetched` | network/transfer/scheduler/scheduler.go:98-110 | the completions are exactly the chunks reported as fetched, in order; a nil return has all of them, and the count in "all workers died" is how many are missing |
| `SchedulerOutcomes.ReturnsEarlyIff` | network/transfer/scheduler/scheduler.go:40-72 | "no active workers" exactly if the loop was reached and no connection worked, cancellation exactly if it was cancelled |
| `SchedulerOutcomes.ReportsAreConserved` | network/transfer/scheduler/worker.go:22-59 | the loop has seen every report as often as a source made it, apart from those underway, and the store has gained exactly the delivered chunks |
| `Swarm.ChunkQueue.Next` | network/transfer/scheduler/queue.go:26-35 | takes the oldest task, or reports an empty queue |
| `Swarm.ChunkQueue.Push` | network/transfer/scheduler/queue.go:37-41 | appends, keeping the order of the rest |
| `Swarm.Run.Connect` | network/transfer/scheduler/scheduler.go:40-61 | starting workers is one step of the state machine, failed connections included |
| `Swarm.Run.Work` | network/transfer/scheduler/worker.go:29-57 | a worker gives back a task it already missed, otherwise fetches, stores and reports |
| `Swarm.Run.HandleResult` | network/transfer/scheduler/scheduler.go:69-102 | one iteration of the result loop is one step of the state machine |
| `Swarm.Run.Perform` | network/transfer/scheduler/scheduler.go:36-110 | any step that is possible is performed as specified and keeps the invariant |
| `Download.ResumableDownload` | network/transfer/manager/transfer.go:45-204 | across any crashes and resumes every saved bit stands for a stored chunk, the counter equals the number of set bits, and a nil return means every chunk is stored |
| `Download.FinalCountIsTotal` | network/transfer/manager/transfer.go:138-204 | the last progress report of a successful download counts every chunk |
| `DownloadProgress.SavedProgressIsKept` | network/transfer/manager/transfer.go:45-100 | a chunk saved as done stays saved through any crashes and resumes, and no download started from then on schedules it |
| `DownloadProgress.CompletionIsSaved` | network/transfer/manager/transfer.go:138-153 | after a completion whose save works, everything done so far is saved |
| `DownloadProgress.CompletedMeansStored` | network/transfer/manager/transfer.go:104-204 | a session saved as completed means that every chunk is stored |
| `Download.TransferSession.Prepare` | network/transfer/manager/transfer.go:81-100 | after the scan exactly the stored or already marked chunks are marked, and the tasks are the others in manifest order |
| `Download.TransferSession.Absorb` | network/transfer/manager/transfer.go:138-156 | every completion is counted and sets the bit at its index, if there is one; the counter then equals the number of set bits exactly if each completion set a bit of its own |
| `Download.MarkedIff` | network/transfer/manager/transfer.go:139-142 | a bit is set exactly if it was set before or its chunk is among the completions |
| `Download.CountIff` | network/transfer/manager/transfer.go:139-143 | the counter never lags behind the set bits, and agrees with them exactly if no completion is repeated, already marked or out of range |
| `LedgerSafety.PaymentsAndSequences` | availability/escrow-payment/coordinator/dispatcher.go:301-435 | after any history the cumulative payment is min(passes × price, maximum), and vouchers and fail records together use sequence numbers 1..n once each |
| `Ledger.CappedAddition` | availability/escrow-payment/coordinator/dispatcher.go:339-348 | within the cap the 64-bit addition is exact and capped, with no wrap-around |
| `LedgerRecords.ChallengesOnceOnly` | availability/escrow-payment/coordinator/dispatcher.go:313-326 | no challenge of a contract is answered twice, and after any history a valid result for a registered contract is refused as a duplicate exactly if its challenge was answered before |
| `LedgerRecords.HistoryIsCalls` | availability/escrow-payment/coordinator/dispatcher.go:301-435 | the history of a contract is exactly the dispatches that were answered, with their answers, in order |
| `LedgerRecords.ArtifactsAnswerCalls` | availability/escrow-payment/coordinator/sign_only.go:131-157 | after any history the i-th artifact answers the i-th answered dispatch and carries its bound provider address, publisher, period, challenge, validity or time, status and signature, besides sequence number, amount and evidence |
| `LedgerRecords.RegistrationsCountOnce` | availability/escrow-payment/coordinator/dispatcher.go:195-254 | after any history the address of a provider, the escrow of a contract and the terms of a schedule are exactly those of their first valid registration |
| `LedgerSafety.SlashRule` | availability/escrow-payment/coordinator/dispatcher.go:377-426 | a FAIL is slash-eligible exactly if the last K dispatches all failed; its evidence is exactly those K records in order, also after the counter saturates |
| `LedgerSafety.EvidenceAcceptedIff` | availability/escrow-payment/coordinator/dispatcher.go:509-539 | emitted evidence passes the evidence check exactly if the last K dispatches named providers bound to one address |
| `LedgerSafety.MixedEvidenceRefused` | availability/escrow-payment/coordinator/dispatcher.go:377-426 | for K = 2, any escrow and any two different addresses, a history of calls whose slash evidence the check refuses |
| `LedgerSafety.OneProviderEvidenceAccepted` | availability/escrow-payment/coordinator/dispatcher.go:377-539 | if all results of a contract name one provider, all its slash evidence is accepted |
| `LedgerSafety.StoresAlwaysAgree` | availability/escrow-payment/coordinator/sign_only.go:87-159 | with one schedule per escrow the stored latest voucher is the last one dispatched, after any history |
| `LedgerSafety.PassNeverStale` | availability/escrow-payment/payment/submission.go:37-53 | with one schedule per escrow an admitted PASS is issued exactly if the provider is bound, so never refused as stale |
| `LedgerStaleness.PassIssuedIff` | availability/escrow-payment/coordinator/sign_only.go:87-159 | after any history an admitted PASS is issued exactly if the publisher can sign, the provider is bound, and sequence and payment move the escrow's latest voucher forward; it is refused as stale exactly if the lifetime is positive, the provider is bound and they do not |
| `LedgerStaleness.SharedEscrowGoesStaleIff` | availability/escrow-payment/payment/submission.go:37-53 | right after a PASS on one of two schedules of an escrow, an admitted PASS on the other is stale exactly if the other schedule's sequence is not ahead or its payment would be lower |
| `LedgerStaleness.SharedEscrowGoesStale` | availability/escrow-payment/payment/submission.go:37-53 | for any two schedules of one escrow: of two PASS results that would each be issued now, at least one is stale when it comes second |
| `LedgerStaleness.SharedEscrowReached` | availability/escrow-payment/coordinator/dispatcher.go:195-254 | two schedules on one escrow can be registered, and then the first PASS on the second is stale |
| `Ledger.VerifyFailStreak` | availability/escrow-payment/coordinator/dispatcher.go:509-539 | accepts exactly non-empty lists of verified records for one escrow and provider with consecutive sequence numbers |
| `LedgerSafety.StreakIsConsecutive` | availability/escrow-payment/coordinator/dispatcher.go:509-539 | the evidence check accepts exactly non-empty lists of verified records that all have the first one's escrow and provider and number on from its sequence |
| `Dispatcher.PublisherCoordinator.SetPaymentStateTTL` | availability/escrow-payment/coordinator/publisher.go:64-74 | sets the lifetime of future vouchers if it is positive; an error changes nothing |
| `Dispatcher.PublisherCoordinator.RegisterProvider` | availability/escrow-payment/coordinator/publisher.go:78-88 | write-once provider binding; an error changes nothing |
| `Dispatcher.PublisherCoordinator.RegisterContract` | availability/escrow-payment/coordinator/publisher.go:90-114 | write-once contract binding with one voucher store per escrow; an error changes nothing |
| `Dispatcher.PublisherCoordinator.CreateAndSignPaymentState` | availability/escrow-payment/coordinator/sign_only.go:87-159 | refuses anything but a PASS, signs, then stores; an error leaves the stores unchanged |
| `Dispatcher.AvailabilityPaymentDispatcher.RegisterContractSchedule` | availability/escrow-payment/coordinator/dispatcher.go:195-254 | registers a schedule as specified; an error leaves both stores unchanged |
| `Dispatcher.AvailabilityPaymentDispatcher.DispatchAvailabilityResult` | availability/escrow-payment/coordinator/dispatcher.go:301-435 | one dispatch is one step of the ledger; an error leaves schedules and voucher store unchanged |
| `Preimages.VoucherInjective` | availability/escrow-payment/payment/signing.go:44-71 | vouchers with equal preimages agree in every signed field |
| `Preimages.WriteVoucher` | availability/escrow-payment/payment/signing.go:44-71 | the field-by-field writer produces the voucher preimage |
| `Preimages.FailPayloadInjective` | availability/escrow-payment/coordinator/dispatcher.go:471-483 | fail records with equal payloads agree in every signed field |
| `Preimages.BuildFailRecordPayload` | availability/escrow-payment/coordinator/dispatcher.go:471-483 | the appending builder produces the fail-record payload |
| `Preimages.VoucherIsNotFailRecord` | availability/escrow-payment/coordinator/dispatcher.go:471-483 | no voucher preimage for a printed escrow identifier equals any fail-record payload |
| `Preimages.EscrowRoundTrip` | availability/escrow-payment/bindings/registry.go:31-44 | parsing a printed escrow identifier gives it back |
| `Preimages.EscrowStringInjective` | availability/escrow-payment/bindings/registry.go:44 | distinct escrow identifiers print differently |
| `Preimages.AnnouncementInjective` | availability/proof-of-request/cacheAnnouncement/signature.go:12-76 | announcements with equal signing payloads are equal |
| `Preimages.BuildSigningPayload` | availability/proof-of-request/cacheAnnouncement/signature.go:12-63 | the payload exists exactly if provider, file and root are given, and is the announcement's encoding |
| `Merkle.DepthIsLeast` | integration/availability/merkle.go:46-67 | the number of levels above n leaves is the least d with 2^d ≥ n |
| `Merkle.NewMerkleTree` | integration/availability/merkle.go:19-68 | builds every level of the reference tree, or reports the input error |
| `Merkle.GenerateProof` | integration/availability/merkle.go:97-133 | yields the reference audit path exactly for indices in range |
| `Merkle.VerifyMerkleProof` | availability/availability-contracts/verification/verifier.go:64-93 | the loop accepts exactly well-formed input whose path folds to the root |
| `Merkle.GeneratedProofVerifies` | availability/availability-contracts/verification/verifier.go:64-93 | every generated path of every tree, odd sizes included, verifies, and is as long as the tree is deep |
| `Merkle.Binding` | availability/availability-contracts/verification/verifier.go:64-93 | two leaves and paths of one length accepted at one index for one root are the same, or the two pairs hashed at some step of theirs collide |
| `MerklePlaces.AcceptedIffGenuine` | availability/availability-contracts/verification/verifier.go:64-93 | for every tree, index, hash and path of any length: an accepted path is, from where it meets the tree up, the own path of the node its index leads to, unless a pair on it collides with the genuine pair of the same step; and every such path is accepted |
| `MerklePlaces.RootIsPerfect` | integration/availability/merkle.go:46-67 | the root is that of the perfect tree over the leaves with leaves repeated at the end |
| `MerklePlaces.EveryNodeAccepted` | availability/availability-contracts/verification/verifier.go:64-93 | every node of every level is accepted with its own path, for every index that leads to it |
| `MerklePlaces.CarriesLeafIff` | availability/availability-contracts/verification/verifier.go:64-93 | an accepted, non-colliding path no longer than the tree is deep carries leaf i exactly if it has full length or the node it meets equals the leaf |
| `MerklePlaces.OnlyTheLeafIff` | availability/availability-contracts/verification/verifier.go:52-93 | among paths no longer than the tree is deep, the verifier accepts only leaf i at index i, collisions aside, exactly if all nodes on the way from the root equal the leaf |
| `MerklePlaces.LongPathHashesPair` | availability/availability-contracts/verification/verifier.go:64-93 | an accepted, non-colliding path longer than the tree is deep goes on below a leaf, which is the hash of the two 32-byte strings hashed there |
| `MerklePlaces.AcceptedLeafIsGenuine` | availability/availability-contracts/verification/verifier.go:64-93 | a path of full length accepted at i < n is leaf i with the tree's own path, unless a pair on it collides with the genuine pair of the same step |
| `Merkle.IndexModulo` | availability/availability-contracts/verification/verifier.go:64-93 | acceptance depends on the index only modulo 2^length |
| `ChallengeProof.HonestResponseAccepted` | availability/availability-contracts/verification/verifier.go:103-162 | a timely, signed response with the tree's own path passes every check |
| `ChallengeProof.AcceptedResponseIsGenuine` | availability/availability-contracts/verification/verifier.go:103-162 | for every tree, challenge and answer, with paths of any length: an accepted answer names the challenge, is on time, signed over its nonce, and genuine unless its path collides with the genuine one; and every genuine answer in that form is accepted |
| `ChallengeProof.ResponseProvesChunkIff` | availability/availability-contracts/verification/verifier.go:103-162 | an accepted, non-colliding answer carries the challenged leaf and its path if the path has full length; with a shorter one exactly if the node it meets equals the leaf; with a longer one a leaf is the hash of two hashes |
| `ChallengeProof.RootResponseAccepted` | availability/availability-contracts/verification/verifier.go:64-162 | an answer in form that carries the root and no path is accepted for every chunk index |
| `ChallengeProof.DigestInputInjective` | availability/availability-contracts/verification/verifier.go:44-50 | the signed bytes determine the chunk hash, and nonce and identifier among nonces of one length |
| `ChallengeProof.DigestBinds` | availability/availability-contracts/verification/verifier.go:37-50 | two equal digests for nonces of one length are for one chunk hash, nonce and identifier, or two different inputs hash to one value |
| `ChallengeProof.NonceIsBoundIff` | availability/availability-contracts/verification/verifier.go:37-50 | no other nonce and non-empty identifier have the same signed bytes exactly if the nonce is empty and the identifier one byte |
| `Planner.PlanPlacement` | network/distribution/planner.go:22-60 | succeeds exactly on valid parameters and then produces the circular placement in both maps |
| `Planner.PlanIsSound` | network/distribution/planner.go:44-57 | each chunk gets R distinct providers and the two maps are inverse to each other |
| `Planner.PlanLoads` | network/distribution/planner.go:44-57 | provider j's load is exactly ⌊m/n⌋·R plus the number of r < R with (j − r) mod n below m mod n, and two loads differ by at most min(t, n−t, R, n−R) |
| `Planner.PlanTotal` | network/distribution/planner.go:44-57 | the loads add up to m·R |
| `Planner.PlacedDistinct` | network/distribution/planner.go:44-57 | no provider is given a chunk twice |
| `PushHandler.CommittedMeansStored` | network/protocol/push/handler.go:182-251 | in every interleaving of streams a session commits only chunks it expects, that its manifest lists and that are stored under their hash, and so is every chunk acknowledged OK |
| `PushHandler.PublishedMeansStored` | network/protocol/push/handler.go:253-320 | a manifest is published only under its own identifier and after all its assigned chunks are stored |
| `PushHandler.LengthTestRedundant` | network/protocol/push/handler.go:279 | once every expected chunk is committed the two counts are equal, so the length test decides nothing |
| `PushTraces.PublishedAsAnnounced` | network/protocol/push/handler.go:136-320 | in every run a content is published only for an accepted announcement of it, and every chunk assigned by that announcement is listed in its manifest and stored under its hash |
| `PushTraces.PushedChunkIff` | network/protocol/push/handler.go:182-229 | in every run a pushed chunk passes the checks exactly if the latest open announcement assigns it, its manifest lists it and the hash fits; otherwise the answer names the first of these that fails |
| `PushTraces.CompletionIff` | network/protocol/push/handler.go:253-320 | in every run a batch is published exactly if its content has an open announcement, all chunks it assigned are committed and the write works, and the answer says so |
| `PushTraces.PushIsPublished` | network/protocol/push/handler.go:136-320 | in any reached state announcing, pushing every assigned chunk with fitting data and completing gets OK for each message, in order, and publishes |
| `PushHandler.StreamHandler.HandlePushManifest` | network/protocol/push/handler.go:136-180 | starts or replaces the session, one step of the state machine |
| `PushHandler.StreamHandler.CheckChunk` | network/protocol/push/handler.go:182-229 | the checks before storing, one step of the state machine |
| `PushHandler.StreamHandler.Commit` | network/protocol/push/handler.go:242-251 | marks the chunk in the session the stream holds and acknowledges it |
| `PushHandler.StreamHandler.HandlePushBatchComplete` | network/protocol/push/handler.go:253-320 | publishes exactly if every expected chunk is committed and the write works |
| `DistributionOutcome.NilMeansReplicated` | network/distribution/uploader.go:30-142 | with at least one attempt allowed, a nil return means every chunk is held under its own hash by at least R distinct providers, however jobs, rounds and other publishers interleave |
| `DistributionGuarantee.GuaranteeIff` | network/distribution/uploader.go:30-219 | nil implies R replicas on every run exactly if at least one attempt is allowed, or the replicas were there at the start, or some chunk cannot get R acknowledging providers for want of authorisation |
| `DistributionGuarantee.NilWithoutAttemptIff` | network/distribution/uploader.go:70-142 | with no attempt allowed some run returns nil exactly if every chunk is completable: without failover all its planned providers authorise the publisher; with failover those of them that do, together with the authorising providers before the first refusing one, are at least R |
| `DistributionRefusal.RefusedNeverReturnsNil` | network/protocol/push/handler.go:86-98 | whatever the number of attempts, no run returns nil if some chunk is not completable |
| `DistributionUnsent.UnsentReturnsNil` | network/distribution/uploader.go:162-205 | with no attempt allowed and every chunk completable, some run in which every announced manifest is acknowledged returns nil with every provider's store unchanged |
| `DistributionOutcome.CommittedNeverFalls` | network/distribution/uploader.go:70-130 | committed counts never fall between two moments of a run, and nothing is Uploading at a barrier |
| `FailoverRounds.FailoverSparesCommitted` | network/distribution/uploader.go:85-112 | failover neither reassigns nor unmarks a committed pair |
| `FailoverRounds.OfferedIsChosen` | network/distribution/uploader.go:88-112 | a chunk is handed to exactly the first providers of the active list that neither hold nor receive it, as many as it lacks, whatever happens to the other chunks |
| `FailoverRounds.FailedIsOfferedAgainIff` | network/distribution/uploader.go:96-111 | a provider that failed on a chunk is offered it again exactly if committed and earlier eligible providers together are fewer than R |
| `FailoverRounds.FirstIsOfferedAgain` | network/distribution/uploader.go:96-111 | the first active provider is offered every incomplete chunk it failed on |
| `DistributionRetry.FailedIsAskedAgain` | network/distribution/uploader.go:84-130 | every distribution with a failover round has a run to a barrier at which the first active provider has failed on a chunk and is given a job with that chunk again |
| `DistributionRounds.GivenUpAfterAllAttempts` | network/distribution/uploader.go:187-205 | a chunk is sent again until the allowed number of sends in a row has failed; exactly then it is marked failed and the job goes on |
| `DistributionRounds.RoundEndsIff` | network/distribution/uploader.go:70-142 | a round ends with nil exactly if every chunk has its replicas, with an error exactly if not and all failover rounds were made, and with another round otherwise |
| `DistributionRounds.EveryChunkIsDecided` | network/distribution/uploader.go:144-205 | at every barrier each chunk a provider was asked to take is marked either committed or failed there |
| `DistributionSafety.InvRun` | network/distribution/uploader.go:144-219 | after any sequence of steps and for any number of attempts, jobs are well-formed, a pair is Uploading only while its job sends it, committed marks stay, and a nil result means the tracker is complete |
| `DistributionSafety.StoredRun` | network/distribution/uploader.go:180-219 | with at least one attempt allowed every committed mark stands for a chunk stored at that provider after any sequence of steps |
| `ReplicaTracker.GlobalReplicaTracker.Mark` | network/distribution/tracker.go:34-41 | sets one status and no other |
| `ReplicaTracker.GlobalReplicaTracker.CommittedCount` | network/distribution/tracker.go:43-53 | counts the providers whose status is committed, in any order of the map |
| `ReplicaTracker.GlobalReplicaTracker.Complete` | network/distribution/tracker.go:60-75 | true exactly if every listed chunk has the required number of committed replicas |
| `ReplicaTracker.GlobalReplicaTracker.ReassignMissing` | network/distribution/uploader.go:88-112 | the nested loops compute the failover assignment and the matching marks |
| `Epochs.SamplingWithoutReplacement` | availability/availability-contracts/challenge/epoch.go:62-85 | selected and uncovered chunks always partition [0, total) and the counter is total − uncovered |
| `Epochs.FullEpochIsPermutation` | availability/availability-contracts/challenge/epoch.go:62-85 | after total selections the selections are a permutation of all chunks |
| `Epochs.SelectionIsNew` | availability/availability-contracts/challenge/epoch.go:78-84 | a selected chunk was uncovered, was not selected before, and is not uncovered any more |
| `Epochs.OneActiveEpoch` | availability/availability-contracts/challenge/epoch.go:42-58 | a key that ever had an epoch has exactly one active epoch, its latest |
| `Epochs.SelectSucceeds` | availability/availability-contracts/challenge/epoch.go:62-77 | selection works exactly on a key's active epoch with chunks left |
| `EpochDraws.NumberDraws` | availability/availability-contracts/challenge/epoch.go:77-84 | the big-endian bytes of a number, in any width, draw the uncovered chunk at its remainder |
| `EpochDraws.EveryChunkCanBeDrawn` | availability/availability-contracts/challenge/epoch.go:77-84 | every uncovered chunk of a current epoch is drawn by its own position among the uncovered ones |
| `EpochDraws.RoundsAreCounted` | availability/availability-contracts/challenge/epoch.go:43-57 | a new epoch gets, in 64 bits, the number of epochs started before for its provider and file, and keeps it |
| `Epochs.KeyIsUniqueIff` | availability/availability-contracts/challenge/epoch.go:44 | no other pair has a pair's key exactly if neither of its names contains a NUL |
| `Epochs.KeyIsUniqueAmongNamesIff` | availability/availability-contracts/challenge/epoch.go:26-44 | among pairs of non-empty names, exactly if the provider contains no NUL after its first character and the file none before its last |
| `Epochs.KeyInjective` | availability/availability-contracts/challenge/epoch.go:44 | keys tell pairs apart as soon as no provider contains a NUL |
| `Epochs.KeyCollision` | availability/availability-contracts/challenge/epoch.go:44 | with a NUL in a name two pairs share a key |
| `EpochTraffic.RunEffect` | availability/availability-contracts/challenge/epoch.go:25-85 | any run of other calls leaves an active epoch active exactly if none starts an epoch for its key, and then takes as many chunks as it asks for, as long as there are any |
| `Epochs.EpochStore.NewEpoch` | availability/availability-contracts/challenge/epoch.go:25-59 | ends the previous epoch of the key and starts one with every chunk eligible |
| `Epochs.EpochStore.SelectUncoveredChunk` | availability/availability-contracts/challenge/epoch.go:62-85 | removes and returns the chunk at the hash modulo the number left, or reports the error |
| `Epochs.EpochStore.GetEpochState` | availability/availability-contracts/challenge/epoch.go:120-131 | known epochs only; counter and uncovered count add up to the total |
| `Epochs.EpochStore.StartNextEpoch` | availability/availability-contracts/challenge/epoch.go:98-116 | restarts a known pair with the previous chunk count, all chunks eligible |
| `ContractSafety.ContractsStayGood` | availability/availability-contracts/contract/contract.go:97-276 | resting states are never Transferring, Ready or Disputed; Agreed, Active, Completed and Expired contracts are fully funded; result lists are in lockstep with periods 1, 2, …; each owned challenge is recorded at most once |
| `ContractSafety.TerminalIsAbsorbing` | availability/availability-contracts/contract/contract.go:97-276 | over any run a terminal state and its results never change, and results only grow |
| `ContractSafety.InitiateSucceedsIff` | availability/availability-contracts/contract/contract.go:121-167 | on a funded unexpired contract a challenge starts exactly if the random draws it needs work and, between its locked sections, nobody starts an epoch for the provider and file, nobody draws from the epoch before the counter is compared, and afterwards a chunk is left |
| `ContractSafety.OneCallDisturbs` | availability/availability-contracts/challenge/challenge.go:33-47 | one draw by others before the comparison makes the counters differ, one new epoch for the key after it makes the epoch inactive |
| `ContractSafety.RunningContractReached` | availability/availability-contracts/contract/contract.go:59-167 | proposing, funding and challenging a contract for a file of at least two chunks reaches an active contract whose epoch can still be drawn from |
| `ContractSafety.InitiateOnlyNeedsRandomness` | availability/availability-contracts/contract/contract.go:121-167 | with no call by others in between, it starts exactly if the random draws work: never a counter mismatch, inactive or exhausted epoch |
| `ContractSafety.InitiateAdvancesEpoch` | availability/availability-contracts/contract/contract.go:135-166 | a started challenge takes one chunk besides those others draw meanwhile, from the running epoch or from a new one, and tracks that epoch, which belongs to the contract's provider and file and is their latest |
| `ContractSafety.SettlingExpiredFails` | availability/availability-contracts/contract/contract.go:225-255 | settling an expired contract always errors and, with results, overwrites the settlement |
| `ContractSafety.CompletedPaysFairly` | availability/availability-contracts/contract/contract.go:238-254 | a completed contract in range splits exactly its payment, and releases all of it exactly if every recorded proof passed |
| `ContractTraces.ResultsAreReported` | availability/availability-contracts/contract/contract.go:171-205 | after any run the results of a contract are exactly the verdicts of the accepted calls, in order, its reports pass exactly where these succeeded, and its challenges are exactly those started |
| `ContractTraces.ReportAcceptedIff` | availability/availability-contracts/contract/contract.go:171-192 | after any run a verdict is accepted exactly if the contract is active, the challenge was last started for it, no other challenge is named, and none was accepted for it before |
| `ContractTraces.TermsAreCreated` | availability/availability-contracts/contract/contract.go:59-94 | after any run a contract exists exactly if a valid call created it, with the terms of that call |
| `ContractTraces.EpochGoesOnIff` | availability/availability-contracts/contract/contract.go:135-166 | a challenge goes on with the contract's epoch exactly if the last one did not trigger its end and it is active with chunks left; otherwise it starts a new one |
| `ContractTraces.LateChallengeExpires` | availability/availability-contracts/contract/contract.go:130-133 | a challenge after the end of the term expires the contract and changes nothing else |
| `ContractTraces.SettlesIff` | availability/availability-contracts/contract/contract.go:225-255 | settling works exactly for an active contract with results, and completes it exactly if the call came before the end of the term |
| `ContractTraces.CompletedPaysForReports` | availability/availability-contracts/contract/contract.go:238-254 | in range, a completed contract releases the rounded-down share of the payment for the share of accepted reports that succeeded, and its status is COMPLETED exactly if all did |
| `ContractTraces.TerminatesIff` | availability/availability-contracts/contract/contract.go:258-276 | termination works exactly for contracts that have not ended and keeps the settled amounts |
| `ContractBook.Transition` | availability/availability-contracts/contract/lifecycle.go:11-36 | a lifecycle step exists exactly where allowed, and never from a terminal state |
| `ContractBook.Book.Propose` | availability/availability-contracts/contract/contract.go:59-94 | records a proposed contract as specified |
| `ContractBook.Book.Fund` | availability/availability-contracts/contract/contract.go:97-117 | funds a proposed contract with exactly its payment |
| `ContractBook.Book.Initiate` | availability/availability-contracts/contract/contract.go:121-167 | one challenge, with no call by others in between, is one step of the history, expiry included |
| `ContractBook.Book.GenerateNextChallenge` | availability/availability-contracts/challenge/challenge.go:29-64 | checks the counter and draws one chunk from the epoch |
| `ContractBook.Book.Record` | availability/availability-contracts/contract/contract.go:171-205 | records a verdict as specified, refusing foreign and repeated challenges |
| `ContractBook.Book.Settle` | availability/availability-contracts/contract/contract.go:225-255 | settles as specified, writing the settlement before the state |
| `ContractBook.Book.Terminate` | availability/availability-contracts/contract/contract.go:258-276 | ends any non-terminal contract |
| `Settlement.CalculateSettlement` | availability/availability-contracts/settlement/settlement.go:12-35 | the counting loop and 64-bit arithmetic compute the specified outcome or error |
| `Settlement.ExactShareIff` | availability/availability-contracts/settlement/settlement.go:27 | the released amount is the rounded-down share exactly if the product fits 64 bits |
| `Settlement.FairSettlement` | availability/availability-contracts/settlement/settlement.go:19-34 | in range, released and withheld add up to the funds, the status is COMPLETED exactly if all proofs passed, and passes and failures are counted |
| `Settlement.MorePassesReleaseMore` | availability/availability-contracts/settlement/settlement.go:27 | in range, more passes never release less |
| `Settlement.OverflowWithholdsEverything` | availability/availability-contracts/settlement/settlement.go:27-33 | an input with four passes of four for which nothing is released |
| `Frames.DecodeInTwoHalves` | network/protocol/chunk/decoder.go:44-277 | on every stream the whole decoder equals header then payload, errors and remainder included |
| `Frames.DecodeFrameIff` | network/protocol/chunk/decoder.go:44-122 | decoding yields m and a remainder exactly if the stream is m as written, followed by the remainder, and m has version 1, a known type and a payload in its limits |
| `Frames.ReadMessageIff` | network/protocol/chunk/messages.go:51-102 | reading yields m and a remainder exactly if the stream is m as written, followed by the remainder, and m fits a frame |
| `Frames.DecodedIsRead` | network/protocol/chunk/messages.go:74-102 | a decoded frame is what the message reader reads, with the same remainder |
| `Frames.ValidReadIsDecoded` | network/protocol/chunk/validation.go:38-89 | a read message that passes validation is what the decoder decodes |
| `Frames.ValidIff` | network/protocol/chunk/validation.go:38-236 | exactly which messages are valid, type by type |
| `Frames.ValidChunkIff` | network/protocol/chunk/validation.go:137-190 | a chunk payload is valid exactly if it is the bytes of a version 1 header that gives the size of the non-empty ciphertext after it |
| `Frames.DecodedIsValidIff` | network/protocol/chunk/validation.go:38-236 | for a known type, every decoded frame of it is valid exactly if the type is the ticket |
| `Frames.DecodedNeedNotBeValid` | network/protocol/chunk/validation.go:191-206 | a decoded acknowledgement with a bad status is not valid |
| `Frames.RoundTripIff` | network/protocol/chunk/messages.go:51-102 | a written message reads back exactly if it fits a frame |
| `Frames.BackToBack` | network/protocol/chunk/messages.go:51-102 | any list of messages that fit, written back to back, reads back unchanged before any tail |
| `Frames.WriteAllInjective` | network/protocol/chunk/messages.go:51-72 | two lists of messages with the same bytes are the same list |
| `Frames.Reader.Decode` | network/protocol/chunk/decoder.go:44-122 | the reads consume exactly what the decoder function says |
| `Frames.Reader.HeaderOnly` | network/protocol/chunk/decoder.go:150-228 | the header read consumes exactly what the header function says |
| `Frames.Reader.PayloadOnly` | network/protocol/chunk/decoder.go:234-277 | the payload read re-checks size and type |
| `Frames.Reader.Read` | network/protocol/chunk/messages.go:74-102 | the message read consumes exactly what the reader function says |
| `Wire.HeaderParses` | network/content/core/types.go:9-17 | a chunk header parses back from its 66 bytes |
| `Wire.ParsedHeaderBytes` | network/content/core/types.go:9-17 | a parsed header has the bytes it was parsed from |
| `PushMessages.ReadPushIff` | network/protocol/push/messages.go:81-114 | reading a push message inverts writing on exactly the messages within 4 MiB |
| `PushMessages.PushRoundTripIff` | network/protocol/push/messages.go:55-114 | sending works and reads back exactly if the message is within the limit, although the limit is compared with a truncated size |
| `PushMessages.BuildPushManifest` | network/protocol/push/messages.go:118-135 | the buffer loop writes the manifest payload |
| `PushMessages.ParsePushManifest` | network/protocol/push/messages.go:137-159 | the slicing loop computes the parse or the length error |
| `PushMessages.ManifestRoundTripIff` | network/protocol/push/messages.go:118-159 | a built manifest parses back exactly if its chunk count fits 32 bits |
| `PushMessages.ManifestRebuilds` | network/protocol/push/messages.go:137-159 | a parsed manifest payload is the one built from the result |
| `PushMessages.ChunkRoundTrip` | network/protocol/push/messages.go:179-218 | a built chunk payload parses back |
| `PushMessages.ChunkRebuilds` | network/protocol/push/messages.go:195-218 | a parsed chunk payload is the one built from the result |
| `PushMessages.AcceptedIff` | network/protocol/push/client.go:42-163 | a request counts as confirmed exactly if it could be sent and the reply starts with an OK acknowledgement of the right kind for the right identifier |
| `PushMessages.ChunkConfirmedByHandler` | network/protocol/push/client.go:82-123 | the handler's acknowledgement confirms a chunk exactly if it names that chunk with status OK |
| `Content.Split` | network/content/chunker/chunker.go:22-63 | chunk k has index k (32 bits), offset k·ChunkSize and the corresponding bytes, and there are as many as the input needs |
| `Content.SplitIsLossless` | network/content/chunker/chunker.go:22-63 | the pieces in order are the input and their sizes sum to its length |
| `Content.SplitIsEven` | network/content/chunker/chunker.go:33-57 | no piece is empty and all but the last are full |
| `Content.DecryptSealed` | network/content/crypto/chacha20.go:34-71 | a chunk encrypted and named by its ciphertext decrypts to its plain data |
| `Content.NoncesDiffer` | network/content/crypto/chacha20.go:20-48 | different chunk indices have different nonce inputs, so equal nonces mean two digests that agree in their first 12 bytes |
| `ContentSafety.StoredNoncesDiffer` | network/content/crypto/chacha20.go:20-48 | the stored chunks of a file are sealed under the nonce in their header, and any two have different ones unless two digests agree in their first 12 bytes |
| `Content.ContentEngine.Ingest` | network/content/engine/engine.go:48-124 | succeeds exactly if randomness, key store, chunk store and input all work, and then lists the digests of all pieces and the input's length; otherwise the store has gained exactly the encrypted pieces before the first failure |
| `Content.ContentEngine.Reassemble` | network/content/engine/engine.go:127-173 | succeeds exactly if the key and every chunk are there, intact and authentic, and writes them in some order of their indices |
| `ContentSafety.ReassembleAfterIngest` | network/content/engine/engine.go:127-173 | for every input and every permutation of the chunk list, with at most 2^32 chunks of distinct identifiers, whatever sort is used, what is written is the input |
| `ContentRepeats.ReassembleIff` | network/content/engine/engine.go:66-173 | for every input and every permutation of the chunk list, with at most 2^32 chunks and whatever sort is used: all chunks are read back, and what is written is the input exactly if all pieces between two with one identifier have the same bytes |
| `ContentRepeats.OneIdentifierForTwo` | network/content/engine/engine.go:78-90 | of two one-byte pieces filed under one identifier the later is written twice, so the output is the input exactly if the bytes agree |
| `Requests.StoreHoldsPending` | availability/proof-of-request/request/request.go:62-128 | in every interleaving the store is exactly the Pending records, no two of one file and client |
| `Requests.LeavesPendingOnce` | availability/proof-of-request/request/request.go:144-189 | each record leaves Pending at most once and keeps that status |
| `Requests.FinalIsFinal` | availability/proof-of-request/request/request.go:144-189 | a record that left Pending is never changed again in any run |
| `Requests.OldTimerIsHarmless` | availability/proof-of-request/request/request.go:195-203 | a timer never changes a newer record, and does nothing once its own record has left |
| `Requests.LateTransitionIsHarmless` | availability/proof-of-request/request/request.go:207-241 | a resolve or abort that lost the race in the unlocked gap changes nothing |
| `Requests.CreatesIff` | availability/proof-of-request/request/request.go:62-128 | a new record is made exactly if the pair has none pending |
| `RequestOutcomes.RecordsAreAskedFor` | availability/proof-of-request/request/request.go:62-128 | after any run the records are, in order, those of the calls with a positive lifetime for a pair that had none pending |
| `RequestOutcomes.EndsAsAsked` | availability/proof-of-request/request/request.go:207-241 | resolving or aborting ends exactly the pair's pending request, with that status, whatever happens between the locked sections while it stays pending |
| `RequestOutcomes.TimerExpires` | availability/proof-of-request/request/request.go:195-203 | a timer that fires while its request is pending ends it as expired |
| `Requests.DemandIsClients` | availability/proof-of-request/demand/tracker.go:18-46 | demand is the number of distinct clients with a Pending request for the file |
| `Requests.RequestStore.GetOrCreateRequest` | availability/proof-of-request/request/request.go:62-128 | returns the pending request of the pair, new exactly if none existed |
| `Requests.RequestStore.TransitionRecord` | availability/proof-of-request/request/request.go:144-189 | changes exactly a Pending record and takes it out of the store |
| `Requests.RequestStore.RemoveRecord` | availability/proof-of-request/request/request.go:300-316 | removes the first entry for the record, keeping the order of the rest |
| `Requests.RequestStore.CalculateDemand` | availability/proof-of-request/demand/tracker.go:18-46 | counts distinct pending clients, or refuses an empty file identifier |

## Left out

- Fair termination of the swarm scheduler: not claimed, since a worker can keep requeuing a task it already missed.
- Every state change obeying the transition table: not claimed, since expiry is assigned directly, also from Agreed.
- libp2p hosts and streams, the DHT, relays, deadlines and the node programs: input and output only.
- On-chain contracts, their generated bindings and the escrow adapter; submission and settlement on chain only forward stored vouchers.
- Hash, signature and cipher internals, JSON encoding and decoding, ticket contents.
- The file system behind chunk store, manifests, keys and sessions: chunks are a map from identifier to chunk that never loses an entry.
- Content.ContentEngine.Ingest: a chunk store that fails after it has stored the chunk.
- ContentRepeats.ReassembleIff: files of more than 2^32 chunks, whose 32-bit chunk indices repeat.
- ContentSafety.ReassembleAfterIngest: files of more than 2^32 chunks, as above.
- Content.Split: a chunk size of zero, for which the read loop never ends, and the goroutine that feeds the chunks to the consumer one at a time.
- ContractBook.Book.Initiate: round numbers of challenges, which match their epoch's only while one contract uses a provider/file pair.
- Contract creation and finalization times other than the end of the term and the finalization stamp.
- DistributionGuarantee.GuaranteeIff: the 4 MiB limit on push messages; the manifest of a batch is taken to fit.
- DistributionOutcome.NilMeansReplicated: the summary counts in the log and error texts, and the batch-complete message a job sends at its end, whose result is ignored.
- Requests.RequestStore.TransitionRecord: stopping the timer, which the code uses only to save a callback; a stopped timer may still fire in the model.
- Proof-of-work search, demand metadata, the replica tracker of the request module, and legacy file transfer: easy members only.

# spectre-relay: a verified model

A Dafny 4.11 model of the spectre-relay store-and-forward server and proofs about whole runs of it: every interleaving of its threads, crashes and restarts, failed SQL statements, failed persists and clocks that step back. `dafny verify dfyconfig.toml` checks everything.

What the environment decides is an input of the model: clock readings, the outcome of SQL statements, persists and socket writes, the order in which threads run, and where the process dies. Each critical section of a mutex is one atomic step.

| file | what it models |
|---|---|
| SlidingWindow.dfy, RateLimiter.dfy | the three sliding-window limiters: what they compute, and the object that filters a slice in place over its backing array |
| Envelopes.dfy, Address.dfy | envelopes; relay addresses, `net.SplitHostPort`, normalisation |
| QueueTable.dfy, QueueFifo.dfy, QueueRuns.dfy, QueueVisibility.dfy, QueueAge.dfy | the queue table, its refinement to a bounded FIFO per recipient, whole runs with purges and restarts, when a restart can be seen, and how old a message can get |
| SnapshotFile.dfy, Durability.dfy | temp file plus rename, and the runs of both stores on top of it |
| Store.dfy, Router.dfy | the Store object; `deliver` and `FlushQueue` as loops over it |
| QueueLedger.dfy, Delivery.dfy, DeliverySafety.dfy, DeliveryOrder.dfy, DeliveryWrites.dfy, DeliveryLimits.dfy, DeliveryAge.dfy | the concurrent delivery protocol as a step system: conservation, addressing, order in the queue and on the sockets, where at-most-once ends, and age |
| Registry.dfy | register/unregister histories |
| Federation.dfy | a network of relays |
| Prekeys.dfy, PrekeyRuns.dfy, PrekeyAnswers.dfy, PrekeyDrain.dfy | bundle validation and the prekey store; runs with the process dying at every point; single use; the drain bound |
| SealedCa.dfy, CaRotation.dfy, Certificates.dfy | the certificate authority, key rotation with a pinning client, certificate provenance |
| Endpoints.dfy | the handlers that combine limiter, prekey store and authority |

## Main results

- **Conservation.** In every interleaving of deliver, flush, register, unregister, purge and crash, with any faults, an accepted message is in exactly one place, plus one for each crash that found it nowhere but on the sockets and still in the file (`EachMessageInOnePlace`). It is written at most once per process lifetime (`OncePerLifetime`), and at most once over all of them unless a crash finds it both written and in the file (`WrittenAtMostOnce`). A crash can be followed by a write of a message exactly when the file has a row for it (`RewrittenExactly`).
- **Order of a failed flush.** What a flush puts back keeps its order through every interleaving and crash, unless another drain takes the earlier of two messages while a thread still has the later one, or a crash falls back to a file that has them the other way round (`LeftoversKeepOrder`). That condition is exact (`ReorderedExactly`), and such drains do happen (`FlushesCanSplit`). Under it the later message is not written before the earlier one is written or dropped (`LeftoversWrittenInOrder`); exactly which messages can overtake is `OvertakenExactly`.
- **Purges and restarts are invisible.** Runs that differ only in where purges stand, or restarts that find the file up to date, show callers the same (`HiddenStepsAreInvisible`), and a drain returns exactly the live messages in acceptance order (`DrainReturnsAccepted`). A restart can be seen exactly when memory and file differ in some live queue (`RestartShowsExactly`). A restart is a load of the file whatever became of the persist attempts (`QueueRestartLoads`, `PrekeyRestartLoads`).
- **Rate theorem.** With clock readings that go back by at most `d`, any window of 60 s minus `d` holds at most the budget (`RateBound`), and no longer window does (`RateBoundIsTight`); the bound per full minute holds exactly when the clock never steps back or the budget is at most one (`FullMinuteExactly`).
- **One-time prekeys.** With the process dying at any point, two requests are answered with one key only if the first answer followed a failed persist and its process died before a later one succeeded (`KeysAreSingleUse`). Exactly which keys can still be answered with is `AnswerableExactly` and `AnsweredAgainExactly`. The endpoint lets at most ten keys of a target leave per minute for each process that takes any (`DrainBound`), and every restart does renew the budget (`RestartsRenewTheBudget`).
- **Certificates.** Each names the session's normalised id and the identity key of the registration in force for it, which is the latest one, or after the death of a process the one in the file (`CertificateProvenance`).
- **Rotation.** A client that checks once per generation follows the chain from the first key to the current one, through restarts, torn writes and hostile answers (`ClientFollowsChain`), for any number of generations (`EveryGenerationIsReached`).
- **One hop and no misdelivery**: `AtMostOneHop`, `NoMisdelivery`.

## Where the code is weaker than its comments

- server/prekey_store.go:181-188 says a crash cannot resurrect a consumed key. The key is served even if the persist fails, and then it can, exactly while the file has it (`AnsweredAgainExactly`).
- server/router.go:197-198 says a failed flush preserves ordering. Without interleaving it keeps everything exactly when no re-enqueued row expires during the loop (`FlushKeepsEverything`); with it, a second connection of the same user can turn the order around (`FlushesCanSplit`, `ReorderedExactly`).
- The queue's TTL bounds the time since the last enqueue (`DrainedWithinTtl`), not since acceptance: the age grows by one TTL with each re-enqueue (`AgeBound`, `DeliveredAge`, `RequeueRefreshesExpiry`).
- server/server.go:49-57 promises at most ten one-time prekeys per target and minute. The limiter is in memory, so the promise is per process: k restarts let ten times k + 1 leave at once (`RestartsRenewTheBudget`), and never more (`DrainBound`).
- server/prekey_store.go:117 says a failed registration is not persisted. On a persist error the bundle is nevertheless in memory, and the next successful persist of any user writes it (`RegisterBundle`).

## Model

| member | source | states |
|---|---|---|
| SlidingWindow.PrunedListEqualsHistory | server/ratelimit.go:32-44 | above any cutoff no earlier call pruned past, the pruned list and the full admission history hold the same timestamps |
| SlidingWindow.DecidesAsFullHistory | server/ratelimit.go:26-46 | with a nondecreasing clock every call is decided exactly as by counting the last minute of the unpruned history |
| SlidingWindow.RefusalIsJustified | server/ratelimit.go:40-43 | with any clock, a refusal finds exactly `perMin` recorded admissions newer than one minute ago |
| SlidingWindow.StoredWithinBudget | server/ratelimit.go:26-28 | a key's stored list never exceeds the budget |
| SlidingWindow.RateBound | server/router.go:42-61 | if readings in lock order go back by at most d, any window of 60 s minus d holds at most `perMin` admissions |
| SlidingWindow.RateBoundIsTight | server/router.go:42-61 | for every skew up to a minute and budget of at least two, a window one nanosecond longer can exceed the budget |
| SlidingWindow.FullMinuteExactly | server/ratelimit.go:8-12 | the bound per full minute holds for all readings of a given skew exactly when the clock never steps back or the budget is at most one |
| SlidingWindow.KeysAreIndependent | server/ratelimit.go:33-45 | a key's list, and so every decision on it, is a function of the calls on that key alone |
| RateLimiter.Limiter.Allow | server/ratelimit.go:29-46 | the call refines the functional decision, changes no other key's list, keeps lists within the budget and keys' arrays apart |
| RateLimiter.AllowSlice | server/auth.go:52-65 | prune in place, then append or refuse: the slice and verdict are those of the functional specification |
| RateLimiter.Compact | server/ratelimit.go:34-39 | in-place compaction over one backing array equals the functional filter and leaves the rest of the array alone |
| RateLimiter.Append | server/ratelimit.go:44 | appending reuses the array or moves to a fresh one, with the old contents plus the new timestamp |
| Address.Split | server/router.go:151 | the cut at the first '@': both parts rejoin to the id and the user part has no '@' |
| Address.SplitHostPort | server/router.go:129-138 | what it returns joins back to the input as host:port or [host]:port |
| Address.SplitUndoesJoin | server/router.go:129-138 | every well-formed host and port are recovered from both joined forms |
| Address.LocalDomains | server/router.go:124-147 | the domains a relay calls local, for every relay id with or without a port: the host, the host with an empty port, the host with the relay's port, and no other |
| Address.SessionKey | server/server.go:226-233 | a session key keeps an '@' exactly when the id names a foreign domain |
| Address.SessionKeyIdempotent | server/server.go:226-233 | normalising twice is normalising once |
| Address.Destine | server/router.go:149-165 | deliver treats an id as local exactly when its session key is '@'-free, and then uses that key; it forwards sealed envelopes only |
| Address.FederatedUser | server/server.go:464-480 | the endpoint hands on the session key of a local id or nothing, and deliver keeps that key local under every relay id |
| QueueTable.EnqueueKeepsShape | server/store.go:137-178 | every outcome of Enqueue keeps ids below the counter and every recipient within 500 rows |
| QueueTable.FullDeletesNothing | server/store.go:143-159 | the at-cap return, which does not persist, has deleted no row |
| QueueFifo.EnqueueRefines | server/store.go:132-178 | a fault-free Enqueue pushes onto the recipient's bounded FIFO with expiry and touches no other queue |
| QueueFifo.FailedEnqueueRefines | server/store.go:144-178 | a failed Enqueue adds nothing and drops at most expired entries of that recipient |
| QueueFifo.DrainRefines | server/store.go:185-247 | a committed drain returns exactly the live messages oldest first, empties that queue and touches no other |
| QueueFifo.PurgeRefines | server/store.go:303-314 | a purge drops exactly the expired entries of every queue |
| QueueRuns.VisibleSame | server/store.go:137-269 | Enqueue, drain and count on tables with the same live rows decide and return the same and keep the live rows equal |
| QueueRuns.HiddenStepsAreInvisible | server/store.go:289-314 | two runs with a forward clock that differ only in purges, or in restarts that find the file up to date, show callers the same decisions, drains and counts |
| QueueRuns.FailedPersistShows | server/store.go:180-182 | without a successful persist a restart is visible, for every message |
| QueueVisibility.RestartShowsExactly | server/store.go:348-385 | a restart can be seen in some continuation with a forward clock and readable rows exactly when memory and file differ in some live queue |
| QueueRuns.DiskMirrorsMemory | server/store.go:157-182 | without storage errors memory and file hold the same table after every operation |
| QueueRuns.DrainReturnsAccepted | server/store.go:185-247 | in any such run a drain returns the still-live messages accepted since the last drain, in acceptance order |
| QueueAge.DrainedWithinTtl | server/store.go:161 | a drained message was enqueued at most one TTL before |
| QueueAge.AgeBound | server/router.go:199-201 | a message enqueued n times in all is returned at most n TTLs, and n - 1 times the flush's holding time, after its acceptance |
| QueueAge.RequeueRefreshesExpiry | server/router.go:199-201 | for every number of re-enqueues, TTL and holding time a run that meets the conditions of the bound reaches it exactly |
| SnapshotFile.RestartFindsLastRename | server/store.go:404-450 | wherever persist attempts fail or crash, a restart finds the snapshot of the last completed rename, or what was there to begin with |
| Durability.QueueRestartLoads | server/store.go:348-385 | loading the file after any run of the queue, with every persist attempt stopped anywhere, is the run's restart and is never refused |
| Durability.PrekeyRestartLoads | server/prekey_store.go:335-373 | the same for the prekey store, with the process dying inside its critical sections too |
| RelayStore.Store.NewStore | server/store.go:63-102 | a file that cannot be opened, or a first start whose persist fails, is an error; otherwise the store holds the file's table, whatever its size, or an empty one, and no client |
| RelayStore.Store.Register | server/store.go:104-113 | the map changes at that user only and the superseded connection is returned |
| RelayStore.Store.Unregister | server/store.go:115-123 | the entry goes only if it still points at that connection |
| RelayStore.Store.LookupClient | server/store.go:125-130 | the current connection, if any |
| RelayStore.Store.Enqueue | server/store.go:137-183 | memory and file after every fault and persist outcome, and the cap is kept |
| RelayStore.Store.DrainQueue | server/store.go:186-248 | the cursor loop returns what the specification's drain shows; an uncommitted drain returns and changes nothing |
| RelayStore.Store.QueuedMessages | server/store.go:258-269 | the number of live rows, 0 on error |
| RelayStore.Store.PurgeExpired | server/store.go:303-314 | the purge step on memory and file |
| Router.Deliver | server/router.go:149-182 | written to the current connection of the session key, or queued under it, or forwarded sealed, or dropped; the store changes only when queued |
| Router.FlushQueue | server/router.go:186-205 | stops at the first failed write and re-enqueues from there on, in order |
| Router.RequeueAll | server/router.go:199-201 | re-enqueues every leftover in order |
| Router.FlushKeepsEverything | server/router.go:186-205 | written prefix plus resulting queue is the drained list exactly when every re-enqueue precedes the expiry of the earlier ones; no re-enqueue hits the cap either way |
| QueueLedger.PutFollowsStore | server/store.go:137-183 | Enqueue moves the protocol's tables as it moves the store's |
| QueueLedger.TakeFollowsStore | server/store.go:186-248 | so does a drain, which also hands out the same messages |
| DeliveryAge.StoreRunsOps | server/store.go:137-314 | in every run of the protocol the tables go through a run of the store's own operations |
| DeliveryAge.RelayQueuesDistinct | server/store.go:137-183 | in every run no queue holds a message twice, in memory or in the file |
| DeliveryAge.DeliveredAge | server/router.go:186-205 | in every run with a forward clock and up-to-date restarts, only a flush enqueues a message again, so one handed out after n enqueues is at most n TTLs and n - 1 holding times old |
| QueueLedger.PutMoves | server/store.go:137-183 | Enqueue moves one copy of its message into the table or one drop class, and expired rows into theirs |
| QueueLedger.TakeMoves | server/store.go:186-248 | a drain hands out, loses to read errors or drops as expired each row it deletes, one for one |
| QueueLedger.ReloadMoves | server/store.go:348-385 | a crash puts a message with a row in the file back into the queue and nowhere else, and loses any other that was held or queued |
| Delivery.EachMessageInOnePlace | server/router.go:149-205 | in every interleaving with any faults and crashes, an accepted message is in one place plus one per crash that found it only on the sockets and in the file; off the sockets it is in at most one place |
| Delivery.WrittenAtMostOnce | server/router.go:149-205 | if no crash finds the message already written and still in the file, it is in exactly one place and written at most once, across restarts too |
| Delivery.OncePerLifetime | server/router.go:149-205 | within one process lifetime, after any past, no message is written twice |
| Delivery.CrashLosesOnlyInFlight | server/store.go:180-182 | a crash loses exactly what was held or queued without a row in the file; after successful persists no queued message |
| DeliveryLimits.RewrittenExactly | server/store.go:243-247 | at every reachable state a crash can be followed by a write of an accepted message exactly when the file has a row for it |
| DeliveryLimits.CrashThenWrite | server/store.go:243-247 | for every live row in the file, crash, reconnect and flush write its message |
| DeliveryOrder.LeftoversKeepOrder | server/router.go:196-203 | two messages a flush has left keep their order, in memory and in every later drain, through any events in which no drain takes the first while a thread has the second and no crash falls back to a file that has them the other way round |
| DeliveryOrder.ReorderedExactly | server/router.go:196-203 | at every reachable state with one message ahead of another, an event can be followed by a run that turns them around exactly when it is such a drain or crash |
| DeliveryOrder.FlushesCanSplit | server/server.go:235-240 | with any configured TTL, whenever a flush has two messages to put back, another connection of the user can drain the first in between |
| DeliveryWrites.WritesNowMeans | server/router.go:167-195 | an event is a write of a message exactly when it adds one to the record of writes |
| DeliveryWrites.LeftoversWrittenInOrder | server/router.go:186-205 | of two messages a flush has left, when the second is written the first has been written or dropped, under the same condition |
| DeliveryWrites.OvertakenExactly | server/router.go:167-181 | of two messages one ahead of the other, the later can be written first exactly when a deliver thread that has not found the recipient missing has it, or a flush sends it while the earlier is queued |
| DeliverySafety.NoMisdelivery | server/router.go:167-177 | in every run the event that makes a write uses a connection some client opened before it under an id with the message's session key |
| DeliverySafety.OwnerIsRecipient | server/router.go:167-177 | with a connection per session, whoever opened the connection written to has the message's session key |
| DeliverySafety.KeysHaveNoDomain | server/router.go:163-181 | every queue key and delivery key is '@'-free and belongs to its messages; a flush under a foreign id has nothing to send |
| DeliverySafety.ClientsFollowRegistry | server/store.go:104-123 | the map deliveries look up in is the registry's after the calls of the running process |
| Registry.HoldsLatest | server/store.go:104-123 | the map holds a connection exactly when it is the latest registered for the user and not unregistered since |
| Registry.EachRegistrationEndsOnce | server/store.go:104-123 | every registration is still mapped, was handed back, or was taken out by its own session: exactly one of them |
| Registry.SupersededOnce | server/server.go:235-238 | with distinct connections, one is handed back for closing exactly once if it left the map without its session taking it out, else never |
| Federation.ReceiveNeverForwards | server/server.go:440-482 | a federated request, whoever sent it, is dropped or filed under the recipient's session key, never forwarded |
| Federation.SubmitOnce | server/router.go:77-99 | a submission is dropped, filed, or forwarded once as a sealed envelope |
| Federation.AtMostOneHop | server/router.go:149-166 | in every network and run, with requests no relay sent, every forward stems from a submission and no two from one, open envelopes never leave a relay, forwards go to the foreign domain the recipient names and arrivals are filed under the session key |
| Prekeys.ValidatePrekeyBundle | server/prekey_store.go:235-267 | accepts exactly the bundles with right lengths, non-zero id, at most 100 keys and distinct ids |
| Prekeys.CheckOneTime | server/prekey_store.go:256-265 | the loop with its `seen` set accepts exactly the lists with right lengths and distinct ids |
| Prekeys.LengthMeansShape | server/prekey_store.go:269-282 | a string decodes to n bytes exactly when, line breaks aside, it is n bytes' worth of base64 digits and the padding n calls for |
| Prekeys.PrekeyStore.constructor | server/prekey_store.go:93-111 | the loaded bundles are taken over unchecked |
| Prekeys.PrekeyStore.RegisterBundle | server/prekey_store.go:127-146 | on any store, valid or not: replaces on valid input, reports a failed persist without undoing memory, changes nothing on a validation error, and keeps a valid store valid |
| Prekeys.PrekeyStore.GetBundleWithOTPK | server/prekey_store.go:167-191 | static fields are served either way; a key is popped and persisted only when consuming |
| Prekeys.PrekeyStore.ConsumeOneTimePrekey | server/prekey_store.go:215-228 | pops the head of the list, if any |
| Prekeys.PrekeyStore.IdentityKeyOf | server/prekey_store.go:205-213 | the identity key of the stored bundle |
| PrekeyRuns.BundlesStayValid | server/prekey_store.go:335-373 | every bundle in memory and on disk is valid after any run, although reloads do not validate |
| PrekeyRuns.SlotsInForce | server/prekey_store.go:127-191 | after any run, memory holds each user's registration in force and the file the one it was last written with |
| PrekeyRuns.LatestInForce | server/prekey_store.go:127-146 | within a process, a registration is in force until the user's next one |
| PrekeyRuns.SavedInForce | server/prekey_store.go:335-373 | a new process has what was in force at the last write to the file, until the user registers again |
| PrekeyAnswers.AnswersAreResponses | server/prekey_store.go:180-190 | the key a request gets is exactly the recorded key of the registration in force |
| PrekeyAnswers.KeysAreSingleUse | server/prekey_store.go:148-191 | with the process dying before or after the rename or the answer, two requests answered with one key id imply that the first answer's persist failed and its process died without a later successful one |
| PrekeyAnswers.ServedThenRemaining | server/prekey_store.go:180-190 | in every run a user's bundle is the registration in force without its first keys, which are gone in list order |
| PrekeyAnswers.AnswersAreGone | server/prekey_store.go:180-190 | every answer from the registration in force is one of the keys gone, unless its persist failed and its process died unsaved |
| PrekeyAnswers.AnswerableExactly | server/prekey_store.go:167-191 | a key can be answered with in some continuation exactly when memory or file has its registration with that key still to come |
| PrekeyAnswers.AnsweredAgainExactly | server/prekey_store.go:186-188 | a key the running process answered with can be answered with again exactly when the file still has it to come, and then no persist has succeeded since |
| Certificates.CertificateProvenance | server/server.go:264-347 | a certificate is issued exactly when a registration of the session's normalised id is in force, and names that id and that registration's identity key, sent in a valid bundle by a session with the same normalised id; it expires after 24 h |
| PrekeyDrain.DrainBound | server/server.go:49-57 | over whole runs with restarts, in any window of 60 s minus the clock skew and the delay between limiter and store, at most ten one-time prekeys of a target leave for each process that took one in it |
| PrekeyDrain.RestartsRenewTheBudget | server/server.go:401-409 | with enough keys in the file, a run with k restarts lets ten times k + 1 keys leave within one nanosecond |
| PrekeyDrain.PoolShrinksOnlyWhenTaken | server/server.go:401-413 | between registrations and restarts the pool shrinks by one exactly when a request takes a key, and an over-budget request leaves the vault unchanged |
| Endpoints.HandlePrekeysGet | server/server.go:389-424 | the handler over the limiter and store objects is the two steps of the drain model; static fields do not depend on the budget |
| Endpoints.Admit | server/server.go:408 | one limiter call on the object is one call on the whole attempts map |
| Endpoints.BuildSenderCert | server/server.go:331-347 | no bundle, no certificate; otherwise exactly the certificate the provenance result is about verifies |
| SealedCa.KeyStore.NewSealedCA | server/sealed_ca.go:95-133 | loads or mints the key and derives the proof; errors leave no authority |
| SealedCa.RestartsChangeNothing | server/sealed_ca.go:102-108 | restarts change neither key nor proof |
| SealedCa.IssueCert | server/sealed_ca.go:165-183 | the signature verifies under the authority's key for exactly that issuer, user, identity key and expiry |
| CaRotation.ProofLinksKeys | server/sealed_ca.go:95-133 | over all restarts, failed writes and operator actions the served key is the latest and a served proof verifies it under the one before |
| CaRotation.CheckCatchesUp | server/sealed_ca.go:39-53 | one check takes a client at most one generation behind, with the proof in place, to the latest key |
| CaRotation.HearAdvances | server/sealed_ca.go:39-53 | no answer, replayed or hostile, moves a pin other than one step along the chain |
| CaRotation.ClientFollowsChain | server/sealed_ca.go:88-133 | if key files are moved or removed only with a key in place and the client checks between each new key and the next such action, its last check leaves it at the latest key |
| CaRotation.EveryGenerationIsReached | server/sealed_ca.go:88-133 | for every number of generations such a run leads from the first key to the last |
| CaRotation.MissedGenerationIsFinal | server/sealed_ca.go:153-163 | a client two generations behind keeps its pin through everything the relay does later |

## Left out

- AES-GCM and key files of the stores: encryption under the one key is the identity; a row that cannot be scanned, decrypted or parsed is an input.
- Rows are iterated to the end: the missing `rows.Err()` check after the drain loop is not modelled.
- SQLite: the database is a table value whose serialisation includes the id counter.
- JSON: frames and files are parsed records, so the dispatch on the `type` field and the sealed-before-open trial of `Route` are not modelled, nor is an envelope that cannot be marshalled.
- The authentication handshake: the user id it returns is an input; its limiter is the limiter proved here with budget 5.
- Power loss: nothing is synced to disk by the code, so crashes are process crashes with an atomic rename; temp names are taken to differ from the target.
- Liveness: a message queued just after a flush may wait while its recipient is online.
- The `MaxClients` limit: check and increment are not atomic, and no bound holds.
- Router.FlushQueue: runs without interleaving here; Delivery and DeliveryOrder cover the interleaved flush.
- A fetch whose process dies before the rename counts as a key taken in the drain bound, although nobody is answered and the key comes back.
- Ed25519 and freshness of generated keys: ideal signatures, with freshness and unforgeability as hypotheses of the rotation results.
- Deleting a torn key file by hand (`Discard`) is an operator action the code does not mention; without it such a relay never starts again.
- The pinning client lives in another repository; its rule is the one the authority's comments state.
- HTTP, WebSocket, TLS, configuration, logging and shutdown: input and output only.

# UPIMesh settlement, mesh and codec: a Dafny model

UPIMesh carries signed payments over a mesh of phones until one of them reaches the server, which settles them
against a small SQLite bank. This project models that pipeline and proves what it guarantees:

- `Types`, `Sums`: the value types, C++ division, sums over maps.
- `Store`: the two tables, the UNIQUE hash column, AUTOINCREMENT ids, BEGIN/COMMIT/ROLLBACK, seed and reset.
- `Settlement`: `settle` with its retry loop and locked block, proved equal to the one-shot `SettleAtOnce`.
- `Ledger`: serial runs; reconciliation, the exact condition for conservation, absence of 64-bit overflow.
- `Concurrent`: any number of ingests, settles, evictions, cache clears and resets as one step system. A schedule is
  any list of events, and a thread holds no mutex between its steps.
- `Serializability`: when an interleaved run is a serial run, when the ledger still reconciles, and the lost update.
- `Conservation`: by how much an interleaved run changes the total of all balances, and exactly when it does not.
- `Locking`: the locked block statement by statement, shown to refine `Concurrent`; what readers can see.
- `Alone`, `Steps`: a thread of the step system that nothing interrupts computes `IngestAtOnce` and `SettleAtOnce`;
  each event is what one call of a service method does on the heap.
- `Idempotency`, `Ingestion`, `Replay`: the claim cache, the gates of `ingest`, and the exact replay window.
- `Mesh`, `MeshRuns`, `MeshConcurrent`: devices and gossip on the heap, whole runs of rounds, overlapping rounds and
  the round nothing interrupts.
- `Api`, `Flushes`, `Confluence`, `Delivery`: `meshFlush`, `meshReset`, and what they do end to end.
- `Codec`, `Crypto`: paise and rupees through doubles, with IEEE rounding as an instance; the byte frame, what any JSON
  document is read as, decryption errors, and the whole payload round trip. `ToyCiphers` shows that the cipher laws can be met.

Clock readings, encryption randomness, hashing, the ciphers, base64 and JSON text are parameters. Loops over
unordered containers pick the next element arbitrarily, so every result holds for every iteration order. Every lemma
switches automatic induction off: what holds by induction is proved by visible recursion. The locked block of `settle`
and the nested loops of `gossipOnce` are split into one method per level (`CommitBoth`; `Round`, `FloodMesh`,
`FloodAll`, `Flood`, `Offer`, `HoldAt`), and so are the loops over devices (`HeldAt`, `UploadEach`, `ClearAt`).
`FlushTwice`, `InjectAndGossip` and `SendAndDeliver` are client code: they call the services in the order the API
offers and state what a caller may conclude.

Where the code and its documentation differ, the model follows the code:

- `cpp/README.md:28` says the whole of `settle` runs under the mutex. The two account reads take and drop it, so
  copies can be stale at the commit (`Serializability.LostUpdate` shows money being created). What survives every
  interleaving is in `Concurrent`; when a run is serial is in `Serializability`, when it keeps the total in `Conservation`.
- `cpp/model/AccountRepository.h:21-22` promises a version check. `save` is a blind upsert; no optimistic locking exists.
- The top-level `README.md` shows `Database::execute` taking the mutex. It does not; its callers do.
- The top-level `README.md` claims replays are perfectly rejected. The cache and the age check alone let a packet pass
  twice if it was signed no earlier than 998 ms before its first claim (`Replay.ReplayExactly`); the UNIQUE hash column
  is what keeps it from settling twice (`Concurrent.ExactlyOnce`).
- A payment to oneself is credited and not debited, because the receiver copy is saved last.

## Model

| member | source | states |
|---|---|---|
| Store.AtMostOneRow | cpp/model/Database.cpp:36-47 | the UNIQUE column means at most one row per hash, by count |
| Store.AppendKeepsWellFormed | cpp/model/TransactionRepository.cpp:38-46 | an insert with an unused hash keeps primary keys, UNIQUE hashes and growing ids, and gives the hash one row |
| Store.Database.Begin | cpp/service/SettlementService.cpp:55 | opens a transaction on the current content; fails and changes nothing if one is open |
| Store.Database.Rollback | cpp/service/SettlementService.cpp:83 | restores both tables and the id counter to the snapshot, and closes the transaction |
| Store.SeedIsSeeded | cpp/model/Database.cpp:60-68 | the four demo accounts with their names, paise and version 0, and no other |
| Store.Database.ResetTables | cpp/model/Database.cpp:89-94 | empties the log, reseeds the accounts and keeps the id counter |
| Store.AccountRepository.FindById | cpp/model/AccountRepository.cpp:8-35 | returns the stored account exactly when the VPA has a row |
| Store.AccountRepository.Save | cpp/model/AccountRepository.cpp:37-57 | overwrites the row of that VPA, version included, and touches no other |
| Store.AccountRepository.FindAll | cpp/model/AccountRepository.cpp:59-79 | returns every row exactly once |
| Store.TransactionRepository.Save | cpp/model/TransactionRepository.cpp:10-47 | appends one row under the next id, or fails on a used hash and changes nothing |
| Store.TransactionRepository.ExistsByPacketHash | cpp/model/TransactionRepository.cpp:49-66 | is true exactly when the hash has a row |
| Settlement.SettlementService.Settle | cpp/service/SettlementService.cpp:14-99 | the retry loop, in at most three attempts, either adds exactly one row, every column of it from the request or the clock, or fails with accounts and log as at entry; a used hash always fails |
| Settlement.SettlementService.CommitBoth | cpp/service/SettlementService.cpp:52-96 | all of both saves and the insert, or none of it; no transaction stays open |
| Settlement.SettlementService.RecordRejected | cpp/service/SettlementService.cpp:101-118 | adds a REJECTED row and no balance change, or fails on a used hash |
| Settlement.SettleRecordsOnce | cpp/service/SettlementService.cpp:20-81 | when a settle records, what each column of the row says, SETTLED exactly when the balance covers the amount, and nothing on failure |
| Settlement.SettleMovesMoney | cpp/service/SettlementService.cpp:47-58 | the effect on every balance: plus the amount for the receiver, minus it for a different sender |
| Ledger.SerialRunsReconcile | cpp/service/SettlementService.cpp:40-73 | after any serial run from an empty log each balance is its opening balance plus SETTLED receipts minus SETTLED amounts sent to others |
| Ledger.SerialMovesTotal | cpp/service/SettlementService.cpp:47-58 | a serial run changes the total of all balances by exactly the amounts it settles as self-payments |
| Ledger.SerialConserves | cpp/service/SettlementService.cpp:47-58 | a serial run never lowers the total, keeps it if and only if it settles no self-payment, and makes no balance negative |
| Ledger.ConservationAndNoOverflow | cpp/model/Database.cpp:60-68 | since seed or reset, runs without a settled self-payment total 900000 paise, each balance lies in 0..900000, and no debit or credit leaves int64 |
| Concurrent.NoNegativeBalance | cpp/service/SettlementService.cpp:20-58 | no stored balance is ever negative, in any interleaving, stale reads and resets included |
| Concurrent.OnlyItsPartiesArePaid | cpp/service/SettlementService.cpp:52-118 | in every run, apart from a reset, the database changes only by one row that says column by column what its thread was asked; a balance changes only if that row is SETTLED, and only for its sender and receiver |
| Concurrent.PaymentsAreSettledRows | cpp/service/SettlementService.cpp:52-96 | the number of times balances were written for a hash since the last reset equals its SETTLED rows |
| Concurrent.ExactlyOnce | cpp/service/BridgeIngestionService.cpp:17-57 | between two resets a hash has at most one row and its money moves at most once, over any interleaving of ingests, settles, evictions, clears |
| Serializability.ClearInsertIsSerial | cpp/service/SettlementService.cpp:32-73 | one insert equals the serial settle if and only if its copies still match what a serial settle would decide on |
| Serializability.SerialExactlyWhenClear | cpp/service/SettlementService.cpp:18-99 | a reset-free run equals its serial run after every event if and only if every insert is clear |
| Serializability.SerialEquivalence | cpp/service/SettlementService.cpp:18-99 | if no event since an attempt's first read wrote an account its insert depends on, final accounts and log are those of settling the inserts one at a time in order |
| Serializability.ReconciledExactlyWhenCurrent | cpp/service/SettlementService.cpp:47-73 | the ledger explains every balance after every event if and only if every commit overwrites the balances it read |
| Serializability.LostUpdate | cpp/service/SettlementService.cpp:20-58 | two overlapping payments from one account both settle although only the second debit lasts; the total grows by the first amount |
| Serializability.LostUpdateIsNotSerial | cpp/service/SettlementService.cpp:20-58 | no serial run of those two payments, in any order, ends with these accounts |
| Conservation.BalancedInsertConserves | cpp/service/SettlementService.cpp:47-58 | an insert keeps the total if and only if it is a rejection or its two copies are worth together what they overwrite (for a self-payment: its copy is stale by the amount) |
| Conservation.RunMovesTotal | cpp/service/SettlementService.cpp:20-58 | an interleaved run changes the total by the sum of what its commits' copies were off |
| Conservation.ConservedExactlyWhenBalanced | cpp/service/SettlementService.cpp:20-58 | the total is the same after every event if and only if every insert balances |
| Locking.FineRefinesCoarse | cpp/service/SettlementService.cpp:52-96 | with every statement of the block as its own step, each run is a run of the coarse system; a transaction is open only under the mutex |
| Locking.ReaderAtomicity | cpp/model/AccountRepository.cpp:59-79 | every findAll returns the accounts as the whole commits before it left them, later reads never seeing an earlier state, and with the mutex free nothing is uncommitted |
| Locking.ReadersSeeNoNegativeBalance | cpp/model/AccountRepository.cpp:59-79 | no reader in any statement-level interleaving sees a negative balance |
| Locking.BlockAlone | cpp/service/SettlementService.cpp:52-96 | a block nothing interrupts is the one coarse commit or rollback, and leaves the mutex free with nothing uncommitted |
| Locking.BlockEnds | cpp/service/SettlementService.cpp:52-96 | in no interleaving is the mutex kept: it is free once the holder has made its remaining statements |
| Locking.MutexExcludes | cpp/service/SettlementService.cpp:20-52 | while one thread is in its block the others claim and check, but their reads, rejected inserts and blocks wait |
| Alone.SettleAlone | cpp/service/SettlementService.cpp:18-99 | an uninterrupted settle thread ends within three attempts with the one-shot result |
| Alone.DuplicateTakesThreeAttempts | cpp/service/SettlementService.cpp:82-95 | a covered payment whose hash is taken is tried exactly three times |
| Alone.IngestAlone | cpp/service/BridgeIngestionService.cpp:14-64 | an uninterrupted ingest thread ends with the one-shot ingest's cache, database and outcome |
| Steps.Perform | cpp/service/SettlementService.cpp:20-118 | one service call on the heap does what one event of a thread does: claim, age check, reads, locked commit, rejected insert |
| Steps.PerformShared | cpp/service/IdempotencyService.cpp:34-62 | eviction, cache clear and database reset on the heap are the events of the step system |
| Idempotency.IdempotencyService.Claim | cpp/service/IdempotencyService.cpp:19-27 | true exactly for an unseen hash, which is then stored; an earlier claim time is never overwritten |
| Idempotency.IdempotencyService.Clear | cpp/service/IdempotencyService.cpp:34-37 | forgets every claim |
| Idempotency.IdempotencyService.EvictExpired | cpp/service/IdempotencyService.cpp:50-62 | the erasing loop removes exactly the entries strictly older than 24 h, in any iteration order |
| Ingestion.FreshWindow | cpp/service/BridgeIngestionService.cpp:42-51 | with truncating division the age check accepts exactly 300.999 s early to 86400.999 s late |
| Ingestion.IngestWritesOnlyPastEveryGate | cpp/service/BridgeIngestionService.cpp:17-57 | exactly when an ingest writes, what it writes, and that the claim is kept on every path |
| Ingestion.IngestReasons | cpp/service/BridgeIngestionService.cpp:20-63 | which gate answers, in milliseconds and in order; the hash is replaced by ? exactly when the settle throws |
| Ingestion.BridgeIngestionService.Ingest | cpp/service/BridgeIngestionService.cpp:14-64 | the stateful pipeline computes the one-shot ingest on cache and database |
| Replay.RunKeepsCacheInv | cpp/service/IdempotencyService.cpp:19-62 | with a nondecreasing clock and no clear, the second of two claims of one hash is stored more than 24 h after the time the first one read, however long each waited for the mutex after reading the clock |
| Replay.ReplayWindow | cpp/service/BridgeIngestionService.cpp:42-51 | two ingests of one ciphertext both pass claim and age check only if it was signed no earlier than 998 ms before its first claim, first by either clock |
| Replay.ReplayExactly | cpp/service/IdempotencyService.cpp:54-62 | and for every such signing time a run exists in which both pass, so the bound is exact |
| Replay.ClearForgetsEveryClaim | cpp/service/IdempotencyService.cpp:19-37 | whatever ran before, the first claim after a clear goes through, whatever its hash, and is all the cache then holds |
| Replay.ReplayAcrossClear | cpp/service/IdempotencyService.cpp:34-37 | two ingests of one ciphertext with a clear between them both claim, and both get through exactly when both age checks are in the window |
| Mesh.VirtualDevice.GetHeldPackets | cpp/service/MeshSimulatorService.cpp:23-31 | lists each held packet once, in any order |
| Mesh.VirtualDevice.Hold | cpp/service/MeshSimulatorService.cpp:8-11 | stores the packet under its id, replacing any earlier one |
| Mesh.MeshSimulatorService.Inject | cpp/service/MeshSimulatorService.cpp:68-76 | only the named device changes; an unknown one changes nothing |
| Mesh.MeshSimulatorService.Flood | cpp/service/MeshSimulatorService.cpp:92-102 | every other device ends up with the packet, existing copies stay, and the count is the number of new copies |
| Mesh.MeshSimulatorService.GossipOnce | cpp/service/MeshSimulatorService.cpp:78-108 | each device ends with its old copies untouched plus, with one hop less, exactly the ids others held with hops left; transfers is the growth of the mesh; the reported counts are those after the round |
| Mesh.MeshSimulatorService.SnapshotMap | cpp/service/MeshSimulatorService.cpp:110-116 | the number of packets of every device |
| Mesh.MeshSimulatorService.CollectBridgeUploads | cpp/service/MeshSimulatorService.cpp:118-128 | exactly the packets held by devices with internet, each once |
| Mesh.MeshSimulatorService.ResetMesh | cpp/service/MeshSimulatorService.cpp:130-134 | every device is empty |
| MeshRuns.NewCopyLosesOneHop | cpp/service/MeshSimulatorService.cpp:98-100 | whatever is new at a device after a round is some other device's packet with hops left, with TTL exactly one less and all else equal |
| MeshRuns.RoundIsFixpoint | cpp/service/MeshSimulatorService.cpp:78-108 | a round that follows another changes nothing and transfers nothing |
| MeshRuns.RoundCountIsOrderFree | cpp/service/MeshSimulatorService.cpp:88-104 | the ids held and the number of transfers are the same for every iteration order |
| MeshRuns.EveryRunStaysReachable | cpp/service/MeshSimulatorService.cpp:68-134 | in every state of every run each injected id is nowhere, only at its origin with its TTL t, or everywhere with t at the origin and t - 1 elsewhere, t > 0 |
| MeshRuns.GossipStays | cpp/service/MeshSimulatorService.cpp:78-108 | a gossip round on the heap is a step of such a run and keeps the placement of every injected id |
| MeshRuns.CopiesAreGenuine | cpp/service/MeshSimulatorService.cpp:98-100 | every copy keeps the injected ciphertext and creation time |
| MeshRuns.RoundIsDeterministic | cpp/service/MeshSimulatorService.cpp:88-104 | in reachable meshes the whole result of a round is the same for every iteration order |
| MeshConcurrent.MeshIntegrity | cpp/service/MeshSimulatorService.cpp:82-103 | with overlapping rounds, injects and resets each held copy is an injected packet, or one with fewer and not negative hops |
| MeshConcurrent.EachStepDoesItsWork | cpp/service/MeshSimulatorService.cpp:8-38 | a hold stores its copy beside what the device has, a clear empties exactly its device, an inject stores its packet, no other step touches a device |
| MeshConcurrent.OfferArrives | cpp/service/MeshSimulatorService.cpp:92-102 | with other rounds, injects and clears of other devices in between, an offered packet's id is at its destination after the round's hold |
| MeshConcurrent.RoundAlone | cpp/service/MeshSimulatorService.cpp:78-108 | a round nothing interrupts, reading every device and making every offer due in any order, is one gossip round of the simulator |
| Api.ApiController.MeshFlush | cpp/controller/ApiController.cpp:172-203 | ingests exactly the bridges' packets, one after another, with 5 minus TTL as hop count |
| Api.ApiController.MeshReset | cpp/controller/ApiController.cpp:205-216 | devices and cache empty, tables reseeded, id counter kept |
| Flushes.FlushClaimsAll | cpp/controller/ApiController.cpp:182-184 | after a flush every upload is claimed and no claim is lost, whatever the outcomes |
| Flushes.ClaimedUploadsAreDropped | cpp/service/BridgeIngestionService.cpp:21-25 | flushing claimed uploads drops each as a duplicate and changes nothing |
| Flushes.FlushTwice | cpp/controller/ApiController.cpp:176-196 | a second flush yields only DUPLICATE_DROPPED and leaves cache, accounts and log as they were |
| Flushes.FlushDelivers | cpp/service/BridgeIngestionService.cpp:14-57 | a flush that meets a new, decryptable, valid payment leaves exactly one row for it, SETTLED or REJECTED, with its parties and amount, the bridge of its first upload, 5 minus that copy's TTL and that ingest's clock, if and only if the age check passes at that upload; otherwise none |
| Confluence.FlushSettlesAll | cpp/controller/ApiController.cpp:182-184 | if every account covers all it is asked to pay, all payments settle and each balance is the old one plus receipts minus payments |
| Confluence.FlushOrderDoesNotMatter | cpp/controller/ApiController.cpp:182-184 | such payments settle in every order with equal final accounts |
| Delivery.SpreadIsUploaded | cpp/service/MeshSimulatorService.cpp:98-128 | every bridge uploads an injected packet with the TTL it was injected with, one less unless it was injected there; no other upload carries a new ciphertext |
| Delivery.SpreadIsDelivered | cpp/service/MeshSimulatorService.cpp:68-128 | inject, one round and one flush: the hash is claimed, and a deliverable payment recorded exactly once, with the bridge and hops of its first upload, if and only if it is fresh then |
| Delivery.SendAndDeliver | cpp/controller/ApiController.cpp:109-202 | the same through the services' methods on the heap |
| Delivery.SealedPaymentIsDelivered | cpp/crypto/HybridCryptoService.cpp:24-128 | and for a packet sealed by a phone that row carries the payment's own parties and amount |
| Codec.AmountRoundTrip | cpp/model/PaymentInstruction.h:27-44 | amounts below 2^51 paise survive /100 and *100 under any double rounding of relative error 2^-53 |
| Codec.Binary53IsDoubleRounding | cpp/model/PaymentInstruction.h:27-44 | IEEE rounding to 53 bits, to nearest even, subnormal numbers included, is such a rounding |
| Codec.Binary53BoundIsExact | cpp/model/PaymentInstruction.h:27-44 | under IEEE rounding every amount up to a bound survives if and only if the bound is at most 3518437208883201 paise |
| Codec.AmountBoundIsExact | cpp/model/PaymentInstruction.h:27-44 | some such rounding returns 2^51 paise as a different amount |
| Codec.NearestPaisa | cpp/model/PaymentInstruction.h:42-44 | any double number of rupees is read as the nearest paisa but for one multiplication's error of 2^-53 |
| Crypto.ReadingIsExact | cpp/model/PaymentInstruction.h:38-49 | any document is read as the instruction it says, if its six fields are readable, and otherwise fails with the first field in order that is missing or of the wrong type |
| Crypto.WholeAmount | cpp/model/PaymentInstruction.h:42-44 | an amount written as a whole number n is n rupees, exactly 100 n paise, up to 2^53 paise |
| Crypto.FractionalAmount | cpp/model/PaymentInstruction.h:42-44 | an amount written with a fraction is the nearest number of paise but for one rounding |
| Crypto.JsonRoundTrip | cpp/model/PaymentInstruction.h:27-49 | reading back the written JSON fields gives the same instruction if and only if its amount survives, and otherwise differs in the amount alone |
| Crypto.Pack | cpp/crypto/HybridCryptoService.cpp:118-125 | the buffer is key, IV, ciphertext and tag in that order |
| Crypto.Unpack | cpp/crypto/HybridCryptoService.cpp:134-151 | fails exactly below 284 bytes, otherwise cuts the buffer into parts of 256, 12, the rest and 16 bytes that join to it |
| Crypto.FrameRoundTrip | cpp/crypto/HybridCryptoService.cpp:118-151 | packing and unpacking undo each other both ways |
| Crypto.DecryptionOutcomes | cpp/crypto/HybridCryptoService.cpp:130-232 | which stage stops a decryption: each error occurs exactly when all stages before it succeed on the one frame the ciphertext carries and that stage fails, and a document comes out exactly when none fails |
| Crypto.CipherRoundTrip | cpp/crypto/HybridCryptoService.cpp:24-232 | decryption recovers the encrypted document, given ciphers that invert on 32-byte keys and 12-byte IVs, and a document that survives printing |
| Crypto.SealedWithDrawnKey | cpp/crypto/HybridCryptoService.cpp:28-128 | the frame an encrypted document carries holds the drawn 32-byte key under RSA, the drawn 12-byte IV, and the document under both |
| Crypto.OpeningIsExact | cpp/service/BridgeIngestionService.cpp:28-36 | a ciphertext opens as an instruction exactly when it carries a text that parses to a document saying it |
| Crypto.PayloadExactly | cpp/service/BridgeIngestionService.cpp:30-31 | what the server opens is the instruction the phone sealed if and only if its amount survives the doubles |
| Crypto.PayloadRoundTrip | cpp/service/BridgeIngestionService.cpp:30-31 | and so for every amount below 2^51 paise and every double rounding |

## Left out

- SettleAtOnce: balances, amounts and times are unbounded integers. `Ledger.ConservationAndNoOverflow` shows where int64 cannot overflow; repeated self-payments or lost updates could exceed it.
- SettlementService.Settle: takes one clock reading per call; the source reads the clock in each attempt, and only the recorded one is kept.
- AmountBoundIsExact: is about the class of roundings with relative error 2^-53; for IEEE rounding itself `Binary53BoundIsExact` gives the bound. The model's IEEE rounding has no largest exponent, so overflow to infinity is not modelled.
- Lawful: RSA-OAEP, AES-GCM, SHA-256 and base64 are parameters with inverse laws; that the JSON library reads back what it printed is assumed of the document at hand (`Survives`); NaN and infinite amounts are not modelled.
- SQLite statement mechanics, I/O failures, OpenSSL failures and NUL bytes inside strings.
- HTTP routing and validation, the dashboard, key generation, scripts, `main.cpp` and `AppContext`.
- The evictor's thread, condition variable and 60 s sleep: eviction is an event that may happen at any time.
- Optimistic locking and `ConcurrencyException`, which the source declares and never uses.
- Deduplication by nonce and PIN checks, which the source does not perform.
- `operator==` on instructions, status strings, UUIDs, hex printing and the 20-row listing: only easy members.
- The three SQL statements inside `Database::reset`, and the steps of `findAll`, are single steps of the step systems; both run wholly under the mutex.

# Verified model of the client's concurrent core

This project models the parts of the Rust messaging client whose correctness rests on protocols
rather than on single functions, and proves what their comments and tests promise.

- **Message-secret write-behind buffer.** Captures are queued in a pending map and written to the
  backend by detached drains and explicit flushes; shutdown seals the buffer. `MsgSecrets` is the
  merge algebra, `SecretBuffer` the critical sections as loops, `SecretProtocol` the protocol with
  any number of tasks, dropped calls included, `SecretLiveness` its termination and
  `SecretFutures` which pending rows can still be written.
- **Portable cache.** `PortableCache` is the hash map with its sequence index, proved to be the
  list-ordered cache of `FifoList` over every run of operations; `CacheHistory` says what that
  cache answers in terms of the operations so far, `CacheCapacity` how long it holds a key,
  `TwoLockRead` and `AtomicMoments` when a read is atomic. `SingleFlight` is `get_with` with its reclaimed per-key locks and explicit reference
  counts, `SingleFlightAnswers` what its calls return, `SingleFlightLiveness` its termination; `PdoClaim` is the once-per-message request
  protocol built on it and `PdoFutures` which messages can still be requested.
- **Pre-key ids.** `PreKeyPlan` is the window arithmetic, `PreKeyProtocol` the durable
  two-watermark state machine (passes, single-key requests, failing flushes, cancelled operations,
  consumption, crashes), `PreKeyReuse` the exact set of ids that can still be generated,
  `PreKeyPass` what an operation achieves that nothing disturbs.
- **Offline receipts.** `GroupBy` and `Receipts` are the lossless aggregation, `OfflineHandoff` the
  hand-off from the buffer to the outbound scope, `HandoffSteps` what each call has done when it
  returns, `HandoffFutures` what can still happen, and
  `OfflineReceipts` all of it together, end to end.
- **Smaller protocols.** `FlushScope`, `ResendRateLimiter` with `ResendAdmission`, `LidPnCache`,
  `NodeWaiters` and `FibonacciBackoff`.
- **Shared vocabulary.** `Options`, `Paths` (finite paths of a step relation), `Switches` (a flag that
  steps raise and lower) and `TaskSums` (sums over a map of tasks).

Protocols are state machines whose steps are the code's lock, atomic and await boundaries; a run is
a sequence of states, and "in every run" means for every interleaving of unboundedly many tasks.
Atomics are sequentially consistent, `f64` values are reals, clocks and random draws are inputs.
`dafny verify dfyconfig.toml` checks the whole project.

Some promises hold only under a condition. Each has its exact one, and a run or an input where it
fails:

- A buffered read can return an older parent-message time than a write-through store would, because
  the pending row is not merged with the backend's: exactly when the backend knows a later one
  (`SecretProtocol.BufferedReadIsLatest`, `SecretProtocol.BufferedReadCanMissTime`).
- "Never regenerated" holds for retry-receipt keys only while every advance of the counter reaches
  the disk: a failed or cancelled flush lets the next request hand out a key whose id a crash will
  mint again (`PreKeyReuse.LapsedFlushExposesGivenId`). An id is affected exactly when the counter
  on disk has not passed it (`PreKeyReuse.GenerableIffNotPassed`).
- Pending rows always have someone to write them while no call is dropped, and before the seal even
  then. A call dropped after the seal can leave rows that no step short of a new call will write:
  exactly when no call under way will look at them (`SecretFutures.CanDrainIffNotStranded`,
  `SecretFutures.DroppedCallStrands`).
- A cache read that drops an expired entry takes two locks. It is one atomic read at the second
  exactly when the key has not become live in between
  (`TwoLockRead.AtomicAtSecondLockIffNotLive`). In a cache without a size bound it is one at some
  moment exactly when the key is not live in the end, or was absent at some moment, or no key that
  stood behind it at its first refresh stays to the end (`AtomicMoments.AtomicSomewhereIff`);
  `TwoLockRead.RefreshedBetweenIsNotAtomic` is a read that is one at no moment.
- A drain leaves the offline receipt buffer empty until the next reset exactly when the completion
  flag was up before it (`HandoffFutures.FillsIffNotQuiet`). A disconnect drains without raising
  the flag, as its comment says, and closes the outbound scope; a receipt spawned after that is
  turned away, exactly while the scope is closed (`HandoffFutures.LosesIffClosed`,
  `HandoffFutures.CompletionAfterDisconnectLoses`).
- Evicting a chat's token bucket forgives more than its burst: each acquire that fetched the bucket
  before the eviction may take from it after (`ResendAdmission.AdmissionBound`). For every burst and
  any numbers of evictions and such acquires the bound is met (`ResendAdmission.BoundIsMet`).
- Warm-up of the LID cache depends on order exactly when a number's newest entries tie
  (`LidPnCache.OrderIrrelevantIffNoTie`, `LidPnCache.TieResolvesByOrder`), and skipping a relearn
  stays invisible exactly when the skipped timestamp is not newer
  (`LidPnCache.SkipIsInvisibleIffNotNewer`, `LidPnCache.SkippingKeepsOldTimestamp`).
- A cancelled caller leaves its placeholder-request claim behind; the slot is then held without a
  request sent (`PdoClaim.SlotHeldIffSentOrAbandoned`), and the message is never requested again: a
  request can still be sent exactly when none was and no claimant was cancelled
  (`PdoFutures.SendableIffUnsentAndUnabandoned`, `PdoFutures.CancelledCallerBlocksMessage`).

## Model

| member | source | states |
|---|---|---|
| `MsgSecrets.MergeIsLeastUpperBound` | rust-backend/wacore/src/store/traits.rs:557-570 | a merged row keeps the later secret, the least deadline neither side outlives (0 is never) and the least parent time at or after both |
| `MsgSecrets.MergeAssociative` | rust-backend/wacore/src/store/traits.rs:557-570 | merging is associative, so captures may be coalesced in any grouping |
| `MsgSecrets.MergeIdempotent` | rust-backend/wacore/src/store/traits.rs:557-570 | writing the same row again changes nothing |
| `MsgSecrets.UpsertWriteThrough` | rust-backend/src/msg_secret_buffer.rs:70-95 | coalescing any captures into the pending map and upserting later equals writing them through one by one |
| `MsgSecrets.UpsertStaleBatch` | rust-backend/src/msg_secret_buffer.rs:155-171 | writing a snapshot the buffer has moved past, even twice, changes nothing a reader of backend plus pending sees |
| `MsgSecrets.UpsertUnwritten` | rust-backend/src/msg_secret_buffer.rs:184-201 | removing exactly the entries still as written changes nothing a reader sees |
| `MsgSecrets.BatchOrderIrrelevant` | rust-backend/src/msg_secret_buffer.rs:155-171 | a snapshot may be written in any hash-map order |
| `MsgSecrets.WriteThroughSummarizes` | rust-backend/wacore/src/store/traits.rs:557-570 | after any captures a key has the secret of the last one, the greatest parent time of all, and a deadline that is 0 if and only if one of them never expires and otherwise the latest; it is there if and only if it was captured, or there before |
| `SecretBuffer.InMemoryBackend.PutMsgSecrets` | rust-backend/wacore/src/store/in_memory.rs:637-655 | the backend loop is write-through of the entries in order, and one upsert when keys are distinct |
| `SecretBuffer.MsgSecretWriteBuffer.InsertAll` | rust-backend/src/msg_secret_buffer.rs:70-95 | queueing merges as two sequential backend writes would, so backend plus pending moves as under write-through |
| `SecretBuffer.MsgSecretWriteBuffer.Lookup` | rust-backend/src/msg_secret_buffer.rs:113-118 | a hit has the secret of the last capture queued for the key and the greatest parent time of all of them; against backend and buffer together the secret is theirs, and the time if and only if the backend knows no later one; on a miss the backend alone answers for the key |
| `SecretBuffer.MsgSecretWriteBuffer.Snapshot` | rust-backend/src/msg_secret_buffer.rs:155-160 | copies out every pending row once, in any order |
| `SecretBuffer.MsgSecretWriteBuffer.FinishBatch` | rust-backend/src/msg_secret_buffer.rs:184-201 | removes a key exactly when its pending row is still one that was written; a refreshed row stays |
| `SecretBuffer.MsgSecretWriteBuffer.FlushPendingOnce` | rust-backend/src/msg_secret_buffer.rs:155-171 | undisturbed, one round offers everything pending to the backend, empties the buffer whether or not the backend accepts, and says whether anything was pending |
| `SecretBuffer.MsgSecretWriteBuffer.Flush` | rust-backend/src/msg_secret_buffer.rs:173-178 | undisturbed, flush ends with nothing pending after offering it in at most one write |
| `SecretProtocol.StepKeepsInv` | rust-backend/src/msg_secret_buffer.rs:70-201 | every step of every task, dropping a call at any await included, keeps lock, drain flag, work, data and history invariants |
| `SecretProtocol.WriteBehindRefinesWriteThrough` | rust-backend/src/msg_secret_buffer.rs:70-103 | in every run with successful writes, backend merged with pending is the write-through of all queued entries, and the backend alone is the write-through of a prefix |
| `SecretProtocol.NoStrandedWork` | rust-backend/src/msg_secret_buffer.rs:96-150 | the drain flag is up exactly when one task owns it, and pending entries always have a task that will still look at them: before the seal whatever is dropped, after it unless a call was |
| `SecretProtocol.QuiescentMeansDurable` | rust-backend/src/msg_secret_buffer.rs:120-178 | when every task is over no flag or lock is held, and unless a call was dropped and the buffer is sealed nothing is pending, so every capture is in the backend |
| `SecretProtocol.NoDeadlock` | rust-backend/src/msg_secret_buffer.rs:120-178 | while some task is neither returned nor dropped, some task can move by itself |
| `SecretProtocol.ShutdownCompleteness` | rust-backend/src/msg_secret_buffer.rs:96-109 | once seal-then-flush has returned, every returned queue call, however it raced the seal, has its entries in the part of the log handed to the backend |
| `SecretProtocol.FlushCoversItsPast` | rust-backend/src/msg_secret_buffer.rs:155-178 | when a flush or disconnect returns, everything queued before it was called has been handed to the backend |
| `SecretProtocol.FailedIffSomeWriteFailed` | rust-backend/src/msg_secret_buffer.rs:155-171 | the refinement is given up if and only if the backend refused some batch |
| `SecretProtocol.BufferedReadIsLatest` | rust-backend/src/msg_secret_buffer.rs:113-118 | a buffered read has write-through's secret, that of the last capture, and never a later time; the times agree if and only if the backend knows no later one |
| `SecretProtocol.BufferedReadCanMissTime` | rust-backend/src/msg_secret_buffer.rs:113-118 | the times do differ: a run that ends with pending time 0, backend time 50 and no failed write |
| `SecretProtocol.TwoStepReadIsLinearizable` | rust-backend/src/msg_secret_buffer.rs:113-118 | a buffer miss followed later by a backend read answers as write-through did at some moment between the two, so every key queued before the miss is found |
| `SecretLiveness.StepDecreases` | rust-backend/src/msg_secret_buffer.rs:120-178 | every step but a new call, dropping one included, lowers a lexicographic measure of inserts, write rounds and distances |
| `SecretLiveness.ScheduleStops` | rust-backend/src/msg_secret_buffer.rs:120-178 | from any reachable point on, without new calls no schedule goes on for ever |
| `SecretLiveness.ScheduleEndsDurable` | rust-backend/src/msg_secret_buffer.rs:120-178 | a schedule can only end with every task over and, unless a call was dropped in a sealed buffer, every capture durable |
| `SecretFutures.CanDrainIffNotStranded` | rust-backend/src/msg_secret_buffer.rs:96-178 | in every reachable state the pending rows can still reach the backend without a new call if and only if some call under way will look at them; only a sealed buffer with a dropped call can lack one |
| `SecretFutures.UnstrandedMustDrain` | rust-backend/src/msg_secret_buffer.rs:120-178 | and if one will, every schedule without new or dropped calls that runs to its end has written them |
| `SecretFutures.StrandedStays` | rust-backend/src/msg_secret_buffer.rs:96-178 | if none will, pending map and backend stay as they are until a new call, whatever is dropped |
| `SecretFutures.DroppedCallStrands` | rust-backend/src/msg_secret_buffer.rs:96-103 | it happens: for every entry, a queue call after the disconnect that is dropped at the write lock leaves its row stranded |
| `FifoList.RunKeepsShape` | rust-backend/src/portable_cache.rs:74-98 | after any operations keys are distinct and the size is within capacity |
| `FifoList.RunIsOrderedByStay` | rust-backend/src/portable_cache.rs:220-258 | over every run the cache is ordered by when each key's current stay began; updates keep position, remove-then-insert moves to the back |
| `FifoList.EvictionIsFifo` | rust-backend/src/portable_cache.rs:74-98 | an insert evicts only keys whose stay began before that of every key it leaves |
| `FifoList.InsertEvictsOldestIffFull` | rust-backend/src/portable_cache.rs:74-98 | a new key evicts nothing while there is room and exactly the oldest key when the cache is full; a present one is refreshed where it stands; capacity 0 holds nothing |
| `TwoLockRead.LiveUntilDeadline` | rust-backend/src/portable_cache.rs:161-173 | an entry is live exactly before its deadlines, so once expired it stays expired until written or touched |
| `TwoLockRead.AtomicAtSecondLockIffNotLive` | rust-backend/src/portable_cache.rs:183-218 | whatever runs between the two locks of a read that saw an expired entry, it answers nothing, and it is an atomic read at its second lock if and only if the key is not live by then; otherwise it changes nothing |
| `TwoLockRead.AtomicWhereAbsent` | rust-backend/src/portable_cache.rs:183-218 | if the key is live by then but was absent at some moment in between, the read is an atomic miss at that moment |
| `TwoLockRead.RefreshedBetweenIsNotAtomic` | rust-backend/src/portable_cache.rs:183-218 | a refresh in place between the locks gives a read that is atomic at no moment |
| `AtomicMoments.ApplyIsSlotwise` | rust-backend/src/portable_cache.rs:183-295 | without a size bound every operation keeps, refreshes or drops each entry by itself and at most adds one at the back |
| `AtomicMoments.AtomicIffNothingOvertakes` | rust-backend/src/portable_cache.rs:183-218 | for a key that stays and is live in the end, an atomic read at a moment explains the read if and only if no key behind it at the next refresh stays to the end |
| `AtomicMoments.AtomicSomewhereIff` | rust-backend/src/portable_cache.rs:183-218 | the read is atomic at some moment between its locks if and only if the key is not live at the second, or was absent at some moment, or was not overtaken at its first refresh |
| `CacheHistory.EntryIsLatestInsert` | rust-backend/src/portable_cache.rs:183-295 | over every run an entry held for a key is what the latest insert of the key wrote, and no removal or clear came after it |
| `CacheHistory.ReadsLatestInsert` | rust-backend/src/portable_cache.rs:183-218 | a read answers only with the latest insert of its key, before that insert's time to live is over |
| `CacheHistory.UnboundedReadsEveryInsert` | rust-backend/src/portable_cache.rs:183-218 | without bounds on size and age a read finds a value if and only if some insert of its key has not been overridden |
| `CacheCapacity.StaysIffNotEnded` | rust-backend/src/portable_cache.rs:183-295 | apart from inserts, a key survives an operation if and only if the operation does not remove it or look at it expired |
| `CacheCapacity.RecentIsHeld` | rust-backend/src/portable_cache.rs:74-98 | a key whose stay nothing ended is held while fewer stays than the cache has places have begun after its own |
| `CacheCapacity.HeldIffRecent` | rust-backend/src/portable_cache.rs:74-98 | of inserts and reads without expiry, a key is held if and only if fewer stays than the cache has places have begun since its last |
| `CacheCapacity.HeldIsAnswered` | rust-backend/src/portable_cache.rs:161-274 | a read or removal of a held key answers with its latest insert, exactly until that insert's time to live or the time to idle since its last touch is over |
| `PortableCache.CacheInner.RemoveKey` | rust-backend/src/portable_cache.rs:65-69 | removes the key from map and index together and returns its entry |
| `PortableCache.CacheInner.EvictFor` | rust-backend/src/portable_cache.rs:74-98 | the eviction loop drops nothing while there is room for one more, and otherwise exactly as many of the oldest as that takes |
| `PortableCache.CacheInner.InsertNew` | rust-backend/src/portable_cache.rs:74-98 | a new key goes to the back, after exactly as many of the oldest went as it takes to stay within the capacity |
| `PortableCache.CacheInner.Retain` | rust-backend/src/portable_cache.rs:438-447 | retaining the map by a test and then the index by the map filters the list and keeps its order |
| `PortableCache.PortableCache.GetValue` | rust-backend/src/portable_cache.rs:183-218 | a read behaves as on the reference list, including touch and expiry |
| `PortableCache.PortableCache.DropIfExpired` | rust-backend/src/portable_cache.rs:197-203 | the exclusive re-check drops the key only if it is still expired |
| `PortableCache.PortableCache.InsertAndReturn` | rust-backend/src/portable_cache.rs:220-258 | an insert behaves as on the reference list: in place for a present key, at the back otherwise, nothing at capacity zero |
| `PortableCache.PortableCache.RemoveValue` | rust-backend/src/portable_cache.rs:260-274 | a removal drops the key and answers only with an unexpired value |
| `PortableCache.PortableCache.InvalidateKey` | rust-backend/src/portable_cache.rs:276-285 | an invalidation drops exactly the key |
| `PortableCache.PortableCache.ClearAll` | rust-backend/src/portable_cache.rs:291-295 | a clear leaves map, index and list empty and consistent |
| `PortableCache.PortableCache.RunPendingTasks` | rust-backend/src/portable_cache.rs:438-447 | housekeeping keeps exactly the unexpired entries, in order |
| `PortableCache.PortableCache.Run` | rust-backend/src/portable_cache.rs:183-295 | every run of operations keeps map and index in one-to-one step and ends, with the same answers, where the list-ordered cache does |
| `SingleFlight.StepKeepsRefs` | rust-backend/src/portable_cache.rs:357-385 | the strong count the steps maintain always equals the map's reference plus the live clones |
| `SingleFlight.ReclaimIsSafe` | rust-backend/src/portable_cache.rs:427-435 | a reclaim that fires is the last user's |
| `SingleFlight.SharedInitLock` | rust-backend/src/portable_cache.rs:357-435 | all callers for a key between acquisition and reclaim share one lock, the one in the map |
| `SingleFlight.AtMostOneInitializer` | rust-backend/src/portable_cache.rs:357-385 | at most one initializer per key runs at a time, whatever is evicted, removed or cancelled |
| `SingleFlight.ExactlyOneFlight` | rust-backend/src/portable_cache.rs:357-385 | with caching on and the key left alone exactly one initializer stores, all others that started were cancelled, and every call returns its value |
| `SingleFlight.SweepReclaimsEverything` | rust-backend/src/portable_cache.rs:438-454 | once no call holds a clone, housekeeping leaves no init lock |
| `SingleFlight.NoDeadlock` | rust-backend/src/portable_cache.rs:357-385 | a call that has not returned can move itself, or it waits for the init lock of its key and the lock's owner can |
| `SingleFlightAnswers.HitReturnsAtOnce` | rust-backend/src/portable_cache.rs:357-385 | a call that finds its key cached returns that value at once, and only then |
| `SingleFlightAnswers.AnswerIsAccounted` | rust-backend/src/portable_cache.rs:357-385 | in every run, disturbed or not, a returned value is one the cache held for the key during the call or the call's own initializer produced |
| `SingleFlightAnswers.DisabledCallsRunThemselves` | rust-backend/src/portable_cache.rs:231-258 | with capacity 0 nothing is cached and every call that returns ran its own initializer |
| `SingleFlightAnswers.LockGoesWithLastUser` | rust-backend/src/portable_cache.rs:427-435 | a caller that reclaims takes the init lock out of the map if and only if no other caller has a clone of it |
| `SingleFlightAnswers.DisturbedIffTouched` | rust-backend/src/portable_cache.rs:220-295 | a key counts as disturbed if and only if its entry was removed, evicted or overwritten from outside |
| `SingleFlightLiveness.StepDecreases` | rust-backend/src/portable_cache.rs:357-385 | every step of a call lowers the sum of the steps left, and nothing but a new call raises it |
| `SingleFlightLiveness.CallsComeToRest` | rust-backend/src/portable_cache.rs:357-385 | an endless schedule without new calls, whatever its evictions, sweeps and cancellations, has a point after which no call moves |
| `SingleFlightLiveness.RestMeansReturned` | rust-backend/src/portable_cache.rs:357-385 | where no call can move every call has returned or was cancelled |
| `PdoClaim.StepKeepsInv` | rust-backend/src/pdo.rs:110-141 | every step of the claim protocol, on top of the full single-flight protocol and with callers cancelled at any await, keeps claims, pending set and send count in step |
| `PdoClaim.AtMostOneRequest` | rust-backend/src/pdo.rs:110-141 | however many callers race and are cancelled, at most one request per message is sent, and a pending message is always claimed |
| `PdoClaim.SlotHeldIffSentOrAbandoned` | rust-backend/src/pdo.rs:185-204 | when all callers have returned or been cancelled the slot is held if and only if a send succeeded or the claimant was cancelled before one |
| `PdoClaim.SlotHeldIffSent` | rust-backend/src/pdo.rs:185-204 | when all callers have returned the slot is held if and only if a send succeeded |
| `PdoClaim.PendingIffRequestedLast` | rust-backend/src/pdo.rs:126-204 | a message is pending if and only if a caller went on to send its request and since then it was neither answered nor taken back by a failed send |
| `PdoFutures.SendableIffUnsentAndUnabandoned` | rust-backend/src/pdo.rs:110-204 | in every reachable state a request for a message can still be sent if and only if none was and no claimant was cancelled holding the slot |
| `PdoFutures.CancelledCallerBlocksMessage` | rust-backend/src/pdo.rs:110-204 | for every message, a run whose one caller claims the slot and is cancelled: the slot is held, nothing was sent and nothing can be |
| `PreKeyPlan.ClampIsInRange` | rust-backend/src/prekeys.rs:139-141 | a clamped batch is the count from 5 to 65535 nearest to the one asked for, so a count in range is unchanged, and only then |
| `PreKeyPlan.StartIsFresh` | rust-backend/src/prekeys.rs:42-49 | the start id is in range and, unless it wraps, past the counter and every stored row; wrapped, it is the same id modulo 2^24-1 |
| `PreKeyPlan.PlanCoversWindow` | rust-backend/src/prekeys.rs:79-128 | for all watermarks the window lies in 1..2^24-1, leftovers and generated range tile it, the counter ends past it and no cast loses a bit |
| `PreKeyPlan.PlanIsMonotone` | rust-backend/src/prekeys.rs:79-128 | without a wrap, generation starts at or above the counter, which never regresses |
| `PreKeyPlan.WindowKeptIffItFits` | rust-backend/src/prekeys.rs:79-128 | in plain arithmetic: a window in use is kept, with its leftovers and a batch from the counter on, if and only if every id of it and every id it generates is at most 2^24-1; otherwise a full batch starts over at 1 |
| `PreKeyPlan.FreshStartIsLeast` | rust-backend/src/prekeys.rs:42-128 | without a window the batch starts at the least id past counter and stored rows from which it fits 24 bits, if there is one, and otherwise at the wrapped id or at 1 |
| `PreKeyPlan.WrapFreeIffItFits` | rust-backend/src/prekeys.rs:79-128 | a plan wraps if and only if the batch that is due has an id above 2^24-1 |
| `PreKeyPlan.CollapseExactly` | rust-backend/src/prekeys.rs:79-128 | the window is given up if and only if it crosses the 24-bit boundary, and for upload batches that is exactly when the counter regresses |
| `PreKeyPlan.CollapsedWindowGenerates` | rust-backend/src/prekeys.rs:527-551 | a collapsed window always plans a full batch |
| `PreKeyProtocol.StepKeepsInv` | rust-backend/src/prekeys.rs:319-637 | every step, including failed flushes, cancellation, consumption and crash, keeps order, allocation and history invariants |
| `PreKeyProtocol.WatermarksStayOrdered` | rust-backend/src/prekeys.rs:370-396 | FIRST never passes NEXT in memory or on disk, wrapping or not, except while a copy is still a corrupt pair the device was loaded with, and the rerun after a collapse cannot collapse again |
| `PreKeyProtocol.NoUploadedIdReused` | rust-backend/src/prekeys.rs:428-637 | from any loaded watermarks, until ids wrap, no id is in two upload IQs and none that was in one is generated again |
| `PreKeyProtocol.OnlyExposedIdsAreReminted` | rust-backend/src/prekeys.rs:319-405 | a handed-out id generated again was handed out before the counter on disk had passed it |
| `PreKeyProtocol.NoGivenIdReused` | rust-backend/src/prekeys.rs:319-405 | if no advance of the counter misses its flush, no handed-out id is ever generated again |
| `PreKeyProtocol.WrappedIffOutOfIds` | rust-backend/src/prekeys.rs:319-637 | a run counts as wrapped if and only if one of its plans or mints needed an id above 2^24-1, in raw arithmetic on watermarks and the largest stored id |
| `PreKeyProtocol.LapsedIffFlushLapsed` | rust-backend/src/prekeys.rs:319-637 | a run counts as lapsed if and only if an advance of the counter had its flush fail or never run |
| `PreKeyProtocol.ExposedIffGivenEarly` | rust-backend/src/prekeys.rs:319-405 | until ids wrap, an id counts as exposed if and only if it was handed out before the counter on disk had passed it |
| `PreKeyProtocol.FreshWindowSparesRows` | rust-backend/src/prekeys.rs:72-107 | a fresh window generates no id that is stored |
| `PreKeyPass.UndisturbedPassUploads` | rust-backend/src/prekeys.rs:428-637 | an undisturbed pass puts exactly the stored and the generated keys of the due window into one IQ, generates from the counter on and only to the end of the window, and ends with FIRST durably just past the last key offered |
| `PreKeyPass.UndisturbedPassRenews` | rust-backend/src/prekeys.rs:522-551 | a pass whose window is spent starts over once and uploads a full batch of new keys from the counter on |
| `PreKeyPass.UndisturbedSingleReuses` | rust-backend/src/prekeys.rs:319-366 | a single-key request hands out the least stored key of the window and generates nothing |
| `PreKeyPass.UndisturbedSingleMints` | rust-backend/src/prekeys.rs:367-405 | without one it mints the next id and hands it out once the counter past it is durable |
| `PreKeyPass.UndisturbedSingleWraps` | rust-backend/src/prekeys.rs:367-405 | at the end of the id space it mints id 1 and the window starts over with it |
| `PreKeyReuse.GenerableIffNotPassed` | rust-backend/src/prekeys.rs:319-637 | in every reachable state an id can still be generated if and only if the counter on disk has not passed it |
| `PreKeyReuse.LapsedFlushExposesGivenId` | rust-backend/src/prekeys.rs:397-405 | a failed or cancelled flush leads to a handed-out id that can be generated again |
| `GroupBy.GroupItems` | rust-backend/src/receipt.rs:203-249 | the indexed loop yields one group per key, headed by the first message and listing all ids of that key in order |
| `GroupBy.RestIsGrouped` | rust-backend/src/receipt.rs:203-249 | taking out one group's messages leaves the others grouped |
| `Receipts.ReceiptShape` | rust-backend/src/receipt.rs:122-177 | a recipient exactly on sender receipts, the message's own without agent and device; group and status receipts go to the chat with the author as participant, all others to the sender; a status context exactly for the status chat; a single receipt has one id and no time |
| `Receipts.ReceiptTypeExactly` | rust-backend/src/receipt.rs:122-137 | by the message's fields: peer_msg if and only if the category is peer; sender if and only if an own direct message that is not; inactive if and only if neither, the account inactive and not the status chat; none in every other case |
| `Receipts.KeyDecidesAttrs` | rust-backend/src/receipt.rs:140-177 | two messages have equal grouping keys if and only if their receipts have equal attributes, including the context the key does not hold, and on sender receipts the same recipient device |
| `Receipts.AggregateNodesTile` | rust-backend/src/receipt.rs:256-277 | stanzas hold 1 to 256 ids, all but the last are full, there are as few as possible, each carries the time, and together they list the group's ids in order |
| `Receipts.AggregationIsLossless` | rust-backend/src/receipt.rs:203-277 | for every message list the aggregate stanzas acknowledge, as a multiset of attributes and ids, exactly what one receipt per message would |
| `Receipts.AggregateBatch` | rust-backend/src/receipt.rs:581-625 | the flush task's stanzas are lossless, within the size limit, stamped, and as few as one grouping by key allows, for any drained batch |
| `OfflineReceipts.OfflineReceiptBuffer.SpawnDeliveryReceipt` | rust-backend/src/message/dispatch.rs:78-87 | buffered if and only if the message is offline and the sync not complete, otherwise sent singly unless the scope is closed; sent and buffered together acknowledge the message exactly once more |
| `OfflineHandoff.StepKeepsInv` | rust-backend/src/receipt.rs:561-597 | every step of workers, completions, disconnects, resets and connects keeps conservation and the raised-flag invariant |
| `OfflineHandoff.ExactlyOneFate` | rust-backend/src/receipt.rs:561-637 | in every run each decided offer is in exactly one place once: buffered, in a task's hand, accepted in a batch or singly, turned away by the closed scope, or dropped by a reset |
| `OfflineHandoff.NoReceiptStrands` | rust-backend/src/client/sessions.rs:33-48 | with the flag up and no drain owed the buffer is empty, so it stays empty until a reset |
| `OfflineHandoff.HandoffIsExactlyOnce` | rust-backend/src/receipt.rs:561-597 | over any number of connections, once all tasks are over every offer is in exactly one place: accepted in one batch, accepted singly, turned away, dropped by a reset, or still buffered, the last only while the flag is down; without a disconnect none is turned away, without a reset none dropped |
| `HandoffSteps.OfferGoesByFlag` | rust-backend/src/receipt.rs:561-577 | under the lock an offer pushes its receipt behind all others if the flag is down and keeps it for a single send if it is up |
| `HandoffSteps.FirstCompletionDrains` | rust-backend/src/client/sessions.rs:33-48 | a completion that finds the flag up is over at once, and one that finds it down drains |
| `HandoffSteps.DrainTakesAll` | rust-backend/src/receipt.rs:584-597 | a drain leaves the buffer empty with all of it in hand |
| `HandoffSteps.SpawnHandsOver` | rust-backend/src/receipt.rs:597-625 | what a task has in hand goes whole to the outbound scope, as one batch or singly if it is open, turned away if it is closed |
| `HandoffSteps.ResetDiscards` | rust-backend/src/receipt.rs:632-637 | a reset discards the whole buffer |
| `HandoffSteps.ReturnedDidItsSteps` | rust-backend/src/client/lifecycle.rs:422-425 | a disconnect that has returned took the buffer and closed the scope, a reset lowered the flag and cleared the buffer, a connect also reopened the scope |
| `HandoffSteps.ClosedIffLastDisconnected` | rust-backend/src/client/lifecycle.rs:534-544 | the outbound scope is closed if and only if the last disconnect or connect to reach it was a disconnect |
| `HandoffSteps.CompletedIffLastFlipped` | rust-backend/src/client/sessions.rs:33-48 | the flag is up if and only if the last completion, reset or connect to move it was a completion |
| `HandoffFutures.FillsIffNotQuiet` | rust-backend/src/client/sessions.rs:33-48 | in every reachable state, short of a reset, the buffer can hold a receipt now or later if and only if the flag is down, or it holds one, or an offer that saw the flag down is about to push |
| `HandoffFutures.LosesIffClosed` | rust-backend/src/receipt.rs:597-625 | in every reachable state, short of another close, a receipt can be lost if and only if the outbound scope is closed |
| `HandoffFutures.DrainWithoutFlipStrands` | rust-backend/src/client/lifecycle.rs:534-544 | a run in which a disconnect drains and closes and a worker buffers a receipt behind it |
| `HandoffFutures.CompletionAfterDisconnectLoses` | rust-backend/src/client/lifecycle.rs:534-544 | that run continued: a completion takes the receipt and the closed scope turns it away, with everything returned and no reset |
| `OfflineReceipts.OfflineReceiptBuffer.FlushOfflineReceipts` | rust-backend/src/receipt.rs:581-625 | empties the buffer into as few stanzas as one grouping allows, which acknowledge exactly the buffered messages, or into nothing when the scope is closed |
| `OfflineReceipts.OfflineReceiptBuffer.CompleteOfflineSync` | rust-backend/src/client/sessions.rs:33-48 | raises the flag; only the first completion drains |
| `OfflineReceipts.EveryOfferIsAcknowledgedOnce` | rust-backend/src/receipt.rs:561-625 | end to end, with every batch grouped on its own: over any number of connections, accepted stanzas, accepted single receipts and the receipts turned away, dropped by a reset or still buffered make exactly one receipt per offer; without a disconnect none is turned away, without a reset none dropped |
| `FlushScope.CountIsLiveGuards` | rust-backend/src/flush_scope.rs:48-119 | the counter is the number of guards not dropped, in every reachable state |
| `FlushScope.SpawnRunsIffOpen` | rust-backend/src/flush_scope.rs:48-72 | on every schedule run to its end a spawn is live at some point if and only if the scope was open at its first step; otherwise it is over at once |
| `FlushScope.ClosedIffLastGateClosed` | rust-backend/src/flush_scope.rs:35-47 | the scope is closed if and only if the last close or reopen to take effect was a close |
| `FlushScope.LastDropNotifies` | rust-backend/src/flush_scope.rs:109-119 | a drop goes on to notify if and only if it took the counter to zero |
| `FlushScope.ClosedNeverRises` | rust-backend/src/flush_scope.rs:35-60 | while the scope stays closed the counter never rises |
| `FlushScope.FlushedStaysFlushed` | rust-backend/src/flush_scope.rs:78-101 | when a flush returns by itself under a closed scope, no guard is live then or later until a reopen |
| `FlushScope.NoLostWakeup` | rust-backend/src/flush_scope.rs:78-119 | a flusher waiting unnotified implies a live guard or a dropper about to notify |
| `FlushScope.FlushWaitsForGuard` | rust-backend/src/flush_scope.rs:78-101 | a run with a live guard and a flusher waiting for it |
| `FlushScope.StepDecreases` | rust-backend/src/flush_scope.rs:78-119 | every step without new calls, time-outs included, lowers a well-founded measure, so the flush loop cannot spin |
| `FlushScope.ScheduleStops` | rust-backend/src/flush_scope.rs:78-119 | from any reachable point on, without new calls no schedule of spawns, drops, flushes and time-outs goes on for ever |
| `FlushScope.EveryFlushReturns` | rust-backend/src/flush_scope.rs:48-119 | where no step is left the counter is zero and every flush has returned or timed out |
| `ResendRateLimiter.TokenBucket.TryTake` | rust-backend/src/resend_rate_limiter.rs:54-66 | refills by elapsed time, clamps to the burst and takes a token exactly when one is there |
| `ResendRateLimiter.Limiter.TryAcquire` | rust-backend/src/resend_rate_limiter.rs:99-126 | uninterrupted, touches only the chat's own bucket, at burst 0 allows and changes nothing, and counts a drop if and only if it refuses |
| `ResendRateLimiter.BurstIsExact` | rust-backend/src/resend_rate_limiter.rs:54-66 | a bucket with whole tokens allows exactly that many takes at one instant, a full one its burst |
| `ResendRateLimiter.AllowsIffTokenEarned` | rust-backend/src/resend_rate_limiter.rs:54-66 | with a positive burst a take is allowed if and only if sixty times the tokens left plus seconds times the rate per minute reach sixty |
| `ResendRateLimiter.RefillLosesOnlyOverflow` | rust-backend/src/resend_rate_limiter.rs:54-66 | a refill adds all that was earned unless that is over the burst, and is then the burst |
| `ResendRateLimiter.MinuteEarnsRate` | rust-backend/src/resend_rate_limiter.rs:99-126 | a minute earns an empty bucket the rate per minute, half a minute half of it, up to the burst |
| `ResendAdmission.AdmissionBound` | rust-backend/src/resend_rate_limiter.rs:99-126 | with fetch and take interleaved in any way, from any take of the known bucket on a chat gets at most burst plus rate times elapsed, plus one burst per eviction, plus one per acquire that straddled an eviction |
| `ResendAdmission.AdmissionBoundWhileRemembered` | rust-backend/src/resend_rate_limiter.rs:54-126 | while the cache remembers the chat, at most burst plus rate times elapsed, whatever other chats do |
| `ResendAdmission.BoundIsMet` | rust-backend/src/resend_rate_limiter.rs:110-121 | for every positive burst, any number of evictions and, given one, any number of straddlers, a run meets the bound exactly |
| `ResendAdmission.TokensConserved` | rust-backend/src/resend_rate_limiter.rs:54-66 | for every bucket, known or forgotten and under any retuning, allowed plus remaining plus spilled equals initial plus refilled |
| `ResendAdmission.RequestsAccounted` | rust-backend/src/resend_rate_limiter.rs:99-126 | with the limiter on, requests equal allowed plus throttled plus those still between fetch and take |
| `ResendAdmission.UninterruptedAcquire` | rust-backend/src/resend_rate_limiter.rs:99-126 | a fetch with its take right after it is the acquire method, in state and answer |
| `LidPnCache.LidPnMaps.Insert` | rust-backend/src/lid_pn_cache.rs:186-208 | the LID always takes the entry, the number only one that is not older |
| `LidPnCache.LidPnMaps.WarmUp` | rust-backend/src/lid_pn_cache.rs:230-237 | warm-up is the adds in order |
| `LidPnCache.LidPnMaps.CanSkipRelearn` | rust-backend/src/lid_pn_cache.rs:142-154 | says yes exactly when the pair is stored and resolves in both directions |
| `LidPnCache.PhoneResolvesToWinner` | rust-backend/src/lid_pn_cache.rs:186-207 | a number resolves to the last-added entry among those with its greatest timestamp, and to nothing exactly when no entry names it |
| `LidPnCache.LidResolvesToLast` | rust-backend/src/lid_pn_cache.rs:186-207 | a LID resolves to the last entry added for it |
| `LidPnCache.OrderIrrelevantIffNoTie` | rust-backend/src/lid_pn_cache.rs:230-237 | warm-up order is irrelevant for a number if and only if its newest entries do not tie |
| `LidPnCache.TieResolvesByOrder` | rust-backend/src/lid_pn_cache.rs:230-237 | two LIDs learned for a number at the same time resolve to whichever comes last |
| `LidPnCache.RelearnIsIdempotentIffResolvable` | rust-backend/src/lid_pn_cache.rs:142-154 | re-adding a pair with any timestamp changes no lookup if and only if it already resolves both ways |
| `LidPnCache.SkipIsInvisibleIffNotNewer` | rust-backend/src/lid_pn_cache.rs:142-154 | skipping the relearn of a pair that resolves both ways stays invisible whatever is added later if and only if the skipped timestamp is not newer than the number's |
| `LidPnCache.PersistedIffLastMark` | rust-backend/src/lid_pn_cache.rs:213-224 | over every run of adds, marks and clears a pair counts as persisted if and only if the last mark of its number since the last clear was for this very LID |
| `LidPnCache.LookupsAreLearned` | rust-backend/src/lid_pn_cache.rs:186-224 | over every run of adds, marks and clears both directions are the warm-up of what was added since the last clear |
| `LidPnCache.SkipsIffMarkedAndNewest` | rust-backend/src/lid_pn_cache.rs:142-154 | over every run a relearn may be skipped if and only if, since the last clear, the last mark of the number was for this LID, its newest entry names the LID and the LID's last entry names the number |
| `NodeWaiters.NodeWaiters.Resolve` | rust-backend/src/client.rs:112-134 | with waiters cancelled at any moment of the sweep: kept only if not matching, delivered to only if matching, neither if cancelled from the start, one of the two each time it is listed if not cancelled by the end; counter equals length |
| `NodeWaiters.ConstraintNarrows` | rust-backend/src/client.rs:75-99 | a plain filter matches the nodes of its tag, and each constraint narrows that to those with the attribute at the value |
| `FibonacciBackoff.BaseDelay` | rust-backend/src/client.rs:842-853 | capping as it goes, the loop computes the cap of the true Fibonacci number |
| `FibonacciBackoff.Backoff` | rust-backend/src/client.rs:842-864 | the draws move the delay one millisecond each from a tenth below the base to a tenth above it, so between 900 and 990000 ms |
| `FibonacciBackoff.BaseIsMonotone` | rust-backend/src/client.rs:842-853 | the base never decreases with the attempt |
| `FibonacciBackoff.CapReachedAt15` | rust-backend/src/client.rs:837-853 | the cap is reached exactly from attempt 15 on |

## Left out

- Cryptography, key encoding, protobuf and binary node encoding: keys, rows and nodes are values.
- Other writers of the secret store (history-sync seeding, expiry pruning); the buffer is the only writer.
- A backend write that goes on after the call waiting for it was dropped: it has landed or not by then.
- What a failed backend write loses: a failed batch is dropped, and the refinement is stated for runs without one.
- `SecretBuffer.MsgSecretWriteBuffer.FlushPendingOnce`: says nothing about captures queued during the round; those are the runs of `SecretProtocol`.
- `SecretBuffer.MsgSecretWriteBuffer.Flush`: says nothing about captures queued meanwhile; those are the runs of `SecretProtocol`.
- Error values: a failed store of pre-key rows is modelled as an operation cut short before the watermarks move.
- Reuse of pre-key ids after the 24-bit wrap; the planner's own collapse is modelled, later reuse is not bounded.
- The retry loop around an upload pass with its delays, and the server's key-count query that decides whether to run one.
- Overflow of the cache's 64-bit sequence numbers and of the limiter's 64-bit counter.
- `AtomicMoments.AtomicSomewhereIff`: only for a cache without a size bound, because with one the replay without the key may evict other keys than the run did.
- `CacheCapacity.HeldIffRecent`: of inserts and reads without expiry only, because a removal or an expired key frees a place; `CacheCapacity.RecentIsHeld` is the direction that holds for all operations.
- The best-effort spins `invalidate_all`, `iter` and `entry_count`, and custom cache store backends.
- `SingleFlight.SweepReclaimsEverything`: does not say that the lock map is empty once the last call returns, because a finished caller's clone may still be counted when the last one reclaims.
- `PdoClaim.StepKeepsInv`: claims neither expire nor are evicted, the setting the protocol is designed for.
- `PdoClaim.AtMostOneRequest`: claims neither expire nor are evicted, the setting the protocol is designed for.
- Failed sends of a spawned receipt task: what the outbound scope accepts counts as acknowledged.
- `OfflineReceipts.OfflineReceiptBuffer.FlushOfflineReceipts`: the client is not torn down while a drain runs; the source then sends nothing.
- `ResendRateLimiter.Limiter.TryAcquire`: one uninterrupted call; interleaved ones are the runs of `ResendAdmission`, and the single-flight creation of a bucket is the protocol of `SingleFlight`.
- Rounding of `f64`.
- `LidPnCache.LidPnMaps.Insert`: one atomic step; the source accepts that concurrent adds for one number can race.
- `FlushScope.EveryFlushReturns`: assumes every spawned task ends or is dropped at some point.
- Device topology scoping, logging, telemetry, tracing and real time.
- Weak memory orderings.
- Retry receipts, handshake, downloads, requests, keepalive, pairing, the bot, media and user-interface code.

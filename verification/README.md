# Verified models of the TemporalLayr core

TemporalLayr records execution traces of AI agents, ships them in batches and analyses them. This project
models the parts of it that hold state and proves what they are for. One file models one component:

| file | component |
|---|---|
| `ThreadPool.dfy` | the native worker pool, as a state machine over the steps of all its threads |
| `LruCache.dfy` | the native recency cache, in place, with its reference counts |
| `CacheLocks.dfy` | the mutex of that cache and the GIL, as a state machine over the calling threads |
| `SipHash.dfy` | the native streaming hash, against SipHash-2-4 |
| `SpaceSaving.dfy` | the native top-K tracker |
| `JumpHash.dfy` | jump consistent hashing of trace keys onto shards |
| `SpanTree.dfy` | `buildSpanTree` of the dashboard, on heap nodes |
| `Tracer.dfy` | the Node span recorder, and its round trip through `buildSpanTree` |
| `Serializer.dfy` | `safe_serialize` on cyclic object graphs |
| `BatchClient.dfy` | batching, retry and drop in the Node client |
| `IngestWorker.dfy` | the queue worker with its dead-letter queue |
| `Options.dfy` | the optional value shared by some of them |

`dafny verify dfyconfig.toml` checks all of it.

## How to read the models

A component whose methods update fields is a class (`SipHasher`, `ConcurrentLRUCache`, `Tracker`, `SpanNode`,
`Recorder`, `Serializer`, `Client`, `Worker`). Its methods are proved to follow functions or relations on values,
and the theorems about every run are lemmas about those. The thread pool is a transition system: `Step` lists the
atomic actions of workers, callers and the destroying thread, `Enabled` and `Next` say when an action is possible
and what it does, and `Run` is any interleaving of a fresh pool. The mutex and the GIL are explicit there, so that
waiting for one while holding the other is visible.

Where the code does not keep what one would expect of it, the model keeps the code and the project proves exactly
when the expectation holds:

- A pool drains its queue on destruction if and only if it has at least one thread (`DrainsIffSomeWorker`).
- A destruction that has begun completes if and only if the thread that dropped the last reference to the pool is not
  one of its own workers (`DestructionCompletesIff`); a callable that holds that reference makes its worker join itself
  (`WorkerJoinsItself`).
- Recorded depths in a span tree are true distances if and only if spans come after their parents, root parents
  excepted (`DepthsRightIff`). The recorder pushes inner spans first, so for its output this means that no span hangs
  below a span that has a parent itself (`RecordedDepths`); three nested runs are enough (`ThreeRunsWrong`).
- A second serialiser pass changes nothing if and only if `max_depth` is negative or `max_string_length` is at least
  20, the length of its two markers (`IdempotentIff`).
- `shutdown` of the Node client empties the queue if and only if `batchSize` is positive (`ShutdownDrainsIff`).
- The Node client makes at least one request for every graph it takes from the queue, in all runs over a given set of
  graphs, if and only if all of them can be encoded as JSON, or nothing is ever taken (`AllRequestedIff`). The body of
  a batch is encoded before the `try`, after the batch has left the queue; one graph that cannot be encoded takes the
  rest of its batch with it (`BadGraphTakesBatch`).
- While the queue worker runs, everything popped is in its batch, in ClickHouse or in the dead-letter queue if and only
  if no iteration has met a missing store with a decoded payload, or a failed push with a failed payload (`KeptIff`).
- A call of the recency cache can get stuck if and only if a finaliser of a cached object may call the cache, or may let
  one of several threads run (`CanDeadlockIff`): objects are released with the mutex in hand.
- `count` in the top-K tracker is an upper bound of the true weight, for all streams of at most N distinct keys, if and
  only if N is at most twice the capacity (`CountsCoverIff`); one key more is enough for every capacity
  (`CountCanUndercount`). What the tracker always vouches for is `count - error` (`NeverOverGuaranteed`).
- Every key with more than 1/(capacity+1) of the weight of the stream is tracked in the end, for all streams of at most
  N distinct keys, if and only if N is at most twice the capacity (`HeavyTrackedIff`).
- The reported counts descend, for all streams of at most N distinct keys, if and only if N is at most the capacity
  (`CountsDescendIff`): the list is ordered by `count - error`.

The floating-point step of the jump hash is modelled by an arbitrary rounding function that is monotone and leaves
doubles alone, which every IEEE 754 rounding mode satisfies, and so does not rounding at all (`ExactArithmetic`); the
theorems hold for each such function. Weights in the
tracker are exact reals. `hide` statements in proofs only withhold definitions from the verifier.

## Model

| member | source | states |
|---|---|---|
| ThreadPool.InvStep | src/clickhouse_native/fast_threadpool.cpp:25-70 | every step of every thread keeps the whole invariant: mutex, GIL, stop flag, destroyer, task accounting, references, wake-ups |
| ThreadPool.ExactlyOnce | src/clickhouse_native/fast_threadpool.cpp:27-45 | in every interleaving an accepted callable is queued, held by one worker or finished, exactly one of these, once; take order is accept order |
| ThreadPool.EverythingAccepted | src/clickhouse_native/fast_threadpool.cpp:50-57 | while the pool is not stopped, the callables of all calls, in order, are the accepted ones followed by that of a call that has not pushed yet; after the stop the accepted ones are still the first of them |
| ThreadPool.ReferencesConserved | src/clickhouse_native/fast_threadpool.cpp:44-56 | the pool's extra references are one for each queued or held callable and no other |
| ThreadPool.NoLostWakeup | src/clickhouse_native/fast_threadpool.cpp:29-59 | with a task queued some worker is awake or a notification is owed, unless the only worker is destroying the pool; while anyone sleeps each queued task has its own awake worker or owed notification |
| ThreadPool.LocksRespected | src/clickhouse_native/fast_threadpool.cpp:27-45 | mutual exclusion on mutex and GIL; no waiter for the GIL holds the mutex; workers leave only when stopped with an empty queue; nobody sleeps after notify_all |
| ThreadPool.NothingAcceptedAfterStop | src/clickhouse_native/fast_threadpool.cpp:51-57 | once stop is set no later submission is ever accepted |
| ThreadPool.WorkerMoves | src/clickhouse_native/fast_threadpool.cpp:25-45 | an awake worker is held up by nothing but the lock it waits for |
| ThreadPool.EnvironmentFree | src/clickhouse_native/fast_threadpool.cpp:29-44 | no interleaving is ruled out: spurious wake-ups, callables that let go of the GIL, calls from any thread with the GIL, and the last reference going on any of them |
| ThreadPool.StartFreesGil | src/clickhouse_native/fast_threadpool.cpp:78-84 | once a destruction has begun any thread that waits for the GIL can have it |
| ThreadPool.NoDeadlock | src/clickhouse_native/fast_threadpool.cpp:25-86 | in every state of the invariant some thread of the pool, the call in progress or the destructor can move, unless the pool is quiet or a worker has come to join itself |
| ThreadPool.InternalDecreases | src/clickhouse_native/fast_threadpool.cpp:25-86 | every step not decided by the environment lowers a measure over tasks, worker phases, call and destructor |
| ThreadPool.InternalRunsEnd | src/clickhouse_native/fast_threadpool.cpp:25-86 | any interleaving of internal steps ends within the measure of its first state |
| ThreadPool.HaltedMeansRest | src/clickhouse_native/fast_threadpool.cpp:25-86 | however the pool is left to itself, where it halts it is quiet, or a worker joins itself and the others have left, with nothing queued if there are others |
| ThreadPool.DestroyerStays | src/clickhouse_native/fast_threadpool.cpp:61-84 | once the destructor runs its thread stays the same, and if that is a worker it is never done, in any interleaving |
| ThreadPool.DestructionCompletesIff | src/clickhouse_native/fast_threadpool.cpp:44-84 | a destruction that has begun ends in each way the pool is left to itself, and can end in any interleaving at all, exactly when no worker of the pool runs it |
| ThreadPool.WorkerJoinsItself | src/clickhouse_native/fast_threadpool.cpp:40-69 | a reachable state in which the worker that released the last reference joins itself for good, with an accepted callable never run |
| ThreadPool.QuietMeansDone | src/clickhouse_native/fast_threadpool.cpp:25-45 | in a quiet state everything accepted ran once and no reference is held |
| ThreadPool.DestroyedMeansDone | src/clickhouse_native/fast_threadpool.cpp:61-70 | after the joins, with at least one worker, the queue is empty, everything accepted ran once and every reference is released |
| ThreadPool.NoWorkersLeak | src/clickhouse_native/fast_threadpool.cpp:22-23 | a pool of zero threads accepts a callable and is destroyed with it queued and referenced |
| ThreadPool.DrainsIffSomeWorker | src/clickhouse_native/fast_threadpool.cpp:22-70 | destruction always drains the queue exactly when there is at least one thread |
| LruCache.ConcurrentLRUCache.constructor | src/clickhouse_native/concurrent_lru.cpp:24 | an empty cache of any size that has added no references |
| LruCache.ConcurrentLRUCache.GetValue | src/clickhouse_native/concurrent_lru.cpp:33-44 | a hit returns the stored object and gives away one reference, a miss returns nothing; the new state is that of the longer run |
| LruCache.ConcurrentLRUCache.Overwrite | src/clickhouse_native/concurrent_lru.cpp:48-53 | replacing a resident value keeps map, list iterators and references consistent |
| LruCache.ConcurrentLRUCache.Evict | src/clickhouse_native/concurrent_lru.cpp:55-64 | the front key leaves list and map and its reference is released |
| LruCache.ConcurrentLRUCache.Insert | src/clickhouse_native/concurrent_lru.cpp:65-67 | a new node and a new cell, linked to each other, with one reference |
| LruCache.ConcurrentLRUCache.SetValue | src/clickhouse_native/concurrent_lru.cpp:46-69 | the new state is that of the longer run; exactly one reference is added |
| LruCache.ConcurrentLRUCache.Destroy | src/clickhouse_native/concurrent_lru.cpp:26-31 | releases exactly the cells' references, so that added equals released plus handed out |
| LruCache.SpliceLinked | src/clickhouse_native/concurrent_lru.cpp:41 | splicing a node to the end keeps map and list one-to-one and moves its key to the back |
| LruCache.ConservedRemove | src/clickhouse_native/concurrent_lru.cpp:50-62 | releasing a cell's object keeps the reference balance, and the cache owned a reference to release |
| LruCache.ApplyWellFormed | src/clickhouse_native/concurrent_lru.cpp:33-69 | every call keeps keys distinct, list and map on the same keys, and the size within the limit |
| LruCache.RecencySorted | src/clickhouse_native/concurrent_lru.cpp:40-41 | the recency list of a history has each touched key once, sorted by last touch |
| LruCache.QueueIsRecency | src/clickhouse_native/concurrent_lru.cpp:33-69 | after any run the queue is the most recently touched distinct keys, as many as fit, in order of last touch |
| LruCache.ResidentValue | src/clickhouse_native/concurrent_lru.cpp:33-69 | a resident key carries the object last set for it |
| LruCache.HitIffRecent | src/clickhouse_native/concurrent_lru.cpp:33-44 | a get hits exactly the keys among the most recently touched ones that fit, and returns the object last set |
| LruCache.IncludedEvict | src/clickhouse_native/concurrent_lru.cpp:55-68 | an insertion into a full small cache keeps it included in a larger one, whichever keys the two evict |
| LruCache.Inclusion | src/clickhouse_native/concurrent_lru.cpp:33-69 | on any call sequence the smaller queue is the larger one with keys left out, and values agree |
| LruCache.HitsGrowWithCapacity | src/clickhouse_native/concurrent_lru.cpp:33-44 | every hit in a smaller cache is a hit with the same, last set, object in a larger one |
| CacheLocks.InvStep | src/clickhouse_native/concurrent_lru.cpp:33-69 | every step of every thread keeps track of who holds the mutex and the GIL, also through finalisers |
| CacheLocks.EnvironmentFree | src/clickhouse_native/concurrent_lru.cpp:33-69 | threads may take a free GIL and read or write at any time, and finalisers may do all they are allowed |
| CacheLocks.NoDeadlock | src/clickhouse_native/concurrent_lru.cpp:33-69 | with harmless finalisers, or one thread whose finalisers only let go of the GIL, some thread can always go on while a call is under way |
| CacheLocks.CallingFinaliserStuck | src/clickhouse_native/concurrent_lru.cpp:47-61 | a reachable state in which a finaliser that calls the cache waits for the mutex of its own thread |
| CacheLocks.YieldingFinaliserStuck | src/clickhouse_native/concurrent_lru.cpp:34-61 | a reachable state in which one thread holds the mutex and wants the GIL and another holds the GIL and wants the mutex |
| CacheLocks.ReadersNeverStuck | src/clickhouse_native/concurrent_lru.cpp:33-44 | a cache that is only read never gets stuck, whatever finalisers may do |
| CacheLocks.CanDeadlockIff | src/clickhouse_native/concurrent_lru.cpp:33-69 | calls can get stuck exactly when a finaliser may call the cache, or may let one of several threads run |
| SipHash.SipHasher.SipRound | src/clickhouse_native/SipHash.h:12-19 | the macro's statement order computes the paper's SipRound |
| SipHash.UnRoundRound | src/clickhouse_native/SipHash.h:12-19 | the round has an explicit left inverse |
| SipHash.RoundUnRound | src/clickhouse_native/SipHash.h:12-19 | the inverse is a right inverse too, so the round is a permutation |
| SipHash.AbsorbInjective | src/clickhouse_native/SipHash.h:92-103 | absorbing a fixed word sequence is injective on hasher states |
| SipHash.FinalizeInjective | src/clickhouse_native/SipHash.h:52-56 | the final rounds are injective on hasher states |
| SipHash.KeysSeparateFinalStates | src/clickhouse_native/SipHash.h:60-68 | for one message different keys give different final states |
| SipHash.MessageWordsInjective | src/clickhouse_native/SipHash.h:43-57 | the padded encoding with its length byte tells any two messages apart |
| SipHash.PaddedParts | src/clickhouse_native/SipHash.h:43-57 | a padded message starts with the message, goes on with null bytes and ends with its length |
| SipHash.PackBytes | src/clickhouse_native/SipHash.h:92-96 | words are little-endian: byte i is found 8 * i bits up |
| SipHash.BitsValue | src/clickhouse_native/SipHash.h:105-116 | a byte's bits are its binary digits |
| SipHash.SipHasher.constructor | src/clickhouse_native/SipHash.h:60-68 | the keyed initial state, nothing fed |
| SipHash.SipHasher.FillWord | src/clickhouse_native/SipHash.h:74-82 | a partly filled word takes bytes until it is full or the data ends |
| SipHash.SipHasher.AbsorbWords | src/clickhouse_native/SipHash.h:92-103 | whole words are absorbed one by one from a word boundary |
| SipHash.SipHasher.StoreTail | src/clickhouse_native/SipHash.h:105-116 | the word is cleared and the last bytes are stored in it |
| SipHash.SipHasher.UpdatePartial | src/clickhouse_native/SipHash.h:74-88 | carry-over of a partly filled word across calls |
| SipHash.SipHasher.UpdateAligned | src/clickhouse_native/SipHash.h:90-117 | an update from a word boundary reaches the state of the longer message |
| SipHash.SipHasher.Update | src/clickhouse_native/SipHash.h:70-117 | after any update the whole state is the one function of keys and concatenated input |
| SipHash.FinishState | src/clickhouse_native/SipHash.h:43-57 | absorbing the zero-filled tail with its length byte and finalising is finishing the padded message |
| SipHash.SipHasher.FinalizeState | src/clickhouse_native/SipHash.h:43-57 | length byte, last word, final rounds |
| SipHash.SipHasher.Get64 | src/clickhouse_native/SipHash.h:119-123 | the digest is SipHash-2-4 of everything fed |
| SipHash.HashChunks | src/clickhouse_native/SipHash.h:60-123 | for every way of cutting a message into updates the digest is SipHash-2-4 of the whole |
| SipHash.SipHash64 | src/clickhouse_native/SipHash.h:126-131 | the one-shot function is SipHash-2-4 with zero keys |
| SipHash.PaperExample | src/clickhouse_native/SipHash.h:43-131 | the definition gives the digest of the paper's worked example |
| SipHash.EmptyExample | src/clickhouse_native/SipHash.h:43-131 | the definition gives the reference digest of the empty message, which is all padding |
| SpaceSaving.Tracker.Truncate | src/clickhouse_native/space_saving.cpp:28-37 | past twice the capacity the counters become the first `capacity` of a partially sorted arrangement and the index is rebuilt; otherwise nothing changes |
| SpaceSaving.Tracker.Bump | src/clickhouse_native/space_saving.cpp:44-46 | a tracked key's counter grows by the increment |
| SpaceSaving.Tracker.Push | src/clickhouse_native/space_saving.cpp:47-56 | a new key is appended with the last counter's count as error, then truncation |
| SpaceSaving.Tracker.Insert | src/clickhouse_native/space_saving.cpp:42-57 | extends the run by one insertion and keeps index map and counter vector inverse to each other |
| SpaceSaving.Tracker.TopK | src/clickhouse_native/space_saving.cpp:59-70 | min(k, size) distinct keys with their counts, best first, none left out that is better; counts descend while at most `capacity` keys have been seen; the tracker is unchanged |
| SpaceSaving.RunBounded | src/clickhouse_native/space_saving.cpp:28-57 | keys stay distinct and there are at most 2 * capacity counters |
| SpaceSaving.PlacesKept | src/clickhouse_native/space_saving.cpp:28-57 | counters stay in their places, a new one goes to the end, and truncation leaves the best, in order |
| SpaceSaving.GuaranteedSinceAdmission | src/clickhouse_native/space_saving.cpp:42-57 | count - error is the weight received since the key's latest admission, for any increments |
| SpaceSaving.ErrorOfAdmission | src/clickhouse_native/space_saving.cpp:42-57 | in any run a counter's error is the count of the last counter at its admission, once there were `capacity` of them, and never changes; its count is that and the weight since |
| SpaceSaving.LastCountIsError | src/clickhouse_native/space_saving.cpp:48-53 | a run in which the last counter is not the greatest and gives the error |
| SpaceSaving.NeverOverGuaranteed | src/clickhouse_native/space_saving.cpp:18-57 | with non-negative increments count - error never exceeds the true weight; the exact gap of count |
| SpaceSaving.ExactWhileFewKeys | src/clickhouse_native/space_saving.cpp:28-57 | while at most 2 * capacity keys have been seen every key is tracked with its true weight |
| SpaceSaving.CountsExactWhileRoom | src/clickhouse_native/space_saving.cpp:48-53 | while at most `capacity` keys have been seen errors are zero and counts are true weights |
| SpaceSaving.TruncationKeepsBest | src/clickhouse_native/space_saving.cpp:18-31 | nothing discarded is better than anything kept |
| SpaceSaving.TruncationKeepsHeavy | src/clickhouse_native/space_saving.cpp:28-37 | a counter with more than 1/(capacity+1) of the total guaranteed weight survives |
| SpaceSaving.HeavyKeySurvives | src/clickhouse_native/space_saving.cpp:42-57 | in any run over non-negative increments an insertion loses no heavy key |
| SpaceSaving.CountCanUndercount | src/clickhouse_native/space_saving.cpp:28-53 | for every capacity a run over 2 * capacity + 1 keys in which a key of weight 9 is reported with count 6 |
| SpaceSaving.CountsCoverIff | src/clickhouse_native/space_saving.cpp:28-53 | counts are upper bounds of the true weights for all non-negative streams of at most N distinct keys exactly for N <= 2 * capacity |
| SpaceSaving.HeavyCanBeLost | src/clickhouse_native/space_saving.cpp:28-53 | for every capacity a run over 2 * capacity + 1 keys that ends without a key of more than 1/(capacity+1) of the stream's weight |
| SpaceSaving.HeavyTrackedIff | src/clickhouse_native/space_saving.cpp:28-57 | every such key is tracked in the end, for all non-negative streams of at most N distinct keys, exactly for N <= 2 * capacity |
| SpaceSaving.CountsCanRise | src/clickhouse_native/space_saving.cpp:18-70 | for every capacity a run over capacity + 1 keys after which a count is reported below a greater one |
| SpaceSaving.CountsDescendIff | src/clickhouse_native/space_saving.cpp:18-70 | reported counts descend, for all non-negative streams of at most N distinct keys and however ties are broken, exactly for N <= capacity |
| JumpHash.ExactArithmetic | src/clickhouse_native/consistent_hash.cpp:12 | what is assumed of rounding can be met |
| JumpHash.JumpBounds | src/clickhouse_native/consistent_hash.cpp:11-12 | every jump goes strictly upwards and stays within 2^62, for every rounding |
| JumpHash.CandidatesIncrease | src/clickhouse_native/consistent_hash.cpp:9-13 | the candidate buckets increase strictly and stay below the limit |
| JumpHash.CandidatesPrefix | src/clickhouse_native/consistent_hash.cpp:9-13 | the candidate sequence does not depend on the number of buckets, only its length does |
| JumpHash.MinimalMovement | src/clickhouse_native/consistent_hash.cpp:7-15 | with more buckets a key keeps its shard or moves to a new one, and moves exactly when a candidate is new |
| JumpHash.OneMoreBucket | src/clickhouse_native/consistent_hash.cpp:7-15 | adding one bucket moves a key to that bucket or not at all |
| JumpHash.KeyAfterNext | src/clickhouse_native/consistent_hash.cpp:11 | i steps of the generator multiply the key by the i-th power of the multiplier and add the sum of the lower powers, modulo 2^64 |
| JumpHash.CandidatesOfKey | src/clickhouse_native/consistent_hash.cpp:7-15 | the candidates are bucket 0 and then, with each next key in closed form, the rounded product of b + 1 and 2^31 by one more than its top 31 bits, to the last below the limit |
| JumpHash.ExactAfter | src/clickhouse_native/consistent_hash.cpp:12 | without rounding a jump is the integer quotient of (b + 1) * 2^31 by one more than the top 31 bits of the key |
| JumpHash.ShardOfOne | src/clickhouse_native/consistent_hash.cpp:7-15 | key 1 among 7 buckets has candidates 0 and 6 and goes to shard 6 |
| JumpHash.JumpConsistentHash | src/clickhouse_native/consistent_hash.cpp:7-15 | the loop ends and returns the last candidate below the bucket count, within range; -1 without buckets |
| JumpHash.GetShard | src/clickhouse_native/consistent_hash.cpp:17-32 | ValueError for a non-positive bucket count, else the shard |
| SpanTree.EntriesDistinct | dashboard/src/lib/utils.ts:124-126 | the map has one entry per id |
| SpanTree.EntriesOfDistinct | dashboard/src/lib/utils.ts:124-126 | with distinct ids the map keeps exactly the spans, in order |
| SpanTree.EntriesKeepLast | dashboard/src/lib/utils.ts:124-126 | with repeated ids the map has the last span of each id, in the order in which ids first come up |
| SpanTree.ParentIs | dashboard/src/lib/utils.ts:128-136 | an entry is the parent exactly when its id is named and not empty; roots name no parent, an empty or an unknown one |
| SpanTree.ListedOnce | dashboard/src/lib/utils.ts:128-136 | every entry occurs once among roots and children lists, in the list of its parent |
| SpanTree.ReachableIffAcyclic | dashboard/src/lib/utils.ts:128-138 | an entry is reachable from a root exactly when its parent chain has no cycle |
| SpanTree.DepthRight | dashboard/src/lib/utils.ts:129-131 | parents first gives true depths |
| SpanTree.DepthCountsSteps | dashboard/src/lib/utils.ts:128-132 | the recorded depth counts steps up the parent chain while parents come before their children, and one more to a parent that does not |
| SpanTree.DepthsRightIff | dashboard/src/lib/utils.ts:128-132 | recorded depths are true distances exactly when every span comes after its parent, root parents excepted |
| SpanTree.FillMap | dashboard/src/lib/utils.ts:121-126 | one fresh node per entry, without children, at depth 0 |
| SpanTree.Attach | dashboard/src/lib/utils.ts:128-136 | one round of the second loop: child list, depth and roots |
| SpanTree.BuildSpanTree | dashboard/src/lib/utils.ts:119-139 | the heap of nodes has the listed children, recorded depths and roots, for any span list |
| Tracer.Recorder.Perform | sdk-node/src/tracer.ts:69-209 | a call draws an id, runs its callback in its context and pushes its span last, whatever the outcome |
| Tracer.Recorder.PerformAll | sdk-node/src/tracer.ts:83-85 | calls awaited one after the other |
| Tracer.TraceCalls | sdk-node/src/tracer.ts:42-66 | the recorded graph is handed over only when the traced function returns normally |
| Tracer.TraceShape | sdk-node/src/tracer.ts:69-108 | a trace has distinct ids, is closed under parent ids and lists inner calls before the enclosing one |
| Tracer.OutsideTrace | sdk-node/src/tracer.ts:69-209 | outside `trace` nothing is recorded |
| Tracer.OutcomesRecorded | sdk-node/src/tracer.ts:80-108 | every call is recorded once, and the span with the k-th id drawn has the name of the k-th call and is an error exactly when that call threw |
| Tracer.MixedKinds | sdk-node/src/tracer.ts:69-209 | a run with a model call that calls a throwing tool: both spans hang below the run, and the tool's is an error |
| Tracer.RecordTops | sdk-node/src/tracer.ts:69-209 | the spans carrying a given context's parent are the tops of the expected trees, in order |
| Tracer.RecordRepresents | sdk-node/src/tracer.ts:69-209 | the parent fields describe the expected trees, wherever the recording stands in a longer list |
| Tracer.FlatForest | sdk-node/src/tracer.ts:41-209 | the roots and children lists of a trace are the expected forest |
| Tracer.RoundTrip | dashboard/src/lib/utils.ts:119-139 | rebuilding a recorded trace gives node for node the tree of calls, siblings in order, `llm` and `tool` spans under the nearest `run` |
| Tracer.ThreeRunsWrong | sdk-node/src/tracer.ts:69-108 | three nested runs are recorded so that the innermost span, at distance 2, gets depth 1 |
| Tracer.RecordedDepths | dashboard/src/lib/utils.ts:128-132 | recorded spans are all reachable and get depth 0 or 1; depths are right exactly when nothing hangs below a non-root |
| Serializer.Serializer.WalkObject | src/temporallayr/serializer.py:13-36 | the walk follows its specification, and `seen` is restored even when something raises |
| Serializer.Serializer.WalkSequence | src/temporallayr/serializer.py:30-31 | the list comprehension |
| Serializer.Serializer.WalkMapping | src/temporallayr/serializer.py:28-29 | the dict comprehension, with later equal keys replacing earlier values |
| Serializer.SafeSerialize | src/temporallayr/serializer.py:10-38 | terminates on every graph, cyclic or not, and starts with an empty path |
| Serializer.LeafResults | src/temporallayr/serializer.py:21-36 | scalars and short strings as they are, long strings cut and marked, `repr` cut, exceptions raised, dumps walked one level down |
| Serializer.NegativeLimit | src/temporallayr/serializer.py:22-23 | a negative string limit cuts from the end |
| Serializer.MarkerResults | src/temporallayr/serializer.py:14-19 | the depth marker comes before the circular one, and both before anything else |
| Serializer.ListResult | src/temporallayr/serializer.py:30-31 | element i of the result is the walk of element i, for the first 200; it raises exactly when one of these does |
| Serializer.DictResult | src/temporallayr/serializer.py:28-29 | of the first 200 items, one entry per key in the order in which keys first come up, with the walk of the last item of the key; it raises exactly when one of these walks does |
| Serializer.SharedIsNotCircular | src/temporallayr/serializer.py:17-19 | where no chain of walked references, prolonged from the path as far as the depth limit goes, meets an object twice, the walk is the plain depth-limited unfolding: sharing is never marked circular, and cycles elsewhere do not matter |
| Serializer.AcyclicIsUnfolded | src/temporallayr/serializer.py:10-38 | the same for a whole value, finite or not |
| Serializer.WalkFits | src/temporallayr/serializer.py:13-36 | every result has only the marker below the depth limit, containers at most 200 wide with distinct keys, and stable strings |
| Serializer.ResultIsBounded | src/temporallayr/serializer.py:10-38 | every result is a finite tree, at most max_depth + 1 containers deep |
| Serializer.FitsIsStable | src/temporallayr/serializer.py:13-36 | a value that fits is serialised to itself |
| Serializer.SecondPass | src/temporallayr/serializer.py:10-38 | serialising a result again returns it unchanged |
| Serializer.IdempotentIff | src/temporallayr/serializer.py:14-24 | that holds for all graphs exactly when max_depth is negative or max_string_length is at least 20 |
| BatchClient.Client.Splice | sdk-node/src/client.ts:34-39 | cut one batch from the front of the queue and start sending it |
| BatchClient.Client.Send | sdk-node/src/client.ts:41-46 | encode the batch, and make its first request only if all of it can be encoded |
| BatchClient.Client.DoEnqueue | sdk-node/src/client.ts:27-32 | push, then flush at the batch size; the client is that of the longer run |
| BatchClient.Client.DoFlush | sdk-node/src/client.ts:34-39 | a flush by the caller extends the run |
| BatchClient.Client.OnTimer | sdk-node/src/client.ts:73-76 | flush while the timer is set; the client is that of the longer run |
| BatchClient.Client.DoShutdown | sdk-node/src/client.ts:83-89 | clear the timer and flush once, which leaves an empty queue for a positive batch size |
| BatchClient.Client.OnAnswer | sdk-node/src/client.ts:56-70 | deliver, retry or drop; the client is that of the longer run |
| BatchClient.EnqueueOrder | sdk-node/src/client.ts:27-39 | batches in order followed by the queue are the enqueued graphs in order |
| BatchClient.EveryGraphAccounted | sdk-node/src/client.ts:27-71 | each graph is queued, in flight, delivered, dropped after its requests, or gone without a request, and only one of these |
| BatchClient.RunBounded | sdk-node/src/client.ts:27-71 | the queue is shorter than a batch between calls; 1 to batchSize graphs per batch; at most max(1, maxRetries) requests, all used before a drop, and none exactly when a graph of the batch cannot be encoded |
| BatchClient.RequestsBounded | sdk-node/src/client.ts:56-70 | no batch gets more than max(1, maxRetries) requests, and a dropped one has had as many |
| BatchClient.EnqueueWaits | sdk-node/src/client.ts:27-32 | below the batch size a graph is only queued |
| BatchClient.TickSends | sdk-node/src/client.ts:73-89 | in any run every interval sends what is queued as one batch until the client is shut down, and does nothing afterwards |
| BatchClient.FlushSends | sdk-node/src/client.ts:34-39 | a flush by the caller leaves nothing queued |
| BatchClient.RequestIffEncodable | sdk-node/src/client.ts:41-46 | in any run a batch gets a request exactly when all its graphs can be encoded, and otherwise nothing that happens later brings it back |
| BatchClient.AllRequestedIff | sdk-node/src/client.ts:27-46 | no run over a set of graphs loses one without a request exactly when all of them can be encoded, or the batch size is not positive |
| BatchClient.BadGraphTakesBatch | sdk-node/src/client.ts:34-46 | for every positive batch size a run in which one graph that cannot be encoded takes batchSize - 1 others with it |
| BatchClient.BatchesIndependent | sdk-node/src/client.ts:34-71 | whatever else happens in between, what becomes of a batch depends on the outcomes of its own requests only |
| BatchClient.DeliveredIffSomeSuccess | sdk-node/src/client.ts:41-71 | in any run, of the outcomes of a batch as many count as it has requests left: delivered if one of these is a success, dropped if all are failures, in flight while neither is so |
| BatchClient.ShutdownDrainsIff | sdk-node/src/client.ts:34-36 | shutdown's single flush takes everything left exactly for a positive batch size |
| BatchClient.NothingTaken | sdk-node/src/client.ts:29-36 | with a batch size of zero or less no graph ever leaves the queue |
| IngestWorker.ProcessBatch | workers/ingest_worker.py:50-91 | returns the failures, or raises, and what was written |
| IngestWorker.BatchPartition | workers/ingest_worker.py:50-91 | every payload of a processed batch is written, kept nowhere for want of a store, or returned, without duplicates |
| IngestWorker.FailedMembers | workers/ingest_worker.py:58-76 | exactly the undecodable payloads are returned, or the whole batch when the bulk write fails; the call raises exactly when something decodes and looking up the store does |
| IngestWorker.Worker.FlushBatch | workers/ingest_worker.py:140-150 | process, dead-letter the failures if possible, clear; an exception leaves the batch |
| IngestWorker.Worker.Step | workers/ingest_worker.py:119-151 | one iteration of the loop |
| IngestWorker.Worker.WorkerLoop | workers/ingest_worker.py:94-158 | the loop, broken off by an exception, and the final flush |
| IngestWorker.LoopAccounts | workers/ingest_worker.py:119-151 | the batch is short at the top of every iteration, flushed in pop order, and every popped payload is accounted for once |
| IngestWorker.EverythingPopped | workers/ingest_worker.py:119-135 | everything the queue offers is popped, in order, until the loop is broken off |
| IngestWorker.ProcessedIffDue | workers/ingest_worker.py:119-151 | after a pop the batch is processed exactly when it has reached the batch size, or is not empty and the interval has passed; it is empty then, or the store lookup raised and the loop is broken off |
| IngestWorker.KeptIff | workers/ingest_worker.py:119-151 | while the loop runs popped payloads equal, as a multiset, batch, written and dead-lettered ones exactly when every flush so far pushed its failures and met no missing store with decoded payloads |
| IngestWorker.NothingLostWhilePushing | workers/ingest_worker.py:143-148 | that equality holds whenever dead-letter pushes work and the store lookup never comes back empty |
| IngestWorker.ShutdownAccounts | workers/ingest_worker.py:153-157 | after shutdown everything popped is accounted for; what the last flush loses is its failures, or the whole batch if the store lookup raises, and nothing exactly when all decodes and the store, if any, writes |

## Left out

- Python and C bindings, argument parsing, module initialisation, type objects.
- `src/clickhouse_native/SipHash.cpp` and `hll_counter.cpp`: the first does not fit the header, the second only gives easy members.
- ThreadPool: the pool is modelled on values, as steps, since its methods run concurrently. Callables are assumed to return. A thread that joins itself never gets past the join here; the C++ standard also lets that join throw, which out of a destructor ends the process. A negative thread count, which becomes a huge size, is a pool that cannot be created. Interpreter shutdown and exhausted memory are not modelled.
- LruCache: calls are atomic there, so releasing an object runs no Python code; `CacheLocks` says when that matters. It leaves out the destructor, when nobody can call the cache, and takes a second lock of the mutex by its own thread, which C++ leaves undefined, to wait.
- LruCache.ConcurrentLRUCache.SetValue: requires a positive size; the source reads the front of an empty list for size zero.
- SpaceSaving.Tracker.constructor: requires a positive capacity; the source reads the last element of an empty vector for capacity zero.
- SpaceSaving: double rounding of counts, and increments that are not finite; `partial_sort` is known by what the standard promises, and `PartialSort` is one way to keep it.
- SipHash: big-endian hosts, where the header's word load does not match its byte stores.
- SipHash.SipHasher.Get64: requires that the digest was not taken before; the call finalises the state in place.
- JumpHash: how evenly keys spread over shards.
- Tracer: calls started together and awaited later, whose spans may interleave; `trace` inside `trace`, which records into a graph of its own; timestamps, token counts, cost and attributes of spans; ids are assumed fresh.
- Serializer: `model_dump`, `repr` and iteration are functions of the object; keys arrive already converted by `str`; the interpreter's recursion limit, which a large `max_depth` can reach.
- BatchClient: HTTP, time and back-off are events; in-flight requests at shutdown are not awaited by the source and simply stay in flight. A graph is taken not to change once it is enqueued, so it encodes at every attempt or at none. When encoding throws, `flush` and `shutdown` reject to a caller that awaits them; a rejection nobody handles ends the process in current versions of Node.
- IngestWorker: clock readings, pop timeouts and signals are inputs; incident detection and the queue-size metric, which are taken not to raise; a worker without a queue, which exits at once.
- The Python client, session context, storage, dashboard and configuration.

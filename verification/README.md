# Verified model of redis-api

A Dafny model of the stateful parts of this repository: the leaky-bucket rate limiter, the inventory behind an
expiring distributed lock, the order consumer that batches Kafka events into Postgres, and the username filter of
the registration endpoint. The API and the consumer are also composed over the topic `inventory.item-used`.

| file | what it holds |
|---|---|
| `Common.dfy` | options, the event payload, counting in a sequence |
| `LeakyBucket.dfy` | the rate limiter over whole traces of requests |
| `RedisService.dfy` | the class `RedisService`: lock, counter, bit and bucket commands as atomic steps |
| `Inventory.dfy` | any number of concurrent `useItem` calls as a step system |
| `Texts.dfy` | what replies and events say, by an independent reader of numerals |
| `LockTimes.dfy` | the lock in numbers: tries, back-offs, time to live, and a fifth try that sells |
| `Rollback.dfy` | exactly when the rollback of a failed emit restores consistency |
| `ProductController.dfy` | the product endpoints as methods, with other calls at every await |
| `OrderConsumer.dfy` | the consumer as a step system with crashes, faults and redelivery |
| `ConsumerSafety.dfy` | what every run of the consumer guarantees |
| `BatchAlignment.dfy` | why replayed batches are all old or all new |
| `OverlappingFlushes.dfy` | any number of flushes at once, as shutdown may start them |
| `FlushLaws.dfy` | a flush in numbers: when it begins, what it takes, how often it tries, what it leaves |
| `ShutdownLoss.dfy` | a run of overlapping flushes that loses an event |
| `OrderService.dfy` | the class `OrderService` with its buffer, flag, retry loop and commit map |
| `EndToEnd.dfy` | API and consumer composed |
| `BloomHash.dfy` | hashes in JavaScript's 32-bit arithmetic, probe positions |
| `HashReference.dfy` | independent references for hashes and positions, and known values |
| `BloomFilter.dfy` | the filter as methods |
| `Registration.dfy` | concurrent registrations, one probe read or bit write at a time |
| `AuthController.dfy` | the registration endpoint as methods, with other registrations at every await |

Runs are sequences of labels applied one after the other; a label that is not enabled changes nothing, so a
statement about all label sequences is a statement about all interleavings. Fields such as `ops`, `sellers`,
`received`, `settled`, `dropped` and `outside` are history: no step's effect on the remaining fields depends on them.

## Assumptions

- Redis commands and scripts, `repo.save`, and a commit of offsets are atomic. A call to Postgres or Kafka may be
  refused, or may take effect although its reply is lost; a call to Redis does not fail, except that a registration may
  throw while it writes its bits. Redis loses nothing but keys whose TTL has run out.
- Runs begin with an empty Redis, topic and orders table. The identity provider may hold any accounts already and may
  gain others in other ways at any moment; it loses none. A name that it takes for another spelling of one it holds
  counts as gained that way.
- A lock key may disappear at any moment after its TTL has run out, and not before. Lock tokens are fresh.
- Kafka redelivers from the committed offset after a restart and in offset order within a partition; partitions are
  not reassigned while a process runs. A partition with no committed offset is read from offset 0 (`main.ts:18-26` sets
  no `fromBeginning`), nothing commits offsets apart from `commitOffsets` (as the `autoCommit: false` of `main.ts:22`
  intends, although it stands among the consumer's options and not in those of its run), and events may arrive while a
  flush is running.
- Rate-limiter levels are held in thousandths of a request, which makes them exact integers for whole
  milliseconds and whole rates; `RedisService.RedisService.LeakyBucket` relates them to the script's fractions.
  Capacity and leak rate are positive.
- Clocks, UUIDs, correlation ids, the outcome of an emit, and the identity provider's answer are parameters.

## Where the code and its comments disagree

The model follows the code. Each claim below is shown false, with the exact condition under which it holds.

- `order.service.ts:82` says that a dead-lettered batch is delivered again on the next restart. That holds if and only
  if no commit on its partition takes effect first (`ConsumerSafety.RedeliveredUnlessPassed`,
  `ConsumerSafety.DeadLetteredBatchIsLost`).
- `bloom-filter.service.ts:55` says that an odd stride covers all slots. It does if and only if it is not a multiple of
  5; the username "aal" has stride 409705 (`BloomHash.OddStrideCoversIffNotMultipleOf5`).
- `bloom-filter.service.ts:22-23` says that a negative answer is definitive. When the reads of a call have answered no,
  the name is new to the identity provider if and only if the provider does not hold it for other reasons than a
  registration, no registration of it threw after its account had been created, and no other registration of it has been
  accepted that had not returned when the call began (`Registration.NegativeIsDefinitiveIff`). Each part fails in some
  run, for every name: it came with an imported realm, as `keycloak/realm-export.json:131-158` does
  (`Registration.SeededNameIsDenied`); its role could not be assigned (`Registration.BrokenNameIsDenied`); its bits are
  still being written (`Registration.FalseNegativeIsReachable`), or were set after the call had read one of them
  (`Registration.StaleNegativeIsReachable`). A provider that holds each name once catches every wrong answer
  (`Registration.WrongNegativeIsCaught`).
- `product.controller.ts:88` says that the rollback keeps the inventory consistent. With the topic it is, in every run,
  if and only if no delivered event is of a call whose emit has thrown (`Rollback.TopicConsistentIff`; item by item,
  `Rollback.ItemCountedOnceIff`): an emit may be delivered and still throw. With the stock it is if and only if the item
  was taken since the last reset (`Rollback.RollbackConsistentIff`; over runs, `Rollback.StockConsistentIff`); otherwise
  stock plus items kept exceeds 1000, by what `Inventory.StockLedger` says, and stock alone may
  (`Inventory.ResetBeforeRollbackOvershoots`).
- `onModuleDestroy` (`order.service.ts:36-40`) does not test `flushing`. With events buffered, a shutdown can lead to a
  flush splicing away events outside its own batch if and only if a flush is running when it begins
  (`OverlappingFlushes.ShutdownIsSafeIffNotFlushing`); which splice does so is settled by
  `OverlappingFlushes.SpliceIsOwnIff`, and `ShutdownLoss.ShutdownCanLoseAnEvent` loses an event that way.

## Model

| member | source | states |
|---|---|---|
| LeakyBucket.LevelIsHeaviestWindow | src/redis/redis.service.ts:45-51 | under non-decreasing clocks the level is the maximum over all earlier requests k of what was admitted since k less what leaked since k |
| LeakyBucket.RejectedIffWindowOverflows | src/redis/redis.service.ts:48-52 | a request is rejected exactly when admitting it would push some window over capacity + leak * window |
| LeakyBucket.AnswersComply | src/redis/redis.service.ts:37-58 | in every trace every window admits at most capacity + leak * window |
| LeakyBucket.NoCompliantPolicyAdmitsMore | src/redis/redis.service.ts:37-58 | on every prefix of every trace no policy that respects the window bound, however clairvoyant, admits more requests |
| LeakyBucket.AdmissionsBoundedUnderAnyClock | src/redis/redis.service.ts:45-55 | for timestamps in any order, from a missing key or any stored bucket, admissions up to an admitted request are at most capacity - start level + leak * elapsed |
| LeakyBucket.LevelAboveCapacity | src/redis/redis.service.ts:45-55 | exactly when a stored level can exceed the capacity: only with a backward clock, and only on a rejection |
| LeakyBucket.TtlIsInvisible | src/redis/redis.service.ts:54-56 | a bucket whose key expires, even up to a second before its TTL, gives the answers of one that never expires |
| LeakyBucket.TtlMarginIsTight | src/redis/redis.service.ts:54-56 | one millisecond less than that margin changes an answer |
| LeakyBucket.TtlIsLeast | src/redis/redis.service.ts:54-56 | for all capacities and leak rates the TTL less one second is the least whole number of seconds that drains a full bucket |
| LeakyBucket.CompletionTimeLowerBound | test-benchmark.mjs:114 | with capacity 100 and rate 50, m successes within any stretch of a trace, rejected retries included, take at least (m - 100) / 50 seconds |
| RedisService.RedisService.LeakyBucket | src/redis/redis.service.ts:37-58 | the script, in fractions, is the exact integer step: answer, stored level and time, expiry, other buckets untouched |
| RedisService.RedisService.AcquireLock | src/redis/redis.service.ts:128-134 | takes a free or expired lock with the given token and TTL; a held one is left alone |
| RedisService.RedisService.ReleaseLock | src/redis/redis.service.ts:137-140 | frees the lock only for the token's owner |
| RedisService.RedisService.CheckAndDecrement | src/redis/redis.service.ts:26-35 | creates the counter if missing, decrements it if positive, replies the new value or -1 |
| RedisService.RedisService.Increment | src/redis/redis.service.ts:145-148 | adds one, starting a missing key from 0 |
| Inventory.MutualExclusion | src/redis/redis.service.ts:128-140 | in every reachable state at most one call is in the critical section within its TTL, the key holds its token, and only its own release touches the key |
| Inventory.ContendedAfterFiveTries | src/product/product.controller.ts:47-62 | in every run a call is turned away only after five tries for the lock, one that went on needed one to five, and one still trying has at most four behind it |
| LockTimes.FiveTries | src/product/product.controller.ts:47-62 | in every run a call turned away has tried exactly 5 times, and one still waiting at most 4 |
| LockTimes.NextTry | src/product/product.controller.ts:47-55 | in every run a waiting call's next try gets a free lock, and a held one sends it away if and only if it is the fifth |
| LockTimes.BackoffsLast | src/product/product.controller.ts:23-24 | the back-offs last 50, 100, 200, 400 and 800 ms |
| LockTimes.OthersWait | src/product/product.controller.ts:21 | from any state, a lock just taken refuses another call 299 ms later and not 300 ms later |
| LockTimes.FifthTrySells | src/product/product.controller.ts:47-62 | beside a crashed holder and a rival a call gets the lock on its fifth try at 750 ms and sells, with reply and event text |
| Inventory.CallsRefineAtomicCounter | src/product/product.controller.ts:66-95 | every interleaving, lock expiry included, is a legal history of one atomic counter; each call reports the reply of its single take, only failed deliveries return an item, once; stock is never negative |
| Inventory.KeyPresentWhileInFlight | src/product/product.controller.ts:87-89 | INCR never meets a missing key, so a rollback raises the stock by exactly one |
| Inventory.EventsReportDistinctTakes | src/product/product.controller.ts:78-86 | every delivered event tells of a successful decrement by its own call, with the matching message, and no call emits twice |
| Texts.EventsTellWhatIsLeft | src/product/product.controller.ts:78-86 | in every run each event's text reads as the number its own call left, in decimal without leading zeros, or as the last item exactly at 0, and its correlation id is the one its call sent |
| Texts.TellsOnce | src/product/product.controller.ts:78 | no text tells two numbers |
| Inventory.StockLedger | src/product/product.controller.ts:121-126 | with any resets: stock = 1000 - takes + returns since the last reset = 1000 + stale returns - items kept, at most 1000 + calls in flight at the reset |
| Inventory.ResetBeforeRollbackOvershoots | src/product/product.controller.ts:87-89 | after any run, a reset before a rollback leaves 1001 items |
| Inventory.EmittingIsReachable | src/product/product.controller.ts:44-85 | a concrete run to a call about to emit, from which the overshoot follows |
| Inventory.RunConserves | src/product/product.controller.ts:66-95 | initial stock + restocking + phantom events = stock + items in flight + events, in every run |
| Rollback.TopicConsistentIff | src/product/product.controller.ts:87-89 | in every run stock + items in flight + events = 1000 + restocking if and only if no event is of a call whose emit has thrown |
| Rollback.ItemCountedOnceIff | src/product/product.controller.ts:78-89 | in every run each item taken is counted in exactly one of flight, topic and stock, unless its event was delivered although the emit threw: then in two |
| Rollback.StockConsistentIff | src/product/product.controller.ts:87-89 | in every run stock = 1000 - items kept since the last reset if and only if nothing taken before it was returned after it |
| Rollback.RollbackConsistentIff | src/product/product.controller.ts:87-89 | a rollback keeps stock + items kept if and only if its item was taken since the last reset, and otherwise adds one |
| ProductController.ProductController.LockWithRetries | src/product/product.controller.ts:47-62 | whatever others do at each await, the loop is the tries and back-offs of the step system, which number five by `LockTimes.FiveTries`, and yields the call's token exactly when the call holds the lock |
| ProductController.ProductController.UseItem | src/product/product.controller.ts:44-99 | whatever other calls, resets and time do at each await, lock, counter, topic and history end as the step system says, the reply reads as what is left, and a success is the last event of the topic with the same number, text and id; without other calls, 503 exactly when the lock outlives the first four back-offs, else one item is sold or put back and the lock is free |
| ProductController.CalledIsRun | src/product/product.controller.ts:44-99 | every such call, with what happens during it, is a run of module `Inventory`, so every theorem on runs applies to it |
| ProductController.AloneCall | src/product/product.controller.ts:47-95 | in the step system, a call that meets no other is refused exactly when the lock it found outlives its back-offs, and otherwise has the effect of one take, sold or undone |
| ProductController.OnlyContendersStarve | src/product/product.controller.ts:47-55 | after any run, a call is refused only if another call tries for the lock during its back-offs; a lock left by a crashed holder expires before the fourth attempt |
| ProductController.ProductController.GetInventory | src/product/product.controller.ts:106-112 | reads the counter, 1000 when the key is missing |
| ProductController.ProductController.ResetInventory | src/product/product.controller.ts:121-126 | is the reset step: replies 1000, counter 1000, lock and calls alone |
| OrderConsumer.LatestIsMaximum | order-consumer/src/orders/order.service.ts:91-101 | the commit map has exactly the partitions of the batch, each with its maximum offset |
| OrderConsumer.LatestIgnoresOrder | order-consumer/src/orders/order.service.ts:91-101 | the map does not depend on the order of the batch |
| OrderConsumer.SaveKeepsDistinct | order-consumer/src/orders/order.entity.ts:4 | no save ever leaves two rows with one (partition, offset) |
| OrderConsumer.StepKeepsInv | order-consumer/src/orders/order.service.ts:28-110 | every step of process, broker or database keeps the invariant that links logs, offsets, rows, buffer and running flush |
| ConsumerSafety.CommittedIsSavedOrDeadLettered | order-consumer/src/orders/order.service.ts:42-110 | in every run, every offset below a committed offset is a row or was dead-lettered |
| ConsumerSafety.UnsavedIsRedelivered | order-consumer/src/orders/order.service.ts:60-80 | in every run, each event that has no row and was not dead-lettered is delivered again after a restart |
| ConsumerSafety.RowsAreTheLogOnce | order-consumer/src/orders/order.service.ts:45-54 | in every run each (partition, offset) has at most one row, and the row is the logged event |
| ConsumerSafety.PersistedFlushWritesNothingMore | order-consumer/src/orders/order.service.ts:60-79 | once saved, through every sequence of steps up to the one that ends the flush, the table stays as it is with the whole batch in it |
| ConsumerSafety.CommittedNeverDecreases | order-consumer/src/orders/order.service.ts:91-110 | no committed offset ever moves backwards, crashes and replays included |
| ConsumerSafety.FlushOwnsItsBatch | order-consumer/src/orders/order.service.ts:28-88 | the captured batch stays the first elements of the buffer; received = settled batches + buffer, in arrival order |
| ConsumerSafety.RedeliveredUnlessPassed | order-consumer/src/orders/order.service.ts:82-88 | an unsaved dead-lettered event is redelivered on restart if and only if no commit on its partition has taken effect since |
| ConsumerSafety.DeadLetteredBatchIsLost | order-consumer/src/orders/order.service.ts:82-88 | from every idle state with six unsaved events, a schedule commits all six with the first three missing from the table |
| ConsumerSafety.FirstBatchCanBeLost | order-consumer/src/orders/order.service.ts:82-88 | so from the initial state with any number of partitions, and a restart then begins behind the missing events |
| OverlappingFlushes.SpliceIsOwnIff | order-consumer/src/orders/order.service.ts:36-88 | in every run with any overlapping flushes, a splice removes only its own batch's events if and only if no other flush has spliced since the batch was captured, or nothing that came after it is left |
| OverlappingFlushes.CalmRunsAreConsumerRuns | order-consumer/src/orders/order.service.ts:28-88 | when no shutdown begins during a flush, the run is one of module `OrderConsumer` and every splice removes its own batch's events only |
| OverlappingFlushes.ShutdownIsSafeIffNotFlushing | order-consumer/src/orders/order.service.ts:36-40 | after any such run with events buffered, every continuation of a shutdown keeps splices to their own batches if and only if `flushing` is false |
| OverlappingFlushes.WhileOthersSleep | order-consumer/src/orders/order.service.ts:36-89 | a flush during which others sleep behaves as if alone, and clears `flushing` for all of them when it ends |
| FlushLaws.DeliveryBeginsIff | order-consumer/src/orders/order.service.ts:28-34 | from any state a delivery pushes its event, and begins a flush if and only if three or more are then buffered and the flag is down |
| FlushLaws.CaptureTakesThree | order-consumer/src/orders/order.service.ts:42-44 | whichever step begins a flush, it captures the first three events of the buffer, or all of fewer |
| FlushLaws.EveryBatchIsFull | order-consumer/src/orders/order.service.ts:42-44 | in every run each running batch is the first three events, or all, that were buffered at the step that began it |
| FlushLaws.FiveSaves | order-consumer/src/orders/order.service.ts:60-80 | in every run a flush saves at most 5 times and may give up exactly when its fifth attempt has failed |
| FlushLaws.EndsIff | order-consumer/src/orders/order.service.ts:60-88 | a flush ends exactly with an acknowledged commit or by giving up; a failed call costs one attempt and keeps the batch |
| ShutdownLoss.ShutdownCanLoseAnEvent | order-consumer/src/orders/order.service.ts:36-88 | a run with one overlapping shutdown commits past an event that is in neither table, dead letters nor buffer |
| BatchAlignment.OrderlyRunsLoseNothing | order-consumer/src/orders/order.service.ts:31-88 | one partition, no partial flush, no fresh batch given up: saved offsets are [0, s), s - committed is a multiple of 3, batches are wholly saved or wholly new, nothing is lost |
| BatchAlignment.FirstSaveNeedsWhollyNewBatch | order-consumer/src/orders/order.service.ts:60-63 | the first save of a flush writes exactly when its batch is wholly new; a mixed batch is refused every time |
| BatchAlignment.PartialFlushMakesMixedBatch | order-consumer/src/orders/order.service.ts:36-88 | a one-event shutdown flush killed before its commit makes the next batch mixed; however its saves turn out, its two unsaved events are dead-lettered without a row |
| OrderService.CommitEntries | order-consumer/src/orders/order.service.ts:93-108 | the map loop yields one entry per partition of the batch, maximum offset + 1, and no others |
| OrderService.OrderService.CommitOffsets | order-consumer/src/orders/order.service.ts:91-110 | the broker's offsets move to maximum + 1 for the batch's partitions and nowhere else, unless refused |
| OrderService.OrderService.TryOnce | order-consumer/src/orders/order.service.ts:60-80 | one pass of the retry loop is one more attempt of this flush in the step system, whatever other flushes, arrivals and shutdowns do at each await |
| OrderService.OrderService.Flush | order-consumer/src/orders/order.service.ts:42-89 | a whole flush, whatever `flushing` says at its start and other flushes do meanwhile, leaves buffer, flag, table and offsets as the step system does; meeting nobody, after up to four refusals the first three events (or all of fewer) are rows, committed past and out of the buffer, and after five they are only dropped |
| OrderService.FlushIsRun | order-consumer/src/orders/order.service.ts:42-89 | that outcome is the end of a run of module `OverlappingFlushes`, so every theorem on its runs applies to it |
| OrderService.CalmFlushIsConsumerRun | order-consumer/src/orders/order.service.ts:42-89 | a flush that begins alone and sees no shutdown is a run of module `OrderConsumer` |
| OrderService.OrderService.CreateFromEvent | order-consumer/src/orders/order.service.ts:28-34 | is the delivery step; with fewer than three buffered or the flag up only the push, otherwise, undisturbed, the first three events are stored and committed |
| OrderService.OrderService.OnModuleDestroy | order-consumer/src/orders/order.service.ts:36-40 | is the shutdown step beside whatever other flushes do; undisturbed, the first three events, or all of fewer, are stored and committed; an empty buffer changes nothing |
| EndToEnd.RowsWithinContents | order-consumer/src/orders/order.entity.ts:4 | rows with distinct keys are a sub-collection of the logged events, and all of them if and only if every event has a row |
| EndToEnd.StockFlightAndEvents | src/product/product.controller.ts:66-95 | in every run of both services: 1000 + restocked + phantoms = stock + in flight + events, and the rows inject into the events |
| EndToEnd.SettledTableMatchesSales | order-consumer/src/orders/order.service.ts:42-110 | once all is settled, 1000 + restocked + phantoms = stock + events; the table holds exactly those events, and accounts for the items itself, if and only if every dead-lettered event has a row |
| BloomHash.Fnv1a | src/auth/bloom-filter.service.ts:32-39 | the loop in signed and unsigned 32-bit numbers is the FNV-1a recurrence modulo 2^32 |
| BloomHash.Djb2 | src/auth/bloom-filter.service.ts:41-47 | the loop in signed and unsigned 32-bit numbers is the DJB2 recurrence modulo 2^32 |
| HashReference.AgreesWithFnv1a | src/auth/bloom-filter.service.ts:32-39 | on strings of units below 256 it is 32-bit FNV-1a on octets with its published basis and prime |
| HashReference.AgreesWithFnv1aUnits | src/auth/bloom-filter.service.ts:32-39 | on all strings it is FNV-1a on 16-bit units |
| HashReference.AgreesWithDjb2Units | src/auth/bloom-filter.service.ts:41-47 | on all strings the second hash multiplies by 33 from 5381 and mixes in 16-bit units |
| HashReference.HashesOfShortStrings | src/auth/bloom-filter.service.ts:32-47 | both hashes of the empty string and of "a" |
| HashReference.HashesOfUser | src/auth/bloom-filter.service.ts:32-47 | both hashes of "user", with products above 2^32 |
| BloomHash.XorIsBitwise | src/auth/bloom-filter.service.ts:35 | every bit of the exclusive or is set exactly when it is set in one of the two |
| BloomHash.ComputePositions | src/auth/bloom-filter.service.ts:49-61 | the loop over both hash methods yields the seven positions |
| HashReference.PositionsAreSlots | src/auth/bloom-filter.service.ts:49-61 | for every string the positions are the first hash modulo 1000000 and six equal steps on, the step being the second hash modulo 1000000 made odd |
| HashReference.PositionsOfAal | src/auth/bloom-filter.service.ts:49-61 | all seven positions of "aal", whose second remainder is odd |
| HashReference.PositionsOfUser | src/auth/bloom-filter.service.ts:49-61 | all seven positions of "user", whose second remainder is even |
| BloomHash.PositionsAreDistinct | src/auth/bloom-filter.service.ts:49-61 | for every string the positions are pairwise distinct and in [0, 1000000), with all sums below 2^53 |
| BloomHash.OddStrideCoversIffNotMultipleOf5 | src/auth/bloom-filter.service.ts:55-56 | an odd stride reaches every slot if and only if it is not a multiple of 5 |
| HashReference.StrideOfAalMissesSlots | src/auth/bloom-filter.service.ts:55-56 | the username "aal" has a stride that misses a slot |
| BloomFilter.BloomFilterService.MightExist | src/auth/bloom-filter.service.ts:67-72 | true exactly when all seven reference positions of the name are set |
| BloomFilter.BloomFilterService.Add | src/auth/bloom-filter.service.ts:75-79 | sets exactly the seven reference positions of the name, under its own key only |
| AuthController.AuthController.Register | src/auth/auth.controller.ts:49-68 | whatever other registrations and the provider do at each await, and wherever the provider's part throws, filter, calls and accounts end as the step system says, with the call's outcome; without others, conflict exactly when the filter already covers the name, and bits change only on success, by exactly the name's positions |
| AuthController.AuthController.Identify | src/auth/services/keycloak-identity.service.ts:93-98 | creating the account and assigning its role are two steps: refused, done, or thrown with the account left behind |
| AuthController.RegisterIsRun | src/auth/auth.controller.ts:49-68 | every such call, with what happens during it, is a run of module `Registration`, so every theorem on runs applies to it |
| AuthController.SilentCall | src/auth/auth.controller.ts:49-68 | in the step system, a call that meets no other ends as the filter it finds dictates and adds exactly its own positions |
| AuthController.SilentSettles | src/auth/auth.controller.ts:49-68 | and by the reference positions: conflict exactly when all seven are set, otherwise the provider's answer, with account and bits added accordingly |
| Registration.BitsAreTheUnionOfAdds | src/auth/bloom-filter.service.ts:75-79 | under any interleaving the set bits are exactly those written by complete and partial adds |
| Registration.ReturnedNamesAreFound | src/auth/auth.controller.ts:63-67 | once a registration has returned, the filter answers yes for its name ever after |
| Registration.ConflictMeansCovered | src/auth/bloom-filter.service.ts:67-72 | in every run a call is told that its name may exist only if all seven positions of the name are set |
| Registration.CoveredMeansConflict | src/auth/bloom-filter.service.ts:67-72 | a call that begins when they are set is told so, whatever else happens |
| Registration.LateRegistrationIsRejected | src/auth/auth.controller.ts:55-59 | a registration begun after one of the same name returned never reaches the identity provider and can only end in a conflict |
| Registration.NegativeIsDefinitiveIff | src/auth/bloom-filter.service.ts:22-23 | in every run from any set of accounts, when the seven reads of a call have answered no, its name has no account if and only if the provider does not hold it for other reasons, no registration of it threw after creating the account, and no accepted one overlaps with the call |
| Registration.OutsideIs | keycloak/realm-export.json:131-158 | the names held for other reasons are those of the beginning and those provisioned since |
| Registration.WrongNegativeIsCaught | src/auth/services/keycloak-identity.service.ts:154-156 | before a provider that holds each name once, a call whose name already has an account never gets one, whatever the filter answered |
| Registration.OneAccountPerName | src/auth/services/keycloak-identity.service.ts:154-156 | before such a provider no two calls, overlapping or not, create accounts of one name, and none creates one that was there |
| Registration.FalseNegativeIsReachable | src/auth/auth.controller.ts:61-64 | for every name, a run after which the account exists and the filter denies it |
| Registration.SeededNameIsDenied | keycloak/realm-export.json:131-158 | every name that the provider came with is denied to the first call |
| Registration.BrokenNameIsDenied | src/auth/services/keycloak-identity.service.ts:172-200 | for every name, a run in which a role assignment fails and the next call, overlapping nothing, is told no |
| Registration.StaleNegativeIsReachable | src/auth/bloom-filter.service.ts:67-72 | for every name, a run in which a call is told no although a registration of the name has already returned |

## Left out

- OrderService.OrderService.Flush: the awaits of one attempt are split over the helper methods `AwaitSave`, `AwaitCommit`
  and `DeadLetter`; back-off delays appear only as points where other steps may fall, and a crash, which ends the call,
  is a step of the step systems only.
- AuthController.AuthController.Register: the seven commands of a check or an add are answered in the order in which they
  are sent, and none fails; module `Registration` lets them be answered in any order, and the call throw among them.
- Failing or slow Redis calls, Redis eviction, and loss of a Redis reply.
- Rebalancing of partitions between consumer processes, and broker or database internals.
- Floating-point rounding of bucket levels that are not whole thousandths.
- False-positive rate of the filter and uniformity of its hashes: statistical claims.
- Keycloak and Entra services, JWT strategy, guards and roles, DTO validation, correlation ids, logging, configuration, deployment files and scripts.

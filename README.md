# Partition-aware Kafka consumer, modelled in Dafny

This project models `KafkaConsumer2`, the consumer that ClickHouse's Kafka table
engine uses to read a consumer group's partitions one by one. The consumer
tracks the partition assignment handed out by the broker's rebalances. It keeps
one detached queue per assigned partition. It serves the messages of a polled
batch one at a time for the partition a caller asks for, dropping those that
carry an error. It commits offsets with bounded retries and drains the client's
global queue on shutdown.

Files:

- `Wrappers.dfy`: `Option`, standing for `std::optional` and for nullable pointers.
- `TopicPartitions.dfy`: the `TopicPartition` value type and its `operator<`,
  with the proof that it is a strict total order in which equivalence is equality.
- `KafkaClient.dfy`: what the consumer sees of the cppkafka/librdkafka client,
  as plain values: messages with error code and payload (the end of a
  partition is an error code, as `is_eof` reads it),
  detached queue handles, commit outcomes and drain poll results.
- `KafkaConsumer2.dfy`: the class `Consumer`, whose fields are those of the
  C++ class (`assignment`, `queues`, `messages`, `current`,
  `needs_offset_update`, `stalled_status`) plus the partition list last given
  to the client's `assign`. Its methods are the source's operations. The pure
  parts (queue table, error filter, drain exit rule) are functions with lemmas.
- `Scenarios.dfy`: client code that derives, from the contracts alone, the
  consumer's intended behaviour for concrete inputs: a batch with errors in
  second and fourth place is served as its first, third and fifth messages; a
  batch left over from a revoked partition is not served for another one; a
  stop during the poll discards the batch; commit retries end on the fifth
  attempt.

The client is an oracle. A batch comes from a function argument
`consumeBatch(queue, count)`. Poll results and commit outcomes come as
sequences, one entry per attempt. The wall clock of the drain is an
elapsed-milliseconds value per iteration. The external `stopped` flag is read
at two points of `consume`, so it enters as two booleans. The rebalance
callbacks, which the client fires synchronously inside a poll, are the methods
`OnAssignment` and `OnRevocation`, called by the environment between operations.

The class header `KafkaConsumer2.h` is not part of this model. The model
assumes:

- `hasMorePolledMessages()` is `current != messages.end()`.
- `StalledStatus` has the four values NOT_STALLED, NO_MESSAGES_RETURNED,
  CONSUMER_STOPPED and ERRORS_RETURNED.
- `needs_offset_update` starts true and `stalled_status` starts NOT_STALLED.
- `queues` is a `std::map` ordered by `TopicPartition::operator<`, so its key
  is the whole (topic, partition, offset) triple. The same partition listed
  with two offsets gets two entries (`OffsetIsPartOfQueueKey`). For `Consume`
  this means that, once the batch is used up, a request finds a queue only when
  its offset equals the one the queues were built from; a request for the same
  partition with another offset gets `QueueNotFound`. After `UpdateOffsets`
  with corrected offsets the queue keys no longer equal the assignment's
  elements.

Where the code does something other than the intended behaviour of this
consumer, the model follows the code:

- A stop flag already set on entry to `consume` only sets the status. A usable
  buffered message is still served, with status CONSUMER_STOPPED. A buffered
  message of another partition is refused with status CONSUMER_STOPPED and no
  poll. With the batch used up and a queue for the partition, the status is
  overwritten with NO_MESSAGES_RETURNED and the queue is polled. Only the
  re-check after the poll discards the batch.
- For a partition with no queue, `consume` does not return "no message":
  `queues.at` throws `std::out_of_range` once the batch is used up
  (`QueueNotFound` in the model), after setting the status to
  NO_MESSAGES_RETURNED.
- A message without error that reaches `pollEvents` fires a `chassert`. In a
  build without assertions, the loop logs it and polls on; it does not exit early.
- `initializeQueues` neither clears `needs_offset_update` nor resets the
  stalled status; only `updateOffsets` does. After an assignment callback the
  flag is true.
- The "batch of another partition" check compares only the message under the
  cursor, and only while the cursor is not at the end. A revocation leaves
  the batch in place.

## Model

| member | source | states |
|---|---|---|
| TopicPartitions.Less | src/Storages/Kafka/KafkaConsumer2.cpp:46-49 | `std::tuple`'s step-by-step `<` on (topic, partition_id, offset); the topic decides first, so a triple is never less than one with a smaller topic |
| TopicPartitions.TopicLessIrreflexive | src/Storages/Kafka/KafkaConsumer2.cpp:48 | no topic name is less than itself under string order |
| TopicPartitions.TopicLessAsymmetric | src/Storages/Kafka/KafkaConsumer2.cpp:48 | if topic a is less than topic b, b is not less than a |
| TopicPartitions.TopicLessTransitive | src/Storages/Kafka/KafkaConsumer2.cpp:48 | string order on topic names is transitive |
| TopicPartitions.TopicLessConnected | src/Storages/Kafka/KafkaConsumer2.cpp:48 | two different topic names are ordered one way or the other |
| TopicPartitions.LessIsLexicographic | src/Storages/Kafka/KafkaConsumer2.cpp:46-49 | the `std::tie` comparison holds exactly when the topic is smaller, or the topic is equal and the partition smaller, or both are equal and the offset smaller |
| TopicPartitions.LessIrreflexive | src/Storages/Kafka/KafkaConsumer2.cpp:46-49 | no topic partition is less than itself |
| TopicPartitions.LessAsymmetric | src/Storages/Kafka/KafkaConsumer2.cpp:46-49 | `x < y` excludes `y < x` |
| TopicPartitions.LessTransitive | src/Storages/Kafka/KafkaConsumer2.cpp:46-49 | `x < y` and `y < z` give `x < z` |
| TopicPartitions.LessConnected | src/Storages/Kafka/KafkaConsumer2.cpp:46-49 | two different topic partitions, offsets included, are ordered one way or the other |
| TopicPartitions.EquivalentKeysAreEqual | src/Storages/Kafka/KafkaConsumer2.cpp:46-49 | two keys that the queue map treats as equivalent (neither less than the other) are equal, so the map can be modelled by a map on values |
| KafkaConsumer2.QueueTable | src/Storages/Kafka/KafkaConsumer2.cpp:270-279 | emplacing the list's partitions one by one into an empty table gives exactly the list's elements as keys, each mapped to its partition's detached queue |
| KafkaConsumer2.OffsetIsPartOfQueueKey | src/Storages/Kafka/KafkaConsumer2.cpp:277-279 | with the table ordered by `operator<`, the same topic and partition listed with two offsets yields two queue-table entries |
| KafkaConsumer2.WithoutErrors | src/Storages/Kafka/KafkaConsumer2.cpp:421-432 | the filtered batch is no longer than the batch and holds no message with an error |
| KafkaConsumer2.WithoutErrorsKeepsExactlyClean | src/Storages/Kafka/KafkaConsumer2.cpp:421-432 | filtering removes every message with an error and keeps every other message as many times as the batch holds it |
| KafkaConsumer2.WithoutErrorsAppend | src/Storages/Kafka/KafkaConsumer2.cpp:421-432 | filtering distributes over concatenation, so survivors keep their original order |
| KafkaConsumer2.FilteredCountIsErrorCount | src/Storages/Kafka/KafkaConsumer2.cpp:421-441 | the number of messages erased equals the number of messages carrying an error |
| KafkaConsumer2.UpdateOffsetsIdempotent | src/Storages/Kafka/KafkaConsumer2.cpp:251-280 | applying `updateOffsets` twice with the same list leaves the same state as applying it once |
| KafkaConsumer2.DrainRunIsUnique | src/Storages/Kafka/KafkaConsumer2.cpp:162-192 | the poll answers determine how many polls the drain makes and why it stops |
| KafkaConsumer2.RepeatedErrorEndsDrain | src/Storages/Kafka/KafkaConsumer2.cpp:168-184 | two consecutive polls returning the same error end the drain at the second of them at the latest, whatever the clock reads |
| KafkaConsumer2.CleanMessageResetsRepeat | src/Storages/Kafka/KafkaConsumer2.cpp:168-184 | after a message without error, the next message cannot end the drain as a repeated error: only errors count toward "the same error twice in a row" |
| KafkaConsumer2.Consumer.constructor | src/Storages/Kafka/KafkaConsumer2.cpp:52-66 | a new consumer holds no assignment, no queues and an empty batch with the cursor at its end, and keeps its batch size, poll timeout and topics |
| KafkaConsumer2.Consumer.PolledDataUnusable | src/Storages/Kafka/KafkaConsumer2.cpp:233-239 | true exactly when the cursor is not at the end and the message under it was polled from another partition queue than the request's (another topic or partition); the offset is not compared |
| KafkaConsumer2.Consumer.GetKafkaAssignment | src/Storages/Kafka/KafkaConsumer2.cpp:241-249 | nothing (a null pointer) exactly when no assignment is held, otherwise the held assignment |
| KafkaConsumer2.Consumer.OnAssignment | src/Storages/Kafka/KafkaConsumer2.cpp:84-96 | requires that no assignment is held; afterwards the assignment is the received list in order (possibly empty), the flag is set, the queue keys are exactly the list's elements and the batch is empty with the cursor at its end |
| KafkaConsumer2.Consumer.OnRevocation | src/Storages/Kafka/KafkaConsumer2.cpp:115-117 | the assignment becomes absent, the queue table empty and the flag set; the buffered batch and cursor are left unchanged |
| KafkaConsumer2.Consumer.InitializeQueues | src/Storages/Kafka/KafkaConsumer2.cpp:268-280 | the queue table becomes the one built from the list, the batch is emptied with the cursor at its end and the list is handed to the client's `assign` |
| KafkaConsumer2.Consumer.UpdateOffsets | src/Storages/Kafka/KafkaConsumer2.cpp:251-266 | the state becomes `AfterUpdateOffsets` of the old state: queues rebuilt for the list, batch empty, flag cleared, status NOT_STALLED, assignment unchanged |
| KafkaConsumer2.Consumer.ResetIfStopped | src/Storages/Kafka/KafkaConsumer2.cpp:444-450 | sets the status to CONSUMER_STOPPED when the flag is set, and changes nothing else |
| KafkaConsumer2.Consumer.GetNextMessage | src/Storages/Kafka/KafkaConsumer2.cpp:402-415 | returns the message under the cursor and advances the cursor by one; at the end returns nothing and leaves the cursor |
| KafkaConsumer2.Consumer.FilterMessageErrors | src/Storages/Kafka/KafkaConsumer2.cpp:417-442 | with the cursor at the start, the batch becomes its error-free messages in order, the count returned is the number of messages with an error, and the cursor is at the start |
| KafkaConsumer2.Consumer.Consume | src/Storages/Kafka/KafkaConsumer2.cpp:283-342 | a batch whose message under the cursor belongs to another partition gives nothing and no poll (`polledDataUnusable`, :233-239); otherwise an unread message is served and the cursor advances by one, even when stopped; a drained batch for a partition without a queue throws; a stop seen after the poll or an empty poll gives nothing and keeps the batch; otherwise the batch becomes its error-free messages, giving ERRORS_RETURNED and nothing when none survive, or NOT_STALLED and the first survivor; a served message never carries an error |
| KafkaConsumer2.Consumer.Commit | src/Storages/Kafka/KafkaConsumer2.cpp:344-400 | every attempt submits the one-element list built from the given topic partition; at most five attempts, stopping at the first success or NO_OFFSET error, both counted as committed; other errors are retried; committed exactly when one of the five outcomes settles; exactly one of the commit and commit-failure events is bumped |
| KafkaConsumer2.Consumer.PollEvents | src/Storages/Kafka/KafkaConsumer2.cpp:195-208 | at most five polls of the global queue, stopping at the first empty one; reports whether any poll returned a message without error, which the `chassert` forbids |
| KafkaConsumer2.Consumer.DrainConsumerQueue | src/Storages/Kafka/KafkaConsumer2.cpp:157-193 | the polls made form a drain run: polling stops at the first iteration that returns nothing, returns an error that is an end of partition or equals the previous message's error (the initial previous error being none), or sees more than 5000 ms elapsed; no earlier iteration meets any of these |

## Left out

- Logging, `CurrentMetrics` and `ProfileEvents` are write-only side channels and are not modelled. The one exception is the choice between the commit and commit-failure events, which `Commit` returns.
- `getPartitionCounts` is a broker metadata request whose only local logic is a name filter; it is not modelled.
- The destructor's `get_subscription`/`unsubscribe` calls and its exception handling are client I/O; only the drain loop it calls is modelled.
- The subscription made by the constructor and the rebalance-error callback (a log line and a counter) change no modelled state.
- Wrapping a payload in a `ReadBufferFromMemory`, the `chassert(data != nullptr)` on it and the `get_offsets_position` log call are not modelled; `Consume` returns the message itself.
- Rebalance callbacks fire inside the client's polls in the source. The model does not interleave them with `PollEvents` or `Consume`; they are separate calls.
- The poll timeouts (`EVENT_POLL_TIMEOUT`, `poll_timeout`, 100 ms in the drain) only bound blocking; time is modelled by the drain's elapsed-time readings alone.
- Integer widths (32-bit partition, 64-bit offset, `size_t` counts) are unbounded integers; no operation here depends on wrap-around.
- `stopped` is an atomic shared with the owner; the model reads it as a plain value at the two points where `consume` reads it.
- Consume: the batch the client returns is not constrained to at most `messageCount.GetOr(batchSize)` messages, because nothing the consumer does depends on that bound.
- DrainConsumerQueue: the loop is bounded by the finite list of poll answers; when the answers run out before any exit condition holds, it returns with no exit reason, which the source (bounded only by the clock) never does.
- PollEvents: models a build in which `chassert` does not abort; it reports the violation instead of stopping.
- Client calls other than `commit` (`consume_batch`, `assign`, `get_partition_queue`, the polls) are taken to return normally; an exception from them, which would leave `consume`, `initializeQueues` or the rebalance callbacks early, is not modelled.
- Commit: requires an answer for each of the five possible attempts, as the oracle for the client's commit.

/**
 * What the consumer sees of the underlying Kafka client library, as plain
 * values. The client itself (network, broker protocol, timers) is an oracle:
 * its answers reach the consumer's operations as inputs.
 */
module KafkaClient {
  import opened Wrappers
  import opened TopicPartitions

  /** A librdkafka response code; zero means "no error". */
  type ErrorCode = int

  /** RD_KAFKA_RESP_ERR_NO_ERROR */
  const NO_ERROR: ErrorCode := 0
  /** RD_KAFKA_RESP_ERR__NO_OFFSET: the broker had no offset to commit. */
  const NO_OFFSET: ErrorCode := -168
  /** RD_KAFKA_RESP_ERR__PARTITION_EOF: the end of a partition was reached. */
  const PARTITION_EOF: ErrorCode := -191

  /**
   * A message handed out by a poll: where it comes from, its error code and
   * its bytes. The client reports the end of a partition through the error
   * code, so there is no separate end-of-partition flag.
   */
  datatype Message = Message(topic: string, partition: int, err: ErrorCode, payload: seq<bv8>) {

    /** `msg.get_error()` converted to `bool`. */
    predicate HasError() {
      err != NO_ERROR
    }

    /** `msg.is_eof()`: the message is the end-of-partition event, which is an error. */
    predicate IsEof() {
      err == PARTITION_EOF
    }
  }

  /** The handle of one partition's queue, detached from the client's global queue. */
  datatype PartitionQueue = PartitionQueue(topic: string, partition: int)

  /** `get_partition_queue`: the detached queue of a topic partition (the offset does not select a queue). */
  function PartitionQueueFor(tp: TopicPartition): PartitionQueue {
    PartitionQueue(tp.topic, tp.partitionId)
  }

  /** The partition queue a message was polled from. */
  function QueueOf(m: Message): PartitionQueue {
    PartitionQueue(m.topic, m.partition)
  }

  /** The outcome of one synchronous commit attempt: it returned, or it threw a `HandleException` with a code. */
  datatype CommitOutcome = CommitOk | CommitFailed(code: ErrorCode)

  /**
   * One iteration of the shutdown drain as the environment answers it: the
   * result of a 100 ms poll of the global queue (None: nothing came back) and
   * the steady-clock milliseconds elapsed since the drain started, read after it.
   */
  datatype DrainStep = DrainStep(poll: Option<Message>, elapsedMs: int)
}

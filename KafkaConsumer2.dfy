/**
 * The partition-aware Kafka consumer: it tracks the assignment that the
 * broker's rebalances hand it, keeps one detached queue per assigned
 * partition, serves buffered messages one at a time for the partition a
 * caller asks for, commits offsets with bounded retries and drains the
 * client's global queue on shutdown.
 *
 * The client library is an oracle: poll results, batches and commit outcomes
 * are inputs. The external stop flag is read at two points of `Consume` and
 * so appears as two booleans. Rebalance callbacks, which the client fires
 * synchronously inside a poll, are the methods `OnAssignment` and
 * `OnRevocation`, invoked by the environment between operations.
 */
module KafkaConsumer2 {
  import opened Wrappers
  import opened TopicPartitions
  import opened KafkaClient

  /** `max_retries` of `commit` */
  const MAX_COMMIT_TRIES := 5
  /** `max_tries` of `pollEvents` */
  const MAX_EVENT_POLLS := 5
  /** `DRAIN_TIMEOUT_MS` */
  const DRAIN_TIMEOUT_MS := 5000

  /** Why the last consumption attempt produced no message. */
  datatype StalledStatus = NotStalled | NoMessagesReturned | ConsumerStopped | ErrorsReturned

  /**
   * What `consume` gives its caller: a message (the source wraps its payload
   * in a read buffer), nothing (a null pointer), or the `std::out_of_range`
   * that `queues.at` throws for a partition without a queue.
   */
  datatype ConsumeResult = Served(message: Message) | NoMessage | QueueNotFound

  /** The profile event a `commit` call bumps: exactly one of the two. */
  datatype CommitEvent = KafkaCommits | KafkaCommitFailures

  /** Which exit the shutdown drain took. */
  datatype DrainExit = EmptyPoll | EndOfPartition | RepeatedError | Timeout

  /** All the state of a consumer, as one value. */
  datatype ConsumerView = ConsumerView(
    assignment: Option<seq<TopicPartition>>,
    queues: map<TopicPartition, PartitionQueue>,
    messages: seq<Message>,
    current: nat,
    needsOffsetUpdate: bool,
    stalledStatus: StalledStatus,
    clientAssignment: seq<TopicPartition>)

  // ---------------------------------------------------------------------------
  // The queue table

  /** `queues.emplace(tp, get_partition_queue(tp))`: inserts only when the key is not there yet. */
  function Emplace(queues: map<TopicPartition, PartitionQueue>, tp: TopicPartition): map<TopicPartition, PartitionQueue> {
    if tp in queues then queues else queues[tp := PartitionQueueFor(tp)]
  }

  /**
   * The queue table that `initializeQueues` builds from an empty one by
   * emplacing the partitions of the list from first to last: its keys are
   * exactly the list's elements, each holding that partition's detached queue.
   */
  function QueueTable(partitions: seq<TopicPartition>): (r: map<TopicPartition, PartitionQueue>)
    ensures r.Keys == set tp | tp in partitions
    ensures forall tp :: tp in r ==> r[tp] == PartitionQueueFor(tp)
  {
    if partitions == [] then map[]
    else
      var init := partitions[..|partitions| - 1];
      assert partitions == init + [partitions[|partitions| - 1]];
      Emplace(QueueTable(init), partitions[|partitions| - 1])
  }

  /**
   * With the table ordered by `TopicPartition::operator<`, the key includes
   * the offset: the same partition listed with two offsets gets two entries,
   * both holding the same partition queue.
   */
  lemma OffsetIsPartOfQueueKey(tp: TopicPartition, otherOffset: int)
    requires otherOffset != tp.offset
    ensures |QueueTable([tp, tp.(offset := otherOffset)])| == 2
  {
    var other := tp.(offset := otherOffset);
    var table := QueueTable([tp, other]);
    assert table.Keys == {tp, other} by {
      assert forall x :: x in [tp, other] <==> x == tp || x == other;
    }
  }

  // ---------------------------------------------------------------------------
  // Error filtering

  /** The messages of a batch that carry no error, in their original order. */
  function WithoutErrors(batch: seq<Message>): (r: seq<Message>)
    ensures |r| <= |batch|
    ensures forall i | 0 <= i < |r| :: !r[i].HasError()
  {
    if batch == [] then []
    else
      var init, last := batch[..|batch| - 1], batch[|batch| - 1];
      assert batch == init + [last];
      if last.HasError() then WithoutErrors(init) else WithoutErrors(init) + [last]
  }

  /**
   * Filtering removes exactly the messages that carry an error: every other
   * message is kept as many times as the batch holds it.
   */
  lemma {:induction false} WithoutErrorsKeepsExactlyClean(batch: seq<Message>)
    ensures forall m :: multiset(WithoutErrors(batch))[m] == if m.HasError() then 0 else multiset(batch)[m]
    decreases |batch|
  {
    if batch != [] {
      var init, last := batch[..|batch| - 1], batch[|batch| - 1];
      assert batch == init + [last];
      WithoutErrorsKeepsExactlyClean(init);
    }
  }

  /** The number of messages of a batch that carry an error. */
  function ErrorCount(batch: seq<Message>): nat {
    if batch == [] then 0
    else (if batch[0].HasError() then 1 else 0) + ErrorCount(batch[1..])
  }

  /** Filtering keeps the relative order: it distributes over concatenation. */
  lemma {:induction false} WithoutErrorsAppend(a: seq<Message>, b: seq<Message>)
    ensures WithoutErrors(a + b) == WithoutErrors(a) + WithoutErrors(b)
    decreases |b|
  {
    if b == [] {
      assert a + b == a;
    } else {
      var init, last := b[..|b| - 1], b[|b| - 1];
      assert b == init + [last];
      assert (a + b)[..|a + b| - 1] == a + init;
      assert (a + b)[|a + b| - 1] == last;
      WithoutErrorsAppend(a, init);
    }
  }

  /** The messages filtering removes are exactly those that carry an error. */
  lemma {:induction false} FilteredCountIsErrorCount(batch: seq<Message>)
    ensures |batch| - |WithoutErrors(batch)| == ErrorCount(batch)
    decreases |batch|
  {
    if batch != [] {
      assert batch == [batch[0]] + batch[1..];
      WithoutErrorsAppend([batch[0]], batch[1..]);
      assert [batch[0]][..0] == [];
      FilteredCountIsErrorCount(batch[1..]);
    }
  }

  // ---------------------------------------------------------------------------
  // Updating offsets, as a function of the whole state

  /** The state after `updateOffsets(partitions)`. */
  function AfterUpdateOffsets(v: ConsumerView, partitions: seq<TopicPartition>): ConsumerView {
    v.(queues := QueueTable(partitions), messages := [], current := 0, needsOffsetUpdate := false,
       stalledStatus := NotStalled, clientAssignment := partitions)
  }

  /** Applying the same offsets twice leaves the consumer as applying them once. */
  lemma UpdateOffsetsIdempotent(v: ConsumerView, partitions: seq<TopicPartition>)
    ensures AfterUpdateOffsets(AfterUpdateOffsets(v, partitions), partitions) == AfterUpdateOffsets(v, partitions)
  {
  }

  // ---------------------------------------------------------------------------
  // The shutdown drain, stated iteration by iteration

  /** The error of the message a poll returned, no error for an empty poll. */
  function ErrorOf(poll: Option<Message>): ErrorCode {
    if poll.Some? then poll.value.err else NO_ERROR
  }

  /** `last_error` when iteration `j` starts: no error at first, then the previous message's error, whatever it was. */
  function PreviousError(steps: seq<DrainStep>, j: nat): ErrorCode
    requires j <= |steps|
  {
    if j == 0 then NO_ERROR else ErrorOf(steps[j - 1].poll)
  }

  /** The exit iteration `j` of the drain takes, if any, given that it is reached. */
  function DrainExitAt(steps: seq<DrainStep>, j: nat): Option<DrainExit>
    requires j < |steps|
  {
    var step := steps[j];
    if step.poll.None? then Some(EmptyPoll)
    else if step.poll.value.IsEof() then Some(EndOfPartition)
    else if step.poll.value.HasError() && step.poll.value.err == PreviousError(steps, j) then Some(RepeatedError)
    else if step.elapsedMs > DRAIN_TIMEOUT_MS then Some(Timeout)
    else None
  }

  /**
   * A run of the drain that polled `pollCount` times: no iteration before the
   * last one met an exit condition, and the last one met `exit`; or, with no
   * exit, every answer was used without meeting one.
   */
  predicate IsDrainRun(steps: seq<DrainStep>, pollCount: nat, exit: Option<DrainExit>) {
    && pollCount <= |steps|
    && (forall j | 0 <= j < pollCount - 1 :: DrainExitAt(steps, j).None?)
    && (exit.Some? ==> 1 <= pollCount && DrainExitAt(steps, pollCount - 1) == exit)
    && (exit.None? ==> pollCount == |steps| && forall j | 0 <= j < |steps| :: DrainExitAt(steps, j).None?)
  }

  /** The poll answers determine the run: the drain stops at the first iteration that meets an exit condition. */
  lemma DrainRunIsUnique(steps: seq<DrainStep>, n1: nat, e1: Option<DrainExit>, n2: nat, e2: Option<DrainExit>)
    requires IsDrainRun(steps, n1, e1) && IsDrainRun(steps, n2, e2)
    ensures n1 == n2 && e1 == e2
  {
  }

  /** The same error on two consecutive polls ends the drain at the second of them at the latest. */
  lemma RepeatedErrorEndsDrain(steps: seq<DrainStep>, k: nat, pollCount: nat, exit: Option<DrainExit>)
    requires IsDrainRun(steps, pollCount, exit)
    requires k + 1 < |steps|
    requires steps[k].poll.Some? && steps[k].poll.value.HasError()
    requires steps[k + 1].poll.Some? && steps[k + 1].poll.value.err == steps[k].poll.value.err
    ensures exit.Some? && pollCount <= k + 2
  {
    assert DrainExitAt(steps, k + 1).Some?;
  }

  /** Only errors take part in the "same error twice in a row" exit: a message without error in between resets it. */
  lemma CleanMessageResetsRepeat(steps: seq<DrainStep>, j: nat)
    requires 0 < j < |steps|
    requires steps[j - 1].poll.Some? && !steps[j - 1].poll.value.HasError()
    ensures DrainExitAt(steps, j) != Some(RepeatedError)
  {
  }

  // ---------------------------------------------------------------------------
  // The consumer

  class Consumer {
    /** The partitions of the last assignment; None before the first one and after a revocation. */
    var assignment: Option<seq<TopicPartition>>
    /**
     * One detached queue per partition. The declaration of this table is in
     * the class header, which is not part of this model; it is taken to be a
     * `std::map` ordered by `TopicPartition::operator<`, so the key is the
     * whole triple, offset included, and `Consume` finds a queue only for the
     * exact triple the queues were built from.
     */
    var queues: map<TopicPartition, PartitionQueue>
    /** The last polled batch, filtered of errors. */
    var messages: seq<Message>
    /** The cursor into `messages`; `|messages|` is `messages.end()`. */
    var current: nat
    var needsOffsetUpdate: bool
    var stalledStatus: StalledStatus
    /** The partition list last handed to the client's `assign`. */
    var clientAssignment: seq<TopicPartition>

    const batchSize: nat
    const pollTimeoutMs: nat
    const topics: seq<string>

    /** The cursor is inside the batch or at its end. */
    ghost predicate CursorInRange()
      reads this
    {
      current <= |messages|
    }

    /** The object invariant: a valid cursor, and no buffered message carries an error. */
    ghost predicate Valid()
      reads this
    {
      CursorInRange() && forall i | 0 <= i < |messages| :: !messages[i].HasError()
    }

    ghost function View(): ConsumerView
      reads this
    {
      ConsumerView(assignment, queues, messages, current, needsOffsetUpdate, stalledStatus, clientAssignment)
    }

    /**
     * The constructor registers the rebalance callbacks (the methods below)
     * and subscribes to `topics`. The initial flag and status come from the
     * class's header, which is not part of this model: needs_offset_update is
     * taken to start true and stalled_status NOT_STALLED.
     */
    constructor (batchSize: nat, pollTimeoutMs: nat, topics: seq<string>)
      ensures Valid()
      ensures assignment == None && queues == map[] && messages == [] && current == 0
      ensures needsOffsetUpdate && stalledStatus == NotStalled && clientAssignment == []
      ensures this.batchSize == batchSize && this.pollTimeoutMs == pollTimeoutMs && this.topics == topics
    {
      this.batchSize := batchSize;
      this.pollTimeoutMs := pollTimeoutMs;
      this.topics := topics;
      assignment := None;
      queues := map[];
      messages := [];
      current := 0;
      needsOffsetUpdate := true;
      stalledStatus := NotStalled;
      clientAssignment := [];
    }

    /** `hasMorePolledMessages()`, taken to be `current != messages.end()`. */
    predicate HasMorePolledMessages()
      reads this
    {
      current < |messages|
    }

    /**
     * `polledDataUnusable`: the message under the cursor belongs to another
     * topic or partition. Only the partition queue counts, not the offset.
     */
    predicate PolledDataUnusable(tp: TopicPartition)
      reads this
      requires CursorInRange()
      ensures PolledDataUnusable(tp) <==> HasMorePolledMessages() && QueueOf(messages[current]) != PartitionQueueFor(tp)
    {
      if current == |messages| then false
      else messages[current].topic != tp.topic || messages[current].partition != tp.partitionId
    }

    /** `getKafkaAssignment`: the held assignment, or nothing (a null pointer) when none is held. */
    function GetKafkaAssignment(): (r: Option<seq<TopicPartition>>)
      reads this
      ensures r.None? <==> assignment.None?
      ensures r.Some? ==> r.value == assignment.value
    {
      assignment
    }

    /**
     * The assignment callback. A new assignment arrives only when none is
     * held (a `chassert` in the source). The list is recorded as it came,
     * possibly empty, and the queues are rebuilt for it.
     */
    method OnAssignment(topicPartitions: seq<TopicPartition>)
      requires Valid()
      requires assignment.None?
      modifies this
      ensures Valid()
      ensures assignment == Some(topicPartitions) && needsOffsetUpdate
      ensures queues.Keys == set tp | tp in topicPartitions
      ensures queues == QueueTable(topicPartitions) && clientAssignment == topicPartitions
      ensures messages == [] && current == 0
      ensures stalledStatus == old(stalledStatus)
    {
      assignment := Some(topicPartitions);
      needsOffsetUpdate := true;
      InitializeQueues(topicPartitions);
    }

    /**
     * The revocation callback: it drops the assignment and every queue. It
     * leaves the buffered batch alone; a stale batch is kept from being served
     * only by `PolledDataUnusable`.
     */
    method OnRevocation()
      requires Valid()
      modifies this
      ensures Valid()
      ensures assignment == None && queues == map[] && needsOffsetUpdate
      ensures messages == old(messages) && current == old(current)
      ensures stalledStatus == old(stalledStatus) && clientAssignment == old(clientAssignment)
    {
      assignment := None;
      queues := map[];
      needsOffsetUpdate := true;
    }

    /**
     * `initializeQueues`: drops the buffered batch, assigns the partitions to
     * the client and emplaces one detached queue per partition.
     */
    method InitializeQueues(topicPartitions: seq<TopicPartition>)
      modifies this`queues, this`messages, this`current, this`clientAssignment
      ensures Valid()
      ensures queues == QueueTable(topicPartitions)
      ensures messages == [] && current == 0 && clientAssignment == topicPartitions
    {
      queues := map[];
      messages := [];
      current := |messages|;
      clientAssignment := topicPartitions;
      var i := 0;
      while i < |topicPartitions|
        invariant 0 <= i <= |topicPartitions|
        invariant queues == QueueTable(topicPartitions[..i])
        invariant messages == [] && current == 0 && clientAssignment == topicPartitions
      {
        var tp := topicPartitions[i];
        assert topicPartitions[..i + 1][..i] == topicPartitions[..i];
        if tp !in queues {
          queues := queues[tp := PartitionQueueFor(tp)];
        }
        i := i + 1;
      }
      assert topicPartitions[..i] == topicPartitions;
    }

    /**
     * `updateOffsets`: the caller hands back the partitions with corrected
     * offsets; the queues are rebuilt for them, the pending-update flag is
     * cleared and the consumer is no longer stalled.
     */
    method UpdateOffsets(topicPartitions: seq<TopicPartition>)
      requires Valid()
      modifies this
      ensures Valid()
      ensures View() == AfterUpdateOffsets(old(View()), topicPartitions)
      ensures queues.Keys == set tp | tp in topicPartitions
      ensures messages == [] && current == |messages|
      ensures !needsOffsetUpdate && stalledStatus == NotStalled
      ensures assignment == old(assignment)
    {
      InitializeQueues(topicPartitions);
      needsOffsetUpdate := false;
      stalledStatus := NotStalled;
    }

    /** `resetIfStopped`: records the stop, and nothing else. */
    method ResetIfStopped(stopped: bool)
      modifies this`stalledStatus
      ensures stalledStatus == if stopped then ConsumerStopped else old(stalledStatus)
    {
      if stopped {
        stalledStatus := ConsumerStopped;
      }
    }

    /** `getNextMessage`: the message under the cursor, which moves one step; nothing at the end. */
    method GetNextMessage() returns (next: Option<Message>)
      requires CursorInRange()
      modifies this`current
      ensures CursorInRange()
      ensures old(current) < |messages| ==> next == Some(messages[old(current)]) && current == old(current) + 1
      ensures old(current) == |messages| ==> next == None && current == old(current)
    {
      if current < |messages| {
        next := Some(messages[current]);
        current := current + 1;
      } else {
        next := None;
      }
    }

    /**
     * `filterMessageErrors`: erases every message that carries an error,
     * keeping the others in order, and returns how many it erased; the cursor
     * is back at the start.
     */
    method FilterMessageErrors() returns (skipped: nat)
      requires current == 0
      modifies this`messages, this`current
      ensures Valid()
      ensures messages == WithoutErrors(old(messages))
      ensures skipped == ErrorCount(old(messages)) && skipped == |old(messages)| - |messages|
      ensures current == 0
    {
      var batch := messages;
      var kept: seq<Message> := [];
      skipped := 0;
      var i := 0;
      while i < |batch|
        invariant 0 <= i <= |batch|
        invariant kept == WithoutErrors(batch[..i])
        invariant skipped == i - |kept|
      {
        ghost var prefix := batch[..i + 1];
        assert prefix[..|prefix| - 1] == batch[..i] && prefix[|prefix| - 1] == batch[i];
        if batch[i].HasError() {
          skipped := skipped + 1;
        } else {
          kept := kept + [batch[i]];
        }
        i := i + 1;
      }
      assert batch[..i] == batch;
      FilteredCountIsErrorCount(batch);
      messages := kept;
      if skipped > 0 {
        current := 0;
      }
    }

    /**
     * `consume`: one message for `tp`, or none with the reason in
     * `stalledStatus`. `stoppedAtEntry` and `stoppedAfterPoll` are the stop
     * flag as read on entry and right after the blocking poll;
     * `consumeBatch(queue, n)` is what the client's `consume_batch` returns
     * for that queue and count. `polled` tells whether the client was polled.
     */
    method Consume(tp: TopicPartition, messageCount: Option<nat>, stoppedAtEntry: bool,
                   consumeBatch: (PartitionQueue, nat) -> seq<Message>, stoppedAfterPoll: bool)
      returns (r: ConsumeResult, polled: bool)
      requires Valid()
      modifies this
      ensures Valid()
      ensures assignment == old(assignment) && queues == old(queues) && needsOffsetUpdate == old(needsOffsetUpdate)
      ensures clientAssignment == old(clientAssignment)
      ensures r.Served? ==> !r.message.HasError()
      // a buffered batch of another partition is never served, and nothing is polled
      ensures old(PolledDataUnusable(tp)) ==>
        && r == NoMessage && !polled
        && messages == old(messages) && current == old(current)
        && stalledStatus == (if stoppedAtEntry then ConsumerStopped else old(stalledStatus))
      // a usable buffered message is served even when the stop flag is set
      ensures !old(PolledDataUnusable(tp)) && old(HasMorePolledMessages()) ==>
        && r == Served(old(messages[current])) && !polled
        && messages == old(messages) && current == old(current) + 1
        && stalledStatus == (if stoppedAtEntry then ConsumerStopped else old(stalledStatus))
      // with the batch used up, the partition must have a queue
      ensures !old(HasMorePolledMessages()) && tp !in queues ==>
        && r == QueueNotFound && !polled
        && messages == old(messages) && current == old(current) && stalledStatus == NoMessagesReturned
      ensures polled <==> !old(HasMorePolledMessages()) && tp in queues
      // a stop seen after the poll discards what was polled
      ensures polled && stoppedAfterPoll ==>
        && r == NoMessage && stalledStatus == ConsumerStopped
        && messages == old(messages) && current == old(current)
      ensures polled && !stoppedAfterPoll ==>
        var batch := consumeBatch(queues[tp], messageCount.GetOr(batchSize));
        if batch == [] then
          r == NoMessage && stalledStatus == NoMessagesReturned
          && messages == old(messages) && current == old(current)
        else
          messages == WithoutErrors(batch)
          && if messages == [] then
               r == NoMessage && stalledStatus == ErrorsReturned && current == 0
             else
               r == Served(messages[0]) && stalledStatus == NotStalled && current == 1
    {
      ResetIfStopped(stoppedAtEntry);

      if PolledDataUnusable(tp) {
        return NoMessage, false;
      }

      if HasMorePolledMessages() {
        var next := GetNextMessage();
        if next.Some? {
          return Served(next.value), false;
        }
      }

      // The source's `while (true)` runs its body once: every path returns or breaks.
      stalledStatus := NoMessagesReturned;
      if tp !in queues {
        return QueueNotFound, false;
      }
      var queueToPollFrom := queues[tp];
      var messagesToPull := messageCount.GetOr(batchSize);
      var newMessages := consumeBatch(queueToPollFrom, messagesToPull);
      polled := true;

      ResetIfStopped(stoppedAfterPoll);
      if stalledStatus == ConsumerStopped {
        return NoMessage, polled;
      }
      if newMessages == [] {
        return NoMessage, polled;
      }
      messages := newMessages;
      current := 0;

      var _ := FilterMessageErrors();
      if current == |messages| {
        stalledStatus := ErrorsReturned;
        return NoMessage, polled;
      }

      stalledStatus := NotStalled;
      var next := GetNextMessage();
      r := Served(next.value);
    }

    /**
     * `commit`: at most five synchronous attempts, `outcomes[k]` answering
     * attempt `k`, each submitting the one-element list `submitted` built
     * from `tp`. Success and "no offset" both count as committed and end the
     * retries; any other error is retried.
     */
    method Commit(tp: TopicPartition, outcomes: seq<CommitOutcome>)
      returns (submitted: seq<TopicPartition>, committed: bool, attempts: nat, event: CommitEvent)
      requires |outcomes| >= MAX_COMMIT_TRIES
      ensures submitted == [tp]
      ensures 1 <= attempts <= MAX_COMMIT_TRIES
      ensures forall k | 0 <= k < attempts - 1 :: !Settles(outcomes[k])
      ensures committed <==> Settles(outcomes[attempts - 1])
      ensures !committed ==> attempts == MAX_COMMIT_TRIES
      ensures committed <==> exists k | 0 <= k < MAX_COMMIT_TRIES :: Settles(outcomes[k])
      ensures event == if committed then KafkaCommits else KafkaCommitFailures
    {
      submitted := [TopicPartition(tp.topic, tp.partitionId, tp.offset)];
      committed := false;
      var tryCount := 0;
      while tryCount < MAX_COMMIT_TRIES && !committed
        invariant 0 <= tryCount <= MAX_COMMIT_TRIES
        invariant committed ==> 1 <= tryCount && Settles(outcomes[tryCount - 1])
        invariant forall k | 0 <= k < tryCount && (k < tryCount - 1 || !committed) :: !Settles(outcomes[k])
      {
        match outcomes[tryCount] {
          case CommitOk =>
            committed := true;
          case CommitFailed(code) =>
            if code == NO_OFFSET {
              committed := true;
            }
        }
        tryCount := tryCount + 1;
      }
      attempts := tryCount;
      event := if committed then KafkaCommits else KafkaCommitFailures;
    }

    /**
     * `pollEvents`: up to five polls of the global queue, `polls[i]` answering
     * poll `i`, stopping at the first empty one. Queues are detached, so a
     * message without error here breaks the client's contract: the source's
     * `chassert` fires (`unexpectedMessage`); a build without it logs and polls on.
     */
    method PollEvents(polls: seq<Option<Message>>) returns (pollCount: nat, unexpectedMessage: bool)
      requires |polls| >= MAX_EVENT_POLLS
      ensures 1 <= pollCount <= MAX_EVENT_POLLS
      ensures forall j | 0 <= j < pollCount - 1 :: polls[j].Some?
      ensures pollCount < MAX_EVENT_POLLS ==> polls[pollCount - 1].None?
      ensures unexpectedMessage <==> exists j | 0 <= j < pollCount :: polls[j].Some? && !polls[j].value.HasError()
    {
      pollCount := 0;
      unexpectedMessage := false;
      for i := 0 to MAX_EVENT_POLLS
        invariant pollCount == i
        invariant forall j | 0 <= j < i :: polls[j].Some?
        invariant unexpectedMessage <==> exists j | 0 <= j < i :: polls[j].Some? && !polls[j].value.HasError()
      {
        var msg := polls[i];
        pollCount := i + 1;
        if msg.None? {
          return;
        }
        if !msg.value.HasError() {
          unexpectedMessage := true;
        }
      }
    }

    /**
     * `drainConsumerQueue`: polls the global queue, `steps[j]` answering
     * iteration `j`, until a poll comes back empty, an error arrives that is
     * an end of partition or equals the previous message's error, or more
     * than five seconds have passed. `exit` is None when the answers run out
     * first, which bounds the loop.
     */
    method DrainConsumerQueue(steps: seq<DrainStep>) returns (pollCount: nat, exit: Option<DrainExit>)
      ensures IsDrainRun(steps, pollCount, exit)
    {
      var lastError := NO_ERROR;
      pollCount := 0;
      while pollCount < |steps|
        invariant 0 <= pollCount <= |steps|
        invariant forall j | 0 <= j < pollCount :: DrainExitAt(steps, j).None?
        invariant lastError == PreviousError(steps, pollCount)
      {
        var step := steps[pollCount];
        pollCount := pollCount + 1;
        if step.poll.None? {
          return pollCount, Some(EmptyPoll);
        }
        var msg := step.poll.value;
        var error := msg.err;
        if error != NO_ERROR {
          if msg.IsEof() || error == lastError {
            return pollCount, Some(if msg.IsEof() then EndOfPartition else RepeatedError);
          }
        }
        lastError := error;
        if step.elapsedMs > DRAIN_TIMEOUT_MS {
          return pollCount, Some(Timeout);
        }
      }
      exit := None;
    }
  }

  /** A commit attempt that ends the retries: success, or nothing to commit. */
  predicate Settles(outcome: CommitOutcome) {
    outcome.CommitOk? || outcome.code == NO_OFFSET
  }
}

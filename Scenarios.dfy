/**
 * Client code that relies only on the contracts of `Consumer`: the
 * intended behaviour of the consumer, derived for concrete inputs.
 */
module ConsumerScenarios {
  import opened Wrappers
  import opened TopicPartitions
  import opened KafkaClient
  import opened KafkaConsumer2

  predicate FromPartition(m: Message, tp: TopicPartition) {
    m.topic == tp.topic && m.partition == tp.partitionId
  }

  /** A batch of five whose second and fourth messages carry errors is served as the first, third and fifth. */
  method FilteredBatchIsServedInOrder(tp: TopicPartition, m1: Message, e2: Message, m3: Message, e4: Message, m5: Message)
    requires FromPartition(m1, tp) && FromPartition(m3, tp) && FromPartition(m5, tp)
    requires !m1.HasError() && e2.HasError() && !m3.HasError() && e4.HasError() && !m5.HasError()
  {
    var c := new Consumer(100, 50, [tp.topic]);
    c.OnAssignment([tp]);
    assert tp in c.queues;
    var batch := [m1, e2, m3, e4, m5];
    assert WithoutErrors(batch) == [m1, m3, m5] by {
      assert WithoutErrors([m1]) == [m1] by { assert [m1][..0] == []; }
      assert WithoutErrors([m1, e2]) == [m1] by { assert [m1, e2][..1] == [m1]; }
      assert WithoutErrors([m1, e2, m3]) == [m1, m3] by { assert [m1, e2, m3][..2] == [m1, e2]; }
      assert WithoutErrors([m1, e2, m3, e4]) == [m1, m3] by { assert [m1, e2, m3, e4][..3] == [m1, e2, m3]; }
      assert batch[..4] == [m1, e2, m3, e4];
    }
    var oracle := (q: PartitionQueue, n: nat) => batch;

    var r, polled := c.Consume(tp, None, false, oracle, false);
    assert polled && r == Served(m1) && c.stalledStatus == NotStalled;
    r, polled := c.Consume(tp, None, false, oracle, false);
    assert !polled && r == Served(m3);
    r, polled := c.Consume(tp, None, false, oracle, false);
    assert !polled && r == Served(m5);
  }

  /** A batch left over from a revoked partition is not served for another partition, and nothing is polled. */
  method StaleBatchIsNotServed(tp: TopicPartition, other: TopicPartition, m1: Message, m2: Message)
    requires FromPartition(m1, tp) && FromPartition(m2, tp) && !m1.HasError() && !m2.HasError()
    requires other.partitionId != tp.partitionId
  {
    var c := new Consumer(100, 50, [tp.topic]);
    c.OnAssignment([tp]);
    assert tp in c.queues;
    var r, polled := c.Consume(tp, None, false, (q: PartitionQueue, n: nat) => [m1, m2], false);
    assert WithoutErrors([m1, m2]) == [m1, m2] by {
      assert [m1, m2] == [m1] + [m2];
      assert [m1] == [] + [m1];
    }
    assert r == Served(m1) && c.current == 1 && c.messages == [m1, m2];
    c.OnRevocation();
    r, polled := c.Consume(other, None, false, (q: PartitionQueue, n: nat) => [], false);
    assert r == NoMessage && !polled;
  }

  /** A stop that arrives during the poll discards the polled batch; one set before the call still lets the poll happen. */
  method StopDuringPollDiscardsBatch(tp: TopicPartition, m: Message) {
    var c := new Consumer(100, 50, [tp.topic]);
    c.OnAssignment([tp]);
    assert tp in c.queues;
    var r, polled := c.Consume(tp, None, true, (q: PartitionQueue, n: nat) => [m], true);
    assert polled && r == NoMessage && c.stalledStatus == ConsumerStopped && c.messages == [];
  }

  /** Four failed commit attempts followed by a success commit, on the fifth attempt. */
  method CommitSucceedsOnLastAttempt(tp: TopicPartition, c: Consumer) {
    var outcomes := [CommitFailed(1), CommitFailed(1), CommitFailed(1), CommitFailed(1), CommitOk];
    var submitted, committed, attempts, event := c.Commit(tp, outcomes);
    assert Settles(outcomes[4]);
    assert committed && attempts == 5 && event == KafkaCommits;
  }

  /** Five failed commit attempts leave the offset uncommitted and bump the failure event. */
  method CommitGivesUpAfterFiveFailures(tp: TopicPartition, c: Consumer) {
    var outcomes := [CommitFailed(7), CommitFailed(7), CommitFailed(7), CommitFailed(7), CommitFailed(7)];
    var submitted, committed, attempts, event := c.Commit(tp, outcomes);
    assert !Settles(outcomes[0]) && !Settles(outcomes[1]) && !Settles(outcomes[2]);
    assert !Settles(outcomes[3]) && !Settles(outcomes[4]);
    assert !committed && attempts == 5 && event == KafkaCommitFailures;
  }
}

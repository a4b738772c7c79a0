/**
 * The consumer's own identity of a partition: a topic name, a partition index
 * and an offset, ordered as `std::tie(topic, partition_id, offset)` orders them.
 * The order is the key order of the consumer's queue table, so that table can
 * be modelled by a Dafny map only because the order is a strict total order:
 * two keys are equivalent exactly when they are equal.
 */
module TopicPartitions {

  datatype TopicPartition = TopicPartition(topic: string, partitionId: int, offset: int)

  /**
   * `std::string`'s `operator<`: lexicographic on characters, a proper prefix
   * before its extensions. Topic names are ASCII, so character order and the
   * library's byte order agree.
   */
  predicate TopicLess(a: string, b: string)
    decreases |a|
  {
    if a == [] then b != []
    else if b == [] then false
    else if a[0] != b[0] then a[0] < b[0]
    else TopicLess(a[1..], b[1..])
  }

  /** `std::tuple`'s `operator<` on (topic, partition_id, offset), step by step as the library defines it. */
  predicate Less(x: TopicPartition, y: TopicPartition)
    ensures Less(x, y) ==> !TopicLess(y.topic, x.topic)
  {
    if TopicLess(x.topic, y.topic) then TopicLessAsymmetric(x.topic, y.topic); true
    else if TopicLess(y.topic, x.topic) then false
    else if x.partitionId < y.partitionId then true
    else if y.partitionId < x.partitionId then false
    else x.offset < y.offset
  }

  lemma {:induction false} TopicLessIrreflexive(a: string)
    ensures !TopicLess(a, a)
    decreases |a|
  {
    if a != [] {
      TopicLessIrreflexive(a[1..]);
    }
  }

  lemma {:induction false} TopicLessAsymmetric(a: string, b: string)
    requires TopicLess(a, b)
    ensures !TopicLess(b, a)
    decreases |a|
  {
    if a != [] && b != [] && a[0] == b[0] {
      TopicLessAsymmetric(a[1..], b[1..]);
    }
  }

  lemma {:induction false} TopicLessTransitive(a: string, b: string, c: string)
    requires TopicLess(a, b) && TopicLess(b, c)
    ensures TopicLess(a, c)
    decreases |a|
  {
    if a != [] && b != [] && c != [] && a[0] == b[0] && b[0] == c[0] {
      TopicLessTransitive(a[1..], b[1..], c[1..]);
    }
  }

  /** Two different topic names are always ordered one way or the other. */
  lemma {:induction false} TopicLessConnected(a: string, b: string)
    requires a != b
    ensures TopicLess(a, b) || TopicLess(b, a)
    decreases |a|
  {
    if a != [] && b != [] && a[0] == b[0] {
      assert a == [a[0]] + a[1..] && b == [b[0]] + b[1..];
      TopicLessConnected(a[1..], b[1..]);
    }
  }

  /** The tuple comparison is the lexicographic order on the three fields. */
  lemma LessIsLexicographic(x: TopicPartition, y: TopicPartition)
    ensures Less(x, y) <==>
      || TopicLess(x.topic, y.topic)
      || (x.topic == y.topic && x.partitionId < y.partitionId)
      || (x.topic == y.topic && x.partitionId == y.partitionId && x.offset < y.offset)
  {
    if TopicLess(x.topic, y.topic) {
      TopicLessAsymmetric(x.topic, y.topic);
      assert x.topic != y.topic by { TopicLessIrreflexive(x.topic); }
    } else if TopicLess(y.topic, x.topic) {
      assert x.topic != y.topic by { TopicLessIrreflexive(x.topic); }
    } else if x.topic != y.topic {
      TopicLessConnected(x.topic, y.topic);
    }
  }

  lemma LessIrreflexive(x: TopicPartition)
    ensures !Less(x, x)
  {
    TopicLessIrreflexive(x.topic);
  }

  lemma LessAsymmetric(x: TopicPartition, y: TopicPartition)
    requires Less(x, y)
    ensures !Less(y, x)
  {
    LessIsLexicographic(x, y);
    LessIsLexicographic(y, x);
    if TopicLess(x.topic, y.topic) {
      TopicLessAsymmetric(x.topic, y.topic);
    } else {
      TopicLessIrreflexive(x.topic);
    }
  }

  lemma LessTransitive(x: TopicPartition, y: TopicPartition, z: TopicPartition)
    requires Less(x, y) && Less(y, z)
    ensures Less(x, z)
  {
    LessIsLexicographic(x, y);
    LessIsLexicographic(y, z);
    LessIsLexicographic(x, z);
    if TopicLess(x.topic, y.topic) && TopicLess(y.topic, z.topic) {
      TopicLessTransitive(x.topic, y.topic, z.topic);
    }
  }

  lemma LessConnected(x: TopicPartition, y: TopicPartition)
    requires x != y
    ensures Less(x, y) || Less(y, x)
  {
    LessIsLexicographic(x, y);
    LessIsLexicographic(y, x);
    if x.topic != y.topic {
      TopicLessConnected(x.topic, y.topic);
    }
  }

  /**
   * `std::map` treats two keys as the same key when neither is less than the
   * other; for this order that happens exactly when they are equal, offsets
   * included.
   */
  lemma EquivalentKeysAreEqual(x: TopicPartition, y: TopicPartition)
    ensures (!Less(x, y) && !Less(y, x)) <==> x == y
  {
    if x == y {
      LessIrreflexive(x);
    } else {
      LessConnected(x, y);
    }
  }
}

/**
 What "removed" means in the delivery guarantee: nothing goes from a log but what is cleared, or what retention
 finds older than its partition allows.
 */
module Removals {
  import opened Partitions
  import opened ConsumerProtocol
  import opened AtLeastOnce

  /** The step clears the partition, or finds a message with this offset in it older than the partition's retention. */
  ghost predicate Removes(s: System, op: Op, tp: TopicPartition, o: int) {
    exists m :: m in PartOf(s.broker, tp).log.entries && m.offset == o && (op == Op.Clear(tp) || TooOld(s, op, tp, m))
  }

  ghost predicate TooOld(s: System, op: Op, tp: TopicPartition, m: Message) {
    var ms := PartOf(s.broker, tp).config.retentionMs;
    op.Retain? && op.tp == tp && ms > 0 && (op.now - m.brokerTimestamp) * 1000.0 > ms as real
  }

  ghost predicate RemovedDuring(s: System, ops: seq<Op>, tp: TopicPartition, o: int) {
    exists k :: 0 <= k < |ops| && Removes(Run(s, ops[..k]), ops[k], tp, o)
  }

  lemma OnlyPollsWriteHistory(s: System, op: Op)
    requires !op.Retain? && !op.Clear?
    ensures Step(s, op).history.removed == s.history.removed
  {
  }

  /** What one step adds to what was removed. */
  lemma StepRemoves(s: System, op: Op, tp: TopicPartition, o: int)
    requires (tp, o) in Step(s, op).history.removed && (tp, o) !in s.history.removed
    ensures Removes(s, op, tp, o)
  {
    if op.Retain? || op.Clear? {
      var part := PartOf(s.broker, op.tp);
      var kept := if op.Clear? then [] else Partitions.Retain(part.config, part.log, op.now).entries;
      GoneWas(part.log.entries, kept, o);
      var m :| m in part.log.entries && m.offset == o && m !in kept;
      if op.Retain? {
        KeepsTheYoung(part.config, part.log, op.now);
        assert TooOld(s, op, tp, m);
      }
    } else {
      OnlyPollsWriteHistory(s, op);
    }
  }

  lemma GoneWas(entries: seq<Message>, kept: seq<Message>, o: int)
    ensures o in OffsetSet(entries) - OffsetSet(kept) ==> exists m :: m in entries && m.offset == o && m !in kept
  {
  }

  /** Every offset that counts as removed was cleared, or was older than its partition allows when retention came by. */
  lemma {:induction false} RemovedWasOld(s: System, ops: seq<Op>, tp: TopicPartition, o: int)
    requires Initial(s) && (tp, o) in Run(s, ops).history.removed
    ensures RemovedDuring(s, ops, tp, o)
  {
    if ops == [] {
      assert false;
    } else {
      var n := |ops| - 1;
      var rest := ops[..n];
      hide Step, Removes;
      if (tp, o) in Run(s, rest).history.removed {
        RemovedWasOld(s, rest, tp, o);
        var k :| 0 <= k < n && Removes(Run(s, rest[..k]), rest[k], tp, o);
        assert rest[..k] == ops[..k] && rest[k] == ops[k];
      } else {
        StepRemoves(Run(s, rest), ops[n], tp, o);
      }
    }
  }

  /**
   At-least-once in full: with ample limits every message below a group's committed offset was handed to a
   member of that group, unless it was cleared or too old for its partition.
   */
  lemma {:induction false} DeliveredUnlessOld(s: System, ops: seq<Op>, g: GroupId, tp: TopicPartition, o: int)
    requires Initial(s) && Legal(s, ops) && AmpleRun(s, ops)
    requires 0 <= o < Committed(PartOf(Run(s, ops).broker, tp).log, g)
    ensures (g, tp, o) in Run(s, ops).history.delivered || RemovedDuring(s, ops, tp, o)
  {
    AtLeastOnceWithAmpleLimits(s, ops, g, tp, o);
    hide Run, RemovedDuring, Initial;
    if (tp, o) in Run(s, ops).history.removed {
      RemovedWasOld(s, ops, tp, o);
    }
  }
}

/**
 Where the protocol's obvious claims stop: a consumer that regains a partition keeps its stale
 position, so commits can go down, and a consumer that moves to another group carries its positions along.
 */
module ProtocolLimits {
  import opened Prelude
  import opened Partitions
  import opened Polling
  import opened Assignment
  import opened ConsumerProtocol
  import OrderedDict

  /** The step commits the consumer's positions: an explicit commit, a close, or a poll whose auto-commit is due. */
  ghost predicate Commits(s: System, op: Op) {
    && (op.Commit? || op.Close? || op.Poll?)
    && op.consumer in s.broker.consumers
    && (op.Poll? ==>
          var cs := s.broker.consumers[op.consumer];
          cs.owned != [] && cs.settings.autoCommit && op.now - cs.lastCommit >= cs.settings.autoCommitInterval)
  }

  /**
   Such a step lowers the group's offset of an owned partition exactly when the position it ends with is
   behind it.
   */
  lemma CommitLowersIff(s: System, op: Op, tp: TopicPartition)
    requires Commits(s, op) && tp in s.broker.consumers[op.consumer].owned
    ensures op.consumer in Step(s, op).broker.consumers
    ensures var g := s.broker.consumers[op.consumer].group;
            Committed(PartOf(Step(s, op).broker, tp).log, g) < Committed(PartOf(s.broker, tp).log, g)
            <==> Position(Step(s, op).broker.consumers[op.consumer].offsets, tp)
                 < Committed(PartOf(s.broker, tp).log, g)
  {
  }

  ghost function Solo(t: string, tp: TopicPartition, members: seq<ConsumerId>): GroupState {
    GroupState(Range, members, [(t, [tp])])
  }

  ghost function Regained(b: Broker, g: GroupId, c: ConsumerState, tp: TopicPartition): ConsumerState {
    c.(group := g, owned := [tp],
       offsets := if tp in c.offsets then c.offsets else c.offsets[tp := Committed(PartOf(b, tp).log, g)])
  }

  lemma SoloShare(tp: TopicPartition)
    ensures Share(Range, [tp], 1, 0) == [tp]
    ensures AllPartitions([("t", [tp])]) == [tp]
  {
    ShareIsFair(Range, [tp], 1, 0);
    assert OwnedBy(Range, [tp], 1, Share(Range, [tp], 1, 0)[0], 0);
    ShareWithin(Range, [tp], 1, 0, Share(Range, [tp], 1, 0)[0]);
    var topics: OrderedDict.Dict<string, seq<TopicPartition>> := [("t", [tp])];
    assert topics[1..] == [];
    assert OrderedDict.Concatenated(topics[1..]) == [];
    assert [tp] + [] == [tp];
    assert OrderedDict.Concatenated(topics) == [tp];
  }

  /** Joining a group that nobody else is in: one consumer gets the partition, with its own position if it has one. */
  lemma SoloJoin(s: System, g: GroupId, c: ConsumerId, tp: TopicPartition)
    requires c in s.broker.consumers && GroupOf(s.broker, g) == Solo("t", tp, [])
    ensures Step(s, Join(g, c)) == s.(broker := s.broker.(
              groups := s.broker.groups[g := Solo("t", tp, [c])],
              consumers := s.broker.consumers[c := Regained(s.broker, g, s.broker.consumers[c], tp)]))
  {
    var b := s.broker;
    var cs := b.consumers[c].(group := g);
    SoloShare(tp);
    assert [] + [c] == [c];
    var r := Step(s, Join(g, c)).broker;
    var b' := b.(groups := b.groups[g := Solo("t", tp, [c])], consumers := b.consumers[c := cs]);
    var seeds := Seeds(b', g, [tp]);
    assert seeds[..0] == [];
    assert Seed(cs.offsets, seeds) == Regained(b, g, b.consumers[c], tp).offsets;
    assert r.consumers[c] == Regained(b, g, b.consumers[c], tp);
    assert r.consumers == b.consumers[c := Regained(b, g, b.consumers[c], tp)];
  }

  lemma SoloLeave(s: System, g: GroupId, c: ConsumerId, tp: TopicPartition)
    requires c in s.broker.consumers && GroupOf(s.broker, g) == Solo("t", tp, [c])
    ensures Step(s, Leave(g, c)) == s.(broker := s.broker.(
              groups := s.broker.groups[g := Solo("t", tp, [])],
              consumers := s.broker.consumers[c := s.broker.consumers[c].(owned := [])]))
  {
    assert [c][1..] == [];
    var r := Step(s, Leave(g, c)).broker;
    assert r.consumers == s.broker.consumers[c := s.broker.consumers[c].(owned := [])];
  }

  /** Subscribing a group that has no member yet. */
  lemma FirstSubscribe(s: System, g: GroupId, tp: TopicPartition)
    requires GroupOf(s.broker, g) == GroupState(Range, [], [])
    ensures Step(s, Subscribe(g, "t", [tp]))
            == s.(broker := s.broker.(groups := s.broker.groups[g := Solo("t", tp, [])]))
  {
    var r := Step(s, Subscribe(g, "t", [tp])).broker;
    assert r.consumers == s.broker.consumers;
  }

  lemma PollOneSource(source: Source, offsets: Offsets, per: int)
    ensures var batch := ReadLog(source.entries, Position(offsets, source.tp), per);
            PollSources([source], offsets, per) == Polled(Tagged(source.tp, batch), Advance(offsets, source.tp, batch))
  {
    var sources := [source];
    assert sources[..0] == [] && sources[0] == source;
    assert PollSources(sources[..0], offsets, per) == Polled([], offsets);
    var batch := ReadLog(source.entries, Position(offsets, source.tp), per);
    hide ReadLog, Tagged, Advance;
    assert [] + Tagged(source.tp, batch) == Tagged(source.tp, batch);
  }

  lemma SoloRead(tp: TopicPartition, m: Message)
    requires m.offset == 0
    ensures Polling.Poll([Source(tp, [m])], map[tp := 0], 100) == Polled([Delivery(tp, m)], map[tp := 1])
  {
    var source, offsets := Source(tp, [m]), map[tp := 0];
    assert ReadLog([m], 0, 100) == [m] && Tagged(tp, [m]) == [Delivery(tp, m)];
    assert Advance(offsets, tp, [m]) == map[tp := 1];
    assert Polling.Poll([source], offsets, 100) == PollSources([source], offsets, 100);
    hide PollSources, ReadLog, Tagged, Advance, Polling.Poll;
    PollOneSource(source, offsets, 100);
  }

  /** A consumer that owns one partition polls the whole of a one-message log. */
  lemma SoloPoll(s: System, c: ConsumerId, tp: TopicPartition, m: Message)
    requires c in s.broker.consumers
    requires s.broker.consumers[c].owned == [tp] && s.broker.consumers[c].offsets == map[tp := 0]
    requires s.broker.consumers[c].settings == Settings(false, 5.0, 100, 30.0)
    requires PartOf(s.broker, tp).log.entries == [m] && m.offset == 0
    ensures Step(s, Op.Poll(c, None, 0.0)) ==
            System(s.broker.(consumers := s.broker.consumers[
                               c := s.broker.consumers[c].(offsets := map[tp := 1], lastPoll := 0.0)]),
                   s.clock,
                   History(s.history.delivered + {(s.broker.consumers[c].group, tp, 0)}, s.history.withheld + {},
                           s.history.removed))
  {
    var cs := s.broker.consumers[c];
    SoloPollResult(s.broker, cs, tp, m);
    PollWithoutCommit(s, c, None, Polled([Delivery(tp, m)], map[tp := 1]), 100);
  }

  lemma PollWithoutCommit(s: System, c: ConsumerId, maxMessages: Option<int>, polled: Polled, limit: int)
    requires c in s.broker.consumers && !s.broker.consumers[c].settings.autoCommit
    requires PollResult(s.broker, s.broker.consumers[c], maxMessages) == (polled, limit)
    ensures var cs := s.broker.consumers[c];
            Step(s, Op.Poll(c, maxMessages, 0.0)) ==
            System(s.broker.(consumers := s.broker.consumers[c := cs.(offsets := polled.offsets, lastPoll := 0.0)]),
                   s.clock,
                   History(s.history.delivered + Keys(cs.group, Returned(polled, limit)),
                           s.history.withheld + Keys(cs.group, Withheld(polled, limit)), s.history.removed))
  {
  }

  lemma SoloPollResult(b: Broker, cs: ConsumerState, tp: TopicPartition, m: Message)
    requires cs.owned == [tp] && cs.offsets == map[tp := 0] && cs.settings == Settings(false, 5.0, 100, 30.0)
    requires PartOf(b, tp).log.entries == [m] && m.offset == 0
    ensures PollResult(b, cs, None) == (Polled([Delivery(tp, m)], map[tp := 1]), 100)
    ensures Keys(cs.group, Returned(Polled([Delivery(tp, m)], map[tp := 1]), 100)) == {(cs.group, tp, 0)}
    ensures Keys(cs.group, Withheld(Polled([Delivery(tp, m)], map[tp := 1]), 100)) == {}
  {
    assert SourcesOf(b, [tp]) == [Source(tp, [m])];
    SoloRead(tp, m);
    var polled := Polled([Delivery(tp, m)], map[tp := 1]);
    assert Returned(polled, 100) == [Delivery(tp, m)] && Withheld(polled, 100) == [];
    KeysOfOne(cs.group, tp, m);
  }

  lemma KeysOfOne(g: GroupId, tp: TopicPartition, m: Message)
    ensures Keys(g, [Delivery(tp, m)]) == {(g, tp, m.offset)} && Keys(g, []) == {}
  {
    assert Delivery(tp, m) in [Delivery(tp, m)];
  }

  lemma SoloCommit(s: System, c: ConsumerId, tp: TopicPartition)
    requires c in s.broker.consumers && s.broker.consumers[c].owned == [tp]
    ensures var cs := s.broker.consumers[c];
            Step(s, Op.Commit(c, 0.0)) ==
            s.(broker := WithLog(s.broker, tp, PartOf(s.broker, tp).log.(
                 committed := PartOf(s.broker, tp).log.committed[cs.group := Position(cs.offsets, tp)])).(
                 consumers := s.broker.consumers[c := cs.(lastCommit := 0.0)]))
  {
    var cs := s.broker.consumers[c];
    var part := PartOf(s.broker, tp);
    assert CommitPositions(s.broker, cs).partitions
        == s.broker.partitions[tp := part.(log := part.log.(
                                 committed := part.log.committed[cs.group := Position(cs.offsets, tp)]))];
  }

  ghost function Fresh(): ConsumerState {
    ConsumerState(Settings(false, 5.0, 100, 30.0), "", [], map[], 0.0, 0.0, true)
  }

  ghost function Blank(): System {
    System(Broker(map[], map["a" := Fresh(), "b" := Fresh()], map[]), 0.0, History({}, {}, {}))
  }

  const SAMPLE := Message("", None, [], 0, 0, -1, -1, 0.0)

  /** One message in the log, the group subscribed, nobody in it. */
  lemma Opening(tp: TopicPartition) returns (s: System, m: Message)
    ensures s == Step(Step(Blank(), Op.Append(tp, SAMPLE, 0.0)), Subscribe("g", "t", [tp]))
    ensures m == SAMPLE.(partition := tp.id, offset := 0)
    ensures s == System(Broker(map[tp := Part(Config(tp.id, 0, 0), Log([m], 1, map[]))],
                               Blank().broker.consumers, map["g" := Solo("t", tp, [])]), 0.0, History({}, {}, {}))
  {
    var s1 := Step(Blank(), Op.Append(tp, SAMPLE, 0.0));
    m := SAMPLE.(partition := tp.id, offset := 0);
    assert AppendTo(Config(tp.id, 0, 0), EMPTY, SAMPLE, 0.0).entries == [] + [m] == [m];
    assert s1.broker.partitions == map[tp := Part(Config(tp.id, 0, 0), Log([m], 1, map[]))];
    FirstSubscribe(s1, "g", tp);
    s := Step(s1, Subscribe("g", "t", [tp]));
  }

  ghost predicate Reachable(s: System) {
    exists s0: System, ops: seq<Op> :: Initial(s0) && s == Run(s0, ops)
  }

  lemma ReachableStep(s: System, op: Op)
    requires Reachable(s)
    ensures Reachable(Step(s, op))
  {
    var s0: System, ops: seq<Op> :| Initial(s0) && s == Run(s0, ops);
    assert (ops + [op])[..|ops|] == ops;
    assert Step(s, op) == Run(s0, ops + [op]);
  }

  lemma OpeningReachable(tp: TopicPartition)
    ensures Reachable(Step(Step(Blank(), Op.Append(tp, SAMPLE, 0.0)), Subscribe("g", "t", [tp])))
  {
    assert Initial(Blank()) && Run(Blank(), []) == Blank();
    ReachableStep(Blank(), Op.Append(tp, SAMPLE, 0.0));
    ReachableStep(Step(Blank(), Op.Append(tp, SAMPLE, 0.0)), Subscribe("g", "t", [tp]));
  }

  /** "a" is assigned the partition and leaves; "b" takes over, reads the message and commits 1. */
  lemma TakenOver(tp: TopicPartition) returns (s: System)
    ensures Reachable(s)
    ensures GroupOf(s.broker, "g") == Solo("t", tp, ["b"]) && s.broker.consumers.Keys == {"a", "b"}
    ensures s.broker.consumers["a"].offsets == map[tp := 0]
    ensures PartOf(s.broker, tp).log.committed == map["g" := 1]
  {
    hide Step, Run, Reachable;
    var s0, m := Opening(tp);
    OpeningReachable(tp);
    SoloJoin(s0, "g", "a", tp);
    var s1 := Step(s0, Join("g", "a"));
    ReachableStep(s0, Join("g", "a"));
    SoloLeave(s1, "g", "a", tp);
    var s2 := Step(s1, Leave("g", "a"));
    ReachableStep(s1, Leave("g", "a"));
    SoloJoin(s2, "g", "b", tp);
    var s3 := Step(s2, Join("g", "b"));
    ReachableStep(s2, Join("g", "b"));
    SoloPoll(s3, "b", tp, m);
    var s4 := Step(s3, Op.Poll("b", None, 0.0));
    ReachableStep(s3, Op.Poll("b", None, 0.0));
    SoloCommit(s4, "b", tp);
    s := Step(s4, Op.Commit("b", 0.0));
    ReachableStep(s4, Op.Commit("b", 0.0));
  }

  /**
   Committed offsets are not monotone: "a" comes back with its old position, and its commit undoes the
   commit of "b".
   */
  lemma CommittedOffsetsCanDrop() returns (s: System, op: Op, g: GroupId, tp: TopicPartition)
    ensures Reachable(s)
    ensures Committed(PartOf(Step(s, op).broker, tp).log, g) < Committed(PartOf(s.broker, tp).log, g)
  {
    hide Step, Run, Reachable;
    g, tp := "g", TopicPartition("t", 0);
    var s5 := TakenOver(tp);
    SoloLeave(s5, "g", "b", tp);
    var s6 := Step(s5, Leave("g", "b"));
    ReachableStep(s5, Leave("g", "b"));
    SoloJoin(s6, "g", "a", tp);
    s := Step(s6, Join("g", "a"));
    ReachableStep(s6, Join("g", "a"));
    op := Op.Commit("a", 0.0);
    SoloCommit(s, "a", tp);
    CommitLowersIff(s, op, tp);
  }

  /** "a", a member of "g", reads the message; then "h" subscribes to the same partition. */
  lemma ReadByFirstGroup(tp: TopicPartition) returns (s: System)
    ensures Reachable(s)
    ensures GroupOf(s.broker, "g") == Solo("t", tp, ["a"]) && GroupOf(s.broker, "h") == Solo("t", tp, [])
    ensures s.broker.consumers.Keys == {"a", "b"} && s.broker.consumers["b"].owned == []
    ensures s.broker.consumers["a"].offsets == map[tp := 1]
    ensures s.history == History({("g", tp, 0)}, {}, {})
  {
    hide Step, Run, Reachable;
    var s0, m := Opening(tp);
    OpeningReachable(tp);
    SoloJoin(s0, "g", "a", tp);
    var s1 := Step(s0, Join("g", "a"));
    ReachableStep(s0, Join("g", "a"));
    SoloPoll(s1, "a", tp, m);
    var s2 := Step(s1, Op.Poll("a", None, 0.0));
    ReachableStep(s1, Op.Poll("a", None, 0.0));
    FirstSubscribe(s2, "h", tp);
    s := Step(s2, Subscribe("h", "t", [tp]));
    ReachableStep(s2, Subscribe("h", "t", [tp]));
  }

  /**
   A consumer that joins a second group takes its positions along: "h" ends up committed past a
   message that no member of "h" was ever handed.
   */
  lemma SecondGroupMissesMessages() returns (s: System, g: GroupId, tp: TopicPartition)
    ensures Reachable(s) && s.history.withheld == {}
    ensures 0 < Committed(PartOf(s.broker, tp).log, g) && !Accounted(s.history, g, tp, 0)
  {
    hide Step, Run, Reachable;
    g, tp := "h", TopicPartition("t", 0);
    var s3 := ReadByFirstGroup(tp);
    SoloJoin(s3, "h", "a", tp);
    var s4 := Step(s3, Join("h", "a"));
    ReachableStep(s3, Join("h", "a"));
    SoloCommit(s4, "a", tp);
    s := Step(s4, Op.Commit("a", 0.0));
    ReachableStep(s4, Op.Commit("a", 0.0));
  }

  /** The group lists a member and subscribes to the partition, and no consumer at all holds it. */
  ghost predicate Abandoned(b: Broker, g: GroupId, tp: TopicPartition) {
    && GroupOf(b, g).members != [] && tp in AllPartitions(GroupOf(b, g).topics)
    && forall c :: c in b.consumers ==> tp !in b.consumers[c].owned
  }

  /**
   A consumer that joins a second group without leaving the first, and then leaves the second, holds nothing:
   "g" still lists "a" and subscribes to the only partition, and nobody owns it.
   */
  lemma SecondGroupAbandonsPartition() returns (s: System, g: GroupId, tp: TopicPartition)
    ensures Reachable(s) && Abandoned(s.broker, g, tp)
  {
    hide Step, Run, Reachable;
    g, tp := "g", TopicPartition("t", 0);
    var s3 := ReadByFirstGroup(tp);
    SoloJoin(s3, "h", "a", tp);
    var s4 := Step(s3, Join("h", "a"));
    ReachableStep(s3, Join("h", "a"));
    SoloLeave(s4, "h", "a", tp);
    s := Step(s4, Leave("h", "a"));
    ReachableStep(s4, Leave("h", "a"));
    SoloShare(tp);
  }
}

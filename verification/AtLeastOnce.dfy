/**
 The delivery guarantees of the consumer protocol, over every run: nothing below a committed offset
 is forgotten, and a consumer sees each partition without skips or repeats.
 */
module AtLeastOnce {
  import opened Prelude
  import opened Partitions
  import opened Polling
  import opened Assignment
  import opened ConsumerProtocol
  import OrderedDict

  // ---------------------------------------------------------------- members and shapes of groups

  lemma {:induction false} LiveIsSublist(b: Broker, members: seq<ConsumerId>, now: real)
    requires Distinct(members)
    ensures Distinct(Live(b, members, now))
    ensures forall c :: c in Live(b, members, now) ==> c in members
  {
    if members == [] {
    } else {
      LiveIsSublist(b, members[1..], now);
      var rest := Live(b, members[1..], now);
      assert forall j :: 0 <= j < |rest| ==> rest[j] in rest && rest[j] in members[1..];
    }
  }

  lemma {:induction false} WithoutMember(members: seq<ConsumerId>, c: ConsumerId, d: ConsumerId)
    requires Distinct(members)
    ensures d in Without(members, c) <==> d in members && d != c
  {
    if members == [] {
    } else {
      assert members == [members[0]] + members[1..];
      if members[0] == c {
        assert c !in members[1..];
      } else {
        WithoutMember(members[1..], c, d);
      }
    }
  }

  lemma {:induction false} WithoutIsDistinct(members: seq<ConsumerId>, c: ConsumerId)
    requires Distinct(members)
    ensures Distinct(Without(members, c))
  {
    if members != [] && members[0] != c {
      WithoutIsDistinct(members[1..], c);
      var rest := Without(members[1..], c);
      forall j | 0 <= j < |rest| ensures rest[j] != members[0] {
        WithoutMember(members[1..], c, rest[j]);
      }
    }
  }

  ghost predicate SameOwnership(b: Broker, r: Broker) {
    && r.groups == b.groups
    && r.consumers.Keys == b.consumers.Keys
    && forall c :: c in b.consumers ==>
                     && r.consumers[c].owned == b.consumers[c].owned
                     && r.consumers[c].group == b.consumers[c].group
                     && (b.consumers[c].owned == [] ==> r.consumers[c].offsets == b.consumers[c].offsets)
  }

  /** The consumer's group changes, nothing else does. */
  ghost function Transferred(b: Broker, g: GroupId, c: ConsumerId): Broker
    requires c in b.consumers
  {
    b.(consumers := b.consumers[c := b.consumers[c].(group := g)])
  }

  ghost function WithMember(gs: GroupState, c: ConsumerId): GroupState {
    if c in gs.members then gs else gs.(members := gs.members + [c])
  }

  /** The shape a step gives to its group, if it regroups at all. */
  ghost function NewShape(b: Broker, op: Op): Option<GroupState> {
    match op
    case Join(g, c) => if c in b.consumers then Some(WithMember(GroupOf(b, g), c)) else None
    case Leave(g, c) =>
      var gs := GroupOf(b, g);
      if c in gs.members then Some(gs.(members := Without(gs.members, c))) else None
    case Subscribe(g, t, tps) =>
      Some(GroupOf(b, g).(topics := OrderedDict.Put(GroupOf(b, g).topics, t, tps)))
    case Unsubscribe(g, t) => Some(GroupOf(b, g).(topics := OrderedDict.Remove(GroupOf(b, g).topics, t)))
    case RemoveDead(g, now) =>
      var gs := GroupOf(b, g);
      if Live(b, gs.members, now) == gs.members then None else Some(gs.(members := Live(b, gs.members, now)))
    case _ => None
  }

  function Except(members: seq<ConsumerId>, kept: seq<ConsumerId>): (r: seq<ConsumerId>)
    ensures forall c :: c in r <==> c in members && c !in kept
  {
    if members == [] then [] else (if members[0] in kept then [] else [members[0]]) + Except(members[1..], kept)
  }

  /** Who gives up its partitions before the group is rebalanced. */
  ghost function Leavers(b: Broker, op: Op): seq<ConsumerId> {
    match op
    case Leave(_, c) => [c]
    case RemoveDead(g, now) => Except(GroupOf(b, g).members, Live(b, GroupOf(b, g).members, now))
    case _ => []
  }

  /** The broker from which a step regroups: a consumer that joins has its new group already. */
  ghost function Entering(b: Broker, op: Op): Broker {
    if op.Join? && op.consumer in b.consumers then Transferred(b, op.group, op.consumer) else b
  }

  lemma GroupedIsRegroup(s: System, op: Op)
    requires !Ungrouped(op)
    ensures Step(s, op) ==
            if NewShape(s.broker, op).None? then s
            else s.(broker := Regroup(Entering(s.broker, op), op.group, NewShape(s.broker, op).value,
                                      set c | c in Leavers(s.broker, op)))
    ensures NewShape(s.broker, op).Some? && op.Join? ==>
              op.consumer in s.broker.consumers && op.consumer in NewShape(s.broker, op).value.members
  {
    var b := s.broker;
    if op.Leave? {
      assert {op.consumer} == set d | d in Leavers(b, op);
    } else if op.RemoveDead? {
      var members := GroupOf(b, op.group).members;
      assert (set c | c in members && c !in Live(b, members, op.now)) == set c | c in Leavers(b, op);
    } else {
      assert (set c | c in Leavers(b, op)) == {};
    }
  }

  lemma NewShapeIsDistinct(b: Broker, op: Op)
    requires NewShape(b, op).Some? && Distinct(GroupOf(b, op.group).members)
    ensures Distinct(NewShape(b, op).value.members)
  {
    match op
    case Leave(g, c) => WithoutIsDistinct(GroupOf(b, g).members, c);
    case RemoveDead(g, now) => LiveIsSublist(b, GroupOf(b, g).members, now);
    case _ =>
  }

  lemma JoinIsRegroup(s: System, g: GroupId, c: ConsumerId)
    requires c in s.broker.consumers
    ensures Step(s, Join(g, c))
            == s.(broker := Regroup(Transferred(s.broker, g, c), g, WithMember(GroupOf(s.broker, g), c), {}))
  {
  }

  ghost predicate Ungrouped(op: Op) {
    op.Append? || op.Retain? || op.Clear? || op.Poll? || op.Commit? || op.Close?
  }

  lemma UngroupedSameOwnership(s: System, op: Op)
    requires Ungrouped(op)
    ensures SameOwnership(s.broker, Step(s, op).broker)
  {
    if op.Poll? {
      if op.consumer in s.broker.consumers {
        PollSameOwnership(s.broker, op.consumer, op.maxMessages, op.now);
        hide AfterPoll, SameOwnership;
      }
    } else if op.Append? || op.Retain? || op.Clear? {
      assert Step(s, op).broker.consumers == s.broker.consumers;
    }
  }

  lemma PollSameOwnership(b: Broker, c: ConsumerId, maxMessages: Option<int>, now: real)
    requires c in b.consumers
    ensures SameOwnership(b, AfterPoll(b, c, maxMessages, now))
  {
    hide PollSources;
    var cs := b.consumers[c];
    var polled := PollResult(b, cs, maxMessages).0;
    assert cs.owned == [] ==> polled.offsets == cs.offsets;
    var moved := cs.(offsets := polled.offsets, lastPoll := now);
    var r := AfterPoll(b, c, maxMessages, now);
    assert r.consumers == b.consumers[c := moved] || r.consumers == b.consumers[c := moved.(lastCommit := now)];
  }

  /** Every group lists each member once. */
  ghost predicate MembersDistinct(b: Broker) {
    forall g :: Distinct(GroupOf(b, g).members)
  }

  lemma StepMembersDistinct(s: System, op: Op)
    requires MembersDistinct(s.broker)
    ensures MembersDistinct(Step(s, op).broker)
  {
    var b, r := s.broker, Step(s, op).broker;
    if Ungrouped(op) {
      UngroupedSameOwnership(s, op);
      hide Step;
      assert forall g :: GroupOf(r, g) == GroupOf(b, g);
    } else {
      GroupedIsRegroup(s, op);
      assert Distinct(GroupOf(b, op.group).members);
      if NewShape(b, op).Some? {
        NewShapeIsDistinct(b, op);
        hide Step, NewShape, Distinct;
        forall g ensures Distinct(GroupOf(r, g).members) {
          assert GroupOf(r, g) == if g == op.group then NewShape(b, op).value else GroupOf(b, g);
        }
      }
    }
  }

  lemma {:induction false} RunMembersDistinct(s: System, ops: seq<Op>)
    requires Initial(s)
    ensures MembersDistinct(Run(s, ops).broker)
  {
    if ops == [] {
      assert forall g :: GroupOf(s.broker, g).members == [];
    } else {
      RunMembersDistinct(s, ops[..|ops| - 1]);
      StepMembersDistinct(Run(s, ops[..|ops| - 1]), ops[|ops| - 1]);
    }
  }

  // ---------------------------------------------------------------- delivery

  /** Time only adds: logs grow at the end and the history keeps what it has. */
  ghost predicate Extends(s: System, t: System) {
    && (forall tp :: PartOf(s.broker, tp).log.next <= PartOf(t.broker, tp).log.next)
    && s.history.delivered <= t.history.delivered
    && s.history.withheld <= t.history.withheld
    && s.history.removed <= t.history.removed
  }

  lemma CoveredExtends(s: System, t: System, g: GroupId, tp: TopicPartition, n: int)
    requires Covered(s, g, tp, n) && Extends(s, t)
    ensures Covered(t, g, tp, n)
  {
    assert forall o :: Accounted(s.history, g, tp, o) ==> Accounted(t.history, g, tp, o);
  }

  /** Commits and positions stay covered where they are not touched. */
  lemma KeepsCommits(s: System, t: System, tp: TopicPartition)
    requires CommitsOk(s, tp) && Extends(s, t)
    requires PartOf(t.broker, tp).log.committed == PartOf(s.broker, tp).log.committed
    ensures CommitsOk(t, tp)
  {
    forall g ensures Covered(t, g, tp, Committed(PartOf(t.broker, tp).log, g)) {
      assert Covered(s, g, tp, Committed(PartOf(s.broker, tp).log, g));
      CoveredExtends(s, t, g, tp, Committed(PartOf(s.broker, tp).log, g));
    }
  }

  lemma KeepsPositions(s: System, t: System, c: ConsumerId)
    requires c in s.broker.consumers && c in t.broker.consumers && PositionsOk(s, c) && Extends(s, t)
    requires t.broker.consumers[c].offsets == s.broker.consumers[c].offsets
    requires t.broker.consumers[c].group == s.broker.consumers[c].group
    ensures PositionsOk(t, c)
  {
    var cs := s.broker.consumers[c];
    forall tp | tp in cs.offsets ensures Covered(t, cs.group, tp, cs.offsets[tp]) {
      CoveredExtends(s, t, cs.group, tp, cs.offsets[tp]);
    }
  }

  /** One partition's log changes, nothing else does. */
  lemma LogChangeDelivers(s: System, t: System, tp: TopicPartition, l: Log)
    requires Delivering(s) && s.clock <= t.clock
    requires t.broker == WithLog(s.broker, tp, l)
    requires l.committed == PartOf(s.broker, tp).log.committed && Extends(s, t)
    requires LogOk(t, tp)
    ensures Delivering(t)
  {
    forall q ensures LogOk(t, q) && CommitsOk(t, q) {
      assert LogOk(s, q) && CommitsOk(s, q);
      KeepsCommits(s, t, q);
    }
    forall c | c in t.broker.consumers ensures PositionsOk(t, c) {
      assert PositionsOk(s, c);
      KeepsPositions(s, t, c);
    }
  }

  lemma AppendDelivers(s: System, tp: TopicPartition, m: Message, now: real)
    requires Delivering(s) && now >= s.clock
    ensures Delivering(Step(s, Op.Append(tp, m, now)))
  {
    var part := PartOf(s.broker, tp);
    assert LogOk(s, tp);
    StepDense(part.config, part.log, LogOp.Append(m, now), s.clock);
    LogChangeDelivers(s, Step(s, Op.Append(tp, m, now)), tp, AppendTo(part.config, part.log, m, now));
  }

  /** Dropping a prefix of a gap-free log records exactly the offsets that go. */
  lemma RemovalDelivers(s: System, tp: TopicPartition, l: Log, k: nat, now: real)
    requires Delivering(s) && now >= s.clock
    requires k <= |PartOf(s.broker, tp).log.entries|
    requires l == PartOf(s.broker, tp).log.(entries := PartOf(s.broker, tp).log.entries[k..])
    ensures Delivering(Removal(s, tp, l, now))
  {
    var was := PartOf(s.broker, tp).log;
    var t := Removal(s, tp, l, now);
    assert LogOk(s, tp);
    forall o | 0 <= o < l.next - |l.entries| ensures (tp, o) in t.history.removed {
      var start := was.next - |was.entries|;
      if o >= start {
        assert was.entries[o - start].offset == o;
        assert forall m :: m in l.entries ==> m.offset >= start + k;
        assert o in OffsetSet(was.entries) - OffsetSet(l.entries);
      }
    }
    LogChangeDelivers(s, t, tp, l);
  }

  lemma RetainDelivers(s: System, tp: TopicPartition, now: real)
    requires Delivering(s) && now >= s.clock
    ensures Delivering(Step(s, Op.Retain(tp, now)))
  {
    var part := PartOf(s.broker, tp);
    var l := Partitions.Retain(part.config, part.log, now);
    assert LogOk(s, tp);
    RetentionDropsPrefix(part.log.entries, Cutoff(part.config, now));
    RemovalDelivers(s, tp, l, |part.log.entries| - |l.entries|, now);
  }

  lemma {:induction false} SeedSources(offsets: Offsets, seeds: seq<(TopicPartition, int)>, tp: TopicPartition)
    requires tp in Seed(offsets, seeds)
    ensures (tp in offsets && Seed(offsets, seeds)[tp] == offsets[tp]) || (tp, Seed(offsets, seeds)[tp]) in seeds
  {
    if seeds == [] {
    } else {
      var n := |seeds| - 1;
      assert forall e :: e in seeds[..n] ==> e in seeds;
      if tp in Seed(offsets, seeds[..n]) {
        SeedSources(offsets, seeds[..n], tp);
      } else {
        assert seeds[n] == (tp, Seed(offsets, seeds)[tp]);
      }
    }
  }

  /** Rebalancing gives a consumer its own old position or the committed offset of its group: both are covered. */
  lemma RegroupDelivers(s: System, g: GroupId, gs: GroupState, leavers: set<ConsumerId>)
    requires Delivering(s)
    ensures Delivering(s.(broker := Regroup(s.broker, g, gs, leavers)))
  {
    var t := s.(broker := Regroup(s.broker, g, gs, leavers));
    forall tp ensures LogOk(t, tp) && CommitsOk(t, tp) {
      assert LogOk(s, tp) && CommitsOk(s, tp);
      KeepsCommits(s, t, tp);
    }
    forall c | c in t.broker.consumers ensures PositionsOk(t, c) {
      assert PositionsOk(s, c);
      var was, cs := s.broker.consumers[c], t.broker.consumers[c];
      forall tp | tp in cs.offsets ensures Covered(t, cs.group, tp, cs.offsets[tp]) {
        if c in gs.members {
          var b := s.broker.(groups := s.broker.groups[g := gs],
                             consumers := map d | d in s.broker.consumers ::
                               if d in leavers then s.broker.consumers[d].(owned := []) else s.broker.consumers[d]);
          assert cs.offsets == Seed(was.offsets, Seeds(b, was.group, cs.owned));
          assert forall q :: PartOf(b, q) == PartOf(s.broker, q);
          SeedSources(was.offsets, Seeds(b, was.group, cs.owned), tp);
        }
        assert CommitsOk(s, tp);
        assert Covered(s, was.group, tp, cs.offsets[tp]);
        CoveredExtends(s, t, was.group, tp, cs.offsets[tp]);
      }
    }
  }

  lemma TransferDelivers(s: System, g: GroupId, c: ConsumerId)
    requires Delivering(s) && c in s.broker.consumers
    requires forall tp :: tp in s.broker.consumers[c].offsets ==> Covered(s, g, tp, s.broker.consumers[c].offsets[tp])
    ensures Delivering(s.(broker := Transferred(s.broker, g, c)))
  {
    var t := s.(broker := Transferred(s.broker, g, c));
    forall tp ensures LogOk(t, tp) && CommitsOk(t, tp) {
      assert LogOk(s, tp) && CommitsOk(s, tp);
      KeepsCommits(s, t, tp);
    }
    forall d | d in t.broker.consumers ensures PositionsOk(t, d) {
      assert PositionsOk(s, d);
      if d != c {
        KeepsPositions(s, t, d);
      } else {
        forall tp | tp in t.broker.consumers[c].offsets ensures Covered(t, g, tp, t.broker.consumers[c].offsets[tp]) {
          CoveredExtends(s, t, g, tp, s.broker.consumers[c].offsets[tp]);
        }
      }
    }
  }

  /** What is committed covers everything below it. */
  lemma MayJoinCovers(s: System, g: GroupId, c: ConsumerId)
    requires Delivering(s) && c in s.broker.consumers && MayJoin(s.broker, g, c)
    ensures forall tp :: tp in s.broker.consumers[c].offsets ==> Covered(s, g, tp, s.broker.consumers[c].offsets[tp])
  {
    var cs := s.broker.consumers[c];
    assert PositionsOk(s, c);
    forall tp | tp in cs.offsets ensures Covered(s, g, tp, cs.offsets[tp]) {
      assert CommitsOk(s, tp);
      assert Covered(s, cs.group, tp, cs.offsets[tp]);
      assert Covered(s, g, tp, Committed(PartOf(s.broker, tp).log, g));
    }
  }

  lemma SeedKeeps(offsets: Offsets, seeds: seq<(TopicPartition, int)>)
    ensures forall tp :: tp in offsets ==> tp in Seed(offsets, seeds) && Seed(offsets, seeds)[tp] == offsets[tp]
  {
  }

  /**
   A join keeps every guarantee if and only if every position the consumer brings along is covered for its
   new group.
   */
  lemma {:induction false} JoinDeliversIff(s: System, g: GroupId, c: ConsumerId)
    requires Delivering(s) && c in s.broker.consumers
    ensures Delivering(Step(s, Join(g, c))) <==>
            forall tp :: tp in s.broker.consumers[c].offsets ==> Covered(s, g, tp, s.broker.consumers[c].offsets[tp])
  {
    var t, offsets := Step(s, Join(g, c)), s.broker.consumers[c].offsets;
    JoinIsRegroup(s, g, c);
    JoinedPositions(s, g, c);
    hide Step, Regroup, Transferred;
    if forall tp :: tp in offsets ==> Covered(s, g, tp, offsets[tp]) {
      TransferDelivers(s, g, c);
      RegroupDelivers(s.(broker := Transferred(s.broker, g, c)), g, WithMember(GroupOf(s.broker, g), c), {});
    }
    if Delivering(t) {
      assert PositionsOk(t, c);
      forall tp | tp in offsets ensures Covered(s, g, tp, offsets[tp]) {
        assert Covered(t, g, tp, offsets[tp]);
        assert PartOf(t.broker, tp) == PartOf(s.broker, tp);
      }
    }
  }

  /**
   What a regrouping makes of one consumer: a member holds its share and fills in missing positions, a
   leaver holds nothing.
   */
  lemma RegroupState(b: Broker, g: GroupId, gs: GroupState, leavers: set<ConsumerId>, c: ConsumerId)
    requires c in b.consumers
    ensures var r := Regroup(b, g, gs, leavers);
            && r.partitions == b.partitions && r.groups == b.groups[g := gs] && c in r.consumers
            && r.consumers[c] ==
               if c in gs.members then
                 Assigned(b, b.consumers[c],
                          Share(gs.strategy, AllPartitions(gs.topics), |gs.members|, IndexOf(gs.members, c)))
               else if c in leavers then b.consumers[c].(owned := [])
               else b.consumers[c]
  {
    var mid := b.(groups := b.groups[g := gs],
                  consumers := map d | d in b.consumers ::
                    if d in leavers then b.consumers[d].(owned := []) else b.consumers[d]);
    assert GroupOf(mid, g) == gs;
    if c in gs.members {
      var share := Share(gs.strategy, AllPartitions(gs.topics), |gs.members|, IndexOf(gs.members, c));
      SeedsAgree(mid, b, b.consumers[c].group, share);
    }
  }

  /** The consumer that joins is in the group afterwards and still has all its positions. */
  lemma JoinedPositions(s: System, g: GroupId, c: ConsumerId)
    requires c in s.broker.consumers
    ensures var t := Step(s, Join(g, c));
            && c in t.broker.consumers && t.broker.consumers[c].group == g
            && t.broker.partitions == s.broker.partitions && t.history == s.history
            && forall tp :: tp in s.broker.consumers[c].offsets ==>
                              && tp in t.broker.consumers[c].offsets
                              && t.broker.consumers[c].offsets[tp] == s.broker.consumers[c].offsets[tp]
  {
    var joined, b := WithMember(GroupOf(s.broker, g), c), Transferred(s.broker, g, c);
    JoinIsRegroup(s, g, c);
    assert c in joined.members;
    RegroupState(b, g, joined, {}, c);
    hide Step, Regroup, Share, Seed;
    SeedKeeps(b.consumers[c].offsets,
              Seeds(b, g, Share(joined.strategy, AllPartitions(joined.topics), |joined.members|,
                                IndexOf(joined.members, c))));
  }

  lemma SeedsAgree(a: Broker, b: Broker, g: GroupId, tps: seq<TopicPartition>)
    requires a.partitions == b.partitions
    ensures Seeds(a, g, tps) == Seeds(b, g, tps)
  {
    assert forall tp :: PartOf(a, tp) == PartOf(b, tp);
  }

  lemma PositionCovered(s: System, c: ConsumerId, tp: TopicPartition)
    requires Delivering(s) && c in s.broker.consumers
    ensures Covered(s, s.broker.consumers[c].group, tp, Position(s.broker.consumers[c].offsets, tp))
  {
    assert PositionsOk(s, c);
    assert LogOk(s, tp);
  }

  /** Committing writes covered positions. */
  lemma CommitDelivers(s: System, t: System, c: ConsumerId)
    requires Delivering(s) && c in s.broker.consumers
    requires t.clock == s.clock && t.history == s.history
    requires t.broker.partitions == CommitPositions(s.broker, s.broker.consumers[c]).partitions
    requires t.broker.consumers.Keys == s.broker.consumers.Keys
    requires forall d :: d in s.broker.consumers ==>
                           && t.broker.consumers[d].offsets == s.broker.consumers[d].offsets
                           && t.broker.consumers[d].group == s.broker.consumers[d].group
    ensures Delivering(t)
  {
    var cs := s.broker.consumers[c];
    forall tp ensures PartOf(t.broker, tp).log.(committed := map[]) == PartOf(s.broker, tp).log.(committed := map[]) {
    }
    assert Extends(s, t);
    forall tp ensures LogOk(t, tp) && CommitsOk(t, tp) {
      assert LogOk(s, tp) && CommitsOk(s, tp);
      forall g ensures Covered(t, g, tp, Committed(PartOf(t.broker, tp).log, g)) {
        PositionCovered(s, c, tp);
        assert Covered(s, g, tp, Committed(PartOf(s.broker, tp).log, g));
        CoveredExtends(s, t, g, tp, Committed(PartOf(t.broker, tp).log, g));
      }
    }
    forall d | d in t.broker.consumers ensures PositionsOk(t, d) {
      assert PositionsOk(s, d);
      KeepsPositions(s, t, d);
    }
  }

  lemma {:induction false} FromIsIn(ds: seq<Delivery>, tp: TopicPartition, m: Message)
    requires m in From(ds, tp)
    ensures Delivery(tp, m) in ds
  {
    var n := |ds| - 1;
    if m in From(ds[..n], tp) {
      FromIsIn(ds[..n], tp, m);
    }
  }

  /** Polling moves a position only over offsets that are removed, handed over or withheld. */
  lemma PollCovers(s: System, t: System, c: ConsumerId, maxMessages: Option<int>, tp: TopicPartition)
    requires Delivering(s) && c in s.broker.consumers && Extends(s, t)
    requires PartOf(t.broker, tp).log.next == PartOf(s.broker, tp).log.next
    requires Keys(s.broker.consumers[c].group, PollResult(s.broker, s.broker.consumers[c], maxMessages).0.deliveries)
             <= t.history.delivered + t.history.withheld
    ensures var polled := PollResult(s.broker, s.broker.consumers[c], maxMessages).0;
            Covered(t, s.broker.consumers[c].group, tp, Position(polled.offsets, tp))
  {
    var cs := s.broker.consumers[c];
    var polled := PollResult(s.broker, cs, maxMessages).0;
    var l := PartOf(s.broker, tp).log;
    var p, q := Position(cs.offsets, tp), Position(polled.offsets, tp);
    PositionCovered(s, c, tp);
    CoveredExtends(s, t, cs.group, tp, p);
    assert LogOk(s, tp);
    if cs.owned != [] {
      var limit := Limit(maxMessages, cs.settings.maxPollMessages);
      PollTakes(SourcesOf(s.broker, cs.owned), cs.offsets, PerPartition(limit, |cs.owned|), tp, l.entries);
      var got := From(polled.deliveries, tp);
      TakesStaysBelow(l, p, q, got);
      forall o | p <= o < q ensures Accounted(t.history, cs.group, tp, o) {
        if o < l.next - |l.entries| {
          assert (tp, o) in s.history.removed;
        } else {
          var m := TakesEverything(l, p, q, got, o);
          FromIsIn(polled.deliveries, tp, m);
          assert (cs.group, tp, o) in Keys(cs.group, polled.deliveries);
        }
      }
    }
  }

  lemma TakesStaysBelow(l: Log, p: int, q: int, got: seq<Message>)
    requires Dense(l) && 0 <= p <= l.next && Takes(l.entries, p, q, got)
    ensures 0 <= q <= l.next
  {
  }

  lemma TakesEverything(l: Log, p: int, q: int, got: seq<Message>, o: int) returns (m: Message)
    requires Dense(l) && Takes(l.entries, p, q, got)
    requires p <= o < q && o >= l.next - |l.entries|
    ensures m in got && m.offset == o
  {
    var base := l.next - |l.entries|;
    m := got[o - base - ReadIndex(l.entries, p)];
  }

  /** The state of a poll before it commits. */
  ghost function Moved(s: System, c: ConsumerId, maxMessages: Option<int>, now: real): System
    requires c in s.broker.consumers
  {
    var cs := s.broker.consumers[c];
    var moved := cs.(offsets := PollResult(s.broker, cs, maxMessages).0.offsets, lastPoll := now);
    Step(s, Op.Poll(c, maxMessages, now)).(broker := s.broker.(consumers := s.broker.consumers[c := moved]))
  }

  lemma PollMoveDelivers(s: System, c: ConsumerId, maxMessages: Option<int>, now: real)
    requires Delivering(s) && c in s.broker.consumers
    ensures Delivering(Moved(s, c, maxMessages, now))
  {
    var cs := s.broker.consumers[c];
    var (polled, limit) := PollResult(s.broker, cs, maxMessages);
    var mid := Moved(s, c, maxMessages, now);
    assert polled.deliveries == Returned(polled, limit) + Withheld(polled, limit);
    assert Keys(cs.group, polled.deliveries) <= mid.history.delivered + mid.history.withheld;
    forall tp ensures LogOk(mid, tp) && CommitsOk(mid, tp) {
      assert LogOk(s, tp) && CommitsOk(s, tp);
      KeepsCommits(s, mid, tp);
    }
    forall d | d in mid.broker.consumers ensures PositionsOk(mid, d) {
      assert PositionsOk(s, d);
      if d == c {
        forall tp | tp in polled.offsets ensures Covered(mid, cs.group, tp, polled.offsets[tp]) {
          PollCovers(s, mid, c, maxMessages, tp);
        }
      } else {
        KeepsPositions(s, mid, d);
      }
    }
  }

  lemma CommitIgnoresConsumers(a: Broker, b: Broker, cs: ConsumerState)
    requires a.partitions == b.partitions
    ensures CommitPositions(a, cs).partitions == CommitPositions(b, cs).partitions
  {
    assert forall tp :: PartOf(a, tp) == PartOf(b, tp);
  }

  /** A poll either stops after moving its positions or goes on to commit them. */
  lemma PollShape(s: System, c: ConsumerId, maxMessages: Option<int>, now: real)
    requires c in s.broker.consumers
    ensures var t, mid := Step(s, Op.Poll(c, maxMessages, now)), Moved(s, c, maxMessages, now);
            var moved := mid.broker.consumers[c];
            || t == mid
            || (&& t.broker == CommitPositions(mid.broker, moved).(
                                 consumers := mid.broker.consumers[c := moved.(lastCommit := now)])
                && t.clock == mid.clock && t.history == mid.history)
  {
    var mid := Moved(s, c, maxMessages, now);
    var moved := mid.broker.consumers[c];
    CommitIgnoresConsumers(s.broker, mid.broker, moved);
    assert mid.broker.consumers[c := moved.(lastCommit := now)] == s.broker.consumers[c := moved.(lastCommit := now)];
  }

  /** A poll that goes on commits the positions it moved to, and changes no position or group doing so. */
  lemma PollCommits(s: System, c: ConsumerId, maxMessages: Option<int>, now: real)
    requires c in s.broker.consumers
    requires Step(s, Op.Poll(c, maxMessages, now)) != Moved(s, c, maxMessages, now)
    ensures var t, mid := Step(s, Op.Poll(c, maxMessages, now)), Moved(s, c, maxMessages, now);
            && c in mid.broker.consumers
            && t.clock == mid.clock && t.history == mid.history
            && t.broker.partitions == CommitPositions(mid.broker, mid.broker.consumers[c]).partitions
            && t.broker.consumers.Keys == mid.broker.consumers.Keys
            && forall d :: d in mid.broker.consumers ==>
                             && t.broker.consumers[d].offsets == mid.broker.consumers[d].offsets
                             && t.broker.consumers[d].group == mid.broker.consumers[d].group
  {
    PollShape(s, c, maxMessages, now);
    assert c in Moved(s, c, maxMessages, now).broker.consumers;
    hide Step, Moved, CommitPositions;
  }

  lemma {:induction false} PollDelivers(s: System, c: ConsumerId, maxMessages: Option<int>, now: real)
    requires Delivering(s)
    ensures Delivering(Step(s, Op.Poll(c, maxMessages, now)))
  {
    if c in s.broker.consumers {
      hide Step, Moved, Delivering, CommitPositions;
      var t, mid := Step(s, Op.Poll(c, maxMessages, now)), Moved(s, c, maxMessages, now);
      PollMoveDelivers(s, c, maxMessages, now);
      if t != mid {
        PollCommits(s, c, maxMessages, now);
        CommitDelivers(mid, t, c);
      }
    }
  }

  lemma StepDelivers(s: System, op: Op)
    requires Delivering(s) && Allowed(s, op)
    ensures Delivering(Step(s, op))
  {
    var b := s.broker;
    match op
    case Append(tp, m, now) => AppendDelivers(s, tp, m, now);
    case Retain(tp, now) => RetainDelivers(s, tp, now);
    case Clear(tp) =>
      var l := PartOf(b, tp).log;
      RemovalDelivers(s, tp, l.(entries := []), |l.entries|, s.clock);
    case Join(g, c) =>
      if c in b.consumers {
        MayJoinCovers(s, g, c);
        JoinDeliversIff(s, g, c);
      }
    case Leave(g, c) => RegroupDelivers(s, g, GroupOf(b, g).(members := Without(GroupOf(b, g).members, c)), {c});
    case Subscribe(g, t, tps) =>
      RegroupDelivers(s, g, GroupOf(b, g).(topics := OrderedDict.Put(GroupOf(b, g).topics, t, tps)), {});
    case Unsubscribe(g, t) =>
      RegroupDelivers(s, g, GroupOf(b, g).(topics := OrderedDict.Remove(GroupOf(b, g).topics, t)), {});
    case RemoveDead(g, now) =>
      var gs := GroupOf(b, g);
      var live := Live(b, gs.members, now);
      RegroupDelivers(s, g, gs.(members := live), set c | c in gs.members && c !in live);
    case Poll(c, n, now) => PollDelivers(s, c, n, now);
    case Commit(c, now) =>
      if c in b.consumers {
        CommitDelivers(s, Step(s, op), c);
      }
    case Close(c, now) =>
      if c in b.consumers {
        CommitDelivers(s, Step(s, op), c);
      }
  }

  lemma {:induction false} RunDelivers(s: System, ops: seq<Op>)
    requires Delivering(s) && Legal(s, ops)
    ensures Delivering(Run(s, ops))
  {
    if ops == [] {
    } else {
      RunDelivers(s, ops[..|ops| - 1]);
      StepDelivers(Run(s, ops[..|ops| - 1]), ops[|ops| - 1]);
    }
  }

  lemma InitialDelivers(s: System)
    requires Initial(s)
    ensures Delivering(s)
  {
  }

  lemma {:induction false} LegalRunDelivers(s: System, ops: seq<Op>)
    requires Initial(s) && Legal(s, ops)
    ensures Delivering(Run(s, ops))
  {
    InitialDelivers(s);
    RunDelivers(s, ops);
  }

  /**
   At-least-once: whatever a run did, a message below a group's committed offset was handed to a
   member of that group, removed from the log, or withheld by a poll with too small a limit.
   */
  lemma {:induction false} AtLeastOnceDelivery(s: System, ops: seq<Op>, g: GroupId, tp: TopicPartition, o: int)
    requires Initial(s) && Legal(s, ops)
    requires 0 <= o < Committed(PartOf(Run(s, ops).broker, tp).log, g)
    ensures o < PartOf(Run(s, ops).broker, tp).log.next
    ensures Accounted(Run(s, ops).history, g, tp, o)
  {
    LegalRunDelivers(s, ops);
    assert CommitsOk(Run(s, ops), tp);
  }

  // ---------------------------------------------------------------- polls that withhold nothing

  /**
   The caller's side of the bargain: room for every assigned partition, or at least for every one with
   something to read, counted as often as it is assigned and has something to read.
   */
  ghost predicate Ample(s: System, op: Op) {
    op.Poll? && op.consumer in s.broker.consumers ==>
      var cs := s.broker.consumers[op.consumer];
      var limit := Limit(op.maxMessages, cs.settings.maxPollMessages);
      limit >= |cs.owned| || Ready(SourcesOf(s.broker, cs.owned), cs.offsets) <= Max(limit, 0)
  }

  ghost predicate AmpleRun(s: System, ops: seq<Op>) {
    ops == [] || (AmpleRun(s, ops[..|ops| - 1]) && Ample(Run(s, ops[..|ops| - 1]), ops[|ops| - 1]))
  }

  lemma ReturnedAndWithheld(polled: Polled, limit: int)
    ensures polled.deliveries == Returned(polled, limit) + Withheld(polled, limit)
    ensures Withheld(polled, limit) == [] ==> Returned(polled, limit) == polled.deliveries
  {
  }

  lemma AmplePollReturnsAll(s: System, op: Op)
    requires Ample(s, op) && op.Poll? && op.consumer in s.broker.consumers
    ensures var (polled, limit) := PollResult(s.broker, s.broker.consumers[op.consumer], op.maxMessages);
            Returned(polled, limit) == polled.deliveries && Withheld(polled, limit) == []
  {
    var cs := s.broker.consumers[op.consumer];
    var (polled, limit) := PollResult(s.broker, cs, op.maxMessages);
    var sources := SourcesOf(s.broker, cs.owned);
    assert polled == Polling.Poll(sources, cs.offsets, limit);
    if limit >= |cs.owned| {
      hide PollSources, Polling.Poll, SourcesOf;
      AmpleLimitFits(sources, cs.offsets, limit);
    } else {
      assert SoundSources(sources);
      hide PollSources, Polling.Poll, SourcesOf, Returned, Withheld, Ready;
      PollLosslessIff(sources, cs.offsets, limit);
      ReturnedAndWithheld(polled, limit);
    }
  }

  lemma AmpleStepWithholdsNothing(s: System, op: Op)
    requires Ample(s, op) && s.history.withheld == {}
    ensures Step(s, op).history.withheld == {}
  {
    if op.Poll? && op.consumer in s.broker.consumers {
      AmplePollReturnsAll(s, op);
    }
  }

  lemma {:induction false} AmpleRunWithholdsNothing(s: System, ops: seq<Op>)
    requires s.history.withheld == {} && AmpleRun(s, ops)
    ensures Run(s, ops).history.withheld == {}
  {
    if ops == [] {
    } else {
      var before, op := Run(s, ops[..|ops| - 1]), ops[|ops| - 1];
      AmpleRunWithholdsNothing(s, ops[..|ops| - 1]);
      hide Step, Ample;
      AmpleStepWithholdsNothing(before, op);
    }
  }

  /** With ample limits the guarantee is the plain one: handed over, or removed. */
  lemma {:induction false} AtLeastOnceWithAmpleLimits(s: System, ops: seq<Op>, g: GroupId, tp: TopicPartition, o: int)
    requires Initial(s) && Legal(s, ops) && AmpleRun(s, ops)
    requires 0 <= o < Committed(PartOf(Run(s, ops).broker, tp).log, g)
    ensures (g, tp, o) in Run(s, ops).history.delivered || (tp, o) in Run(s, ops).history.removed
  {
    AtLeastOnceDelivery(s, ops, g, tp, o);
    AmpleRunWithholdsNothing(s, ops);
  }

  // ---------------------------------------------------------------- no skip, no repeat

  /** What a step hands to one consumer. */
  ghost function Handing(s: System, op: Op, c: ConsumerId): seq<Delivery> {
    if op.Poll? && op.consumer == c && c in s.broker.consumers then
      var (polled, limit) := PollResult(s.broker, s.broker.consumers[c], op.maxMessages);
      Returned(polled, limit)
    else []
  }

  /** What the polls of one consumer returned over a run, in order. */
  ghost function Handed(s: System, ops: seq<Op>, c: ConsumerId): seq<Delivery> {
    if ops == [] then []
    else Handed(s, ops[..|ops| - 1], c) + Handing(Run(s, ops[..|ops| - 1]), ops[|ops| - 1], c)
  }

  /** The log still holds the offset. */
  ghost predicate StillThere(l: Log, o: int) {
    l.next - |l.entries| <= o < l.next
  }

  /**
   What a consumer was handed while its position went from `p` to `q`: each offset at most once and in
   order, nothing below `p` or from `q` on, and every message is the one in the log as long as it is there.
   */
  ghost predicate SeenInOrder(l: Log, p: int, q: int, got: seq<Message>) {
    && 0 <= p <= q <= l.next
    && Increasing(got)
    && (forall m :: m in got ==> p <= m.offset < q)
    && forall m :: m in got && StillThere(l, m.offset) ==> l.entries[m.offset - (l.next - |l.entries|)] == m
  }

  /** Nothing in between that is still there was left out. */
  ghost predicate SeenAll(l: Log, p: int, q: int, got: seq<Message>) {
    forall o :: p <= o < q && StillThere(l, o) ==> exists m :: m in got && m.offset == o
  }

  /** The log only loses a prefix and gains a suffix. */
  ghost predicate Slides(l: Log, r: Log) {
    && Dense(l) && Dense(r)
    && l.next <= r.next
    && l.next - |l.entries| <= r.next - |r.entries|
    && forall o :: StillThere(l, o) && StillThere(r, o) ==>
                     l.entries[o - (l.next - |l.entries|)] == r.entries[o - (r.next - |r.entries|)]
  }

  lemma SlideKeepsSeen(l: Log, r: Log, p: int, q: int, r': int, got: seq<Message>)
    requires SeenInOrder(l, p, q, got) && Slides(l, r) && q <= r' <= r.next
    ensures SeenInOrder(r, p, r', got)
    ensures SeenAll(l, p, q, got) ==> SeenAll(r, p, q, got)
  {
  }

  lemma AppendSlides(cfg: Config, l: Log, m: Message, now: real)
    requires Dense(l)
    ensures Slides(l, AppendTo(cfg, l, m, now))
  {
  }

  lemma RetainSlides(l: Log, k: nat)
    requires Dense(l) && k <= |l.entries|
    ensures Slides(l, l.(entries := l.entries[k..]))
  {
  }

  /** No step takes anything out of the middle of a log. */
  lemma StepSlides(s: System, op: Op, tp: TopicPartition)
    requires Delivering(s) && Delivering(Step(s, op))
    ensures Slides(PartOf(s.broker, tp).log, PartOf(Step(s, op).broker, tp).log)
  {
    assert LogOk(s, tp) && LogOk(Step(s, op), tp);
    hide Delivering, Slides;
    if op.Append? || op.Retain? || op.Clear? {
      LogOpSlides(s, op, tp);
    } else {
      OtherOpKeepsEntries(s, op, tp);
      hide Step;
      SameEntriesSlide(PartOf(s.broker, tp).log, PartOf(Step(s, op).broker, tp).log);
    }
  }

  lemma SameEntriesSlide(l: Log, r: Log)
    requires Dense(l) && l.entries == r.entries && l.next == r.next
    ensures Slides(l, r)
  {
  }

  lemma LogOpIs(s: System, op: Op, tp: TopicPartition)
    requires op.Append? || op.Retain? || op.Clear?
    ensures var part := PartOf(s.broker, tp);
            PartOf(Step(s, op).broker, tp).log ==
            if tp != op.tp then part.log
            else match op
                 case Append(_, m, now) => AppendTo(part.config, part.log, m, now)
                 case Retain(_, now) => Partitions.Retain(part.config, part.log, now)
                 case _ => part.log.(entries := [])
  {
  }

  lemma LogOpSlides(s: System, op: Op, tp: TopicPartition)
    requires (op.Append? || op.Retain? || op.Clear?) && LogOk(s, tp)
    ensures Slides(PartOf(s.broker, tp).log, PartOf(Step(s, op).broker, tp).log)
  {
    var part := PartOf(s.broker, tp);
    var l := part.log;
    LogOpIs(s, op, tp);
    hide Step, PartOf;
    if tp != op.tp {
      SameEntriesSlide(l, l);
    } else if op.Append? {
      hide Slides;
      AppendSlides(part.config, l, op.message, op.now);
    } else if op.Retain? {
      RetainSlidesLog(part.config, l, op.now, s.clock);
    } else {
      assert l.entries[|l.entries|..] == [];
      RetainSlides(l, |l.entries|);
    }
  }

  lemma RetainSlidesLog(cfg: Config, l: Log, now: real, t: real)
    requires Dense(l) && Clocked(l, t)
    ensures Slides(l, Partitions.Retain(cfg, l, now))
  {
    hide Slides;
    if cfg.retentionMs <= 0 {
      SameEntriesSlide(l, l);
    } else {
      RetentionDropsPrefix(l.entries, Cutoff(cfg, now));
      RetainSlides(l, |l.entries| - |RetainedFrom(l.entries, Cutoff(cfg, now))|);
    }
  }

  lemma OtherOpKeepsEntries(s: System, op: Op, tp: TopicPartition)
    requires !(op.Append? || op.Retain? || op.Clear?)
    ensures PartOf(Step(s, op).broker, tp).log.entries == PartOf(s.broker, tp).log.entries
    ensures PartOf(Step(s, op).broker, tp).log.next == PartOf(s.broker, tp).log.next
  {
    if op.Poll? {
      if op.consumer in s.broker.consumers {
        PollKeepsEntries(s, op.consumer, op.maxMessages, op.now, tp);
      }
    } else if op.Commit? || op.Close? {
      if op.consumer in s.broker.consumers {
        CommitKeepsEntries(s.broker, s.broker.consumers[op.consumer], tp);
      }
    }
  }

  lemma CommitKeepsEntries(b: Broker, cs: ConsumerState, tp: TopicPartition)
    ensures PartOf(CommitPositions(b, cs), tp).log.entries == PartOf(b, tp).log.entries
    ensures PartOf(CommitPositions(b, cs), tp).log.next == PartOf(b, tp).log.next
  {
  }

  lemma PollKeepsEntries(s: System, c: ConsumerId, maxMessages: Option<int>, now: real, tp: TopicPartition)
    requires c in s.broker.consumers
    ensures PartOf(Step(s, Op.Poll(c, maxMessages, now)).broker, tp).log.entries == PartOf(s.broker, tp).log.entries
    ensures PartOf(Step(s, Op.Poll(c, maxMessages, now)).broker, tp).log.next == PartOf(s.broker, tp).log.next
    ensures Step(s, Op.Poll(c, maxMessages, now)).broker.consumers[c].offsets
            == PollResult(s.broker, s.broker.consumers[c], maxMessages).0.offsets
    ensures forall d :: d in s.broker.consumers && d != c ==>
                          d in Step(s, Op.Poll(c, maxMessages, now)).broker.consumers &&
                          Step(s, Op.Poll(c, maxMessages, now)).broker.consumers[d] == s.broker.consumers[d]
  {
    var mid := Moved(s, c, maxMessages, now);
    PollShape(s, c, maxMessages, now);
    CommitKeepsEntries(mid.broker, mid.broker.consumers[c], tp);
  }

  /** Steps other than its own polls move no position a consumer has; a missing one may be filled in. */
  lemma PositionStays(s: System, op: Op, c: ConsumerId, tp: TopicPartition)
    requires c in s.broker.consumers && !(op.Poll? && op.consumer == c)
    ensures c in Step(s, op).broker.consumers
    ensures tp in s.broker.consumers[c].offsets ==>
              && tp in Step(s, op).broker.consumers[c].offsets
              && Step(s, op).broker.consumers[c].offsets[tp] == s.broker.consumers[c].offsets[tp]
  {
    var b := s.broker;
    match op
    case Join(g, d) =>
      if d in b.consumers {
        RegroupKeepsPosition(Transferred(b, g, d), g, WithMember(GroupOf(b, g), d), {}, c, tp);
      }
    case Leave(g, d) =>
      RegroupKeepsPosition(b, g, GroupOf(b, g).(members := Without(GroupOf(b, g).members, d)), {d}, c, tp);
    case Subscribe(g, t, tps) =>
      RegroupKeepsPosition(b, g, GroupOf(b, g).(topics := OrderedDict.Put(GroupOf(b, g).topics, t, tps)), {}, c, tp);
    case Unsubscribe(g, t) =>
      RegroupKeepsPosition(b, g, GroupOf(b, g).(topics := OrderedDict.Remove(GroupOf(b, g).topics, t)), {}, c, tp);
    case RemoveDead(g, now) =>
      var gs := GroupOf(b, g);
      var live := Live(b, gs.members, now);
      RegroupKeepsPosition(b, g, gs.(members := live), (set d | d in gs.members && d !in live), c, tp);
    case Poll(d, n, now) =>
      if d in b.consumers {
        PollKeepsEntries(s, d, n, now, tp);
      }
    case _ =>
  }

  lemma RegroupKeepsPosition(b: Broker, g: GroupId, gs: GroupState, leavers: set<ConsumerId>, c: ConsumerId,
                             tp: TopicPartition)
    requires c in b.consumers
    ensures c in Regroup(b, g, gs, leavers).consumers
    ensures tp in b.consumers[c].offsets ==>
              && tp in Regroup(b, g, gs, leavers).consumers[c].offsets
              && Regroup(b, g, gs, leavers).consumers[c].offsets[tp] == b.consumers[c].offsets[tp]
  {
    RegroupState(b, g, gs, leavers, c);
    hide Regroup, Share, Seed;
    if c in gs.members {
      SeedKeeps(b.consumers[c].offsets,
                Seeds(b, b.consumers[c].group,
                      Share(gs.strategy, AllPartitions(gs.topics), |gs.members|, IndexOf(gs.members, c))));
    }
  }

  /** A poll of the consumer itself: what it adds lies between its old position and its new one. */
  lemma PollSees(s: System, op: Op, c: ConsumerId, tp: TopicPartition)
    requires Delivering(s) && op.Poll? && op.consumer == c && c in s.broker.consumers
    ensures var l := PartOf(s.broker, tp).log;
            var q := Position(s.broker.consumers[c].offsets, tp);
            var r := Position(PollResult(s.broker, s.broker.consumers[c], op.maxMessages).0.offsets, tp);
            && SeenInOrder(l, q, r, From(Handing(s, op, c), tp))
            && (Ample(s, op) ==> SeenAll(l, q, r, From(Handing(s, op, c), tp)))
            && (tp in s.broker.consumers[c].offsets ==>
                  tp in PollResult(s.broker, s.broker.consumers[c], op.maxMessages).0.offsets)
  {
    var cs := s.broker.consumers[c];
    var (polled, limit) := PollResult(s.broker, cs, op.maxMessages);
    var l := PartOf(s.broker, tp).log;
    PositionCovered(s, c, tp);
    assert LogOk(s, tp);
    assert Handing(s, op, c) == Returned(polled, limit);
    if Ample(s, op) {
      AmplePollReturnsAll(s, op);
    }
    if cs.owned != [] {
      var sources, per := SourcesOf(s.broker, cs.owned), PerPartition(limit, |cs.owned|);
      assert forall i :: 0 <= i < |sources| && sources[i].tp == tp ==> sources[i].entries == l.entries;
      assert polled == PollSources(sources, cs.offsets, per);
      hide PollResult, Ample, LogOk, SourcesOf;
      RoundSees(sources, cs.offsets, per, limit, tp, l);
    } else {
      assert polled.deliveries == [] && Returned(polled, limit) == [] && From([], tp) == [];
    }
  }

  lemma RoundSees(sources: seq<Source>, offsets: Offsets, per: nat, limit: int, tp: TopicPartition, l: Log)
    requires Dense(l) && 0 <= Position(offsets, tp) <= l.next
    requires forall i :: 0 <= i < |sources| && sources[i].tp == tp ==> sources[i].entries == l.entries
    ensures var polled := PollSources(sources, offsets, per);
            var q, r, got := Position(offsets, tp), Position(polled.offsets, tp), From(Returned(polled, limit), tp);
            && SeenInOrder(l, q, r, got)
            && (Withheld(polled, limit) == [] ==> SeenAll(l, q, r, got))
            && (tp in offsets ==> tp in polled.offsets)
  {
    var polled := PollSources(sources, offsets, per);
    assert Contiguous(l.entries) && From([], tp) == [];
    hide PollSources, Takes, SeenInOrder, SeenAll, From, Returned, Withheld, Dense, Contiguous;
    PollTakes(sources, offsets, per, tp, l.entries);
    PollKeepsKeys(sources, offsets, per, tp);
    ReturnedAndWithheld(polled, limit);
    FromConcat(Returned(polled, limit), Withheld(polled, limit), tp);
    TakesIsSeen(l, Position(offsets, tp), Position(polled.offsets, tp), From(Returned(polled, limit), tp),
                From(Withheld(polled, limit), tp));
  }

  lemma {:induction false} PollKeepsKeys(sources: seq<Source>, offsets: Offsets, per: int, tp: TopicPartition)
    ensures tp in offsets ==> tp in PollSources(sources, offsets, per).offsets
  {
    if sources == [] {
    } else {
      PollKeepsKeys(sources[..|sources| - 1], offsets, per, tp);
    }
  }

  lemma TakesIsSeen(l: Log, q: int, r: int, got: seq<Message>, rest: seq<Message>)
    requires Dense(l) && 0 <= q <= l.next && Takes(l.entries, q, r, got + rest)
    ensures SeenInOrder(l, q, r, got)
    ensures rest == [] ==> SeenAll(l, q, r, got)
  {
    TakesInOrder(l, q, r, got, rest);
    if rest == [] {
      assert got + rest == got;
      TakesAll(l, q, r, got);
    }
  }

  lemma TakesInOrder(l: Log, q: int, r: int, got: seq<Message>, rest: seq<Message>)
    requires Dense(l) && 0 <= q <= l.next && Takes(l.entries, q, r, got + rest)
    ensures SeenInOrder(l, q, r, got)
  {
    var i, base, all := ReadIndex(l.entries, q), l.next - |l.entries|, got + rest;
    forall k | 0 <= k < |got| ensures got[k] == l.entries[i + k] && got[k].offset == base + i + k {
      assert got[k] == all[k];
    }
    hide ReadIndex;
  }

  lemma TakesAll(l: Log, q: int, r: int, got: seq<Message>)
    requires Dense(l) && 0 <= q <= l.next && Takes(l.entries, q, r, got)
    ensures SeenAll(l, q, r, got)
  {
    forall o | q <= o < r && StillThere(l, o) ensures exists m :: m in got && m.offset == o {
      var m := TakesEverything(l, q, r, got, o);
    }
  }

  /** Two stretches in a row are one. */
  lemma SeenCompose(l: Log, p: int, q: int, r: int, a: seq<Message>, b: seq<Message>)
    requires SeenInOrder(l, p, q, a) && SeenInOrder(l, q, r, b)
    ensures SeenInOrder(l, p, r, a + b)
    ensures SeenAll(l, p, q, a) && SeenAll(l, q, r, b) ==> SeenAll(l, p, r, a + b)
  {
    var all := a + b;
    forall i, j | 0 <= i < j < |all| ensures all[i].offset < all[j].offset {
      if i < |a| <= j {
        assert a[i] in a && b[j - |a|] in b;
      }
    }
    if SeenAll(l, p, q, a) && SeenAll(l, q, r, b) {
      forall o | p <= o < r && StillThere(l, o) ensures exists m :: m in all && m.offset == o {
        if o < q {
          var m :| m in a && m.offset == o;
          assert m in all;
        } else {
          var m :| m in b && m.offset == o;
          assert m in all;
        }
      }
    }
  }

  /** Every poll of this one consumer has room for what it reads; the limits of others do not matter. */
  ghost predicate AmpleFor(s: System, ops: seq<Op>, c: ConsumerId) {
    ops == [] ||
    (&& AmpleFor(s, ops[..|ops| - 1], c)
     && (ops[|ops| - 1].Poll? && ops[|ops| - 1].consumer == c ==> Ample(Run(s, ops[..|ops| - 1]), ops[|ops| - 1])))
  }

  ghost predicate Seen(s: System, t: System, c: ConsumerId, tp: TopicPartition, got: seq<Message>, all: bool)
    requires c in s.broker.consumers
  {
    && c in t.broker.consumers
    && SeenInOrder(PartOf(t.broker, tp).log, Position(s.broker.consumers[c].offsets, tp),
                   Position(t.broker.consumers[c].offsets, tp), got)
    && (all ==>
          && tp in t.broker.consumers[c].offsets
          && SeenAll(PartOf(t.broker, tp).log, Position(s.broker.consumers[c].offsets, tp),
                     Position(t.broker.consumers[c].offsets, tp), got))
  }

  lemma StepSeen(s: System, t: System, op: Op, c: ConsumerId, tp: TopicPartition, got: seq<Message>, all: bool)
    requires c in s.broker.consumers && Seen(s, t, c, tp, got, all)
    requires Delivering(t) && Delivering(Step(t, op))
    requires all && op.Poll? && op.consumer == c ==> Ample(t, op)
    ensures Seen(s, Step(t, op), c, tp, got + From(Handing(t, op, c), tp), all)
  {
    var u := Step(t, op);
    var l, r := PartOf(t.broker, tp).log, PartOf(u.broker, tp).log;
    var p, q := Position(s.broker.consumers[c].offsets, tp), Position(t.broker.consumers[c].offsets, tp);
    StepSlides(t, op, tp);
    if op.Poll? && op.consumer == c {
      PollSees(t, op, c, tp);
      PollKeepsEntries(t, c, op.maxMessages, op.now, tp);
      hide Step, SeenInOrder, SeenAll, PollResult, Slides;
      var q' := Position(u.broker.consumers[c].offsets, tp);
      SeenCompose(l, p, q, q', got, From(Handing(t, op, c), tp));
      SeenIgnoresCommits(l, r, p, q', got + From(Handing(t, op, c), tp));
    } else {
      PositionStays(t, op, c, tp);
      assert Handing(t, op, c) == [] && From([], tp) == [] && got + [] == got;
      PositionCovered(u, c, tp);
      hide Step, SeenAll;
      SlideKeepsSeen(l, r, p, q, Position(u.broker.consumers[c].offsets, tp), got);
    }
  }

  lemma SeenIgnoresCommits(l: Log, r: Log, p: int, q: int, got: seq<Message>)
    requires l.entries == r.entries && l.next == r.next
    ensures SeenInOrder(l, p, q, got) ==> SeenInOrder(r, p, q, got)
    ensures SeenAll(l, p, q, got) ==> SeenAll(r, p, q, got)
  {
    assert forall o :: StillThere(l, o) <==> StillThere(r, o);
  }

  /**
   No repeat, no skip: from any reachable state and over any legal run, with retention and with any
   rebalances of any group, a consumer is handed each offset of a partition at most once and in order.
   If it has a position and its own limits are ample, it is handed every offset between its first position
   and its last that retention has left in the log.
   */
  lemma {:induction false} NoSkipNoRepeat(s: System, ops: seq<Op>, c: ConsumerId, tp: TopicPartition)
    requires Delivering(s) && c in s.broker.consumers && Legal(s, ops)
    ensures Seen(s, Run(s, ops), c, tp, From(Handed(s, ops, c), tp),
                 tp in s.broker.consumers[c].offsets && AmpleFor(s, ops, c))
  {
    if ops == [] {
      assert Handed(s, ops, c) == [] && From([], tp) == [];
      PositionCovered(s, c, tp);
    } else {
      var rest, op := ops[..|ops| - 1], ops[|ops| - 1];
      var all := tp in s.broker.consumers[c].offsets && AmpleFor(s, ops, c);
      NoSkipNoRepeat(s, rest, c, tp);
      RunDelivers(s, rest);
      StepDelivers(Run(s, rest), op);
      hide Step, SeenInOrder, SeenAll, Delivering, Ample, Position, Handing;
      StepSeen(s, Run(s, rest), op, c, tp, From(Handed(s, rest, c), tp), all);
      FromConcat(Handed(s, rest, c), Handing(Run(s, rest), op, c), tp);
    }
  }

  /** `got` is exactly the part of the log from offset `p` up to offset `q`. */
  ghost predicate IsStretch(l: Log, p: int, q: int, got: seq<Message>) {
    var base := l.next - |l.entries|;
    base <= p <= q <= l.next && got == l.entries[p - base..q - base]
  }

  /** Hence, where retention has not caught up with the first position, exactly a slice of the log. */
  lemma {:induction false} HandedIsSlice(s: System, ops: seq<Op>, c: ConsumerId, tp: TopicPartition)
    requires Delivering(s) && c in s.broker.consumers && Legal(s, ops)
    requires tp in s.broker.consumers[c].offsets && AmpleFor(s, ops, c)
    requires var l := PartOf(Run(s, ops).broker, tp).log; l.next - |l.entries| <= s.broker.consumers[c].offsets[tp]
    ensures c in Run(s, ops).broker.consumers
    ensures IsStretch(PartOf(Run(s, ops).broker, tp).log, s.broker.consumers[c].offsets[tp],
                      Position(Run(s, ops).broker.consumers[c].offsets, tp), From(Handed(s, ops, c), tp))
  {
    hide Run, Handed, Legal, AmpleFor, SeenInOrder, SeenAll, Delivering, IsStretch;
    NoSkipNoRepeat(s, ops, c, tp);
    SeenIsSlice(PartOf(Run(s, ops).broker, tp).log, s.broker.consumers[c].offsets[tp],
                Position(Run(s, ops).broker.consumers[c].offsets, tp), From(Handed(s, ops, c), tp));
  }

  lemma {:induction false} SeenIsSlice(l: Log, p: int, q: int, got: seq<Message>)
    requires l.next - |l.entries| <= p && SeenInOrder(l, p, q, got) && SeenAll(l, p, q, got)
    ensures IsStretch(l, p, q, got)
    decreases q
  {
    if p == q {
      SomeMember(got);
    } else {
      LastSeen(l, p, q, got);
      SeenAllButLast(l, p, q, got);
      hide SeenInOrder, SeenAll, IsStretch;
      SeenIsSlice(l, p, q - 1, got[..|got| - 1]);
      StretchExtends(l, p, q, got);
    }
  }

  lemma SomeMember(ms: seq<Message>)
    ensures ms == [] || exists m :: m in ms
  {
    if ms != [] {
      assert ms[0] in ms;
    }
  }

  lemma LastSeen(l: Log, p: int, q: int, got: seq<Message>)
    requires l.next - |l.entries| <= p < q && SeenInOrder(l, p, q, got) && SeenAll(l, p, q, got)
    ensures got != [] && got[|got| - 1].offset == q - 1 && q <= l.next
    ensures got[|got| - 1] == l.entries[q - 1 - (l.next - |l.entries|)]
  {
    assert StillThere(l, q - 1);
    var m :| m in got && m.offset == q - 1;
    LastIsGreatest(got, m);
  }

  lemma LastIsGreatest(got: seq<Message>, m: Message)
    requires Increasing(got) && m in got && forall x :: x in got ==> x.offset <= m.offset
    ensures got[|got| - 1] == m
  {
    var i :| 0 <= i < |got| && got[i] == m;
    assert got[|got| - 1] in got;
  }

  lemma SeenAllButLast(l: Log, p: int, q: int, got: seq<Message>)
    requires p < q && got != [] && SeenInOrder(l, p, q, got) && SeenAll(l, p, q, got) && got[|got| - 1].offset == q - 1
    ensures SeenInOrder(l, p, q - 1, got[..|got| - 1]) && SeenAll(l, p, q - 1, got[..|got| - 1])
  {
    var n := |got| - 1;
    var rest := got[..n];
    assert got == rest + [got[n]];
    MoreSeen(l, p, q, rest, got[n]);
    hide SeenAll;
    forall m | m in rest ensures m in got && p <= m.offset < q - 1 {
      var i :| 0 <= i < n && rest[i] == m;
      assert got[i] == m;
    }
  }

  lemma MoreSeen(l: Log, p: int, q: int, rest: seq<Message>, last: Message)
    requires SeenAll(l, p, q, rest + [last]) && last.offset == q - 1
    ensures SeenAll(l, p, q - 1, rest)
  {
    forall o | p <= o < q - 1 && StillThere(l, o) ensures exists m :: m in rest && m.offset == o {
      var m :| m in rest + [last] && m.offset == o;
      assert m in rest;
    }
  }

  /** One more message at the end of a stretch. */
  lemma StretchExtends(l: Log, p: int, q: int, got: seq<Message>)
    requires p < q <= l.next && got != [] && IsStretch(l, p, q - 1, got[..|got| - 1])
    requires got[|got| - 1] == l.entries[q - 1 - (l.next - |l.entries|)]
    ensures IsStretch(l, p, q, got)
  {
    var n, base := |got| - 1, l.next - |l.entries|;
    assert got == got[..n] + [got[n]];
    assert l.entries[p - base..q - base] == l.entries[p - base..q - 1 - base] + [l.entries[q - 1 - base]];
  }
}

/**
 Which joins endanger delivery: those, and only those, by which a consumer brings along a position that
 is not accounted for in its new group. From any other join the guarantee holds for good; from such a
 join a few legal steps lead to a commit past a message that the group never got.
 */
module JoinSafety {
  import opened Prelude
  import opened Partitions
  import opened Polling
  import opened Assignment
  import opened ConsumerProtocol
  import opened AtLeastOnce
  import opened Commits
  import OrderedDict

  /** Some legal run leads from `s` to `t`. */
  ghost predicate Leads(s: System, t: System) {
    exists ops: seq<Op> :: Legal(s, ops) && t == Run(s, ops)
  }

  lemma LeadsNowhere(s: System)
    ensures Leads(s, s)
  {
    assert Legal(s, []) && Run(s, []) == s;
  }

  lemma LeadsStep(s: System, t: System, op: Op)
    requires Leads(s, t) && Allowed(t, op)
    ensures Leads(s, Step(t, op))
  {
    var ops: seq<Op> :| Legal(s, ops) && t == Run(s, ops);
    assert (ops + [op])[..|ops|] == ops;
    assert Legal(s, ops + [op]) && Step(t, op) == Run(s, ops + [op]);
  }

  /** A member of the group with a position, in a group that lists everybody once. */
  ghost predicate Brings(s: System, g: GroupId, c: ConsumerId, tp: TopicPartition, n: int) {
    && c in s.broker.consumers && s.broker.consumers[c].group == g
    && c in GroupOf(s.broker, g).members && Distinct(GroupOf(s.broker, g).members)
    && tp in s.broker.consumers[c].offsets && s.broker.consumers[c].offsets[tp] == n
  }

  /** What decides whether a position is accounted for. */
  ghost predicate SameRecord(s: System, t: System) {
    s.broker.partitions == t.broker.partitions && s.history == t.history
  }

  lemma RegroupBrings(s: System, g: GroupId, gs: GroupState, leavers: set<ConsumerId>, c: ConsumerId,
                      tp: TopicPartition, n: int)
    requires Brings(s, g, c, tp, n) && c in gs.members && Distinct(gs.members)
    ensures var t := s.(broker := Regroup(s.broker, g, gs, leavers));
            && Brings(t, g, c, tp, n) && SameRecord(s, t) && GroupOf(t.broker, g) == gs
            && t.broker.consumers[c].owned
               == Share(gs.strategy, AllPartitions(gs.topics), |gs.members|, IndexOf(gs.members, c))
  {
    RegroupState(s.broker, g, gs, leavers, c);
    RegroupKeepsPosition(s.broker, g, gs, leavers, c, tp);
    hide Regroup, Seed, Share;
  }

  lemma {:induction false} WithoutIsShorter(members: seq<ConsumerId>, d: ConsumerId)
    requires d in members
    ensures |Without(members, d)| == |members| - 1
  {
    if members[0] != d {
      WithoutIsShorter(members[1..], d);
    }
  }

  lemma SomebodyElse(members: seq<ConsumerId>, c: ConsumerId) returns (d: ConsumerId)
    requires Distinct(members) && c in members && members != [c]
    ensures d in members && d != c
  {
    d := if members[0] == c then members[1] else members[0];
  }

  lemma LeaveBrings(s: System, t: System, g: GroupId, c: ConsumerId, d: ConsumerId, tp: TopicPartition, n: int)
    returns (u: System)
    requires Leads(s, t) && Brings(t, g, c, tp, n) && d in GroupOf(t.broker, g).members && d != c
    ensures Leads(s, u) && Brings(u, g, c, tp, n) && SameRecord(t, u)
    ensures |GroupOf(u.broker, g).members| < |GroupOf(t.broker, g).members|
  {
    var gs := GroupOf(t.broker, g);
    u := Step(t, Leave(g, d));
    LeadsStep(s, t, Leave(g, d));
    WithoutIsShorter(gs.members, d);
    WithoutIsDistinct(gs.members, d);
    WithoutMember(gs.members, d, c);
    RegroupBrings(t, g, gs.(members := Without(gs.members, d)), {d}, c, tp, n);
  }

  /** The others can leave one by one. */
  lemma {:induction false} OthersLeave(s: System, t: System, g: GroupId, c: ConsumerId, tp: TopicPartition, n: int)
    returns (u: System)
    requires Leads(s, t) && Brings(t, g, c, tp, n)
    ensures Leads(s, u) && Brings(u, g, c, tp, n) && SameRecord(t, u) && GroupOf(u.broker, g).members == [c]
    decreases |GroupOf(t.broker, g).members|
  {
    hide Leads;
    if GroupOf(t.broker, g).members == [c] {
      u := t;
    } else {
      var d := SomebodyElse(GroupOf(t.broker, g).members, c);
      var v := LeaveBrings(s, t, g, c, d, tp, n);
      u := OthersLeave(s, v, g, c, tp, n);
    }
  }

  lemma {:induction false} SubscribedIsListed(topics: OrderedDict.Dict<string, seq<TopicPartition>>, topic: string,
                                              tps: seq<TopicPartition>, tp: TopicPartition)
    requires tp in tps
    ensures tp in AllPartitions(OrderedDict.Put(topics, topic, tps))
  {
    var put := OrderedDict.Put(topics, topic, tps);
    if topics != [] && topics[0].0 != topic {
      SubscribedIsListed(topics[1..], topic, tps, tp);
      assert put[1..] == OrderedDict.Put(topics[1..], topic, tps);
    }
  }

  /** A single member is given everything. */
  lemma OnlyMemberOwnsAll<T>(strategy: Strategy, ps: seq<T>, p: T)
    requires p in ps
    ensures p in Share(strategy, ps, 1, 0)
  {
    if strategy == RoundRobin {
      var j: nat :| j < |ps| && ps[j] == p;
      assert j % 1 == 0;
      RoundRobinShareMembers(ps, 1, 0, p);
    } else {
      RangeSharesConcatenate(ps, 1);
      assert RangesTogether(ps, 1, 1) == RangesTogether(ps, 1, 0) + RangeShare(ps, 1, 0);
    }
  }

  /** Alone in its group a consumer can be given any partition. */
  lemma AloneIsGiven(s: System, t: System, g: GroupId, c: ConsumerId, tp: TopicPartition, n: int) returns (u: System)
    requires Leads(s, t) && Brings(t, g, c, tp, n) && GroupOf(t.broker, g).members == [c]
    ensures Leads(s, u) && Brings(u, g, c, tp, n) && SameRecord(t, u) && tp in u.broker.consumers[c].owned
  {
    var gs := GroupOf(t.broker, g);
    var topics := OrderedDict.Put(gs.topics, tp.topic, [tp]);
    u := Step(t, Subscribe(g, tp.topic, [tp]));
    LeadsStep(s, t, Subscribe(g, tp.topic, [tp]));
    RegroupBrings(t, g, gs.(topics := topics), {}, c, tp, n);
    SubscribedIsListed(gs.topics, tp.topic, [tp], tp);
    OnlyMemberOwnsAll(gs.strategy, AllPartitions(topics), tp);
  }

  /** An owner can commit: its position becomes the group's offset, and nothing else is recorded. */
  lemma OwnerCommits(s: System, t: System, g: GroupId, c: ConsumerId, tp: TopicPartition, n: int) returns (u: System)
    requires Leads(s, t) && Brings(t, g, c, tp, n) && tp in t.broker.consumers[c].owned
    ensures Leads(s, u) && Committed(PartOf(u.broker, tp).log, g) == n
    ensures u.history == t.history && PartOf(u.broker, tp).log.next == PartOf(t.broker, tp).log.next
  {
    u := Step(t, Op.Commit(c, 0.0));
    LeadsStep(s, t, Op.Commit(c, 0.0));
    CommitWrites(t.broker, t.broker.consumers[c], g, tp);
    CommitKeepsEntries(t.broker, t.broker.consumers[c], tp);
    assert PartOf(u.broker, tp) == PartOf(CommitPositions(t.broker, t.broker.consumers[c]), tp);
  }

  /** From a join with a position that is not accounted for, a legal run ends in a commit that is not. */
  lemma UncoveredJoinFails(s: System, g: GroupId, c: ConsumerId, tp: TopicPartition) returns (u: System)
    requires c in s.broker.consumers && Distinct(GroupOf(s.broker, g).members)
    requires tp in s.broker.consumers[c].offsets && !Covered(s, g, tp, s.broker.consumers[c].offsets[tp])
    ensures Leads(Step(s, Join(g, c)), u) && !CommitsOk(u, tp)
  {
    var n, t, joined := s.broker.consumers[c].offsets[tp], Step(s, Join(g, c)), WithMember(GroupOf(s.broker, g), c);
    JoinIsRegroup(s, g, c);
    var moved := s.(broker := Transferred(s.broker, g, c));
    RegroupState(moved.broker, g, joined, {}, c);
    JoinedPositions(s, g, c);
    assert Brings(t, g, c, tp, n) && SameRecord(s, t);
    hide Leads, Brings;
    LeadsNowhere(t);
    var alone := OthersLeave(t, t, g, c, tp, n);
    var given := AloneIsGiven(t, alone, g, c, tp, n);
    u := OwnerCommits(t, given, g, c, tp, n);
    assert Covered(u, g, tp, n) ==> Covered(s, g, tp, n);
  }

  /** Whatever legal steps follow, everything below any committed offset is accounted for. */
  ghost predicate SafeForever(s: System) {
    forall more, tp :: Legal(s, more) ==> CommitsOk(Run(s, more), tp)
  }

  /**
   Whatever happens after a join, committed offsets stay accounted for, if and only if every position the
   consumer brings along is accounted for in its new group.
   */
  lemma {:induction false} JoinIsSafeIff(s: System, g: GroupId, c: ConsumerId)
    requires Delivering(s) && c in s.broker.consumers && Distinct(GroupOf(s.broker, g).members)
    ensures SafeForever(Step(s, Join(g, c))) <==>
            forall tp :: tp in s.broker.consumers[c].offsets ==> Covered(s, g, tp, s.broker.consumers[c].offsets[tp])
  {
    var t, offsets := Step(s, Join(g, c)), s.broker.consumers[c].offsets;
    hide Step, Covered, CommitsOk, Run, Legal;
    if tp :| tp in offsets && !Covered(s, g, tp, offsets[tp]) {
      var u := UncoveredJoinFails(s, g, c, tp);
      var more: seq<Op> :| Legal(t, more) && u == Run(t, more);
      assert !CommitsOk(Run(t, more), tp);
    } else {
      JoinDeliversIff(s, g, c);
      forall more, tp | Legal(t, more) ensures CommitsOk(Run(t, more), tp) {
        RunDelivers(t, more);
      }
    }
  }

  /** So it is after every legal run. */
  lemma {:induction false} ReachableJoinIsSafeIff(s0: System, ops: seq<Op>, g: GroupId, c: ConsumerId)
    requires Initial(s0) && Legal(s0, ops) && c in Run(s0, ops).broker.consumers
    ensures var s := Run(s0, ops);
            SafeForever(Step(s, Join(g, c))) <==>
            forall tp :: tp in s.broker.consumers[c].offsets ==> Covered(s, g, tp, s.broker.consumers[c].offsets[tp])
  {
    LegalRunDelivers(s0, ops);
    RunMembersDistinct(s0, ops);
    hide Step, Covered, CommitsOk, Run, Legal;
    JoinIsSafeIff(Run(s0, ops), g, c);
  }
}

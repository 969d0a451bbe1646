/**
 When committed offsets only go up: as long as no rebalance hands a member a partition in which the
 position it has kept lies below what its group has committed, no step lowers a committed offset; a
 rebalance that does is undone by the very next commit.
 */
module Commits {
  import opened Prelude
  import opened Partitions
  import opened Polling
  import opened Assignment
  import opened ConsumerProtocol
  import opened AtLeastOnce
  import opened Ownership

  /** Every position in an owned partition has reached what the group has committed there. */
  ghost predicate Ahead(b: Broker) {
    forall c, tp :: c in b.consumers && tp in b.consumers[c].owned ==>
                      Position(b.consumers[c].offsets, tp) >= Committed(PartOf(b, tp).log, b.consumers[c].group)
  }

  /** Within a group no partition is held twice. */
  ghost predicate Exclusive(b: Broker) {
    forall c, d :: c in b.consumers && d in b.consumers && c != d && b.consumers[c].group == b.consumers[d].group ==>
                     forall tp :: tp in b.consumers[c].owned ==> tp !in b.consumers[d].owned
  }

  /** No group shares out a partition twice: where one is subscribed twice, it falls to the same member. */
  ghost predicate SharedOnce(b: Broker) {
    forall g, tp :: SharesOnce(GroupOf(b, g), tp)
  }

  ghost predicate SharesOnce(gs: GroupState, tp: TopicPartition) {
    gs.members != [] ==> OneTurn(gs.strategy, AllPartitions(gs.topics), |gs.members|, tp)
  }

  ghost function NewGroup(b: Broker, op: Op, c: ConsumerId): GroupId
    requires c in b.consumers
  {
    if op.Join? && op.consumer == c then op.group else b.consumers[c].group
  }

  /**
   The step is a rebalance with, for some member, a partition in its share in which the position it has
   kept lies below the group's commit.
   */
  ghost predicate HandsStale(s: System, op: Op) {
    exists c, tp :: Stale(s.broker, op, c, tp)
  }

  ghost predicate Stale(b: Broker, op: Op, c: ConsumerId, tp: TopicPartition) {
    && NewShape(b, op).Some?
    && var gs := NewShape(b, op).value;
    && c in b.consumers && c in gs.members
    && tp in Share(gs.strategy, AllPartitions(gs.topics), |gs.members|, IndexOf(gs.members, c))
    && tp in b.consumers[c].offsets
    && b.consumers[c].offsets[tp] < Committed(PartOf(b, tp).log, NewGroup(b, op, c))
  }

  lemma OwningIsExclusive(b: Broker)
    requires Owning(b) && SharedOnce(b)
    ensures Exclusive(b)
  {
    forall c, d, tp | c in b.consumers && d in b.consumers && c != d && b.consumers[c].group == b.consumers[d].group
                      && tp in b.consumers[c].owned
      ensures tp !in b.consumers[d].owned
    {
      if tp in b.consumers[d].owned {
        var g := b.consumers[c].group;
        var gs := GroupOf(b, g);
        OwnsByPlace(b, g, tp, c);
        OwnsByPlace(b, g, tp, d);
        assert SharesOnce(gs, tp);
        hide Owning, SharedOnce, Share, OwnedBy;
        TwoShares(gs.strategy, AllPartitions(gs.topics), |gs.members|, tp, IndexOf(gs.members, c),
                  IndexOf(gs.members, d));
      }
    }
  }

  lemma TwoShares(strategy: Strategy, tps: seq<TopicPartition>, m: nat, tp: TopicPartition, i: nat, k: nat)
    requires 0 < m && OneTurn(strategy, tps, m, tp)
    requires OwnedBy(strategy, tps, m, tp, i) && OwnedBy(strategy, tps, m, tp, k)
    ensures i == k
  {
    ShareWithin(strategy, tps, m, i, tp);
    OneOwnerIff(strategy, tps, m, tp);
    var owner :| OnlyOwner(strategy, tps, m, tp, owner);
  }

  /** What a commit writes, and what it leaves alone. */
  lemma CommitWrites(b: Broker, cs: ConsumerState, g: GroupId, tp: TopicPartition)
    ensures Committed(PartOf(CommitPositions(b, cs), tp).log, g) ==
            if tp in cs.owned && g == cs.group then Position(cs.offsets, tp) else Committed(PartOf(b, tp).log, g)
  {
  }

  /** Commit raises what it writes, and leaves the committing consumer exactly at the commit. */
  lemma CommitKeepsAhead(b: Broker, c: ConsumerId, r: Broker)
    requires Ahead(b) && Exclusive(b) && c in b.consumers
    requires r.partitions == CommitPositions(b, b.consumers[c]).partitions && r.consumers.Keys == b.consumers.Keys
    requires forall d :: d in b.consumers ==>
                           && r.consumers[d].offsets == b.consumers[d].offsets
                              && r.consumers[d].group == b.consumers[d].group
                           && r.consumers[d].owned == b.consumers[d].owned
    ensures Ahead(r)
    ensures forall g, tp :: Committed(PartOf(b, tp).log, g) <= Committed(PartOf(r, tp).log, g)
  {
    var cs := b.consumers[c];
    forall g, tp ensures Committed(PartOf(r, tp).log, g) ==
                         if tp in cs.owned && g == cs.group then Position(cs.offsets, tp)
                         else Committed(PartOf(b, tp).log, g)
    {
      CommitWrites(b, cs, g, tp);
      assert PartOf(r, tp) == PartOf(CommitPositions(b, cs), tp);
    }
    hide CommitPositions;
  }

  lemma PollForward(s: System, op: Op, tp: TopicPartition)
    requires Delivering(s) && op.Poll? && op.consumer in s.broker.consumers
    ensures Position(s.broker.consumers[op.consumer].offsets, tp)
            <= Position(PollResult(s.broker, s.broker.consumers[op.consumer], op.maxMessages).0.offsets, tp)
  {
    PollSees(s, op, op.consumer, tp);
  }

  /** Positions that move on keep ahead. */
  lemma MoveKeepsAhead(b: Broker, c: ConsumerId, moved: ConsumerState)
    requires Ahead(b) && Exclusive(b) && c in b.consumers
    requires moved.owned == b.consumers[c].owned && moved.group == b.consumers[c].group
    requires forall tp :: Position(b.consumers[c].offsets, tp) <= Position(moved.offsets, tp)
    ensures Ahead(b.(consumers := b.consumers[c := moved])) && Exclusive(b.(consumers := b.consumers[c := moved]))
    ensures forall tp :: PartOf(b.(consumers := b.consumers[c := moved]), tp) == PartOf(b, tp)
  {
    var r := b.(consumers := b.consumers[c := moved]);
    assert forall tp :: PartOf(r, tp) == PartOf(b, tp);
    forall d, tp | d in r.consumers && tp in r.consumers[d].owned
      ensures Position(r.consumers[d].offsets, tp) >= Committed(PartOf(r, tp).log, r.consumers[d].group)
    {
      assert d in b.consumers && tp in b.consumers[d].owned;
    }
  }

  /** A poll moves positions, and may then commit them. */
  lemma PollParts(s: System, op: Op) returns (moved: ConsumerState, mid: Broker)
    requires op.Poll? && op.consumer in s.broker.consumers
    ensures var cs := s.broker.consumers[op.consumer];
            && moved.owned == cs.owned && moved.group == cs.group
            && moved.offsets == PollResult(s.broker, cs, op.maxMessages).0.offsets
            && mid == s.broker.(consumers := s.broker.consumers[op.consumer := moved])
    ensures var r := Step(s, op).broker;
            || r == mid
            || (&& r.partitions == CommitPositions(mid, moved).partitions
                && r.consumers == mid.consumers[op.consumer := moved.(lastCommit := op.now)])
  {
    PollShape(s, op.consumer, op.maxMessages, op.now);
    mid := Moved(s, op.consumer, op.maxMessages, op.now).broker;
    moved := mid.consumers[op.consumer];
  }

  lemma PollKeepsAhead(s: System, op: Op)
    requires Delivering(s) && Ahead(s.broker) && Exclusive(s.broker) && op.Poll? && op.consumer in s.broker.consumers
    ensures Ahead(Step(s, op).broker)
    ensures forall g, tp :: Committed(PartOf(s.broker, tp).log, g) <= Committed(PartOf(Step(s, op).broker, tp).log, g)
  {
    hide Step, PollResult, Delivering, Ahead, Exclusive, Committed, PartOf, CommitPositions, Position;
    var moved, mid := PollParts(s, op);
    forall tp ensures Position(s.broker.consumers[op.consumer].offsets, tp) <= Position(moved.offsets, tp) {
      PollForward(s, op, tp);
    }
    MoveKeepsAhead(s.broker, op.consumer, moved);
    if Step(s, op).broker != mid {
      CommitKeepsAhead(mid, op.consumer, Step(s, op).broker);
    }
  }

  lemma AssignedPosition(b: Broker, cs: ConsumerState, tps: seq<TopicPartition>, tp: TopicPartition)
    requires tp in tps
    ensures Position(Assigned(b, cs, tps).offsets, tp) ==
            if tp in cs.offsets then cs.offsets[tp] else Committed(PartOf(b, tp).log, cs.group)
  {
    SeedFills(cs.offsets, Seeds(b, cs.group, tps));
    var k :| 0 <= k < |tps| && tps[k] == tp;
    var seeds := Seeds(b, cs.group, tps);
    assert seeds[k] == (tp, Committed(PartOf(b, tp).log, cs.group));
    SeedSources(cs.offsets, seeds, tp);
    SeedKeeps(cs.offsets, seeds);
  }

  lemma {:induction false} SeedFills(offsets: Offsets, seeds: seq<(TopicPartition, int)>)
    ensures forall k :: 0 <= k < |seeds| ==> seeds[k].0 in Seed(offsets, seeds)
  {
    if seeds == [] {
    } else {
      var n := |seeds| - 1;
      SeedFills(offsets, seeds[..n]);
      SeedKeeps(Seed(offsets, seeds[..n]), [seeds[n]]);
    }
  }

  lemma EnteringChanges(b: Broker, op: Op)
    ensures var e := Entering(b, op);
            && e.partitions == b.partitions && e.consumers.Keys == b.consumers.Keys
            && forall c :: c in b.consumers ==> e.consumers[c] == b.consumers[c].(group := NewGroup(b, op, c))
  {
  }

  lemma GroupedKeepsAhead(s: System, op: Op)
    requires Ahead(s.broker) && !Ungrouped(op) && !HandsStale(s, op)
    ensures Ahead(Step(s, op).broker)
    ensures Step(s, op).broker.partitions == s.broker.partitions
  {
    GroupedIsRegroup(s, op);
    if NewShape(s.broker, op).Some? {
      var b, leavers := Entering(s.broker, op), set c | c in Leavers(s.broker, op);
      var gs, r := NewShape(s.broker, op).value, Step(s, op).broker;
      EnteringChanges(s.broker, op);
      assert r.partitions == b.partitions && r.consumers.Keys == b.consumers.Keys;
      assert r == Regroup(b, op.group, gs, leavers);
      assert forall tp :: PartOf(r, tp) == PartOf(s.broker, tp);
      hide Step, NewShape, Entering, NewGroup, Regroup, Stale, PartOf, Position, Committed;
      forall c, tp | c in r.consumers && tp in r.consumers[c].owned
        ensures Position(r.consumers[c].offsets, tp) >= Committed(PartOf(r, tp).log, r.consumers[c].group)
      {
        MemberAhead(s, op, b, gs, leavers, c, tp);
      }
    }
  }

  lemma MemberAhead(s: System, op: Op, b: Broker, gs: GroupState, leavers: set<ConsumerId>, c: ConsumerId,
                    tp: TopicPartition)
    requires Ahead(s.broker) && !Stale(s.broker, op, c, tp)
    requires NewShape(s.broker, op) == Some(gs) && (op.Join? ==> op.consumer in gs.members)
    requires c in b.consumers && b.partitions == s.broker.partitions && b.consumers.Keys == s.broker.consumers.Keys
    requires b.consumers[c] == s.broker.consumers[c].(group := NewGroup(s.broker, op, c))
    ensures var r := Regroup(b, op.group, gs, leavers).consumers;
            && c in r
            && (tp in r[c].owned ==> Position(r[c].offsets, tp) >= Committed(PartOf(s.broker, tp).log, r[c].group))
  {
    RegroupState(b, op.group, gs, leavers, c);
    assert PartOf(s.broker, tp) == PartOf(b, tp);
    hide Regroup, NewShape, Share, Seed, Seeds;
    if c in gs.members {
      var share := Share(gs.strategy, AllPartitions(gs.topics), |gs.members|, IndexOf(gs.members, c));
      if tp in share {
        AssignedPosition(b, b.consumers[c], share, tp);
      }
    } else {
      assert b.consumers[c] == s.broker.consumers[c];
    }
  }

  lemma StepKeepsAhead(s: System, op: Op)
    requires Delivering(s) && Ahead(s.broker) && Exclusive(s.broker) && !HandsStale(s, op)
    ensures Ahead(Step(s, op).broker)
    ensures forall g, tp :: Committed(PartOf(s.broker, tp).log, g) <= Committed(PartOf(Step(s, op).broker, tp).log, g)
  {
    if (op.Poll? || op.Commit? || op.Close?) && op.consumer !in s.broker.consumers {
      assert Step(s, op) == s;
      hide Step;
    } else {
      hide Step, Delivering, Exclusive, Ahead;
      if op.Append? || op.Retain? || op.Clear? {
        LogsKeepAhead(s, op);
      } else if op.Poll? {
        PollKeepsAhead(s, op);
      } else if op.Commit? || op.Close? {
        CommittingKeepsAhead(s, op);
      } else {
        GroupedKeepsAhead(s, op);
        assert forall tp :: PartOf(Step(s, op).broker, tp) == PartOf(s.broker, tp);
      }
    }
  }

  lemma LogsKeepAhead(s: System, op: Op)
    requires Ahead(s.broker) && (op.Append? || op.Retain? || op.Clear?)
    ensures Ahead(Step(s, op).broker)
    ensures forall g, tp :: Committed(PartOf(s.broker, tp).log, g) <= Committed(PartOf(Step(s, op).broker, tp).log, g)
  {
    OnlyLogs(s, op);
    hide Step, PartOf;
  }

  lemma CommittingKeepsAhead(s: System, op: Op)
    requires Ahead(s.broker) && Exclusive(s.broker) && (op.Commit? || op.Close?) && op.consumer in s.broker.consumers
    ensures Ahead(Step(s, op).broker)
    ensures forall g, tp :: Committed(PartOf(s.broker, tp).log, g) <= Committed(PartOf(Step(s, op).broker, tp).log, g)
  {
    hide Exclusive, Ahead, PartOf, CommitPositions;
    CommitKeepsAhead(s.broker, op.consumer, Step(s, op).broker);
  }

  lemma OnlyLogs(s: System, op: Op)
    requires op.Append? || op.Retain? || op.Clear?
    ensures Step(s, op).broker.consumers == s.broker.consumers
    ensures forall tp :: PartOf(Step(s, op).broker, tp).log.committed == PartOf(s.broker, tp).log.committed
  {
  }

  ghost predicate NeverStale(s: System, ops: seq<Op>) {
    ops == [] || (NeverStale(s, ops[..|ops| - 1]) && !HandsStale(Run(s, ops[..|ops| - 1]), ops[|ops| - 1]))
  }

  ghost predicate AlwaysSharedOnce(s: System, ops: seq<Op>) {
    SharedOnce(Run(s, ops).broker) && (ops == [] || AlwaysSharedOnce(s, ops[..|ops| - 1]))
  }

  lemma {:induction false} RunKeepsAhead(s: System, ops: seq<Op>)
    requires Initial(s) && Legal(s, ops) && OneGroupAtATime(s, ops) && AlwaysSharedOnce(s, ops) && NeverStale(s, ops)
    ensures Delivering(Run(s, ops)) && Exclusive(Run(s, ops).broker) && Ahead(Run(s, ops).broker)
  {
    RunInvariant(s, ops);
    OwningIsExclusive(Run(s, ops).broker);
    if ops == [] {
    } else {
      RunKeepsAhead(s, ops[..|ops| - 1]);
      hide Delivering, Owning, Step, HandsStale, Exclusive;
      StepKeepsAhead(Run(s, ops[..|ops| - 1]), ops[|ops| - 1]);
    }
  }

  /**
   Committed offsets never go down, over every legal run in which a consumer joins a group only while no
   other group lists it and no group shares out a partition twice, as long as no rebalance hands a member a
   partition in which its kept position lies below the group's commit.
   */
  lemma {:induction false} CommitsNeverDrop(s: System, ops: seq<Op>, k: nat, g: GroupId, tp: TopicPartition)
    requires Initial(s) && Legal(s, ops) && OneGroupAtATime(s, ops) && AlwaysSharedOnce(s, ops) && NeverStale(s, ops)
    requires k <= |ops|
    ensures Committed(PartOf(Run(s, ops[..k]).broker, tp).log, g) <= Committed(PartOf(Run(s, ops).broker, tp).log, g)
  {
    if k == |ops| {
      assert ops[..k] == ops;
    } else {
      var rest := ops[..|ops| - 1];
      assert rest[..k] == ops[..k];
      CommitsNeverDrop(s, rest, k, g, tp);
      RunKeepsAhead(s, rest);
      hide Delivering, Step, HandsStale, Exclusive, Ahead;
      StepKeepsAhead(Run(s, rest), ops[|ops| - 1]);
    }
  }

  /**
   And the condition is exact at every rebalance: no commit made right after it lowers anything if and
   only if it hands nobody a partition in which its kept position lies below the group's commit.
   */
  lemma {:induction false} HandoverIsSafeIff(s: System, op: Op)
    requires Ahead(s.broker) && !Ungrouped(op)
    ensures !HandsStale(s, op) <==>
            forall c, now, g, tp :: Committed(PartOf(Step(s, op).broker, tp).log, g)
                                    <= Committed(PartOf(Step(Step(s, op), Op.Commit(c, now)).broker, tp).log, g)
  {
    var t := Step(s, op);
    if HandsStale(s, op) {
      var c, tp :| Stale(s.broker, op, c, tp);
      StaleCommitLowers(s, op, c, tp);
    } else {
      GroupedKeepsAhead(s, op);
      forall c, now: real, g, tp ensures Committed(PartOf(t.broker, tp).log, g)
                                         <= Committed(PartOf(Step(t, Op.Commit(c, now)).broker, tp).log, g)
      {
        AheadCommitRaises(t, c, now, g, tp);
      }
    }
  }

  lemma AheadCommitRaises(t: System, c: ConsumerId, now: real, g: GroupId, tp: TopicPartition)
    requires Ahead(t.broker)
    ensures Committed(PartOf(t.broker, tp).log, g) <= Committed(PartOf(Step(t, Op.Commit(c, now)).broker, tp).log, g)
  {
    if c in t.broker.consumers {
      CommitWrites(t.broker, t.broker.consumers[c], g, tp);
    }
  }

  /** A stale handover leaves the member with the partition and with a position below the commit. */
  lemma StaleHandover(s: System, op: Op, c: ConsumerId, tp: TopicPartition)
    requires Stale(s.broker, op, c, tp)
    ensures var r, g := Step(s, op).broker, NewGroup(s.broker, op, c);
            && c in r.consumers && r.consumers[c].group == g && tp in r.consumers[c].owned
            && Position(r.consumers[c].offsets, tp) < Committed(PartOf(r, tp).log, g)
  {
    GroupedIsRegroup(s, op);
    var b, leavers := Entering(s.broker, op), set d | d in Leavers(s.broker, op);
    var gs, r := NewShape(s.broker, op).value, Step(s, op).broker;
    var share := Share(gs.strategy, AllPartitions(gs.topics), |gs.members|, IndexOf(gs.members, c));
    EnteringChanges(s.broker, op);
    RegroupState(b, op.group, gs, leavers, c);
    assert PartOf(r, tp) == PartOf(b, tp) == PartOf(s.broker, tp);
    hide Regroup, Step, NewShape, Entering, NewGroup, Share, Seed, Seeds;
    AssignedPosition(b, b.consumers[c], share, tp);
  }

  lemma StaleCommitLowers(s: System, op: Op, c: ConsumerId, tp: TopicPartition)
    requires Stale(s.broker, op, c, tp)
    ensures var t, g := Step(s, op), NewGroup(s.broker, op, c);
            Committed(PartOf(Step(t, Op.Commit(c, 0.0)).broker, tp).log, g) < Committed(PartOf(t.broker, tp).log, g)
  {
    StaleHandover(s, op, c, tp);
    hide Stale, NewShape;
    CommitStepWrites(Step(s, op), c, NewGroup(s.broker, op, c), tp);
  }

  lemma CommitStepWrites(t: System, c: ConsumerId, g: GroupId, tp: TopicPartition)
    requires c in t.broker.consumers && tp in t.broker.consumers[c].owned && t.broker.consumers[c].group == g
    ensures Committed(PartOf(Step(t, Op.Commit(c, 0.0)).broker, tp).log, g)
            == Position(t.broker.consumers[c].offsets, tp)
  {
    CommitWrites(t.broker, t.broker.consumers[c], g, tp);
  }
}

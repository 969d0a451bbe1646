/**
 Who owns what: as long as a consumer joins a group only while no other group lists it, every group hands
 each of its partitions to its members in exact shares. A join by a consumer that another group still
 lists can leave that group's partitions without an owner.
 */
module Ownership {
  import opened Prelude
  import opened Partitions
  import Polling
  import opened Assignment
  import opened ConsumerProtocol
  import opened AtLeastOnce

  // ---------------------------------------------------------------- every step keeps the shares

  /** The shape a group may take: known consumers of this group, and everyone who drops out gives up its partitions. */
  ghost predicate Regroupable(b: Broker, g: GroupId, gs: GroupState, leavers: set<ConsumerId>) {
    && Distinct(gs.members)
    && (forall c :: c in gs.members ==> c in b.consumers && b.consumers[c].group == g)
    && (forall c :: c in leavers && c in b.consumers ==> b.consumers[c].group == g)
    && (forall c :: c in GroupOf(b, g).members && c !in gs.members ==> c in leavers)
  }

  lemma RegroupOwns(b: Broker, g: GroupId, gs: GroupState, leavers: set<ConsumerId>)
    requires forall h :: h != g ==> GroupOk(b, h)
    requires forall c :: c in b.consumers ==> ConsumerOk(b, c)
    requires Regroupable(b, g, gs, leavers)
    ensures Owning(Regroup(b, g, gs, leavers))
  {
    var r := Regroup(b, g, gs, leavers);
    forall h ensures GroupOk(r, h) {
      if h != g {
        assert GroupOk(b, h);
        assert GroupOf(r, h) == GroupOf(b, h);
        assert forall c :: c in GroupOf(b, h).members ==> b.consumers[c].group == h && r.consumers[c] == b.consumers[c];
      } else {
        forall i | 0 <= i < |gs.members|
          ensures r.consumers[gs.members[i]].owned == Share(gs.strategy, AllPartitions(gs.topics), |gs.members|, i)
        {
          assert IndexOf(gs.members, gs.members[i]) == i;
        }
      }
    }
    forall c | c in r.consumers ensures ConsumerOk(r, c) {
      assert ConsumerOk(b, c);
      if b.consumers[c].group != g {
        assert GroupOf(r, b.consumers[c].group) == GroupOf(b, b.consumers[c].group);
      }
    }
  }

  lemma SameOwnershipOwns(b: Broker, r: Broker)
    requires Owning(b) && SameOwnership(b, r)
    ensures Owning(r)
  {
    forall g ensures GroupOk(r, g) {
      assert GroupOk(b, g);
    }
    forall c | c in r.consumers ensures ConsumerOk(r, c) {
      assert ConsumerOk(b, c);
    }
  }

  /** A consumer that no other group lists takes nothing along when it changes its group. */
  lemma EnteringOwns(b: Broker, op: Op)
    requires Owning(b) && JoinsAlone(b, op) && !Ungrouped(op)
    ensures var e := Entering(b, op);
            && (forall h :: h != op.group ==> GroupOk(e, h))
            && (forall c :: c in e.consumers ==> ConsumerOk(e, c))
  {
    var e := Entering(b, op);
    forall h | h != op.group ensures GroupOk(e, h) {
      assert GroupOk(b, h);
    }
    forall c | c in e.consumers ensures ConsumerOk(e, c) {
      assert ConsumerOk(b, c);
    }
  }

  /** Who is in the new shape, and who is not: members stay or join, and those who go are the leavers. */
  lemma ShapeMembers(b: Broker, op: Op)
    requires NewShape(b, op).Some? && Distinct(GroupOf(b, op.group).members)
    ensures var was, now := GroupOf(b, op.group).members, NewShape(b, op).value.members;
            && (forall d :: d in now ==> d in was || (op.Join? && op.consumer == d))
            && (forall d :: d in was && d !in now ==> d in Leavers(b, op))
            && forall d :: d in Leavers(b, op) ==> d in was
  {
    var was := GroupOf(b, op.group).members;
    match op
    case Leave(g, c) =>
      forall d ensures d in Without(was, c) <==> d in was && d != c {
        WithoutMember(was, c, d);
      }
    case RemoveDead(g, time) => LiveIsSublist(b, was, time);
    case _ =>
  }

  lemma NewShapeIsRegroupable(b: Broker, op: Op)
    requires Owning(b) && !Ungrouped(op) && NewShape(b, op).Some?
    ensures Regroupable(Entering(b, op), op.group, NewShape(b, op).value, set c | c in Leavers(b, op))
  {
    assert GroupOk(b, op.group);
    NewShapeIsDistinct(b, op);
    ShapeMembers(b, op);
    assert op.Join? ==> op.consumer in b.consumers;
    hide Owning, NewShape, Leavers, Share, AllPartitions;
    var was := GroupOf(b, op.group).members;
    forall d | d in was ensures d in b.consumers && b.consumers[d].group == op.group {
      var i :| 0 <= i < |was| && was[i] == d;
    }
  }

  lemma {:induction false} StepOwns(s: System, op: Op)
    requires Owning(s.broker) && JoinsAlone(s.broker, op)
    ensures Owning(Step(s, op).broker)
  {
    if Ungrouped(op) {
      UngroupedSameOwnership(s, op);
      SameOwnershipOwns(s.broker, Step(s, op).broker);
    } else {
      GroupedIsRegroup(s, op);
      if NewShape(s.broker, op).Some? {
        EnteringOwns(s.broker, op);
        NewShapeIsRegroupable(s.broker, op);
        hide Step, Owning, Regroup, Regroupable, NewShape, Entering, Leavers, GroupOk, ConsumerOk;
        RegroupOwns(Entering(s.broker, op), op.group, NewShape(s.broker, op).value,
                    set c | c in Leavers(s.broker, op));
      }
    }
  }

  lemma {:induction false} RunOwns(s: System, ops: seq<Op>)
    requires Owning(s.broker) && OneGroupAtATime(s, ops)
    ensures Owning(Run(s, ops).broker)
  {
    if ops == [] {
    } else {
      RunOwns(s, ops[..|ops| - 1]);
      StepOwns(Run(s, ops[..|ops| - 1]), ops[|ops| - 1]);
    }
  }

  lemma InitialOwns(s: System)
    requires Initial(s)
    ensures Owning(s.broker)
  {
    forall g ensures GroupOk(s.broker, g) {
    }
  }

  lemma {:induction false} RunInvariant(s: System, ops: seq<Op>)
    requires Initial(s)
    ensures Legal(s, ops) ==> Delivering(Run(s, ops))
    ensures OneGroupAtATime(s, ops) ==> Owning(Run(s, ops).broker)
  {
    if Legal(s, ops) {
      LegalRunDelivers(s, ops);
    }
    if OneGroupAtATime(s, ops) {
      InitialOwns(s);
      RunOwns(s, ops);
    }
  }

  // ---------------------------------------------------------------- exclusive, balanced ownership

  /** A member owns the partition, and no other consumer of the group does. */
  ghost predicate SoleOwner(b: Broker, g: GroupId, tp: TopicPartition, owner: ConsumerId) {
    && owner in GroupOf(b, g).members
    && forall c :: c in b.consumers && b.consumers[c].group == g ==> (tp in b.consumers[c].owned <==> c == owner)
  }

  /** What a consumer of the group owns is decided by its place among the members. */
  lemma OwnsByPlace(b: Broker, g: GroupId, tp: TopicPartition, c: ConsumerId)
    requires Owning(b) && c in b.consumers && b.consumers[c].group == g
    ensures var gs := GroupOf(b, g);
            tp in b.consumers[c].owned <==>
            && c in gs.members
            && OwnedBy(gs.strategy, AllPartitions(gs.topics), |gs.members|, tp, IndexOf(gs.members, c))
  {
    assert GroupOk(b, g) && ConsumerOk(b, c);
    hide Owning;
    if c in GroupOf(b, g).members {
      var k := IndexOf(GroupOf(b, g).members, c);
    }
  }

  lemma PlaceOf(b: Broker, g: GroupId, i: nat)
    requires Owning(b) && i < |GroupOf(b, g).members|
    ensures var c := GroupOf(b, g).members[i];
            && c in b.consumers && b.consumers[c].group == g && IndexOf(GroupOf(b, g).members, c) == i
  {
    assert GroupOk(b, g);
    var c := GroupOf(b, g).members[i];
    var k := IndexOf(GroupOf(b, g).members, c);
    assert GroupOf(b, g).members[k] == c;
  }

  lemma SoleOwnerOnlyOwner(b: Broker, g: GroupId, tp: TopicPartition, i: nat)
    requires Owning(b) && i < |GroupOf(b, g).members|
    requires SoleOwner(b, g, tp, GroupOf(b, g).members[i])
    ensures var gs := GroupOf(b, g); OnlyOwner(gs.strategy, AllPartitions(gs.topics), |gs.members|, tp, i)
  {
    var gs := GroupOf(b, g);
    forall k: nat ensures OwnedBy(gs.strategy, AllPartitions(gs.topics), |gs.members|, tp, k) <==> k == i {
      if k < |gs.members| {
        PlaceOf(b, g, i);
        PlaceOf(b, g, k);
        OwnsByPlace(b, g, tp, gs.members[k]);
        hide Owning, Share, IndexOf, AllPartitions;
      }
    }
  }

  lemma OnlyOwnerSoleOwner(b: Broker, g: GroupId, tp: TopicPartition, i: nat)
    requires Owning(b)
    requires var gs := GroupOf(b, g); OnlyOwner(gs.strategy, AllPartitions(gs.topics), |gs.members|, tp, i)
    ensures i < |GroupOf(b, g).members| && SoleOwner(b, g, tp, GroupOf(b, g).members[i])
  {
    var gs := GroupOf(b, g);
    assert OwnedBy(gs.strategy, AllPartitions(gs.topics), |gs.members|, tp, i);
    PlaceOf(b, g, i);
    forall c | c in b.consumers && b.consumers[c].group == g
      ensures tp in b.consumers[c].owned <==> c == gs.members[i]
    {
      OwnsByPlace(b, g, tp, c);
      hide Owning, Share, AllPartitions;
      assert c in gs.members && IndexOf(gs.members, c) == i ==> c == gs.members[i];
    }
  }

  /**
   In every run in which a consumer joins a group only while no other group lists it: a group with a member
   gives each subscribed partition to exactly one of its consumers.
   */
  lemma {:induction false} ExclusiveOwnership(s: System, ops: seq<Op>, g: GroupId, tp: TopicPartition)
    returns (owner: ConsumerId)
    requires Initial(s) && OneGroupAtATime(s, ops)
    requires GroupOf(Run(s, ops).broker, g).members != []
    requires Distinct(AllPartitions(GroupOf(Run(s, ops).broker, g).topics))
    requires tp in AllPartitions(GroupOf(Run(s, ops).broker, g).topics)
    ensures SoleOwner(Run(s, ops).broker, g, tp, owner)
  {
    var b := Run(s, ops).broker;
    var gs := GroupOf(b, g);
    RunInvariant(s, ops);
    var i := ExactlyOneOwner(gs.strategy, AllPartitions(gs.topics), |gs.members|, tp);
    OnlyOwnerSoleOwner(b, g, tp, i);
    owner := gs.members[i];
  }

  /**
   Also where a partition is subscribed twice: it has exactly one owner if and only if all its occurrences in
   the group's list fall to one member.
   */
  lemma {:induction false} ExclusiveOwnershipIff(s: System, ops: seq<Op>, g: GroupId, tp: TopicPartition)
    requires Initial(s) && OneGroupAtATime(s, ops)
    requires GroupOf(Run(s, ops).broker, g).members != []
    requires tp in AllPartitions(GroupOf(Run(s, ops).broker, g).topics)
    ensures var gs := GroupOf(Run(s, ops).broker, g);
            (exists owner :: SoleOwner(Run(s, ops).broker, g, tp, owner))
            <==> OneTurn(gs.strategy, AllPartitions(gs.topics), |gs.members|, tp)
  {
    var b := Run(s, ops).broker;
    var gs := GroupOf(b, g);
    RunInvariant(s, ops);
    OneOwnerIff(gs.strategy, AllPartitions(gs.topics), |gs.members|, tp);
    if i: nat :| OnlyOwner(gs.strategy, AllPartitions(gs.topics), |gs.members|, tp, i) {
      OnlyOwnerSoleOwner(b, g, tp, i);
    }
    if owner :| SoleOwner(b, g, tp, owner) {
      SoleOwnerOnlyOwner(b, g, tp, IndexOf(gs.members, owner));
    }
  }

  /** And the shares are balanced and contain nothing else. */
  lemma {:induction false} BalancedOwnership(s: System, ops: seq<Op>, g: GroupId, k: nat)
    requires Initial(s) && OneGroupAtATime(s, ops)
    requires k < |GroupOf(Run(s, ops).broker, g).members|
    ensures var gs := GroupOf(Run(s, ops).broker, g);
            var n := |AllPartitions(gs.topics)|;
            && gs.members[k] in Run(s, ops).broker.consumers
            && |Run(s, ops).broker.consumers[gs.members[k]].owned|
               == n / |gs.members| + (if k < n % |gs.members| then 1 else 0)
            && forall tp :: tp in Run(s, ops).broker.consumers[gs.members[k]].owned ==> tp in AllPartitions(gs.topics)
  {
    var b := Run(s, ops).broker;
    var gs := GroupOf(b, g);
    RunInvariant(s, ops);
    assert GroupOk(b, g);
    ShareIsFair(gs.strategy, AllPartitions(gs.topics), |gs.members|, k);
    forall tp | tp in b.consumers[gs.members[k]].owned ensures tp in AllPartitions(gs.topics) {
      assert OwnedBy(gs.strategy, AllPartitions(gs.topics), |gs.members|, tp, k);
      ShareWithin(gs.strategy, AllPartitions(gs.topics), |gs.members|, k, tp);
    }
  }

  // ---------------------------------------------------------------- one group for good

  /** Members are at home, and positions have been gathered at home. */
  ghost predicate AtHome(b: Broker, home: ConsumerId -> GroupId) {
    && (forall g, c :: c in GroupOf(b, g).members ==> home(c) == g)
    && forall c :: c in b.consumers && b.consumers[c].offsets != map[] ==> b.consumers[c].group == home(c)
  }

  /** The times of appends and retention never go back. */
  ghost predicate Forward(s: System, ops: seq<Op>) {
    ops == [] ||
    (&& Forward(s, ops[..|ops| - 1])
     && (ops[|ops| - 1].Append? || ops[|ops| - 1].Retain? ==> ops[|ops| - 1].now >= Run(s, ops[..|ops| - 1]).clock))
  }

  lemma StepAtHome(s: System, op: Op, home: ConsumerId -> GroupId)
    requires Owning(s.broker) && AtHome(s.broker, home) && (op.Join? ==> home(op.consumer) == op.group)
    ensures AtHome(Step(s, op).broker, home)
  {
    var b, r := s.broker, Step(s, op).broker;
    if Ungrouped(op) {
      UngroupedSameOwnership(s, op);
      hide Step;
      assert forall g :: GroupOf(r, g) == GroupOf(b, g);
      assert forall c :: c in b.consumers ==> ConsumerOk(b, c);
    } else {
      GroupedIsRegroup(s, op);
      if NewShape(b, op).Some? {
        assert GroupOk(b, op.group);
        NewShapeIsRegroupable(b, op);
        ShapeMembers(b, op);
        EnteringAtHome(b, op, home);
        hide Step, Owning, GroupOk, Regroup, Regroupable, NewShape, Entering, Leavers;
        RegroupAtHome(Entering(b, op), op.group, NewShape(b, op).value, (set c | c in Leavers(b, op)), home);
      }
    }
  }

  lemma EnteringAtHome(b: Broker, op: Op, home: ConsumerId -> GroupId)
    requires AtHome(b, home) && (op.Join? ==> home(op.consumer) == op.group)
    ensures AtHome(Entering(b, op), home)
  {
    assert forall g :: GroupOf(Entering(b, op), g) == GroupOf(b, g);
  }

  lemma RegroupAtHome(b: Broker, g: GroupId, gs: GroupState, leavers: set<ConsumerId>, home: ConsumerId -> GroupId)
    requires AtHome(b, home) && Regroupable(b, g, gs, leavers)
    requires forall c :: c in gs.members ==> home(c) == g
    ensures AtHome(Regroup(b, g, gs, leavers), home)
  {
    var r := Regroup(b, g, gs, leavers);
    assert r.groups == b.groups[g := gs] && r.consumers.Keys == b.consumers.Keys;
    assert forall h :: GroupOf(r, h) == if h == g then gs else GroupOf(b, h);
    hide Regroup;
    forall c | c in r.consumers && r.consumers[c].offsets != map[] ensures r.consumers[c].group == home(c) {
      RegroupState(b, g, gs, leavers, c);
      hide Share, AllPartitions, Polling.Seed, Seeds, GroupOf;
    }
  }

  /** Consumers with one group for good join alone, and the condition on the positions they bring holds of itself. */
  lemma {:induction false} HousedIsLegal(s: System, ops: seq<Op>, home: ConsumerId -> GroupId)
    requires Owning(s.broker) && AtHome(s.broker, home) && Housed(ops, home)
    ensures OneGroupAtATime(s, ops)
    ensures Forward(s, ops) ==> Legal(s, ops)
    ensures AtHome(Run(s, ops).broker, home)
  {
    if ops == [] {
    } else {
      var before, op := Run(s, ops[..|ops| - 1]), ops[|ops| - 1];
      HousedIsLegal(s, ops[..|ops| - 1], home);
      RunOwns(s, ops[..|ops| - 1]);
      hide Owning, Step;
      StepAtHome(before, op, home);
    }
  }
}

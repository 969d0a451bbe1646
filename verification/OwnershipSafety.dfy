/**
 Which joins endanger ownership: those, and only those, by a consumer that another group still lists. From
 such a join a few steps lead to a group with members, none of which owns what the group subscribes to.
 */
module OwnershipSafety {
  import opened Prelude
  import opened Partitions
  import opened Assignment
  import opened ConsumerProtocol
  import opened AtLeastOnce
  import opened Ownership
  import JoinSafety
  import OrderedDict

  /** The group has a member and subscribes to the partition. */
  ghost predicate Wanted(b: Broker, g: GroupId, tp: TopicPartition) {
    GroupOf(b, g).members != [] && tp in AllPartitions(GroupOf(b, g).topics)
  }

  ghost predicate OwnedInside(b: Broker, g: GroupId, tp: TopicPartition) {
    exists c :: c in GroupOf(b, g).members && c in b.consumers && tp in b.consumers[c].owned
  }

  /** Every subscribed partition of a group with members has an owner among them. */
  ghost predicate Served(b: Broker) {
    forall g, tp :: Wanted(b, g, tp) ==> OwnedInside(b, g, tp)
  }

  lemma OwningServes(b: Broker)
    requires Owning(b)
    ensures Served(b)
  {
    forall g, tp | Wanted(b, g, tp) ensures OwnedInside(b, g, tp) {
      var gs := GroupOf(b, g);
      var all := AllPartitions(gs.topics);
      var j: nat :| j < |all| && all[j] == tp;
      var i := Turn(gs.strategy, |all|, |gs.members|, j);
      ShareIsByTurn(gs.strategy, all, |gs.members|, tp, i);
      assert HasTurn(gs.strategy, all, |gs.members|, tp, i);
      assert GroupOk(b, g);
      assert gs.members[i] in gs.members;
    }
  }

  // ---------------------------------------------------------------- runs without joins

  ghost predicate JoinFree(ops: seq<Op>) {
    forall i :: 0 <= i < |ops| ==> !ops[i].Join?
  }

  lemma {:induction false} JoinFreeIsAlone(s: System, ops: seq<Op>)
    requires JoinFree(ops)
    ensures OneGroupAtATime(s, ops)
  {
    if ops == [] {
    } else {
      JoinFreeIsAlone(s, ops[..|ops| - 1]);
    }
  }

  /** Whatever follows without a join, everything that is subscribed has an owner. */
  ghost predicate ServedForever(s: System) {
    forall more :: JoinFree(more) ==> Served(Run(s, more).broker)
  }

  /** Some run without joins leads from `s` to `t`. */
  ghost predicate Leads(s: System, t: System) {
    exists ops: seq<Op> :: JoinFree(ops) && t == Run(s, ops)
  }

  lemma LeadsNowhere(s: System)
    ensures Leads(s, s)
  {
    assert JoinFree([]) && Run(s, []) == s;
  }

  lemma LeadsStep(s: System, t: System, op: Op)
    requires Leads(s, t) && !op.Join?
    ensures Leads(s, Step(t, op))
  {
    var ops: seq<Op> :| JoinFree(ops) && t == Run(s, ops);
    assert (ops + [op])[..|ops|] == ops;
    assert JoinFree(ops + [op]) && Step(t, op) == Run(s, ops + [op]);
  }

  // ---------------------------------------------------------------- a consumer that two groups list

  ghost predicate TwiceListed(b: Broker, g: GroupId, h: GroupId, c: ConsumerId) {
    && g != h && c in b.consumers
    && c in GroupOf(b, g).members && c in GroupOf(b, h).members
    && Distinct(GroupOf(b, g).members) && Distinct(GroupOf(b, h).members)
  }

  lemma RegroupGroups(b: Broker, g: GroupId, gs: GroupState, leavers: set<ConsumerId>)
    ensures var r := Regroup(b, g, gs, leavers);
            && r.consumers.Keys == b.consumers.Keys
            && forall h :: GroupOf(r, h) == if h == g then gs else GroupOf(b, h)
  {
  }

  lemma LeaveTwiceListed(s: System, t: System, g: GroupId, h: GroupId, c: ConsumerId, d: ConsumerId)
    returns (u: System)
    requires Leads(s, t) && TwiceListed(t.broker, g, h, c) && d in GroupOf(t.broker, h).members && d != c
    ensures Leads(s, u) && TwiceListed(u.broker, g, h, c)
    ensures |GroupOf(u.broker, h).members| < |GroupOf(t.broker, h).members|
  {
    var hs := GroupOf(t.broker, h);
    u := Step(t, Leave(h, d));
    LeadsStep(s, t, Leave(h, d));
    JoinSafety.WithoutIsShorter(hs.members, d);
    WithoutIsDistinct(hs.members, d);
    WithoutMember(hs.members, d, c);
    RegroupGroups(t.broker, h, hs.(members := Without(hs.members, d)), {d});
  }

  /** The others can leave one by one. */
  lemma {:induction false} OthersLeave(s: System, t: System, g: GroupId, h: GroupId, c: ConsumerId)
    returns (u: System)
    requires Leads(s, t) && TwiceListed(t.broker, g, h, c)
    ensures Leads(s, u) && TwiceListed(u.broker, g, h, c) && GroupOf(u.broker, h).members == [c]
    decreases |GroupOf(t.broker, h).members|
  {
    hide Leads;
    if GroupOf(t.broker, h).members == [c] {
      u := t;
    } else {
      var d := JoinSafety.SomebodyElse(GroupOf(t.broker, h).members, c);
      var v := LeaveTwiceListed(s, t, g, h, c, d);
      u := OthersLeave(s, v, g, h, c);
    }
  }

  /** The group that the consumer is alone in subscribes. */
  lemma AloneSubscribes(s: System, t: System, g: GroupId, h: GroupId, c: ConsumerId, tp: TopicPartition)
    returns (u: System)
    requires Leads(s, t) && TwiceListed(t.broker, g, h, c) && GroupOf(t.broker, h).members == [c]
    ensures Leads(s, u) && TwiceListed(u.broker, g, h, c)
    ensures GroupOf(u.broker, h).members == [c] && tp in AllPartitions(GroupOf(u.broker, h).topics)
  {
    var hs := GroupOf(t.broker, h);
    u := Step(t, Subscribe(h, tp.topic, [tp]));
    LeadsStep(s, t, Subscribe(h, tp.topic, [tp]));
    RegroupGroups(t.broker, h, hs.(topics := OrderedDict.Put(hs.topics, tp.topic, [tp])), {});
    JoinSafety.SubscribedIsListed(hs.topics, tp.topic, [tp], tp);
  }

  /** And then the consumer leaves the other group. */
  lemma LeavingLosesAll(s: System, t: System, g: GroupId, h: GroupId, c: ConsumerId, tp: TopicPartition)
    returns (u: System)
    requires Leads(s, t) && TwiceListed(t.broker, g, h, c)
    requires GroupOf(t.broker, h).members == [c] && tp in AllPartitions(GroupOf(t.broker, h).topics)
    ensures Leads(s, u) && Wanted(u.broker, h, tp) && !OwnedInside(u.broker, h, tp)
  {
    var gs := GroupOf(t.broker, g);
    var without := gs.(members := Without(gs.members, c));
    u := Step(t, Leave(g, c));
    LeadsStep(s, t, Leave(g, c));
    WithoutMember(gs.members, c, c);
    RegroupGroups(t.broker, g, without, {c});
    RegroupState(t.broker, g, without, {c}, c);
  }

  /** From a join by a consumer that another group lists, a run without joins ends with nobody owning a partition. */
  lemma ListedJoinFails(s: System, g: GroupId, h: GroupId, c: ConsumerId, tp: TopicPartition) returns (u: System)
    requires Owning(s.broker) && c in s.broker.consumers && h != g && c in GroupOf(s.broker, h).members
    ensures Leads(Step(s, Join(g, c)), u) && !Served(u.broker)
  {
    var t, joined := Step(s, Join(g, c)), WithMember(GroupOf(s.broker, g), c);
    assert GroupOk(s.broker, g) && GroupOk(s.broker, h);
    JoinIsRegroup(s, g, c);
    RegroupGroups(Transferred(s.broker, g, c), g, joined, {});
    assert TwiceListed(t.broker, g, h, c);
    LeadsNowhere(t);
    hide Leads, TwiceListed, Step, Owning, OwnedInside;
    var alone := OthersLeave(t, t, g, h, c);
    var subscribed := AloneSubscribes(t, alone, g, h, c, tp);
    u := LeavingLosesAll(t, subscribed, g, h, c, tp);
  }

  /**
   From a state in which every group holds its shares: whatever follows a join but further joins, every
   subscribed partition of a group with members has an owner among them, if and only if no other group
   lists the consumer that joins. Then further joins of this kind do no harm either.
   */
  lemma {:induction false} JoinKeepsOwnersIff(s: System, g: GroupId, c: ConsumerId)
    requires Owning(s.broker) && c in s.broker.consumers
    ensures ServedForever(Step(s, Join(g, c))) <==> ListedOnlyIn(s.broker, g, c)
    ensures ListedOnlyIn(s.broker, g, c) ==>
              var t := Step(s, Join(g, c)); forall more :: OneGroupAtATime(t, more) ==> Served(Run(t, more).broker)
  {
    var t := Step(s, Join(g, c));
    if ListedOnlyIn(s.broker, g, c) {
      StepOwns(s, Join(g, c));
      forall more ensures JoinFree(more) ==> OneGroupAtATime(t, more)
                  ensures OneGroupAtATime(t, more) ==> Served(Run(t, more).broker) {
        if JoinFree(more) {
          JoinFreeIsAlone(t, more);
        }
        if OneGroupAtATime(t, more) {
          RunOwns(t, more);
          OwningServes(Run(t, more).broker);
        }
      }
    } else {
      var h :| h != g && c in GroupOf(s.broker, h).members;
      hide Step, Served, Run, JoinFree;
      var u := ListedJoinFails(s, g, h, c, TopicPartition("", 0));
      var more: seq<Op> :| JoinFree(more) && u == Run(t, more);
      assert !Served(Run(t, more).broker);
    }
  }

  /** So it is after every run in which every join so far was by a consumer that no other group listed. */
  lemma {:induction false} ReachableJoinKeepsOwnersIff(s0: System, ops: seq<Op>, g: GroupId, c: ConsumerId)
    requires Initial(s0) && OneGroupAtATime(s0, ops) && c in Run(s0, ops).broker.consumers
    ensures ServedForever(Step(Run(s0, ops), Join(g, c))) <==> ListedOnlyIn(Run(s0, ops).broker, g, c)
  {
    RunInvariant(s0, ops);
    hide Step, Run;
    JoinKeepsOwnersIff(Run(s0, ops), g, c);
  }
}

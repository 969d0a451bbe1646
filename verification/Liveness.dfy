/**
 Who is expired: a sweep of a group drops exactly the members that are closed or have not polled within their
 session timeout, so a member that polls in time stays, and one that falls silent goes.
 */
module Liveness {
  import opened Prelude
  import opened Partitions
  import opened Polling
  import opened Assignment
  import opened ConsumerProtocol
  import opened AtLeastOnce

  lemma {:induction false} LiveIff(b: Broker, members: seq<ConsumerId>, now: real, c: ConsumerId)
    ensures c in Live(b, members, now) <==>
            && c in members && c in b.consumers
            && b.consumers[c].active && now - b.consumers[c].lastPoll < b.consumers[c].settings.sessionTimeout
  {
    if members == [] {
    } else {
      LiveIff(b, members[1..], now, c);
      assert members == [members[0]] + members[1..];
    }
  }

  /** Exactly the members that are open and have polled within their session timeout survive a sweep. */
  lemma ExpiryIff(s: System, g: GroupId, now: real, c: ConsumerId)
    ensures c in GroupOf(Step(s, RemoveDead(g, now)).broker, g).members <==>
            && c in GroupOf(s.broker, g).members && c in s.broker.consumers
            && var cs := s.broker.consumers[c];
            && cs.active && now - cs.lastPoll < cs.settings.sessionTimeout
  {
    var gs := GroupOf(s.broker, g);
    LiveIff(s.broker, gs.members, now, c);
    GroupedIsRegroup(s, RemoveDead(g, now));
    hide Live, Regroup;
    var live := Live(s.broker, gs.members, now);
    if live != gs.members {
      RegroupMembers(s.broker, g, gs.(members := live), set d | d in Leavers(s.broker, RemoveDead(g, now)));
    }
  }

  lemma RegroupMembers(b: Broker, g: GroupId, gs: GroupState, leavers: set<ConsumerId>)
    ensures var r := Regroup(b, g, gs, leavers);
            && r.consumers.Keys == b.consumers.Keys
            && forall h :: GroupOf(r, h) == if h == g then gs else GroupOf(b, h)
  {
  }

  // ---------------------------------------------------------------- polls keep a member alive

  /** A member that is open and has polled at this time or later. */
  ghost predicate Polled(s: System, g: GroupId, c: ConsumerId, t: real, timeout: real) {
    && c in s.broker.consumers && c in GroupOf(s.broker, g).members && Distinct(GroupOf(s.broker, g).members)
    && s.broker.consumers[c].active && s.broker.consumers[c].lastPoll >= t
    && s.broker.consumers[c].settings.sessionTimeout == timeout
  }

  /** The consumer is not closed and does not leave, polls at no earlier time, and no sweep comes a timeout later. */
  ghost predicate KeepsInTouch(op: Op, g: GroupId, c: ConsumerId, t: real, timeout: real) {
    match op
    case Close(d, _) => d != c
    case Leave(h, d) => !(h == g && d == c)
    case Poll(d, _, now) => d == c ==> now >= t
    case RemoveDead(h, now) => h == g ==> now < t + timeout
    case _ => true
  }

  /** What a step does to the fields that decide who is alive. */
  ghost predicate Touched(s: System, op: Op, c: ConsumerId) {
    && c in s.broker.consumers && c in Step(s, op).broker.consumers
    && var was, cs := s.broker.consumers[c], Step(s, op).broker.consumers[c];
    && cs.settings == was.settings
    && cs.active == (was.active && !(op.Close? && op.consumer == c))
    && cs.lastPoll == if op.Poll? && op.consumer == c then op.now else was.lastPoll
  }

  lemma UngroupedTouches(s: System, op: Op, c: ConsumerId)
    requires c in s.broker.consumers && Ungrouped(op)
    ensures Touched(s, op, c)
  {
    if op.Poll? {
      hide PollResult, CommitPositions;
    } else if op.Append? || op.Retain? || op.Clear? {
      assert Step(s, op).broker.consumers == s.broker.consumers;
      hide Step;
    }
  }

  lemma GroupedTouches(s: System, op: Op, c: ConsumerId)
    requires c in s.broker.consumers && !Ungrouped(op)
    ensures Touched(s, op, c)
  {
    GroupedIsRegroup(s, op);
    if NewShape(s.broker, op).Some? {
      var b, gs := Entering(s.broker, op), NewShape(s.broker, op).value;
      assert c in b.consumers && b.consumers[c] == s.broker.consumers[c].(group := b.consumers[c].group);
      RegroupState(b, op.group, gs, (set d | d in Leavers(s.broker, op)), c);
      hide Step, Regroup, NewShape, Leavers, Entering, Seed, Seeds, Share;
    }
  }

  lemma StepOnTouch(s: System, op: Op, c: ConsumerId)
    requires c in s.broker.consumers
    ensures Touched(s, op, c)
  {
    if Ungrouped(op) {
      UngroupedTouches(s, op, c);
    } else {
      GroupedTouches(s, op, c);
    }
  }

  lemma ShapeKeeps(s: System, op: Op, g: GroupId, c: ConsumerId)
    requires !Ungrouped(op) && Distinct(GroupOf(s.broker, g).members) && c in GroupOf(s.broker, g).members
    requires op != Leave(g, c) && !(op.RemoveDead? && op.group == g)
    ensures c in GroupOf(Step(s, op).broker, g).members && Distinct(GroupOf(Step(s, op).broker, g).members)
  {
    var b := s.broker;
    GroupedIsRegroup(s, op);
    if NewShape(b, op).Some? {
      RegroupMembers(Entering(b, op), op.group, NewShape(b, op).value, set d | d in Leavers(b, op));
      if op.group == g {
        NewShapeIsDistinct(b, op);
        if op.Leave? {
          WithoutMember(GroupOf(b, g).members, op.consumer, c);
        }
      }
      hide Step, Regroup;
    }
  }

  lemma StepKeepsPolled(s: System, op: Op, g: GroupId, c: ConsumerId, t: real, timeout: real)
    requires Polled(s, g, c, t, timeout) && KeepsInTouch(op, g, c, t, timeout)
    ensures Polled(Step(s, op), g, c, t, timeout)
  {
    StepOnTouch(s, op, c);
    if Ungrouped(op) {
      UngroupedSameOwnership(s, op);
      assert GroupOf(Step(s, op).broker, g) == GroupOf(s.broker, g);
      hide Step;
    } else if op.RemoveDead? && op.group == g {
      ExpiryIff(s, g, op.now, c);
      SweepDistinct(s, g, op.now);
      hide Step;
    } else {
      ShapeKeeps(s, op, g, c);
      hide Step;
    }
  }

  lemma SweepDistinct(s: System, g: GroupId, now: real)
    requires Distinct(GroupOf(s.broker, g).members)
    ensures Distinct(GroupOf(Step(s, RemoveDead(g, now)).broker, g).members)
  {
    var op := RemoveDead(g, now);
    GroupedIsRegroup(s, op);
    if NewShape(s.broker, op).Some? {
      NewShapeIsDistinct(s.broker, op);
      RegroupMembers(s.broker, g, NewShape(s.broker, op).value, set d | d in Leavers(s.broker, op));
      hide Step, Regroup;
    }
  }

  ghost predicate AlwaysInTouch(ops: seq<Op>, g: GroupId, c: ConsumerId, t: real, timeout: real) {
    forall i :: 0 <= i < |ops| ==> KeepsInTouch(ops[i], g, c, t, timeout)
  }

  /**
   A member that has polled stays a member as long as it is not closed and does not leave, for every sweep that
   comes before its session timeout has passed.
   */
  lemma {:induction false} PollingKeepsMember(s: System, more: seq<Op>, g: GroupId, c: ConsumerId, t: real,
                                              timeout: real)
    requires Polled(s, g, c, t, timeout) && AlwaysInTouch(more, g, c, t, timeout)
    ensures Polled(Run(s, more), g, c, t, timeout)
  {
    if more == [] {
    } else {
      PollingKeepsMember(s, more[..|more| - 1], g, c, t, timeout);
      hide Step, Polled, KeepsInTouch;
      StepKeepsPolled(Run(s, more[..|more| - 1]), more[|more| - 1], g, c, t, timeout);
    }
  }

  lemma {:induction false} SilentSince(s: System, more: seq<Op>, c: ConsumerId)
    requires c in s.broker.consumers
    requires forall i :: 0 <= i < |more| ==> !(more[i].Poll? && more[i].consumer == c)
    ensures c in Run(s, more).broker.consumers
    ensures var was, cs := s.broker.consumers[c], Run(s, more).broker.consumers[c];
            cs.lastPoll == was.lastPoll && cs.settings == was.settings
  {
    if more == [] {
    } else {
      SilentSince(s, more[..|more| - 1], c);
      hide Step;
      StepOnTouch(Run(s, more[..|more| - 1]), more[|more| - 1], c);
    }
  }

  /** And one that falls silent is dropped by the first sweep that comes a session timeout after its last poll. */
  lemma SilentMemberGoes(s: System, more: seq<Op>, g: GroupId, c: ConsumerId, now: real)
    requires c in s.broker.consumers
    requires forall i :: 0 <= i < |more| ==> !(more[i].Poll? && more[i].consumer == c)
    requires now - s.broker.consumers[c].lastPoll >= s.broker.consumers[c].settings.sessionTimeout
    ensures c !in GroupOf(Step(Run(s, more), RemoveDead(g, now)).broker, g).members
  {
    SilentSince(s, more, c);
    hide Step, Run;
    ExpiryIff(Run(s, more), g, now, c);
  }

  /** A poll notes its time, whatever it reads. */
  lemma PollNotesTime(s: System, c: ConsumerId, maxMessages: Option<int>, now: real)
    requires c in s.broker.consumers
    ensures c in Step(s, Op.Poll(c, maxMessages, now)).broker.consumers
    ensures Step(s, Op.Poll(c, maxMessages, now)).broker.consumers[c].lastPoll == now
  {
    StepOnTouch(s, Op.Poll(c, maxMessages, now), c);
  }

  // ---------------------------------------------------------------- when a poll commits

  /**
   A poll commits all the positions it ends with exactly when the consumer owns something, commits automatically,
   and has not committed for its interval; otherwise it leaves every committed offset alone.
   */
  lemma PollCommitsIff(s: System, c: ConsumerId, maxMessages: Option<int>, now: real, tp: TopicPartition, g: GroupId)
    requires c in s.broker.consumers
    ensures var cs, t := s.broker.consumers[c], Step(s, Op.Poll(c, maxMessages, now)).broker;
            var due := && cs.owned != [] && cs.settings.autoCommit
                       && now - cs.lastCommit >= cs.settings.autoCommitInterval;
            && c in t.consumers && t.consumers[c].lastCommit == (if due then now else cs.lastCommit)
            && Committed(PartOf(t, tp).log, g) ==
               if due && tp in cs.owned && g == cs.group then Position(t.consumers[c].offsets, tp)
               else Committed(PartOf(s.broker, tp).log, g)
  {
    hide PollResult;
  }
}

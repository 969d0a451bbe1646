/**
 Rebalances that are not atomic. A group's lock keeps other rebalances of that group out, but not polls and
 commits: each `revoke` and each `assign` takes a consumer's own lock and lets it go. Here a rebalance is
 the sequence of these moves, anything may happen between two of them, and delivery is still at least once.
 */
module Interleavings {
  import opened Prelude
  import opened Partitions
  import opened Assignment
  import opened ConsumerProtocol
  import opened AtLeastOnce

  /** What happens under one lock: a whole operation, or one part of a rebalance. */
  datatype Move =
    | Whole(op: Op)
    | Enrol(group: GroupId, consumer: ConsumerId)
    | Reshape(group: GroupId, shape: GroupState)
    | Revoke(consumer: ConsumerId)
    | Assign(consumer: ConsumerId, tps: seq<TopicPartition>)

  ghost function Moving(s: System, m: Move): System {
    var b := s.broker;
    match m
    case Whole(op) => Step(s, op)
    case Enrol(g, c) => if c in b.consumers then s.(broker := Transferred(b, g, c)) else s
    case Reshape(g, gs) => s.(broker := b.(groups := b.groups[g := gs]))
    case Revoke(c) => if c in b.consumers then Replacing(s, c, b.consumers[c].(owned := [])) else s
    case Assign(c, tps) => if c in b.consumers then Replacing(s, c, Assigned(b, b.consumers[c], tps)) else s
  }

  ghost function Replacing(s: System, c: ConsumerId, cs: ConsumerState): System {
    s.(broker := s.broker.(consumers := s.broker.consumers[c := cs]))
  }

  ghost function AfterMoves(s: System, moves: seq<Move>): System {
    if moves == [] then s else Moving(AfterMoves(s, moves[..|moves| - 1]), moves[|moves| - 1])
  }

  /** Only what is under one lock is whole. Any group may take any shape, anybody may be assigned anything. */
  ghost predicate MayMove(s: System, m: Move) {
    match m
    case Whole(op) => Ungrouped(op) && Allowed(s, op)
    case Enrol(g, c) => MayJoin(s.broker, g, c)
    case _ => true
  }

  ghost predicate LegalMoves(s: System, moves: seq<Move>) {
    moves == [] ||
    (LegalMoves(s, moves[..|moves| - 1]) && MayMove(AfterMoves(s, moves[..|moves| - 1]), moves[|moves| - 1]))
  }

  // ---------------------------------------------------------------- the guarantee

  /** One consumer is replaced by one whose positions are accounted for. */
  lemma ReplacingDelivers(s: System, c: ConsumerId, cs: ConsumerState)
    requires Delivering(s)
    requires forall tp :: tp in cs.offsets ==> Covered(s, cs.group, tp, cs.offsets[tp])
    ensures Delivering(Replacing(s, c, cs))
  {
    var t := Replacing(s, c, cs);
    assert forall tp :: PartOf(t.broker, tp) == PartOf(s.broker, tp);
    forall tp ensures LogOk(t, tp) && CommitsOk(t, tp) {
      assert LogOk(s, tp) && CommitsOk(s, tp);
      KeepsCommits(s, t, tp);
    }
    forall d | d in t.broker.consumers ensures PositionsOk(t, d) {
      if d == c {
        forall tp | tp in cs.offsets ensures Covered(t, cs.group, tp, cs.offsets[tp]) {
          CoveredExtends(s, t, cs.group, tp, cs.offsets[tp]);
        }
      } else {
        assert PositionsOk(s, d);
        KeepsPositions(s, t, d);
      }
    }
  }

  /** Whatever a consumer is assigned, it starts at its own old position or at what its group has committed. */
  lemma AssignDelivers(s: System, c: ConsumerId, tps: seq<TopicPartition>)
    requires Delivering(s) && c in s.broker.consumers
    ensures Delivering(Moving(s, Assign(c, tps)))
  {
    var was := s.broker.consumers[c];
    var cs := Assigned(s.broker, was, tps);
    assert PositionsOk(s, c);
    forall tp | tp in cs.offsets ensures Covered(s, cs.group, tp, cs.offsets[tp]) {
      SeedSources(was.offsets, Seeds(s.broker, was.group, tps), tp);
      assert CommitsOk(s, tp);
    }
    ReplacingDelivers(s, c, cs);
  }

  lemma ReshapeDelivers(s: System, g: GroupId, gs: GroupState)
    requires Delivering(s)
    ensures Delivering(Moving(s, Reshape(g, gs)))
  {
    var t := Moving(s, Reshape(g, gs));
    assert forall tp :: PartOf(t.broker, tp) == PartOf(s.broker, tp);
    forall tp ensures LogOk(t, tp) && CommitsOk(t, tp) {
      assert LogOk(s, tp) && CommitsOk(s, tp);
      KeepsCommits(s, t, tp);
    }
    forall c | c in t.broker.consumers ensures PositionsOk(t, c) {
      assert PositionsOk(s, c);
      KeepsPositions(s, t, c);
    }
  }

  lemma MoveDelivers(s: System, m: Move)
    requires Delivering(s) && MayMove(s, m)
    ensures Delivering(Moving(s, m))
  {
    match m
    case Whole(op) => StepDelivers(s, op);
    case Enrol(g, c) =>
      if c in s.broker.consumers {
        MayJoinCovers(s, g, c);
        TransferDelivers(s, g, c);
      }
    case Reshape(g, gs) => ReshapeDelivers(s, g, gs);
    case Revoke(c) =>
      if c in s.broker.consumers {
        assert PositionsOk(s, c);
        ReplacingDelivers(s, c, s.broker.consumers[c].(owned := []));
      }
    case Assign(c, tps) =>
      if c in s.broker.consumers {
        AssignDelivers(s, c, tps);
      }
  }

  lemma {:induction false} MovesDeliver(s: System, moves: seq<Move>)
    requires Delivering(s) && LegalMoves(s, moves)
    ensures Delivering(AfterMoves(s, moves))
  {
    if moves == [] {
      assert AfterMoves(s, moves) == s;
    } else {
      MovesDeliver(s, moves[..|moves| - 1]);
      hide Delivering, Moving, MayMove;
      MoveDelivers(AfterMoves(s, moves[..|moves| - 1]), moves[|moves| - 1]);
    }
  }

  /**
   At least once, with rebalances taken apart: after any moves in any order, a message below a group's
   committed offset was handed to a member of that group, removed from the log, or withheld by a poll
   with too small a limit.
   */
  lemma {:induction false} AtLeastOnceInterleaved(s: System, moves: seq<Move>, g: GroupId, tp: TopicPartition, o: int)
    requires Initial(s) && LegalMoves(s, moves)
    requires 0 <= o < Committed(PartOf(AfterMoves(s, moves).broker, tp).log, g)
    ensures o < PartOf(AfterMoves(s, moves).broker, tp).log.next
    ensures Accounted(AfterMoves(s, moves).history, g, tp, o)
  {
    InitialDelivers(s);
    MovesDeliver(s, moves);
    assert CommitsOk(AfterMoves(s, moves), tp);
  }

  /** Every poll has room for what it reads. */
  ghost predicate AmpleMoves(s: System, moves: seq<Move>) {
    moves == [] ||
    (&& AmpleMoves(s, moves[..|moves| - 1])
     && (moves[|moves| - 1].Whole? ==> Ample(AfterMoves(s, moves[..|moves| - 1]), moves[|moves| - 1].op)))
  }

  lemma {:induction false} AmpleMovesWithholdNothing(s: System, moves: seq<Move>)
    requires s.history.withheld == {} && AmpleMoves(s, moves)
    ensures AfterMoves(s, moves).history.withheld == {}
  {
    if moves == [] {
    } else {
      var before, m := AfterMoves(s, moves[..|moves| - 1]), moves[|moves| - 1];
      AmpleMovesWithholdNothing(s, moves[..|moves| - 1]);
      if m.Whole? {
        hide Step, Ample;
        AmpleStepWithholdsNothing(before, m.op);
      }
    }
  }

  /** With ample limits: handed over, or removed. */
  lemma {:induction false} InterleavedWithAmpleLimits(s: System, moves: seq<Move>, g: GroupId, tp: TopicPartition,
                                                      o: int)
    requires Initial(s) && LegalMoves(s, moves) && AmpleMoves(s, moves)
    requires 0 <= o < Committed(PartOf(AfterMoves(s, moves).broker, tp).log, g)
    ensures (g, tp, o) in AfterMoves(s, moves).history.delivered || (tp, o) in AfterMoves(s, moves).history.removed
  {
    AtLeastOnceInterleaved(s, moves, g, tp, o);
    AmpleMovesWithholdNothing(s, moves);
  }

  // ---------------------------------------------------------------- operations as moves

  ghost function Revokes(cs: seq<ConsumerId>): (moves: seq<Move>)
    ensures |moves| == |cs|
  {
    seq(|cs|, i requires 0 <= i < |cs| => Revoke(cs[i]))
  }

  ghost function ShareOf(gs: GroupState, i: nat): seq<TopicPartition>
    requires i < |gs.members|
  {
    Share(gs.strategy, AllPartitions(gs.topics), |gs.members|, i)
  }

  ghost function Assigns(gs: GroupState): (moves: seq<Move>)
    ensures |moves| == |gs.members|
  {
    seq(|gs.members|, i requires 0 <= i < |gs.members| => Assign(gs.members[i], ShareOf(gs, i)))
  }

  /** The group takes its shape, leavers are revoked, then all members, then each is assigned its share, if any. */
  ghost function RegroupMoves(g: GroupId, gs: GroupState, leavers: seq<ConsumerId>): seq<Move> {
    [Reshape(g, gs)] + Revokes(leavers) + Revokes(gs.members)
    + if AllPartitions(gs.topics) == [] then [] else Assigns(gs)
  }

  /** The moves an operation consists of, in the order in which it makes them. */
  ghost function Script(b: Broker, op: Op): seq<Move> {
    if Ungrouped(op) then [Whole(op)]
    else
      match NewShape(b, op)
      case None => []
      case Some(gs) =>
        (if op.Join? then [Enrol(op.group, op.consumer)] else []) + RegroupMoves(op.group, gs, Leavers(b, op))
  }

  lemma NoMoves(s: System)
    ensures AfterMoves(s, []) == s && LegalMoves(s, [])
  {
  }

  lemma OneMove(s: System, m: Move)
    ensures AfterMoves(s, [m]) == Moving(s, m) && (LegalMoves(s, [m]) <==> MayMove(s, m))
  {
    NoMoves(s);
    assert [m][..0] == [];
    hide Moving, MayMove;
  }

  lemma {:induction false} MovedConcat(s: System, a: seq<Move>, b: seq<Move>)
    ensures AfterMoves(s, a + b) == AfterMoves(AfterMoves(s, a), b)
    ensures LegalMoves(s, a + b) <==> LegalMoves(s, a) && LegalMoves(AfterMoves(s, a), b)
  {
    hide Moving, MayMove;
    if b == [] {
      assert a + b == a;
    } else {
      var n := |b| - 1;
      MovedConcat(s, a, b[..n]);
      assert (a + b)[..|a + b| - 1] == a + b[..n] && (a + b)[|a + b| - 1] == b[n];
    }
  }

  /** The consumers in the list hold nothing, the others are as they were. */
  ghost function Revoked(s: System, cs: seq<ConsumerId>): System {
    var was := s.broker.consumers;
    s.(broker := s.broker.(consumers := map c | c in was :: if c in cs then was[c].(owned := []) else was[c]))
  }

  lemma RevokedNext(s: System, cs: seq<ConsumerId>, c: ConsumerId)
    ensures Moving(Revoked(s, cs), Revoke(c)) == Revoked(s, cs + [c])
  {
    assert Moving(Revoked(s, cs), Revoke(c)).broker.consumers == Revoked(s, cs + [c]).broker.consumers;
  }

  lemma {:induction false} RevokesRevoke(s: System, cs: seq<ConsumerId>)
    ensures AfterMoves(s, Revokes(cs)) == Revoked(s, cs) && LegalMoves(s, Revokes(cs))
  {
    if cs == [] {
      assert Revoked(s, cs).broker.consumers == s.broker.consumers;
    } else {
      var n := |cs| - 1;
      RevokesRevoke(s, cs[..n]);
      assert Revokes(cs)[..n] == Revokes(cs[..n]) && Revokes(cs)[n] == Revoke(cs[n]);
      assert cs == cs[..n] + [cs[n]];
      RevokedNext(s, cs[..n], cs[n]);
      hide Moving, Revoked, Revokes;
    }
  }

  /** The first `k` members hold their shares, the others are as they were. */
  ghost function Dealt(s: System, gs: GroupState, k: nat): System
    requires k <= |gs.members|
  {
    var b := s.broker;
    s.(broker := b.(consumers := map c | c in b.consumers ::
         if c in gs.members[..k] then Assigned(b, b.consumers[c], ShareOf(gs, IndexOf(gs.members[..k], c)))
         else b.consumers[c]))
  }

  lemma {:induction false} IndexOfNext(members: seq<ConsumerId>, k: nat, c: ConsumerId)
    requires k < |members| && Distinct(members) && c in members[..k + 1]
    ensures c == members[k] ==> IndexOf(members[..k + 1], c) == k
    ensures c != members[k] ==> c in members[..k] && IndexOf(members[..k + 1], c) == IndexOf(members[..k], c)
  {
    var i := IndexOf(members[..k + 1], c);
    assert members[i] == c;
    if c != members[k] {
      assert members[..k][i] == c;
      assert members[IndexOf(members[..k], c)] == c;
    }
  }

  lemma {:induction false} AssignsDeal(s: System, gs: GroupState, k: nat)
    requires k <= |gs.members| && Distinct(gs.members)
    ensures AfterMoves(s, Assigns(gs)[..k]) == Dealt(s, gs, k) && LegalMoves(s, Assigns(gs)[..k])
  {
    if k == 0 {
      assert Dealt(s, gs, k).broker.consumers == s.broker.consumers;
    } else {
      AssignsDeal(s, gs, k - 1);
      assert Assigns(gs)[..k][..k - 1] == Assigns(gs)[..k - 1];
      var mid, c := Dealt(s, gs, k - 1), gs.members[k - 1];
      assert AfterMoves(s, Assigns(gs)[..k]) == Moving(mid, Assign(c, ShareOf(gs, k - 1)));
      DealtNext(s, gs, k - 1);
    }
  }

  lemma DealtNext(s: System, gs: GroupState, k: nat)
    requires k < |gs.members| && Distinct(gs.members)
    ensures Moving(Dealt(s, gs, k), Assign(gs.members[k], ShareOf(gs, k))) == Dealt(s, gs, k + 1)
  {
    var mid, c := Dealt(s, gs, k), gs.members[k];
    var next, goal := Moving(mid, Assign(c, ShareOf(gs, k))), Dealt(s, gs, k + 1);
    assert gs.members[..k + 1] == gs.members[..k] + [c];
    assert c !in gs.members[..k];
    forall d | d in s.broker.consumers ensures next.broker.consumers[d] == goal.broker.consumers[d] {
      if d == c {
        IndexOfNext(gs.members, k, d);
        SeedsAgree(mid.broker, s.broker, s.broker.consumers[c].group, ShareOf(gs, k));
      } else if d in gs.members[..k] {
        IndexOfNext(gs.members, k, d);
      }
    }
    assert next.broker.consumers == goal.broker.consumers;
  }

  /** With nothing to share out nobody needs to be assigned anything. */
  lemma NothingToDeal(s: System, gs: GroupState)
    requires AllPartitions(gs.topics) == []
    ensures Dealt(Revoked(s, gs.members), gs, |gs.members|) == Revoked(s, gs.members)
  {
    var r, members := Revoked(s, gs.members), gs.members[..|gs.members|];
    forall c | c in r.broker.consumers && c in members
      ensures Assigned(r.broker, r.broker.consumers[c], ShareOf(gs, IndexOf(members, c))) == r.broker.consumers[c]
    {
      ShareIsFair(gs.strategy, AllPartitions(gs.topics), |gs.members|, IndexOf(members, c));
    }
    assert Dealt(r, gs, |gs.members|).broker.consumers == r.broker.consumers;
  }

  lemma ReshapedIsRegroup(s: System, g: GroupId, gs: GroupState, leavers: seq<ConsumerId>, gone: set<ConsumerId>)
    requires forall c :: c in gone <==> c in leavers
    ensures Dealt(Revoked(Revoked(Moving(s, Reshape(g, gs)), leavers), gs.members), gs, |gs.members|)
            == s.(broker := Regroup(s.broker, g, gs, gone))
  {
    var b, all := s.broker, gs.members[..|gs.members|];
    assert all == gs.members;
    var r, goal := Revoked(Revoked(Moving(s, Reshape(g, gs)), leavers), gs.members), Regroup(b, g, gs, gone);
    var dealt := Dealt(r, gs, |gs.members|).broker;
    forall c | c in b.consumers ensures dealt.consumers[c] == goal.consumers[c] {
      RegroupState(b, g, gs, gone, c);
      if c in gs.members {
        SeedsAgree(r.broker, b, b.consumers[c].group, ShareOf(gs, IndexOf(gs.members, c)));
      }
    }
    assert dealt.consumers == goal.consumers;
  }

  lemma RegroupInMoves(s: System, g: GroupId, gs: GroupState, leavers: seq<ConsumerId>, gone: set<ConsumerId>)
    requires Distinct(gs.members) && forall c :: c in gone <==> c in leavers
    ensures AfterMoves(s, RegroupMoves(g, gs, leavers)) == s.(broker := Regroup(s.broker, g, gs, gone))
    ensures LegalMoves(s, RegroupMoves(g, gs, leavers))
  {
    var first, a, b := [Reshape(g, gs)], Revokes(leavers), Revokes(gs.members);
    var s1 := Moving(s, Reshape(g, gs));
    OneMove(s, Reshape(g, gs));
    var s2 := Revoked(s1, leavers);
    var s3 := Revoked(s2, gs.members);
    RevokesRevoke(s1, leavers);
    RevokesRevoke(s2, gs.members);
    AssignsDeal(s3, gs, |gs.members|);
    assert Assigns(gs)[..|gs.members|] == Assigns(gs);
    ReshapedIsRegroup(s, g, gs, leavers, gone);
    if AllPartitions(gs.topics) == [] {
      NothingToDeal(s2, gs);
    }
    var last := if AllPartitions(gs.topics) == [] then [] else Assigns(gs);
    hide Moving, AfterMoves, MayMove, LegalMoves, Revoked, Dealt, Regroup, Assigns, Revokes;
    MovedConcat(s, first, a);
    MovedConcat(s, first + a, b);
    MovedConcat(s, first + a + b, last);
    NoMoves(s3);
  }

  lemma EnrolFirst(s: System, g: GroupId, c: ConsumerId, rest: seq<Move>)
    requires c in s.broker.consumers
    ensures var t := s.(broker := Transferred(s.broker, g, c));
            && AfterMoves(s, [Enrol(g, c)] + rest) == AfterMoves(t, rest)
            && (MayJoin(s.broker, g, c) && LegalMoves(t, rest) ==> LegalMoves(s, [Enrol(g, c)] + rest))
  {
    var first := [Enrol(g, c)];
    OneMove(s, Enrol(g, c));
    hide AfterMoves, LegalMoves;
    MovedConcat(s, first, rest);
  }

  /** Undisturbed, the moves of an operation take its one step of the protocol, and are legal if the step is. */
  lemma {:induction false} ScriptIsStep(s: System, op: Op)
    requires !Ungrouped(op) ==> Distinct(GroupOf(s.broker, op.group).members)
    ensures AfterMoves(s, Script(s.broker, op)) == Step(s, op)
    ensures Allowed(s, op) ==> LegalMoves(s, Script(s.broker, op))
  {
    if Ungrouped(op) {
      WholeScript(s, op);
    } else {
      GroupedIsRegroup(s, op);
      NoMoves(s);
      if NewShape(s.broker, op).Some? {
        var gs, entered := NewShape(s.broker, op).value, s.(broker := Entering(s.broker, op));
        NewShapeIsDistinct(s.broker, op);
        hide Step, NewShape, RegroupMoves, Regroup, AfterMoves, LegalMoves, MayJoin, Leavers;
        RegroupInMoves(entered, op.group, gs, Leavers(s.broker, op), set c | c in Leavers(s.broker, op));
        if op.Join? {
          EnrolFirst(s, op.group, op.consumer, RegroupMoves(op.group, gs, Leavers(s.broker, op)));
        } else {
          assert [] + RegroupMoves(op.group, gs, Leavers(s.broker, op))
              == RegroupMoves(op.group, gs, Leavers(s.broker, op));
        }
      }
    }
  }

  lemma WholeScript(s: System, op: Op)
    requires Ungrouped(op)
    ensures AfterMoves(s, Script(s.broker, op)) == Step(s, op)
    ensures Allowed(s, op) ==> LegalMoves(s, Script(s.broker, op))
  {
    var moves := Script(s.broker, op);
    assert moves == [Whole(op)];
    OneMove(s, Whole(op));
    hide AfterMoves, LegalMoves, Step;
  }

  /** So runs of whole operations are among the runs of moves. */
  lemma {:induction false} RunIsMoves(s: System, ops: seq<Op>) returns (moves: seq<Move>)
    requires Initial(s) && Legal(s, ops)
    ensures LegalMoves(s, moves) && AfterMoves(s, moves) == Run(s, ops)
  {
    if ops == [] {
      moves := [];
    } else {
      var rest, op := ops[..|ops| - 1], ops[|ops| - 1];
      var before := RunIsMoves(s, rest);
      RunMembersDistinct(s, rest);
      hide AfterMoves, LegalMoves, Step, Allowed, Script;
      ScriptIsStep(Run(s, rest), op);
      moves := before + Script(Run(s, rest).broker, op);
      MovedConcat(s, before, Script(Run(s, rest).broker, op));
    }
  }
}

/**
 Acknowledgements: a message is tracked until it is acknowledged, rejected or timed out. The stretch
 from the first track of an identifier to the step that settles it is called an episode.
 */
module AckManagers {
  import opened Prelude
  import opened OrderedDict
  import opened Partitions

  datatype PendingAck = PendingAck(message: Message, consumer: string, sentAt: real, deadline: real,
                                   attempts: nat, maxAttempts: int)

  type Pendings = Dict<string, PendingAck>

  function PendingId(p: PendingAck): string { p.message.id }

  datatype Settings = Settings(ackTimeout: real, maxAttempts: int)

  datatype Manager = Manager(pending: Pendings, acked: nat, nacked: nat, deadLettered: nat, redelivered: nat)

  const EMPTY_MANAGER := Manager([], 0, 0, 0, 0)

  /** The clock is read twice while tracking, once for each of the two times that are kept. */
  datatype Op =
    | Track(message: Message, consumer: string, timeout: Option<real>, sentAt: real, now: real)
    | Acknowledge(id: string)
    | NegativeAcknowledge(id: string)
    | CheckTimeouts(now: real)

  predicate Exhausted(p: PendingAck) { p.attempts >= p.maxAttempts }

  /** `timeout or self.ack_timeout` */
  function TimeoutOf(cfg: Settings, requested: Option<real>): real {
    if requested.Some? && requested.value != 0.0 then requested.value else cfg.ackTimeout
  }

  function Tracked(cfg: Settings, d: Pendings, op: Op): PendingAck
    requires op.Track?
  {
    PendingAck(op.message, op.consumer, op.sentAt, op.now + TimeoutOf(cfg, op.timeout),
               if Has(d, op.message.id) then Get(d, op.message.id).value.attempts + 1 else 1, cfg.maxAttempts)
  }

  function TimedOut(d: Pendings, now: real): Pendings { Where(d, (p: PendingAck) => now >= p.deadline) }

  function InTime(d: Pendings, now: real): Pendings { Where(d, (p: PendingAck) => !(now >= p.deadline)) }

  function Dead(d: Pendings): Pendings { Where(d, (p: PendingAck) => Exhausted(p)) }

  function Retried(d: Pendings): Pendings { Where(d, (p: PendingAck) => !Exhausted(p)) }

  function Step(cfg: Settings, s: Manager, op: Op): Manager {
    match op
    case Track(m, _, _, _, _) => s.(pending := Put(s.pending, m.id, Tracked(cfg, s.pending, op)))
    case Acknowledge(id) =>
      if Has(s.pending, id) then s.(pending := Remove(s.pending, id), acked := s.acked + 1) else s
    case NegativeAcknowledge(id) =>
      if !Has(s.pending, id) then s
      else
        var rest := s.(pending := Remove(s.pending, id), nacked := s.nacked + 1);
        if Exhausted(Get(s.pending, id).value) then rest.(deadLettered := s.deadLettered + 1)
        else rest.(redelivered := s.redelivered + 1)
    case CheckTimeouts(now) =>
      var late := TimedOut(s.pending, now);
      s.(pending := InTime(s.pending, now), deadLettered := s.deadLettered + |Dead(late)|,
         redelivered := s.redelivered + |Retried(late)|)
  }

  function Run(cfg: Settings, ops: seq<Op>): Manager {
    if ops == [] then EMPTY_MANAGER else Step(cfg, Run(cfg, ops[..|ops| - 1]), ops[|ops| - 1])
  }

  // ---------------------------------------------------------------- every episode settles once

  /** The identifiers whose episodes a run opened, and those it settled in each of the three ways. */
  datatype Ledger = Ledger(openings: seq<string>, acked: seq<string>, redelivered: seq<string>, dead: seq<string>)

  function Record(h: Ledger, s: Manager, op: Op): Ledger {
    match op
    case Track(m, _, _, _, _) => if Has(s.pending, m.id) then h else h.(openings := h.openings + [m.id])
    case Acknowledge(id) => if Has(s.pending, id) then h.(acked := h.acked + [id]) else h
    case NegativeAcknowledge(id) =>
      if !Has(s.pending, id) then h
      else if Exhausted(Get(s.pending, id).value) then h.(dead := h.dead + [id])
      else h.(redelivered := h.redelivered + [id])
    case CheckTimeouts(now) =>
      var late := TimedOut(s.pending, now);
      h.(dead := h.dead + Keys(Dead(late)), redelivered := h.redelivered + Keys(Retried(late)))
  }

  function Records(cfg: Settings, ops: seq<Op>): Ledger {
    if ops == [] then Ledger([], [], [], [])
    else Record(Records(cfg, ops[..|ops| - 1]), Run(cfg, ops[..|ops| - 1]), ops[|ops| - 1])
  }

  type Bag = multiset<string>

  ghost predicate Balanced(s: Manager, h: Ledger) {
    multiset(h.openings) == multiset(Keys(s.pending)) + multiset(h.acked) + multiset(h.redelivered) + multiset(h.dead)
  }

  ghost predicate Counted(s: Manager, h: Ledger) {
    s.acked == |h.acked| && s.redelivered == |h.redelivered| && s.deadLettered == |h.dead|
  }

  lemma {:induction false} RemoveKey(d: Pendings, id: string)
    requires Has(d, id)
    ensures multiset(Keys(d)) == multiset(Keys(Remove(d, id))) + multiset{id}
  {
    assert d == [d[0]] + d[1..];
    KeysPrepend(d[0], d[1..]);
    if d[0].0 != id {
      RemoveKey(d[1..], id);
      KeysPrepend(d[0], Remove(d[1..], id));
      hide Keys;
      Grow(multiset{d[0].0}, multiset(Keys(d[1..])), multiset(Keys(Remove(d[1..], id))), multiset{id});
    }
  }

  lemma Grow(h: Bag, a: Bag, b: Bag, c: Bag)
    requires a == b + c
    ensures h + a == (h + b) + c == b + (h + c)
  {
  }

  lemma KeysPrepend(e: (string, PendingAck), d: Pendings)
    ensures multiset(Keys([e] + d)) == multiset{e.0} + multiset(Keys(d))
  {
    assert Keys([e] + d) == [e.0] + Keys(d);
  }

  lemma SelectedKeys(d: Pendings, p: PendingAck -> bool)
    requires d != []
    ensures multiset(Keys(Where(d, p)))
            == (if p(d[0].1) then multiset{d[0].0} else multiset{}) + multiset(Keys(Where(d[1..], p)))
  {
    KeysPrepend(d[0], Where(d[1..], p));
    hide Keys;
  }

  lemma {:induction false} WhereSplitsKeys(d: Pendings, p: PendingAck -> bool, q: PendingAck -> bool)
    requires forall v :: q(v) <==> !p(v)
    ensures multiset(Keys(d)) == multiset(Keys(Where(d, p))) + multiset(Keys(Where(d, q)))
  {
    if d == [] {
    } else {
      WhereSplitsKeys(d[1..], p, q);
      SelectedKeys(d, p);
      SelectedKeys(d, q);
      assert d == [d[0]] + d[1..];
      KeysPrepend(d[0], d[1..]);
      hide Keys, Where;
      Grow(multiset{d[0].0}, multiset(Keys(d[1..])), multiset(Keys(Where(d[1..], p))),
           multiset(Keys(Where(d[1..], q))));
    }
  }

  /** A sweep settles exactly the late ones. */
  lemma SweepSplitsKeys(d: Pendings, now: real)
    ensures multiset(Keys(d)) == multiset(Keys(InTime(d, now)))
                                 + multiset(Keys(Retried(TimedOut(d, now)))) + multiset(Keys(Dead(TimedOut(d, now))))
  {
    WhereSplitsKeys(d, (p: PendingAck) => now >= p.deadline, (p: PendingAck) => !(now >= p.deadline));
    WhereSplitsKeys(TimedOut(d, now), (p: PendingAck) => Exhausted(p), (p: PendingAck) => !Exhausted(p));
  }

  lemma SweepMoves(k: Bag, a: Bag, r: Bag, x: Bag, t: Bag, r': Bag, x': Bag)
    requires k == t + r' + x'
    ensures k + a + r + x == t + a + (r + r') + (x + x')
  {
  }

  lemma SettleMoves(o: Bag, k: Bag, a: Bag, r: Bag, x: Bag, left: Bag, one: Bag)
    requires o == k + a + r + x && k == left + one
    ensures o == left + (a + one) + r + x
    ensures o == left + a + (r + one) + x
    ensures o == left + a + r + (x + one)
  {
  }

  lemma SettleBalances(cfg: Settings, s: Manager, h: Ledger, op: Op)
    requires Balanced(s, h) && (op.Acknowledge? || op.NegativeAcknowledge?)
    ensures Balanced(Step(cfg, s, op), Record(h, s, op))
  {
    if Has(s.pending, op.id) {
      var rest := Remove(s.pending, op.id);
      RemoveKey(s.pending, op.id);
      assert multiset(h.acked + [op.id]) == multiset(h.acked) + multiset{op.id};
      assert multiset(h.redelivered + [op.id]) == multiset(h.redelivered) + multiset{op.id};
      assert multiset(h.dead + [op.id]) == multiset(h.dead) + multiset{op.id};
      assert Step(cfg, s, op).pending == rest;
      var h' := Record(h, s, op);
      assert h' == h.(acked := h.acked + [op.id]) || h' == h.(redelivered := h.redelivered + [op.id])
             || h' == h.(dead := h.dead + [op.id]);
      hide Step, Record, Remove, Keys, Has;
      SettleMoves(multiset(h.openings), multiset(Keys(s.pending)), multiset(h.acked), multiset(h.redelivered),
                  multiset(h.dead), multiset(Keys(rest)), multiset{op.id});
    }
  }

  lemma SweepBalances(cfg: Settings, s: Manager, h: Ledger, op: Op)
    requires Balanced(s, h) && op.CheckTimeouts?
    ensures Balanced(Step(cfg, s, op), Record(h, s, op))
  {
    var late := TimedOut(s.pending, op.now);
    SweepSplitsKeys(s.pending, op.now);
    assert multiset(h.dead + Keys(Dead(late))) == multiset(h.dead) + multiset(Keys(Dead(late)));
    assert multiset(h.redelivered + Keys(Retried(late))) == multiset(h.redelivered) + multiset(Keys(Retried(late)));
    SweepMoves(multiset(Keys(s.pending)), multiset(h.acked), multiset(h.redelivered), multiset(h.dead),
               multiset(Keys(InTime(s.pending, op.now))), multiset(Keys(Retried(late))), multiset(Keys(Dead(late))));
  }

  lemma OpenMoves(o: Bag, k: Bag, a: Bag, r: Bag, x: Bag, one: Bag)
    requires o == k + a + r + x
    ensures o + one == (k + one) + a + r + x
  {
  }

  lemma TrackBalances(cfg: Settings, s: Manager, h: Ledger, op: Op)
    requires Balanced(s, h) && op.Track?
    ensures Balanced(Step(cfg, s, op), Record(h, s, op))
  {
    var id := op.message.id;
    var p := Tracked(cfg, s.pending, op);
    if Has(s.pending, id) {
      PutPresent(s.pending, id, p);
    } else {
      PutAbsent(s.pending, id, p);
      assert Keys(s.pending + [(id, p)]) == Keys(s.pending) + [id];
      assert multiset(h.openings + [id]) == multiset(h.openings) + multiset{id};
      OpenMoves(multiset(h.openings), multiset(Keys(s.pending)), multiset(h.acked), multiset(h.redelivered),
                multiset(h.dead),
                multiset{id});
    }
  }

  lemma StepBalances(cfg: Settings, s: Manager, h: Ledger, op: Op)
    requires Balanced(s, h)
    ensures Balanced(Step(cfg, s, op), Record(h, s, op))
  {
    if op.Track? {
      TrackBalances(cfg, s, h, op);
    } else if op.CheckTimeouts? {
      SweepBalances(cfg, s, h, op);
    } else {
      SettleBalances(cfg, s, h, op);
    }
  }

  lemma StepCounts(cfg: Settings, s: Manager, h: Ledger, op: Op)
    requires Counted(s, h) && Filed(s.pending, PendingId)
    ensures Counted(Step(cfg, s, op), Record(h, s, op)) && Filed(Step(cfg, s, op).pending, PendingId)
  {
    match op
    case Track(m, _, _, _, _) =>
      PutWellFormed(s.pending, m.id, Tracked(cfg, s.pending, op));
      PutEntries(s.pending, m.id, Tracked(cfg, s.pending, op));
    case Acknowledge(id) => RemoveWellFormed(s.pending, id);
    case NegativeAcknowledge(id) => RemoveWellFormed(s.pending, id);
    case CheckTimeouts(now) =>
      WhereWellFormed(s.pending, (p: PendingAck) => !(now >= p.deadline));
      WhereEntries(s.pending, (p: PendingAck) => !(now >= p.deadline));
  }

  /**
   In every run each identifier was opened exactly as often as it was settled, plus once if it is still
   pending; so every episode settles at most once, in exactly one of three ways, and the counters add up.
   */
  lemma {:induction false} EpisodesSettleOnce(cfg: Settings, ops: seq<Op>)
    ensures var s, h := Run(cfg, ops), Records(cfg, ops);
            && Balanced(s, h) && Counted(s, h) && Filed(s.pending, PendingId)
            && |h.openings| == |s.pending| + s.acked + s.redelivered + s.deadLettered
  {
    if ops == [] {
    } else {
      EpisodesSettleOnce(cfg, ops[..|ops| - 1]);
      var s, h := Run(cfg, ops[..|ops| - 1]), Records(cfg, ops[..|ops| - 1]);
      StepBalances(cfg, s, h, ops[|ops| - 1]);
      StepCounts(cfg, s, h, ops[|ops| - 1]);
    }
    var s, h := Run(cfg, ops), Records(cfg, ops);
    CountAll(multiset(h.openings), multiset(Keys(s.pending)), multiset(h.acked), multiset(h.redelivered),
             multiset(h.dead));
  }

  lemma CountAll(o: Bag, k: Bag, a: Bag, r: Bag, x: Bag)
    requires o == k + a + r + x
    ensures |o| == |k| + |a| + |r| + |x|
  {
  }

  // ---------------------------------------------------------------- attempts

  /** How often an identifier was tracked since the last step that settled it. */
  function Tracks(cfg: Settings, ops: seq<Op>, id: string): nat {
    if ops == [] then 0
    else
      var rest, op := ops[..|ops| - 1], ops[|ops| - 1];
      if op.Track? && op.message.id == id then Tracks(cfg, rest, id) + 1
      else if Has(Run(cfg, rest).pending, id) && !Has(Run(cfg, ops).pending, id) then 0
      else Tracks(cfg, rest, id)
  }

  /** The attempts of a pending message are the tracks of its present episode; attempts restart with every episode. */
  lemma {:induction false} AttemptsAreTracks(cfg: Settings, ops: seq<Op>, id: string)
    ensures var entry := Get(Run(cfg, ops).pending, id);
            if entry.Some? then entry.value.attempts == Tracks(cfg, ops, id) >= 1
                && entry.value.maxAttempts == cfg.maxAttempts
            else Tracks(cfg, ops, id) == 0
  {
    if ops == [] {
    } else {
      var rest, op := ops[..|ops| - 1], ops[|ops| - 1];
      AttemptsAreTracks(cfg, rest, id);
      EpisodesSettleOnce(cfg, rest);
      StepOnEntry(cfg, Run(cfg, rest), op, id);
    }
  }

  /** What one step does to one entry: a track replaces it, other steps keep it or remove it. */
  lemma StepOnEntry(cfg: Settings, s: Manager, op: Op, id: string)
    requires WellFormed(s.pending)
    ensures var after := Get(Step(cfg, s, op).pending, id);
            if op.Track? && op.message.id == id then after == Some(Tracked(cfg, s.pending, op))
            else after == Get(s.pending, id) || after == None
  {
    match op
    case Track(m, _, _, _, _) => GetPut(s.pending, m.id, Tracked(cfg, s.pending, op), id);
    case Acknowledge(i) => GetRemove(s.pending, i, id);
    case NegativeAcknowledge(i) => GetRemove(s.pending, i, id);
    case CheckTimeouts(now) => WhereOnEntry(s.pending, (p: PendingAck) => !(now >= p.deadline), id);
  }

  lemma {:induction false} WhereOnEntry(d: Pendings, p: PendingAck -> bool, id: string)
    requires WellFormed(d)
    ensures Get(Where(d, p), id) == if Has(d, id) && p(Get(d, id).value) then Get(d, id) else None
  {
    if d == [] {
    } else {
      WhereOnEntry(d[1..], p, id);
      var rest := Where(d[1..], p);
      assert ([d[0]] + rest)[1..] == rest;
      HasIsMembership(d[1..], id);
    }
  }

  /** The identifiers a step routes to the dead letter handler. */
  function DeadLettered(s: Manager, op: Op): seq<string> {
    match op
    case NegativeAcknowledge(id) => if Has(s.pending, id) && Exhausted(Get(s.pending, id).value) then [id] else []
    case CheckTimeouts(now) => Keys(Dead(TimedOut(s.pending, now)))
    case _ => []
  }

  /**
   A step dead-letters an identifier if and only if it rejects it or finds it late, and it was tracked at
   least `maxAttempts` times within the episode.
   */
  lemma {:induction false} DeadLettersIff(cfg: Settings, ops: seq<Op>, op: Op, id: string)
    ensures Records(cfg, ops + [op]).dead == Records(cfg, ops).dead + DeadLettered(Run(cfg, ops), op)
    ensures var entry := Get(Run(cfg, ops).pending, id);
            id in DeadLettered(Run(cfg, ops), op) <==>
            && entry.Some? && Tracks(cfg, ops, id) >= cfg.maxAttempts
            && ((op.NegativeAcknowledge? && op.id == id) || (op.CheckTimeouts? && op.now >= entry.value.deadline))
  {
    assert (ops + [op])[..|ops|] == ops;
    RecordsDead(Records(cfg, ops), Run(cfg, ops), op);
    hide Run, Records, Tracks, Record, Keys;
    AttemptsAreTracks(cfg, ops, id);
    EpisodesSettleOnce(cfg, ops);
    if op.CheckTimeouts? {
      SweptDead(Run(cfg, ops).pending, op.now, id);
    }
  }

  lemma RecordsDead(h: Ledger, s: Manager, op: Op)
    ensures Record(h, s, op).dead == h.dead + DeadLettered(s, op)
  {
  }

  lemma SweptDead(d: Pendings, now: real, id: string)
    requires WellFormed(d)
    ensures id in Keys(Dead(TimedOut(d, now))) <==>
            var entry := Get(d, id); entry.Some? && now >= entry.value.deadline && Exhausted(entry.value)
  {
    WhereWellFormed(d, (p: PendingAck) => now >= p.deadline);
    WhereOnEntry(d, (p: PendingAck) => now >= p.deadline, id);
    WhereOnEntry(TimedOut(d, now), (p: PendingAck) => Exhausted(p), id);
    HasIsMembership(Dead(TimedOut(d, now)), id);
    KeysAreKeys(Dead(TimedOut(d, now)), id);
  }

  lemma KeysAreKeys(d: Pendings, id: string)
    ensures id in Keys(d) <==> exists i :: 0 <= i < |d| && d[i].0 == id
  {
    if id in Keys(d) {
      var i :| 0 <= i < |d| && Keys(d)[i] == id;
      assert d[i].0 == id;
    }
    if i :| 0 <= i < |d| && d[i].0 == id {
      assert Keys(d)[i] == id;
    }
  }

  /** The identifier is only ever tracked while it is not pending: between two tracks of it, a step settles it. */
  ghost predicate TrackedAfresh(cfg: Settings, ops: seq<Op>, id: string) {
    ops == [] ||
    (&& TrackedAfresh(cfg, ops[..|ops| - 1], id)
     && (ops[|ops| - 1].Track? && ops[|ops| - 1].message.id == id ==> !Has(Run(cfg, ops[..|ops| - 1]).pending, id)))
  }

  lemma {:induction false} OneTrackAtMost(cfg: Settings, ops: seq<Op>, id: string)
    requires TrackedAfresh(cfg, ops, id)
    ensures Tracks(cfg, ops, id) <= 1
  {
    if ops == [] {
    } else {
      OneTrackAtMost(cfg, ops[..|ops| - 1], id);
      AttemptsAreTracks(cfg, ops[..|ops| - 1], id);
    }
  }

  lemma SweptRetried(d: Pendings, now: real, id: string)
    requires WellFormed(d)
    ensures id in Keys(Retried(TimedOut(d, now))) <==>
            var entry := Get(d, id); entry.Some? && now >= entry.value.deadline && !Exhausted(entry.value)
  {
    WhereWellFormed(d, (p: PendingAck) => now >= p.deadline);
    WhereOnEntry(d, (p: PendingAck) => now >= p.deadline, id);
    WhereOnEntry(TimedOut(d, now), (p: PendingAck) => !Exhausted(p), id);
    HasIsMembership(Retried(TimedOut(d, now)), id);
    KeysAreKeys(Retried(TimedOut(d, now)), id);
  }

  /** What one step adds to the two records of an identifier depends on whether its attempts are used up. */
  lemma RecordOnEntry(h: Ledger, s: Manager, op: Op, id: string)
    requires WellFormed(s.pending)
    ensures id in Record(h, s, op).dead ==> id in h.dead || (Has(s.pending, id) && Exhausted(Get(s.pending, id).value))
    ensures id in Record(h, s, op).redelivered ==>
              id in h.redelivered || (Has(s.pending, id) && !Exhausted(Get(s.pending, id).value))
  {
    if op.CheckTimeouts? {
      SweptDead(s.pending, op.now, id);
      SweptRetried(s.pending, op.now, id);
    }
  }

  /**
   Rejecting or timing out forgets the attempts: in every run in which a message is settled between any
   two tracks of it, it is never dead-lettered if two or more attempts are allowed, and never redelivered
   if at most one is.
   */
  lemma {:induction false} AttemptsAreForgotten(cfg: Settings, ops: seq<Op>, id: string)
    requires TrackedAfresh(cfg, ops, id)
    ensures cfg.maxAttempts >= 2 ==> id !in Records(cfg, ops).dead
    ensures cfg.maxAttempts <= 1 ==> id !in Records(cfg, ops).redelivered
  {
    if ops == [] {
    } else {
      var rest := ops[..|ops| - 1];
      AttemptsAreForgotten(cfg, rest, id);
      OneTrackAtMost(cfg, rest, id);
      AttemptsAreTracks(cfg, rest, id);
      EpisodesSettleOnce(cfg, rest);
      hide Run, Tracks, Record;
      RecordOnEntry(Records(cfg, rest), Run(cfg, rest), ops[|ops| - 1], id);
    }
  }

  lemma RunNext(cfg: Settings, ops: seq<Op>, op: Op)
    ensures Run(cfg, ops + [op]) == Step(cfg, Run(cfg, ops), op)
  {
    assert (ops + [op])[..|ops|] == ops;
  }

  ghost predicate AllTracks(ops: seq<Op>) {
    forall i :: 0 <= i < |ops| ==> ops[i].Track?
  }

  /** Every delivery is tracked, of any message, by any consumer and at any time, and then rejected. */
  function RejectedEachTime(tracks: seq<Op>): seq<Op>
    requires AllTracks(tracks)
  {
    if tracks == [] then []
    else
      var n := |tracks| - 1;
      RejectedEachTime(tracks[..n]) + [tracks[n]] + [NegativeAcknowledge(tracks[n].message.id)]
  }

  /**
   Messages that are rejected after every delivery are dead-lettered each time if at most one attempt is
   allowed; with two or more they are redelivered each time and forever, because rejecting forgets attempts.
   */
  lemma {:induction false} RejectedForeverIff(cfg: Settings, tracks: seq<Op>)
    requires AllTracks(tracks)
    ensures var n := |tracks|;
            Run(cfg, RejectedEachTime(tracks)) ==
            if cfg.maxAttempts <= 1 then Manager([], 0, n, n, 0) else Manager([], 0, n, 0, n)
  {
    if tracks == [] {
    } else {
      var n := |tracks| - 1;
      var before, track := RejectedEachTime(tracks[..n]), tracks[n];
      RejectedForeverIff(cfg, tracks[..n]);
      hide Run, Step;
      RunNext(cfg, before, track);
      RunNext(cfg, before + [track], NegativeAcknowledge(track.message.id));
      TrackThenReject(cfg, Run(cfg, before), track, NegativeAcknowledge(track.message.id));
    }
  }

  lemma TrackThenReject(cfg: Settings, s: Manager, track: Op, nack: Op)
    requires s.pending == [] && track.Track? && nack == NegativeAcknowledge(track.message.id)
    ensures Step(cfg, Step(cfg, s, track), nack) ==
            if cfg.maxAttempts <= 1 then s.(nacked := s.nacked + 1, deadLettered := s.deadLettered + 1)
            else s.(nacked := s.nacked + 1, redelivered := s.redelivered + 1)
  {
    var p := Tracked(cfg, [], track);
    assert Step(cfg, s, track).pending == [(p.message.id, p)];
    assert Remove([(p.message.id, p)], p.message.id) == [];
  }

  // ---------------------------------------------------------------- deadlines

  /** What a track asks for, or else the manager's own timeout; asking for zero is asking for nothing. */
  ghost predicate IsDeadline(cfg: Settings, track: Op, deadline: real) {
    && track.Track?
    && (track.timeout.None? || track.timeout.value == 0.0 ==> deadline == track.now + cfg.ackTimeout)
    && (track.timeout.Some? && track.timeout.value != 0.0 ==> deadline == track.now + track.timeout.value)
  }

  /** The message is pending as it was tracked. */
  ghost predicate PendingAs(s: Manager, track: Op, deadline: real) {
    && track.Track? && Has(s.pending, track.message.id)
    && var p := Get(s.pending, track.message.id).value;
    && p.message == track.message && p.consumer == track.consumer && p.sentAt == track.sentAt
    && p.deadline == deadline
  }

  lemma TrackSetsDeadline(cfg: Settings, s: Manager, track: Op, deadline: real)
    requires WellFormed(s.pending) && IsDeadline(cfg, track, deadline)
    ensures PendingAs(Step(cfg, s, track), track, deadline)
  {
    StepOnEntry(cfg, s, track, track.message.id);
  }

  ghost predicate NotTracked(more: seq<Op>, id: string) {
    forall i :: 0 <= i < |more| && more[i].Track? ==> more[i].message.id != id
  }

  /** What keeps a pending message pending: it is not settled by hand, and no sweep comes as late as the deadline. */
  ghost predicate LeavesAlone(op: Op, id: string, deadline: real) {
    && op != Acknowledge(id) && op != NegativeAcknowledge(id)
    && (op.CheckTimeouts? ==> op.now < deadline)
  }

  lemma StepOnPending(cfg: Settings, s: Manager, op: Op, track: Op, deadline: real)
    requires WellFormed(s.pending) && PendingAs(s, track, deadline) && NotTracked([op], track.message.id)
    ensures if LeavesAlone(op, track.message.id, deadline) then PendingAs(Step(cfg, s, op), track, deadline)
            else !Has(Step(cfg, s, op).pending, track.message.id)
  {
    var id := track.message.id;
    assert [op][0] == op;
    match op
    case Track(m, _, _, _, _) => GetPut(s.pending, m.id, Tracked(cfg, s.pending, op), id);
    case Acknowledge(i) => GetRemove(s.pending, i, id);
    case NegativeAcknowledge(i) => GetRemove(s.pending, i, id);
    case CheckTimeouts(now) => WhereOnEntry(s.pending, (p: PendingAck) => !(now >= p.deadline), id);
  }

  lemma StepOnAbsent(cfg: Settings, s: Manager, op: Op, id: string)
    requires WellFormed(s.pending) && !Has(s.pending, id) && NotTracked([op], id)
    ensures !Has(Step(cfg, s, op).pending, id)
  {
    assert [op][0] == op;
    StepOnEntry(cfg, s, op, id);
  }

  /**
   From a track on, as long as the message is not tracked again, it is pending exactly until the first step
   that acknowledges it, rejects it, or sweeps at or after the deadline that the track gave it.
   */
  lemma {:induction false} PendingUntilSettled(cfg: Settings, ops: seq<Op>, track: Op, deadline: real, more: seq<Op>)
    requires track.Track? && IsDeadline(cfg, track, deadline) && NotTracked(more, track.message.id)
    ensures var s := Run(cfg, ops + [track] + more);
            if AllLeaveAlone(more, track.message.id, deadline) then PendingAs(s, track, deadline)
            else !Has(s.pending, track.message.id)
    decreases more
  {
    hide Step, LeavesAlone, AllLeaveAlone, PendingAs, IsDeadline, NotTracked, Run;
    var id := track.message.id;
    if more == [] {
      assert ops + [track] + more == ops + [track];
      EpisodesSettleOnce(cfg, ops);
      RunNext(cfg, ops, track);
      TrackSetsDeadline(cfg, Run(cfg, ops), track, deadline);
      NobodyDisturbs(id, deadline);
    } else {
      var rest, op := more[..|more| - 1], more[|more| - 1];
      var before := ops + [track] + rest;
      assert more == rest + [op] && ops + [track] + more == before + [op];
      OneMoreTogether(rest, op, id, deadline);
      PendingUntilSettled(cfg, ops, track, deadline, rest);
      EpisodesSettleOnce(cfg, before);
      RunNext(cfg, before, op);
      if AllLeaveAlone(rest, id, deadline) {
        StepOnPending(cfg, Run(cfg, before), op, track, deadline);
      } else {
        StepOnAbsent(cfg, Run(cfg, before), op, id);
      }
    }
  }

  ghost predicate AllLeaveAlone(more: seq<Op>, id: string, deadline: real) {
    forall i :: 0 <= i < |more| ==> LeavesAlone(more[i], id, deadline)
  }

  lemma NobodyDisturbs(id: string, deadline: real)
    ensures AllLeaveAlone([], id, deadline)
  {
  }

  lemma OneMoreTogether(rest: seq<Op>, op: Op, id: string, deadline: real)
    ensures AllLeaveAlone(rest + [op], id, deadline) <==>
            AllLeaveAlone(rest, id, deadline) && LeavesAlone(op, id, deadline)
    ensures NotTracked(rest + [op], id) ==> NotTracked(rest, id) && NotTracked([op], id)
  {
    hide LeavesAlone;
    var more := rest + [op];
    assert more[|rest|] == op && forall i :: 0 <= i < |rest| ==> more[i] == rest[i];
  }

  /**
   So a sweep returns or dead-letters a tracked message if and only if it is still pending and the sweep
   does not come before the deadline.
   */
  lemma {:induction false} SweepSettlesIff(cfg: Settings, ops: seq<Op>, track: Op, deadline: real, more: seq<Op>,
                                           now: real)
    requires track.Track? && IsDeadline(cfg, track, deadline) && NotTracked(more, track.message.id)
    ensures var s := Run(cfg, ops + [track] + more);
            var late := TimedOut(s.pending, now);
            track.message.id in Keys(Retried(late)) + Keys(Dead(late))
            <==> Has(s.pending, track.message.id) && now >= deadline
  {
    var s := Run(cfg, ops + [track] + more);
    PendingUntilSettled(cfg, ops, track, deadline, more);
    EpisodesSettleOnce(cfg, ops + [track] + more);
    hide Run, AllLeaveAlone, IsDeadline;
    SweptRetried(s.pending, now, track.message.id);
    SweptDead(s.pending, now, track.message.id);
  }

  // ---------------------------------------------------------------- the sweep

  /**
   A sweep splits the pending entries exactly: those in time stay as they are and none of them is late;
   the late ones are returned or dead-lettered according to their attempts.
   */
  lemma SweepSplits(d: Pendings, now: real, e: (string, PendingAck))
    ensures multiset(d) == multiset(InTime(d, now)) + multiset(Retried(TimedOut(d, now)))
            + multiset(Dead(TimedOut(d, now)))
    ensures e in InTime(d, now) <==> e in d && now < e.1.deadline
    ensures e in Retried(TimedOut(d, now)) <==> e in d && now >= e.1.deadline && e.1.attempts < e.1.maxAttempts
    ensures e in Dead(TimedOut(d, now)) <==> e in d && now >= e.1.deadline && e.1.attempts >= e.1.maxAttempts
    ensures TimedOut(InTime(d, now), now) == []
  {
    var late, good := (p: PendingAck) => now >= p.deadline, (p: PendingAck) => !(now >= p.deadline);
    var dead, live := (p: PendingAck) => Exhausted(p), (p: PendingAck) => !Exhausted(p);
    WhereSplits(d, late, good);
    WhereSplits(TimedOut(d, now), dead, live);
    WhereEntries(d, late);
    WhereEntries(d, good);
    WhereEntries(TimedOut(d, now), dead);
    WhereEntries(TimedOut(d, now), live);
    WhereNone(InTime(d, now), late);
  }

  function Messages(d: Pendings): (ms: seq<Message>)
    ensures |ms| == |d| && forall i :: 0 <= i < |d| ==> ms[i] == d[i].1.message
  {
    if d == [] then [] else [d[0].1.message] + Messages(d[1..])
  }

  // ---------------------------------------------------------------- the object

  class AckManager {
    const settings: Settings
    var pending: Pendings
    var totalAcked: nat
    var totalNacked: nat
    var totalDeadLettered: nat
    var totalRedelivered: nat

    constructor (settings: Settings)
      ensures this.settings == settings && Valid() && State() == EMPTY_MANAGER
    {
      this.settings := settings;
      pending, totalAcked, totalNacked, totalDeadLettered, totalRedelivered := [], 0, 0, 0, 0;
    }

    function State(): Manager
      reads this
    {
      Manager(pending, totalAcked, totalNacked, totalDeadLettered, totalRedelivered)
    }

    ghost predicate Valid()
      reads this
    {
      Filed(pending, PendingId)
    }

    method Track(message: Message, consumer: string, timeout: Option<real>, sentAt: real, now: real)
      requires Valid()
      modifies this`pending
      ensures Valid() && State() == Step(settings, old(State()), Op.Track(message, consumer, timeout, sentAt, now))
      ensures var entry, was := Get(pending, message.id), Get(old(pending), message.id);
              && entry.Some? && entry.value.message == message && entry.value.consumer == consumer
              && entry.value.sentAt == sentAt && entry.value.maxAttempts == settings.maxAttempts
              && entry.value.attempts == (if was.Some? then was.value.attempts + 1 else 1)
              && (timeout.None? || timeout.value == 0.0 ==> entry.value.deadline == now + settings.ackTimeout)
              && (timeout.Some? && timeout.value != 0.0 ==> entry.value.deadline == now + timeout.value)
    {
      var t := if timeout.Some? && timeout.value != 0.0 then timeout.value else settings.ackTimeout;
      var existing := Get(pending, message.id);
      var attempts := if existing.Some? then existing.value.attempts + 1 else 1;
      var entry := PendingAck(message, consumer, sentAt, now + t, attempts, settings.maxAttempts);
      PutWellFormed(pending, message.id, entry);
      PutEntries(pending, message.id, entry);
      GetPut(pending, message.id, entry, message.id);
      pending := Put(pending, message.id, entry);
    }

    method Acknowledge(id: string) returns (found: bool)
      requires Valid()
      modifies this`pending, this`totalAcked
      ensures Valid() && State() == Step(settings, old(State()), Op.Acknowledge(id)) && found == Has(old(pending), id)
      ensures !Has(pending, id) && totalAcked == old(totalAcked) + if found then 1 else 0
    {
      found := Has(pending, id);
      if found {
        RemoveWellFormed(pending, id);
        GetRemove(pending, id, id);
        pending := Remove(pending, id);
        totalAcked := totalAcked + 1;
      }
    }

    /** Returns the message to deliver again, and what goes to the dead letter handler. */
    method NegativeAcknowledge(id: string) returns (again: Option<Message>, dead: seq<Message>)
      requires Valid()
      modifies this`pending, this`totalNacked, this`totalDeadLettered, this`totalRedelivered
      ensures Valid() && State() == Step(settings, old(State()), Op.NegativeAcknowledge(id))
      ensures var entry := Get(old(pending), id);
              && again == (if entry.Some? && !Exhausted(entry.value) then Some(entry.value.message) else None)
              && dead == if entry.Some? && Exhausted(entry.value) then [entry.value.message] else []
      ensures var entry := Get(old(pending), id);
              && !Has(pending, id)
              && (again.Some? <==> entry.Some? && entry.value.attempts < entry.value.maxAttempts)
              && (dead != [] <==> entry.Some? && entry.value.attempts >= entry.value.maxAttempts)
              && totalNacked == old(totalNacked) + if entry.Some? then 1 else 0
    {
      var entry := Get(pending, id);
      if entry.None? {
        return None, [];
      }
      RemoveWellFormed(pending, id);
      GetRemove(pending, id, id);
      pending := Remove(pending, id);
      totalNacked := totalNacked + 1;
      if Exhausted(entry.value) {
        totalDeadLettered := totalDeadLettered + 1;
        return None, [entry.value.message];
      }
      totalRedelivered := totalRedelivered + 1;
      return Some(entry.value.message), [];
    }

    /** Returns the messages to deliver again, and those that go to the dead letter handler. */
    method CheckTimeouts(now: real) returns (timedOut: seq<Message>, dead: seq<Message>)
      requires Valid()
      modifies this`pending, this`totalDeadLettered, this`totalRedelivered
      ensures Valid() && State() == Step(settings, old(State()), Op.CheckTimeouts(now))
      ensures timedOut == Messages(Retried(TimedOut(old(pending), now)))
      ensures dead == Messages(Dead(TimedOut(old(pending), now)))
      ensures forall e :: e in old(pending) ==>
                            && (e in pending <==> now < e.1.deadline)
                            && (now >= e.1.deadline && e.1.attempts < e.1.maxAttempts ==> e.1.message in timedOut)
                            && (now >= e.1.deadline && e.1.attempts >= e.1.maxAttempts ==> e.1.message in dead)
    {
      hide Where, Keys, Get, Remove, WellFormed, Messages;
      var late := TimedOut(pending, now);
      var ids := Keys(late);
      ghost var was, start := pending, State();
      timedOut, dead := [], [];
      assert late[..0] == [] && ids[..0] == [];
      NoneLate();
      for i := 0 to |ids|
        invariant State() == start.(pending := RemoveAll(was, ids[..i]),
                                    deadLettered := start.deadLettered + |Dead(late[..i])|,
                                    redelivered := start.redelivered + |Retried(late[..i])|)
        invariant timedOut == Messages(Retried(late[..i])) && dead == Messages(Dead(late[..i]))
      {
        SelectedNext(was, (p: PendingAck) => now >= p.deadline, i);
        OneMoreLate(late, i);
        var entry := Get(pending, ids[i]).value;
        pending := Remove(pending, ids[i]);
        if Exhausted(entry) {
          totalDeadLettered := totalDeadLettered + 1;
          dead := dead + [entry.message];
        } else {
          totalRedelivered := totalRedelivered + 1;
          timedOut := timedOut + [entry.message];
        }
      }
      assert late[..|ids|] == late && ids[..|ids|] == ids;
      RemoveAllWhere(was, (p: PendingAck) => now >= p.deadline, (p: PendingAck) => !(now >= p.deadline));
      WhereWellFormed(was, (p: PendingAck) => !(now >= p.deadline));
      WhereEntries(was, (p: PendingAck) => !(now >= p.deadline));
      EachIsSettled(was, now);
    }

    static lemma EachIsSettled(d: Pendings, now: real)
      ensures forall e :: e in d ==>
                            && (e in InTime(d, now) <==> now < e.1.deadline)
                            && (now >= e.1.deadline && e.1.attempts < e.1.maxAttempts ==>
                                  e.1.message in Messages(Retried(TimedOut(d, now))))
                            && (now >= e.1.deadline && e.1.attempts >= e.1.maxAttempts ==>
                                  e.1.message in Messages(Dead(TimedOut(d, now))))
    {
      forall e | e in d ensures e in InTime(d, now) <==> now < e.1.deadline
                        ensures e in Retried(TimedOut(d, now)) ==> e.1.message in Messages(Retried(TimedOut(d, now)))
                        ensures e in Dead(TimedOut(d, now)) ==> e.1.message in Messages(Dead(TimedOut(d, now)))
                        ensures now >= e.1.deadline ==> if e.1.attempts < e.1.maxAttempts
                                                        then e in Retried(TimedOut(d, now))
                                                        else e in Dead(TimedOut(d, now))
      {
        SweepSplits(d, now, e);
        MessageAmong(Retried(TimedOut(d, now)), e);
        MessageAmong(Dead(TimedOut(d, now)), e);
      }
    }

    static lemma MessageAmong(d: Pendings, e: (string, PendingAck))
      ensures e in d ==> e.1.message in Messages(d)
    {
      if e in d {
        var i :| 0 <= i < |d| && d[i] == e;
        assert Messages(d)[i] == e.1.message;
      }
    }

    static lemma NoneLate()
      ensures Dead([]) == [] && Retried([]) == [] && Messages([]) == []
    {
    }

    static lemma OneMoreLate(late: Pendings, i: nat)
      requires i < |late|
      ensures var p := late[i].1;
              && Dead(late[..i + 1]) == Dead(late[..i]) + (if Exhausted(p) then [late[i]] else [])
              && Retried(late[..i + 1]) == Retried(late[..i]) + (if Exhausted(p) then [] else [late[i]])
              && Messages(Dead(late[..i + 1])) == Messages(Dead(late[..i])) + (if Exhausted(p) then [p.message] else [])
              && Messages(Retried(late[..i + 1]))
                 == Messages(Retried(late[..i])) + (if Exhausted(p) then [] else [p.message])
    {
      assert late[..i + 1] == late[..i] + [late[i]];
      WhereAppend(late[..i], late[i], (p: PendingAck) => Exhausted(p));
      WhereAppend(late[..i], late[i], (p: PendingAck) => !Exhausted(p));
    }
  }
}

/**
 The FIFO point-to-point queue. `dequeue` takes the lock twice, so it is two atomic steps, expire and
 pop, with any other step possibly in between.
 */
module MessageQueues {
  import opened Prelude
  import opened OrderedDict
  import opened Partitions
  import opened Visibility

  datatype Queue = Queue(waiting: seq<Message>, inFlight: Flights, totalEnqueued: nat, totalDequeued: nat,
                         totalAcked: nat)

  const EMPTY_QUEUE := Queue([], [], 0, 0, 0)

  datatype Op =
    | Enqueue(message: Message, now: real)
    | Expire(now: real)
    | Pop(timeout: real, now: real)
    | Acknowledge(id: string)
    | Nack(id: string)
    | Purge

  function Reversed(ms: seq<Message>): (r: seq<Message>)
    ensures |r| == |ms| && forall i :: 0 <= i < |ms| ==> r[i] == ms[|ms| - 1 - i]
  {
    if ms == [] then [] else Reversed(ms[1..]) + [ms[0]]
  }

  predicate AtCapacity(q: Queue, maxSize: int) {
    maxSize > 0 && |q.waiting| >= maxSize
  }

  function Step(q: Queue, maxSize: int, op: Op): Queue {
    match op
    case Enqueue(m, now) =>
      if AtCapacity(q, maxSize) then q
      else q.(waiting := q.waiting + [m.(brokerTimestamp := now)], totalEnqueued := q.totalEnqueued + 1)
    case Expire(now) =>
      q.(waiting := Reversed(MessagesOf(Expired(q.inFlight, now))) + q.waiting, inFlight := Unexpired(q.inFlight, now))
    case Pop(timeout, now) =>
      if q.waiting == [] then q
      else
        var m := q.waiting[0];
        q.(waiting := q.waiting[1..], inFlight := Put(q.inFlight, m.id, Flight(m, now + timeout)),
           totalDequeued := q.totalDequeued + 1)
    case Acknowledge(id) =>
      if Has(q.inFlight, id) then q.(inFlight := Remove(q.inFlight, id), totalAcked := q.totalAcked + 1) else q
    case Nack(id) =>
      if Has(q.inFlight, id) then
        q.(inFlight := Remove(q.inFlight, id), waiting := [Get(q.inFlight, id).value.message] + q.waiting)
      else q
    case Purge => q.(waiting := [])
  }

  function Run(maxSize: int, ops: seq<Op>): Queue {
    if ops == [] then EMPTY_QUEUE else Step(Run(maxSize, ops[..|ops| - 1]), maxSize, ops[|ops| - 1])
  }

  // ---------------------------------------------------------------- where messages end up

  /**
   What a step adds to the record: accepted, acknowledged, purged, and overwritten in flight by one with
   the same id.
   */
  datatype Ledger = Ledger(enqueued: seq<Message>, acked: seq<Message>, purged: seq<Message>, overwritten: seq<Message>)

  function Record(h: Ledger, q: Queue, maxSize: int, op: Op): Ledger {
    match op
    case Enqueue(m, now) => if AtCapacity(q, maxSize) then h
                            else h.(enqueued := h.enqueued + [m.(brokerTimestamp := now)])
    case Pop(_, _) =>
      if q.waiting != [] && Has(q.inFlight, q.waiting[0].id)
      then h.(overwritten := h.overwritten + [Get(q.inFlight, q.waiting[0].id).value.message]) else h
    case Acknowledge(id) =>
      if Has(q.inFlight, id) then h.(acked := h.acked + [Get(q.inFlight, id).value.message]) else h
    case Purge => h.(purged := h.purged + q.waiting)
    case _ => h
  }

  function Records(maxSize: int, ops: seq<Op>): Ledger {
    if ops == [] then Ledger([], [], [], [])
    else Record(Records(maxSize, ops[..|ops| - 1]), Run(maxSize, ops[..|ops| - 1]), maxSize, ops[|ops| - 1])
  }

  ghost predicate Balanced(q: Queue, h: Ledger) {
    multiset(h.enqueued) == multiset(q.waiting) + multiset(MessagesOf(q.inFlight)) + multiset(h.acked)
                            + multiset(h.purged) + multiset(h.overwritten)
  }

  ghost predicate Counted(q: Queue, h: Ledger) {
    q.totalEnqueued == |h.enqueued| && q.totalAcked == |h.acked| && Filed(q.inFlight, FlightId)
  }

  lemma {:induction false} ReversedSame(ms: seq<Message>)
    ensures multiset(Reversed(ms)) == multiset(ms)
  {
    if ms == [] {
    } else {
      ReversedSame(ms[1..]);
      assert ms == [ms[0]] + ms[1..];
    }
  }

  type Bag = multiset<Message>

  /** Bags over two sides of a move: what leaves one part enters another. */
  lemma PopMoves(e: Bag, w: Bag, f: Bag, k: Bag, p: Bag, l: Bag, m: Bag, w': Bag, f': Bag, x: Bag, l': Bag)
    requires e == w + f + k + p + l && w == m + w' && f' + x == f + m && l' == l + x
    ensures e == w' + f' + k + p + l'
  {
    assert e == (m + w') + f + k + p + l == w' + (f + m) + k + p + l == w' + (f' + x) + k + p + l;
    assert w' + f' + k + p + (l + x) == w' + (f' + x) + k + p + l;
  }

  lemma PopBalances(q: Queue, h: Ledger, maxSize: int, op: Op)
    requires Balanced(q, h) && op.Pop?
    ensures Balanced(Step(q, maxSize, op), Record(h, q, maxSize, op))
  {
    if q.waiting != [] {
      var m := q.waiting[0];
      var f := Flight(m, op.now + op.timeout);
      var x := Displaced(h, q, maxSize, op);
      PopShape(q, h, maxSize, op);
      PutIn(q.inFlight, m.id, f);
      assert q.waiting == [m] + q.waiting[1..];
      assert multiset(q.waiting) == multiset{m} + multiset(q.waiting[1..]);
      hide Step, Record, Put, MessagesOf, Has, Get;
      PopMoves(multiset(h.enqueued), multiset(q.waiting), multiset(MessagesOf(q.inFlight)), multiset(h.acked),
               multiset(h.purged), multiset(h.overwritten), multiset{m}, multiset(q.waiting[1..]),
               multiset(MessagesOf(Put(q.inFlight, m.id, f))), x, multiset(Record(h, q, maxSize, op).overwritten));
    }
  }

  lemma PopShape(q: Queue, h: Ledger, maxSize: int, op: Op)
    requires op.Pop? && q.waiting != []
    ensures var q', h' := Step(q, maxSize, op), Record(h, q, maxSize, op);
            && q'.waiting == q.waiting[1..]
            && q'.inFlight == Put(q.inFlight, q.waiting[0].id, Flight(q.waiting[0], op.now + op.timeout))
            && h'.enqueued == h.enqueued && h'.acked == h.acked && h'.purged == h.purged
  {
  }

  /** What a pop displaces. */
  lemma Displaced(h: Ledger, q: Queue, maxSize: int, op: Op) returns (x: Bag)
    requires op.Pop? && q.waiting != []
    ensures x == if Has(q.inFlight, q.waiting[0].id) then multiset{Get(q.inFlight, q.waiting[0].id).value.message}
                 else multiset{}
    ensures multiset(Record(h, q, maxSize, op).overwritten) == multiset(h.overwritten) + x
  {
    x := if Has(q.inFlight, q.waiting[0].id) then multiset{Get(q.inFlight, q.waiting[0].id).value.message}
         else multiset{};
  }

  lemma SettleMoves(e: Bag, w: Bag, f: Bag, k: Bag, p: Bag, l: Bag, f': Bag, m: Bag)
    requires e == w + f + k + p + l && f == f' + m
    ensures e == w + f' + (k + m) + p + l
    ensures e == (m + w) + f' + k + p + l
  {
    assert w + (f' + m) + k + p + l == w + f' + (k + m) + p + l;
    assert w + (f' + m) + k + p + l == (m + w) + f' + k + p + l;
  }

  lemma SettleBalances(q: Queue, h: Ledger, maxSize: int, op: Op)
    requires Balanced(q, h) && (op.Acknowledge? || op.Nack?)
    ensures Balanced(Step(q, maxSize, op), Record(h, q, maxSize, op))
  {
    if Has(q.inFlight, op.id) {
      var m := Get(q.inFlight, op.id).value.message;
      var rest := Remove(q.inFlight, op.id);
      TakeOut(q.inFlight, op.id);
      assert multiset([m] + q.waiting) == multiset{m} + multiset(q.waiting);
      assert multiset(h.acked + [m]) == multiset(h.acked) + multiset{m};
      SettleShape(q, h, maxSize, op);
      hide Step, Record, Remove, MessagesOf, Has, Get;
      SettleMoves(multiset(h.enqueued), multiset(q.waiting), multiset(MessagesOf(q.inFlight)), multiset(h.acked),
                  multiset(h.purged), multiset(h.overwritten), multiset(MessagesOf(rest)), multiset{m});
    }
  }

  lemma SettleShape(q: Queue, h: Ledger, maxSize: int, op: Op)
    requires (op.Acknowledge? || op.Nack?) && Has(q.inFlight, op.id)
    ensures var q', h' := Step(q, maxSize, op), Record(h, q, maxSize, op);
            var m := Get(q.inFlight, op.id).value.message;
            && q'.inFlight == Remove(q.inFlight, op.id)
            && q'.waiting == (if op.Nack? then [m] + q.waiting else q.waiting)
            && h' == if op.Nack? then h else h.(acked := h.acked + [m])
  {
  }

  lemma ExpireBalances(q: Queue, h: Ledger, maxSize: int, op: Op)
    requires Balanced(q, h) && op.Expire?
    ensures Balanced(Step(q, maxSize, op), Record(h, q, maxSize, op))
  {
    var back := MessagesOf(Expired(q.inFlight, op.now));
    ExpirySplits(q.inFlight, op.now);
    ReversedSame(back);
    assert multiset(Reversed(back) + q.waiting) == multiset(back) + multiset(q.waiting);
  }

  lemma StepBalances(q: Queue, h: Ledger, maxSize: int, op: Op)
    requires Balanced(q, h)
    ensures Balanced(Step(q, maxSize, op), Record(h, q, maxSize, op))
  {
    match op
    case Pop(timeout, now) => PopBalances(q, h, maxSize, op);
    case Acknowledge(id) => SettleBalances(q, h, maxSize, op);
    case Nack(id) => SettleBalances(q, h, maxSize, op);
    case Expire(now) => ExpireBalances(q, h, maxSize, op);
    case Enqueue(m, now) =>
      var e := m.(brokerTimestamp := now);
      assert multiset(h.enqueued + [e]) == multiset(h.enqueued) + multiset{e};
      assert multiset(q.waiting + [e]) == multiset(q.waiting) + multiset{e};
    case Purge =>
      assert multiset(h.purged + q.waiting) == multiset(h.purged) + multiset(q.waiting);
  }

  lemma StepCounts(q: Queue, h: Ledger, maxSize: int, op: Op)
    requires Counted(q, h)
    ensures Counted(Step(q, maxSize, op), Record(h, q, maxSize, op))
  {
    match op
    case Pop(timeout, now) =>
      if q.waiting != [] {
        PutFiled(q.inFlight, Flight(q.waiting[0], now + timeout));
      }
    case Acknowledge(id) => RemoveFiled(q.inFlight, id);
    case Nack(id) => RemoveFiled(q.inFlight, id);
    case Expire(now) => UnexpiredFiled(q.inFlight, now);
    case _ =>
  }

  /** In every interleaving every accepted message is accounted for, whatever its identifier. */
  lemma {:induction false} RunBalances(maxSize: int, ops: seq<Op>)
    ensures Balanced(Run(maxSize, ops), Records(maxSize, ops)) && Counted(Run(maxSize, ops), Records(maxSize, ops))
  {
    if ops == [] {
    } else {
      RunBalances(maxSize, ops[..|ops| - 1]);
      StepBalances(Run(maxSize, ops[..|ops| - 1]), Records(maxSize, ops[..|ops| - 1]), maxSize, ops[|ops| - 1]);
      StepCounts(Run(maxSize, ops[..|ops| - 1]), Records(maxSize, ops[..|ops| - 1]), maxSize, ops[|ops| - 1]);
    }
  }

  // ---------------------------------------------------------------- unique identifiers

  ghost predicate UniqueIds(ms: seq<Message>) {
    forall i, j :: 0 <= i < j < |ms| ==> ms[i].id != ms[j].id
  }

  lemma {:induction false} UniqueOnce(ms: seq<Message>, m: Message)
    requires UniqueIds(ms)
    ensures multiset(ms)[m] <= 1
    ensures m in ms ==> multiset(ms)[m] == 1 && forall x :: x in ms && x.id == m.id ==> x == m
  {
    if ms == [] {
    } else {
      UniqueOnce(ms[1..], m);
      assert ms == [ms[0]] + ms[1..];
      if ms[0] == m {
        assert m !in ms[1..];
      }
    }
  }

  lemma {:induction false} RecordsGrow(maxSize: int, ops: seq<Op>)
    requires ops != []
    ensures var rest := Records(maxSize, ops[..|ops| - 1]).enqueued;
            |rest| <= |Records(maxSize, ops).enqueued| && Records(maxSize, ops).enqueued[..|rest|] == rest
  {
  }

  /** With unique identifiers nothing is ever overwritten. */
  lemma {:induction false} NothingOverwritten(maxSize: int, ops: seq<Op>)
    requires UniqueIds(Records(maxSize, ops).enqueued)
    ensures Records(maxSize, ops).overwritten == []
  {
    if ops == [] {
    } else {
      var rest, op := ops[..|ops| - 1], ops[|ops| - 1];
      var q, h := Run(maxSize, rest), Records(maxSize, rest);
      RecordsGrow(maxSize, ops);
      NothingOverwritten(maxSize, rest);
      RunBalances(maxSize, rest);
      if op.Pop? && q.waiting != [] && Has(q.inFlight, q.waiting[0].id) {
        var m := q.waiting[0];
        FlightOf(q, m.id);
        var x := Get(q.inFlight, m.id).value.message;
        assert m in multiset(q.waiting) && m in multiset(h.enqueued) && x in multiset(h.enqueued);
        assert m in h.enqueued && x in h.enqueued;
        assert multiset(h.enqueued)[m] >= multiset(q.waiting)[m] + multiset(MessagesOf(q.inFlight))[m];
        UniqueOnce(h.enqueued, m);
        assert false;
      }
    }
  }

  lemma FlightOf(q: Queue, id: string)
    requires Filed(q.inFlight, FlightId) && Has(q.inFlight, id)
    ensures Get(q.inFlight, id).value.message.id == id
    ensures Get(q.inFlight, id).value.message in multiset(MessagesOf(q.inFlight))
  {
    HasIsMembership(q.inFlight, id);
    MessageIsOf(q.inFlight, id);
  }

  /**
   Conservation under interleaving: with unique identifiers, after any sequence of atomic steps each
   enqueued message is in exactly one of waiting, in flight, acknowledged and purged (so it is
   acknowledged at most once), and the enqueue counter is the sum of the four.
   */
  lemma {:induction false} Conservation(maxSize: int, ops: seq<Op>, m: Message)
    requires UniqueIds(Records(maxSize, ops).enqueued) && m in Records(maxSize, ops).enqueued
    ensures var q, h := Run(maxSize, ops), Records(maxSize, ops);
            && multiset(q.waiting)[m] + multiset(MessagesOf(q.inFlight))[m] + multiset(h.acked)[m]
               + multiset(h.purged)[m] == 1
            && q.totalEnqueued == |q.waiting| + |q.inFlight| + q.totalAcked + |h.purged|
  {
    var q, h := Run(maxSize, ops), Records(maxSize, ops);
    RunBalances(maxSize, ops);
    NothingOverwritten(maxSize, ops);
    UniqueOnce(h.enqueued, m);
    MessageCount(q.inFlight);
    var parts := multiset(q.waiting) + multiset(MessagesOf(q.inFlight)) + multiset(h.acked) + multiset(h.purged);
    assert multiset(h.enqueued) == parts;
    assert |multiset(h.enqueued)| == |parts| == |q.waiting| + |MessagesOf(q.inFlight)| + |h.acked| + |h.purged|;
  }

  // ---------------------------------------------------------------- visibility

  /** The steps that may make a message in flight visible again, or settle it. */
  ghost predicate Releases(op: Op, id: string, expiry: real) {
    match op
    case Acknowledge(i) => i == id
    case Nack(i) => i == id
    case Expire(now) => now >= expiry
    case _ => false
  }

  /**
   While nobody acknowledges or rejects it and its time is not up, a message that was handed out stays
   in flight with the same deadline, and no pop can hand it out again.
   */
  lemma {:induction false} HiddenUntilReleased(maxSize: int, ops: seq<Op>, more: seq<Op>, m: Message, expiry: real)
    requires UniqueIds(Records(maxSize, ops + more).enqueued)
    requires Get(Run(maxSize, ops).inFlight, m.id) == Some(Flight(m, expiry))
    requires forall i :: 0 <= i < |more| ==> !Releases(more[i], m.id, expiry)
    ensures Get(Run(maxSize, ops + more).inFlight, m.id) == Some(Flight(m, expiry))
    ensures forall x :: x in Run(maxSize, ops + more).waiting ==> x.id != m.id
    decreases more
  {
    hide Step, Record, Records, Run, Get;
    if more == [] {
      assert ops + more == ops;
    } else {
      var rest, op := more[..|more| - 1], more[|more| - 1];
      assert more == rest + [op];
      ConcatIsAssociative(ops, rest, [op]);
      EnqueuedGrows(maxSize, ops + rest, op);
      RunNext(maxSize, ops + rest, op);
      HiddenUntilReleased(maxSize, ops, rest, m, expiry);
      RunBalances(maxSize, ops + rest);
      StepKeepsHidden(Run(maxSize, ops + rest), maxSize, op, m, expiry);
    }
    InFlightIsNotWaiting(maxSize, ops + more, m.id);
  }

  lemma StepKeepsHidden(q: Queue, maxSize: int, op: Op, m: Message, expiry: real)
    requires Filed(q.inFlight, FlightId) && Get(q.inFlight, m.id) == Some(Flight(m, expiry))
    requires !Releases(op, m.id, expiry)
    requires forall x :: x in q.waiting ==> x.id != m.id
    ensures Get(Step(q, maxSize, op).inFlight, m.id) == Some(Flight(m, expiry))
  {
    match op
    case Pop(timeout, now) =>
      if q.waiting != [] {
        GetPut(q.inFlight, q.waiting[0].id, Flight(q.waiting[0], now + timeout), m.id);
      }
    case Acknowledge(id) => GetRemove(q.inFlight, id, m.id);
    case Nack(id) => GetRemove(q.inFlight, id, m.id);
    case Expire(now) => UnexpiredKeeps(q.inFlight, now, m.id);
    case _ =>
  }

  lemma InFlightIsNotWaiting(maxSize: int, ops: seq<Op>, id: string)
    requires UniqueIds(Records(maxSize, ops).enqueued) && Has(Run(maxSize, ops).inFlight, id)
    ensures forall x :: x in Run(maxSize, ops).waiting ==> x.id != id
  {
    var q, h := Run(maxSize, ops), Records(maxSize, ops);
    RunBalances(maxSize, ops);
    FlightOf(q, id);
    var m := Get(q.inFlight, id).value.message;
    forall x | x in q.waiting ensures x.id != id {
      assert x in multiset(q.waiting) && x in multiset(h.enqueued) && m in multiset(h.enqueued);
      assert x in h.enqueued && m in h.enqueued;
      assert multiset(h.enqueued)[m] >= multiset(q.waiting)[m] + multiset(MessagesOf(q.inFlight))[m];
      UniqueOnce(h.enqueued, m);
    }
  }

  // ---------------------------------------------------------------- order

  /** What the pops of a run handed out, in order. */
  function HandedOut(maxSize: int, ops: seq<Op>): seq<Message> {
    if ops == [] then []
    else
      var q := Run(maxSize, ops[..|ops| - 1]);
      HandedOut(maxSize, ops[..|ops| - 1]) + if ops[|ops| - 1].Pop? && q.waiting != [] then [q.waiting[0]] else []
  }

  /**
   The step neither returns a message to the queue nor purges one: a sweep, as every dequeue runs first,
   finds nothing expired.
   */
  ghost predicate Calm(q: Queue, op: Op) {
    match op
    case Expire(now) => Expired(q.inFlight, now) == []
    case Nack(id) => !Has(q.inFlight, id)
    case Purge => q.waiting == []
    case _ => true
  }

  ghost predicate CalmRun(maxSize: int, ops: seq<Op>) {
    ops == [] || (CalmRun(maxSize, ops[..|ops| - 1]) && Calm(Run(maxSize, ops[..|ops| - 1]), ops[|ops| - 1]))
  }

  /** First in, first out: while nothing is returned or purged, messages are handed out exactly in enqueue order. */
  lemma {:induction false} FirstInFirstOut(maxSize: int, ops: seq<Op>)
    requires CalmRun(maxSize, ops)
    ensures HandedOut(maxSize, ops) + Run(maxSize, ops).waiting == Records(maxSize, ops).enqueued
  {
    if ops == [] {
    } else {
      var rest, op := ops[..|ops| - 1], ops[|ops| - 1];
      FirstInFirstOut(maxSize, rest);
      StepInOrder(Run(maxSize, rest), Records(maxSize, rest), maxSize, op, HandedOut(maxSize, rest));
      hide Step, Record, Calm;
    }
  }

  lemma StepInOrder(q: Queue, h: Ledger, maxSize: int, op: Op, out: seq<Message>)
    requires Calm(q, op) && out + q.waiting == h.enqueued
    ensures out + (if op.Pop? && q.waiting != [] then [q.waiting[0]] else []) + Step(q, maxSize, op).waiting
            == Record(h, q, maxSize, op).enqueued
  {
    assert Reversed(MessagesOf([])) == [];
    hide Has, Get, Put, Remove, Where, MessagesOf, Reversed;
    if op.Pop? && q.waiting != [] {
      assert q.waiting == [q.waiting[0]] + q.waiting[1..];
    }
  }

  /** From when a message is in flight until it is released, no pop hands it out. */
  lemma {:induction false} LaterPops(maxSize: int, ops: seq<Op>, more: seq<Op>, m: Message, expiry: real)
    returns (later: seq<Message>)
    requires UniqueIds(Records(maxSize, ops + more).enqueued)
    requires Get(Run(maxSize, ops).inFlight, m.id) == Some(Flight(m, expiry))
    requires forall i :: 0 <= i < |more| ==> !Releases(more[i], m.id, expiry)
    ensures HandedOut(maxSize, ops + more) == HandedOut(maxSize, ops) + later
    ensures forall x :: x in later ==> x.id != m.id
    decreases more
  {
    hide Run, Records, HandedOut, Get, Releases, UniqueIds;
    if more == [] {
      assert ops + more == ops;
      later := [];
    } else {
      var rest, op := more[..|more| - 1], more[|more| - 1];
      assert more == rest + [op];
      ConcatIsAssociative(ops, rest, [op]);
      EnqueuedGrows(maxSize, ops + rest, op);
      later := LaterPops(maxSize, ops, rest, m, expiry);
      HiddenUntilReleased(maxSize, ops, rest, m, expiry);
      HandsOut(maxSize, ops + rest, op);
      var next := if op.Pop? && Run(maxSize, ops + rest).waiting != [] then [Run(maxSize, ops + rest).waiting[0]]
                  else [];
      ConcatIsAssociative(HandedOut(maxSize, ops), later, next);
      later := later + next;
    }
  }

  /**
   One consumer at a time: once a pop has handed out a message, no later pop hands it out again until it
   is acknowledged, rejected, or a sweep runs at or after the deadline that pop gave it.
   */
  lemma {:induction false} NotHandedOutAgain(maxSize: int, ops: seq<Op>, pop: Op, more: seq<Op>)
    returns (later: seq<Message>)
    requires pop.Pop? && Run(maxSize, ops).waiting != []
    requires UniqueIds(Records(maxSize, ops + [pop] + more).enqueued)
    requires forall i :: 0 <= i < |more| ==> !Releases(more[i], Run(maxSize, ops).waiting[0].id, pop.now + pop.timeout)
    ensures HandedOut(maxSize, ops + [pop] + more)
            == HandedOut(maxSize, ops) + [Run(maxSize, ops).waiting[0]] + later
    ensures forall x :: x in later ==> x.id != Run(maxSize, ops).waiting[0].id
  {
    hide Run, Records, HandedOut, Get, Releases, UniqueIds;
    PopHandsOut(maxSize, ops, pop);
    later := LaterPops(maxSize, ops + [pop], more, Run(maxSize, ops).waiting[0], pop.now + pop.timeout);
  }

  /** The two steps of a call of `dequeue`. */
  function DequeueSteps(visibility: real, requested: Option<real>, before: real, now: real): seq<Op> {
    [Expire(before)] + [Pop(Timeout(requested, visibility), now)]
  }

  /** Neither of these settles the message, and no sweep among them comes at or after the deadline. */
  ghost predicate Undisturbed(more: seq<Op>, id: string, deadline: real) {
    forall i :: 0 <= i < |more| ==>
                  && more[i] != Acknowledge(id) && more[i] != Nack(id)
                  && (more[i].Expire? ==> more[i].now < deadline)
  }

  /**
   A call of `dequeue` hides what it hands out for the queue's own visibility timeout, or for the one it asks
   for if that is not zero: until then no later call hands the message out again unless it is settled.
   */
  lemma DequeueHides(maxSize: int, visibility: real, ops: seq<Op>, requested: Option<real>, before: real, now: real,
                     more: seq<Op>)
    returns (later: seq<Message>)
    requires Run(maxSize, ops + [Expire(before)]).waiting != []
    requires UniqueIds(Records(maxSize, ops + DequeueSteps(visibility, requested, before, now) + more).enqueued)
    requires Undisturbed(more, Run(maxSize, ops + [Expire(before)]).waiting[0].id,
                         now + if requested.None? || requested.value == 0.0 then visibility else requested.value)
    ensures HandedOut(maxSize, ops + DequeueSteps(visibility, requested, before, now) + more)
            == HandedOut(maxSize, ops + [Expire(before)]) + [Run(maxSize, ops + [Expire(before)]).waiting[0]] + later
    ensures forall x :: x in later ==> x.id != Run(maxSize, ops + [Expire(before)]).waiting[0].id
  {
    var sweep, pop := [Expire(before)], Pop(Timeout(requested, visibility), now);
    assert ops + (sweep + [pop]) == ops + sweep + [pop];
    hide Run, Records, HandedOut, UniqueIds;
    later := NotHandedOutAgain(maxSize, ops + sweep, pop, more);
  }

  lemma PopHandsOut(maxSize: int, ops: seq<Op>, pop: Op)
    requires pop.Pop? && Run(maxSize, ops).waiting != []
    ensures var m := Run(maxSize, ops).waiting[0];
            && Get(Run(maxSize, ops + [pop]).inFlight, m.id) == Some(Flight(m, pop.now + pop.timeout))
            && HandedOut(maxSize, ops + [pop]) == HandedOut(maxSize, ops) + [m]
  {
    RunNext(maxSize, ops, pop);
    HandsOut(maxSize, ops, pop);
    hide Run, HandedOut;
    PopFiles(Run(maxSize, ops), maxSize, pop);
  }

  lemma RunNext(maxSize: int, ops: seq<Op>, op: Op)
    ensures Run(maxSize, ops + [op]) == Step(Run(maxSize, ops), maxSize, op)
  {
    assert (ops + [op])[..|ops|] == ops;
  }

  lemma PopFiles(q: Queue, maxSize: int, pop: Op)
    requires pop.Pop? && q.waiting != []
    ensures var m := q.waiting[0];
            Get(Step(q, maxSize, pop).inFlight, m.id) == Some(Flight(m, pop.now + pop.timeout))
  {
    var m := q.waiting[0];
    GetPut(q.inFlight, m.id, Flight(m, pop.now + pop.timeout), m.id);
  }

  lemma HandsOut(maxSize: int, ops: seq<Op>, op: Op)
    ensures HandedOut(maxSize, ops + [op]) == HandedOut(maxSize, ops) +
            if op.Pop? && Run(maxSize, ops).waiting != [] then [Run(maxSize, ops).waiting[0]] else []
  {
    assert (ops + [op])[..|ops|] == ops;
  }

  lemma EnqueuedGrows(maxSize: int, ops: seq<Op>, op: Op)
    requires UniqueIds(Records(maxSize, ops + [op]).enqueued)
    ensures UniqueIds(Records(maxSize, ops).enqueued)
  {
    assert (ops + [op])[..|ops|] == ops;
    RecordsGrow(maxSize, ops + [op]);
  }

  /** Rejecting what a pop just handed out undoes the pop, except for its counter. */
  lemma NackUndoesPop(q: Queue, maxSize: int, pop: Op)
    requires pop.Pop? && q.waiting != [] && !Has(q.inFlight, q.waiting[0].id)
    ensures Step(Step(q, maxSize, pop), maxSize, Nack(q.waiting[0].id)) == q.(totalDequeued := q.totalDequeued + 1)
  {
    var m := q.waiting[0];
    var f := Flight(m, pop.now + pop.timeout);
    PutAbsent(q.inFlight, m.id, f);
    GetPut(q.inFlight, m.id, f, m.id);
    RemoveLast(q.inFlight, m.id, f);
    assert q.waiting == [m] + q.waiting[1..];
  }

  lemma {:induction false} RemoveLast(d: Flights, k: string, f: Flight)
    requires !Has(d, k)
    ensures Remove(d + [(k, f)], k) == d
  {
    if d == [] {
      assert d + [(k, f)] == [(k, f)] && [(k, f)][1..] == [];
    } else {
      assert (d + [(k, f)])[1..] == d[1..] + [(k, f)];
      RemoveLast(d[1..], k, f);
    }
  }

  // ---------------------------------------------------------------- capacity

  /** Everything the queue is responsible for. */
  function Held(q: Queue): nat { |q.waiting| + |q.inFlight| }

  /** Only an accepted message adds to it. */
  lemma StepHolds(q: Queue, maxSize: int, op: Op)
    ensures Held(Step(q, maxSize, op)) <= Held(q) + if op.Enqueue? && !AtCapacity(q, maxSize) then 1 else 0
  {
    hide MessagesOf, Reversed, Where;
    match op
    case Expire(now) =>
      ExpiryCounts(q.inFlight, now);
      MessageCount(Expired(q.inFlight, now));
    case Pop(timeout, now) =>
      if q.waiting != [] {
        PutCount(q.inFlight, q.waiting[0].id, Flight(q.waiting[0], now + timeout));
      }
    case Acknowledge(id) => RemoveCount(q.inFlight, id);
    case Nack(id) => RemoveCount(q.inFlight, id);
    case _ =>
  }

  /** More steps, the last one of them on its own. */
  lemma RunSplits(maxSize: int, ops: seq<Op>, more: seq<Op>)
    requires more != []
    ensures var n := |more| - 1;
            Run(maxSize, ops + more) == Step(Run(maxSize, ops + more[..n]), maxSize, more[n])
  {
    var n := |more| - 1;
    assert ops + more == (ops + more[..n]) + [more[n]];
    RunNext(maxSize, ops + more[..n], more[n]);
  }

  lemma {:induction false} ReturnsStayWithin(maxSize: int, ops: seq<Op>, more: seq<Op>)
    requires forall i :: 0 <= i < |more| ==> !more[i].Enqueue?
    ensures Held(Run(maxSize, ops + more)) <= Held(Run(maxSize, ops))
    decreases more
  {
    if more == [] {
      assert ops + more == ops;
    } else {
      var n := |more| - 1;
      RunSplits(maxSize, ops, more);
      hide Run, Step;
      ReturnsStayWithin(maxSize, ops, more[..n]);
      StepHolds(Run(maxSize, ops + more[..n]), maxSize, more[n]);
    }
  }

  /**
   Neither rejections nor sweeps look at the capacity. Nothing that happens without a further enqueue can
   exceed it if and only if there is room for everything that waits or is in flight.
   */
  lemma ReturnsFitIff(maxSize: int, ops: seq<Op>)
    ensures (forall more: seq<Op> :: (forall i :: 0 <= i < |more| ==> !more[i].Enqueue?) ==>
                                       |Run(maxSize, ops + more).waiting| <= maxSize)
            <==> Held(Run(maxSize, ops)) <= maxSize
  {
    var q := Run(maxSize, ops);
    if Held(q) <= maxSize {
      forall more: seq<Op> | forall i :: 0 <= i < |more| ==> !more[i].Enqueue?
        ensures |Run(maxSize, ops + more).waiting| <= maxSize
      {
        ReturnsStayWithin(maxSize, ops, more);
      }
    } else {
      var now := LastExpiry(q.inFlight);
      var sweep := [Expire(now)];
      MessageCount(q.inFlight);
      RunNext(maxSize, ops, Expire(now));
      assert |Run(maxSize, ops + sweep).waiting| == Held(q);
    }
  }

  /** The caller enqueues only while there is room for everything that waits or is in flight. */
  ghost predicate Cautious(maxSize: int, ops: seq<Op>) {
    ops == [] ||
    (Cautious(maxSize, ops[..|ops| - 1])
     && (ops[|ops| - 1].Enqueue? ==> Held(Run(maxSize, ops[..|ops| - 1])) < maxSize))
  }

  /** Such a caller never sees the capacity exceeded, whatever is rejected or expires. */
  lemma {:induction false} CautiousNeverExceeds(maxSize: int, ops: seq<Op>)
    requires maxSize > 0 && Cautious(maxSize, ops)
    ensures Held(Run(maxSize, ops)) <= maxSize
  {
    if ops == [] {
    } else {
      CautiousNeverExceeds(maxSize, ops[..|ops| - 1]);
      StepHolds(Run(maxSize, ops[..|ops| - 1]), maxSize, ops[|ops| - 1]);
    }
  }

  /** A queue of capacity one can hold two waiting messages. */
  lemma CapacityCanBeExceeded()
    ensures exists ops :: |Run(1, ops).waiting| == 2
  {
    var a := Message("a", None, [], 0, 0, -1, -1, 0.0);
    var b := a.(id := "b");
    var q1 := RunOneMore([], Enqueue(a, 0.0), EMPTY_QUEUE);
    assert q1.waiting == [a];
    var q2 := RunOneMore([Enqueue(a, 0.0)], Pop(1.0, 0.0), q1);
    assert q2.waiting == [] && q2.inFlight == [("a", Flight(a, 1.0))];
    var q3 := RunOneMore([Enqueue(a, 0.0)] + [Pop(1.0, 0.0)], Enqueue(b, 0.0), q2);
    assert q3.waiting == [b] && q3.inFlight == q2.inFlight;
    var q4 := RunOneMore([Enqueue(a, 0.0)] + [Pop(1.0, 0.0)] + [Enqueue(b, 0.0)], Nack("a"), q3);
    assert q4.waiting == [a] + [b];
  }

  lemma RunOneMore(ops: seq<Op>, op: Op, q: Queue) returns (after: Queue)
    requires Run(1, ops) == q
    ensures after == Step(q, 1, op) == Run(1, ops + [op])
  {
    after := Step(q, 1, op);
    RunNext(1, ops, op);
  }

  // ---------------------------------------------------------------- the object

  class MessageQueue {
    const maxSize: int
    const visibilityTimeout: real
    var queue: seq<Message>
    var inFlight: Flights
    var totalEnqueued: nat
    var totalDequeued: nat
    var totalAcked: nat

    constructor (maxSize: int, visibilityTimeout: real)
      ensures this.maxSize == maxSize && this.visibilityTimeout == visibilityTimeout
      ensures Valid() && State() == EMPTY_QUEUE
    {
      this.maxSize, this.visibilityTimeout := maxSize, visibilityTimeout;
      queue, inFlight, totalEnqueued, totalDequeued, totalAcked := [], [], 0, 0, 0;
    }

    function State(): Queue
      reads this
    {
      Queue(queue, inFlight, totalEnqueued, totalDequeued, totalAcked)
    }

    ghost predicate Valid()
      reads this
    {
      Filed(inFlight, FlightId)
    }

    /** Reports whether there was room. */
    method Enqueue(message: Message, now: real) returns (accepted: bool)
      requires Valid()
      modifies this
      ensures Valid() && State() == Step(old(State()), maxSize, Op.Enqueue(message, now))
      ensures accepted <==> maxSize <= 0 || |old(queue)| < maxSize
      ensures queue == old(queue) + (if accepted then [message.(brokerTimestamp := now)] else [])
      ensures inFlight == old(inFlight) && totalDequeued == old(totalDequeued) && totalAcked == old(totalAcked)
      ensures totalEnqueued == old(totalEnqueued) + if accepted then 1 else 0
    {
      if maxSize > 0 && |queue| >= maxSize {
        return false;
      }
      queue := queue + [message.(brokerTimestamp := now)];
      totalEnqueued := totalEnqueued + 1;
      return true;
    }

    /** Puts every expired message back in front, one after the other. */
    method RequeueTimedOut(now: real) returns (requeued: nat)
      requires Valid()
      modifies this`queue, this`inFlight
      ensures Valid() && State() == Step(old(State()), maxSize, Expire(now))
      ensures requeued == |Expired(old(inFlight), now)|
      ensures forall e :: e in old(inFlight) ==> (e in inFlight <==> now < e.1.expiry)
      ensures forall e :: e in old(inFlight) && now >= e.1.expiry ==> e.1.message in queue
      ensures |queue| == requeued + |old(queue)| && queue[requeued..] == old(queue)
      ensures forall i :: 0 <= i < requeued ==>
                            queue[i] == Expired(old(inFlight), now)[requeued - 1 - i].1.message
    {
      hide Where, Remove, Get, MessagesOf, Keys, WellFormed;
      var expired := Expired(inFlight, now);
      var ids := Keys(expired);
      ghost var was, ms := inFlight, MessagesOf(expired);
      requeued := 0;
      assert ids[..0] == [] && ms[..0] == [];
      MessageCount(expired);
      for i := 0 to |ids|
        invariant requeued == i && inFlight == RemoveAll(was, ids[..i])
        invariant queue == Reversed(ms[..i]) + old(queue)
      {
        ExpiredNext(was, now, i);
        ReversedNext(ms, i);
        var message := Get(inFlight, ids[i]).value.message;
        inFlight := Remove(inFlight, ids[i]);
        queue := [message] + queue;
        requeued := requeued + 1;
      }
      assert ids[..|ids|] == ids && ms[..|ms|] == ms;
      PoppingExpired(was, now);
      UnexpiredFiled(was, now);
      SweepResult(was, now, old(queue));
    }

    /** What a sweep leaves: late messages in front, the latest filed of them first, and what is in time in flight. */
    static lemma SweepResult(was: Flights, now: real, waiting: seq<Message>)
      ensures var late := Expired(was, now);
              var after := Reversed(MessagesOf(late)) + waiting;
              && (forall e :: e in was ==> (e in Unexpired(was, now) <==> now < e.1.expiry))
              && (forall e :: e in was && now >= e.1.expiry ==> e.1.message in after)
              && |after| == |late| + |waiting| && after[|late|..] == waiting
              && forall i :: 0 <= i < |late| ==> after[i] == late[|late| - 1 - i].1.message
    {
      var late := Expired(was, now);
      var ms := MessagesOf(late);
      SweepReturnsLate(was, now);
      EachMessage(late);
      hide Where, MessagesOf;
      forall m | m in ms ensures m in Reversed(ms) + waiting {
        var i :| 0 <= i < |ms| && ms[i] == m;
        assert (Reversed(ms) + waiting)[|ms| - 1 - i] == m;
      }
    }

    static lemma ReversedNext(ms: seq<Message>, i: nat)
      requires i < |ms|
      ensures Reversed(ms[..i + 1]) == [ms[i]] + Reversed(ms[..i])
    {
    }

    /** The second half of dequeue, under its own lock. */
    method PopNext(timeout: real, now: real) returns (next: Option<Message>)
      requires Valid()
      modifies this`queue, this`inFlight, this`totalDequeued
      ensures Valid() && State() == Step(old(State()), maxSize, Pop(timeout, now))
      ensures next == if old(queue) == [] then None else Some(old(queue)[0])
      ensures totalDequeued == old(totalDequeued) + if next.Some? then 1 else 0
    {
      if queue == [] {
        return None;
      }
      var message := queue[0];
      queue := queue[1..];
      PutFiled(inFlight, Flight(message, now + timeout));
      inFlight := Put(inFlight, message.id, Flight(message, now + timeout));
      totalDequeued := totalDequeued + 1;
      return Some(message);
    }

    /** Without interference a dequeue is an expire step followed by a pop step, each at its own time. */
    method Dequeue(requested: Option<real>, before: real, now: real) returns (next: Option<Message>)
      requires Valid()
      modifies this
      ensures Valid()
      ensures var swept := Step(old(State()), maxSize, Expire(before));
              && State() == Step(swept, maxSize, Pop(Timeout(requested, visibilityTimeout), now))
              && next == if swept.waiting == [] then None else Some(swept.waiting[0])
      ensures next.Some? && (requested.None? || requested.value == 0.0) ==>
                Get(inFlight, next.value.id) == Some(Flight(next.value, now + visibilityTimeout))
      ensures next.Some? && requested.Some? && requested.value != 0.0 ==>
                Get(inFlight, next.value.id) == Some(Flight(next.value, now + requested.value))
    {
      hide Step, Where, Put, Get, MessagesOf, Reversed;
      var _ := RequeueTimedOut(before);
      var timeout := if requested.Some? && requested.value != 0.0 then requested.value else visibilityTimeout;
      ghost var swept := State();
      next := PopNext(timeout, now);
      if next.Some? {
        PopFiles(swept, maxSize, Pop(timeout, now));
      }
    }

    method Acknowledge(id: string) returns (found: bool)
      requires Valid()
      modifies this`inFlight, this`totalAcked
      ensures Valid() && State() == Step(old(State()), maxSize, Op.Acknowledge(id)) && found == Has(old(inFlight), id)
      ensures !Has(inFlight, id) && totalAcked == old(totalAcked) + if found then 1 else 0
    {
      found := Has(inFlight, id);
      if found {
        RemoveFiled(inFlight, id);
        GetRemove(inFlight, id, id);
        inFlight := Remove(inFlight, id);
        totalAcked := totalAcked + 1;
      }
    }

    method Nack(id: string) returns (found: bool)
      requires Valid()
      modifies this`inFlight, this`queue
      ensures Valid() && State() == Step(old(State()), maxSize, Op.Nack(id)) && found == Has(old(inFlight), id)
      ensures !Has(inFlight, id)
      ensures queue == if found then [Get(old(inFlight), id).value.message] + old(queue) else old(queue)
    {
      var entry := Get(inFlight, id);
      found := entry.Some?;
      if found {
        RemoveFiled(inFlight, id);
        GetRemove(inFlight, id, id);
        inFlight := Remove(inFlight, id);
        queue := [entry.value.message] + queue;
      }
    }

    method Purge() returns (count: nat)
      requires Valid()
      modifies this`queue
      ensures Valid() && State() == Step(old(State()), maxSize, Op.Purge) && count == |old(queue)| && queue == []
    {
      count := |queue|;
      queue := [];
    }
  }
}

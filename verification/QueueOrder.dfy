/**
 The order in which the plain queue hands out messages when some of them come back: first deliveries
 keep enqueue order whatever is returned, processing one message at a time keeps it altogether, and
 returning messages keeps it in general only when at most one is in flight.
 */
module QueueOrder {
  import opened Prelude
  import opened OrderedDict
  import opened Partitions
  import opened Visibility
  import opened MessageQueues

  // ---------------------------------------------------------------- lists without some messages

  function Without(ms: seq<Message>, gone: seq<Message>): seq<Message> {
    if ms == [] then []
    else if ms[0] in gone then Without(ms[1..], gone)
    else [ms[0]] + Without(ms[1..], gone)
  }

  lemma {:induction false} WithoutConcat(a: seq<Message>, b: seq<Message>, gone: seq<Message>)
    ensures Without(a + b, gone) == Without(a, gone) + Without(b, gone)
  {
    if a == [] {
      assert a + b == b;
    } else {
      assert (a + b)[1..] == a[1..] + b;
      WithoutConcat(a[1..], b, gone);
    }
  }

  lemma {:induction false} WithoutMembers(ms: seq<Message>, gone: seq<Message>)
    ensures forall m :: m in Without(ms, gone) <==> m in ms && m !in gone
  {
    if ms == [] {
    } else {
      WithoutMembers(ms[1..], gone);
    }
  }

  lemma {:induction false} WithoutNone(ms: seq<Message>, gone: seq<Message>)
    requires forall m :: m in ms ==> m !in gone
    ensures Without(ms, gone) == ms
  {
    if ms == [] {
    } else {
      WithoutNone(ms[1..], gone);
    }
  }

  lemma {:induction false} WithoutAll(ms: seq<Message>, gone: seq<Message>)
    requires forall m :: m in ms ==> m in gone
    ensures Without(ms, gone) == []
  {
    if ms == [] {
    } else {
      WithoutAll(ms[1..], gone);
    }
  }

  lemma {:induction false} WithoutMore(ms: seq<Message>, gone: seq<Message>, more: seq<Message>)
    ensures Without(ms, gone + more) == Without(Without(ms, gone), more)
  {
    if ms == [] {
    } else {
      WithoutMore(ms[1..], gone, more);
      var rest := Without(ms[1..], gone);
      assert ([ms[0]] + rest)[1..] == rest;
    }
  }

  lemma {:induction false} WithoutOther(ms: seq<Message>, gone: seq<Message>, m: Message)
    requires m !in ms
    ensures Without(ms, gone + [m]) == Without(ms, gone)
  {
    if ms == [] {
    } else {
      WithoutOther(ms[1..], gone, m);
    }
  }

  lemma {:induction false} WithoutUnique(ms: seq<Message>, gone: seq<Message>)
    requires UniqueIds(ms)
    ensures UniqueIds(Without(ms, gone))
  {
    if ms == [] {
    } else {
      WithoutUnique(ms[1..], gone);
      WithoutMembers(ms[1..], gone);
      var rest := Without(ms[1..], gone);
      forall j | 0 <= j < |rest| ensures rest[j].id != ms[0].id {
        assert rest[j] in ms[1..];
      }
    }
  }

  // ---------------------------------------------------------------- first deliveries

  /** The pops that hand out a message nobody was handed before, in order. */
  function FirstDeliveries(maxSize: int, ops: seq<Op>): seq<Message> {
    if ops == [] then []
    else
      var rest := ops[..|ops| - 1];
      FirstDeliveries(maxSize, rest) + First(Run(maxSize, rest), ops[|ops| - 1], HandedOut(maxSize, rest))
  }

  function First(q: Queue, op: Op, handed: seq<Message>): seq<Message> {
    if op.Pop? && q.waiting != [] && q.waiting[0] !in handed then [q.waiting[0]] else []
  }

  /** What was purged before anybody was handed it. */
  function PurgedUnseen(maxSize: int, ops: seq<Op>): seq<Message> {
    if ops == [] then []
    else
      var rest := ops[..|ops| - 1];
      PurgedUnseen(maxSize, rest) + Lost(Run(maxSize, rest), ops[|ops| - 1], HandedOut(maxSize, rest))
  }

  function Lost(q: Queue, op: Op, handed: seq<Message>): seq<Message> {
    if op.Purge? then Without(q.waiting, handed) else []
  }

  function Next(q: Queue, op: Op): seq<Message> {
    if op.Pop? && q.waiting != [] then [q.waiting[0]] else []
  }

  ghost predicate Known(q: Queue, enqueued: seq<Message>, handed: seq<Message>, first: seq<Message>,
                        lost: seq<Message>) {
    && (forall m :: m in MessagesOf(q.inFlight) ==> m in handed)
    && (forall m :: m in first ==> m in handed)
    && (forall m :: m in handed ==> m in enqueued)
    && (forall m :: m in lost ==> m in enqueued)
    && (forall m :: m in q.waiting ==> m in enqueued)
  }

  ghost predicate InLine(q: Queue, enqueued: seq<Message>, handed: seq<Message>, first: seq<Message>,
                         lost: seq<Message>) {
    first + Without(q.waiting, handed) == Without(enqueued, lost)
  }

  lemma PutMembers(d: Flights, k: string, f: Flight)
    ensures forall m :: m in MessagesOf(Put(d, k, f)) ==> m in MessagesOf(d) || m == f.message
  {
    PutEntries(d, k, f);
    forall m | m in MessagesOf(Put(d, k, f)) ensures m in MessagesOf(d) || m == f.message {
      var e := EntryOf(Put(d, k, f), m);
      if e in d {
        MessageIn(d, e);
      }
    }
  }

  lemma {:induction false} EntryOf(d: Flights, m: Message) returns (e: (string, Flight))
    requires m in MessagesOf(d)
    ensures e in d && e.1.message == m
  {
    if d[0].1.message == m {
      e := d[0];
    } else {
      e := EntryOf(d[1..], m);
    }
  }

  lemma {:induction false} MessageIn(d: Flights, e: (string, Flight))
    requires e in d
    ensures e.1.message in MessagesOf(d)
  {
    if d[0] != e {
      MessageIn(d[1..], e);
    }
  }

  lemma {:induction false} WhereMessages(d: Flights, p: Flight -> bool)
    ensures forall m :: m in MessagesOf(Where(d, p)) ==> m in MessagesOf(d)
  {
    WhereEntries(d, p);
    forall m | m in MessagesOf(Where(d, p)) ensures m in MessagesOf(d) {
      var e := EntryOf(Where(d, p), m);
      MessageIn(d, e);
    }
  }

  lemma {:induction false} RemoveMessages(d: Flights, k: string)
    ensures forall m :: m in MessagesOf(Remove(d, k)) ==> m in MessagesOf(d)
  {
    if d != [] && d[0].0 != k {
      RemoveMessages(d[1..], k);
      var rest := Remove(d[1..], k);
      assert ([d[0]] + rest)[1..] == rest;
    }
  }

  /** What a step puts back in front of the queue was in flight. */
  lemma BackInFront(q: Queue, maxSize: int, op: Op) returns (back: seq<Message>)
    requires op.Expire? || op.Nack? || op.Acknowledge?
    ensures Step(q, maxSize, op).waiting == back + q.waiting
    ensures forall m :: m in back ==> m in MessagesOf(q.inFlight)
    ensures forall m :: m in MessagesOf(Step(q, maxSize, op).inFlight) ==> m in MessagesOf(q.inFlight)
  {
    match op
    case Expire(now) =>
      back := Reversed(MessagesOf(Expired(q.inFlight, now)));
      WhereMessages(q.inFlight, (f: Flight) => now >= f.expiry);
      WhereMessages(q.inFlight, (f: Flight) => !(now >= f.expiry));
      forall m | m in back ensures m in MessagesOf(q.inFlight) {
        var i :| 0 <= i < |back| && back[i] == m;
        assert m == MessagesOf(Expired(q.inFlight, now))[|back| - 1 - i];
      }
    case Nack(id) =>
      RemoveMessages(q.inFlight, id);
      if Has(q.inFlight, id) {
        MessageIsOf(q.inFlight, id);
        back := [Get(q.inFlight, id).value.message];
      } else {
        back := [];
        assert [] + q.waiting == q.waiting;
      }
    case Acknowledge(id) =>
      RemoveMessages(q.inFlight, id);
      back := [];
      assert [] + q.waiting == q.waiting;
  }

  lemma StepKnown(q: Queue, h: Ledger, maxSize: int, op: Op, handed: seq<Message>, first: seq<Message>,
                  lost: seq<Message>)
    requires Known(q, h.enqueued, handed, first, lost)
    ensures Known(Step(q, maxSize, op), Record(h, q, maxSize, op).enqueued, handed + Next(q, op),
                  first + First(q, op, handed), lost + Lost(q, op, handed))
  {
    match op
    case Pop(timeout, now) =>
      if q.waiting != [] {
        PutMembers(q.inFlight, q.waiting[0].id, Flight(q.waiting[0], now + timeout));
      }
    case Enqueue(m, now) =>
    case Purge => WithoutMembers(q.waiting, handed);
    case _ =>
      var back := BackInFront(q, maxSize, op);
  }

  lemma StepInLine(q: Queue, h: Ledger, maxSize: int, op: Op, handed: seq<Message>, first: seq<Message>,
                   lost: seq<Message>)
    requires Known(q, h.enqueued, handed, first, lost) && InLine(q, h.enqueued, handed, first, lost)
    requires UniqueIds(Record(h, q, maxSize, op).enqueued) && UniqueIds(q.waiting)
    ensures InLine(Step(q, maxSize, op), Record(h, q, maxSize, op).enqueued, handed + Next(q, op),
                   first + First(q, op, handed), lost + Lost(q, op, handed))
  {
    match op
    case Enqueue(m, now) =>
      if !AtCapacity(q, maxSize) {
        EnqueueInLine(q, h.enqueued, m.(brokerTimestamp := now), handed, first, lost);
      }
      assert handed + [] == handed && first + [] == first && lost + [] == lost;
    case Pop(timeout, now) =>
      assert lost + [] == lost;
      if q.waiting != [] {
        PopInLine(q, h.enqueued, handed, first, lost);
      } else {
        assert handed + [] == handed && first + [] == first;
      }
    case Purge =>
      assert handed + [] == handed && first + [] == first;
      PurgeInLine(q, h.enqueued, handed, first, lost);
    case _ =>
      assert handed + [] == handed && first + [] == first && lost + [] == lost;
      var back := BackInFront(q, maxSize, op);
      assert Record(h, q, maxSize, op).enqueued == h.enqueued;
      hide Step, Record;
      WithoutConcat(back, q.waiting, handed);
      WithoutAll(back, handed);
      assert [] + Without(q.waiting, handed) == Without(q.waiting, handed);
  }

  lemma NewIsNew(ms: seq<Message>, m: Message)
    requires UniqueIds(ms + [m])
    ensures m !in ms && UniqueIds(ms)
  {
    var all := ms + [m];
    assert forall i :: 0 <= i < |ms| ==> all[i] == ms[i] && all[i].id != all[|ms|].id;
  }

  lemma EnqueueInLine(q: Queue, enqueued: seq<Message>, m: Message, handed: seq<Message>, first: seq<Message>,
                      lost: seq<Message>)
    requires Known(q, enqueued, handed, first, lost) && InLine(q, enqueued, handed, first, lost)
    requires UniqueIds(enqueued + [m])
    ensures first + Without(q.waiting + [m], handed) == Without(enqueued + [m], lost)
  {
    NewIsNew(enqueued, m);
    WithoutConcat(q.waiting, [m], handed);
    WithoutConcat(enqueued, [m], lost);
    WithoutNone([m], handed);
    WithoutNone([m], lost);
    ConcatIsAssociative(first, Without(q.waiting, handed), [m]);
  }

  lemma PopInLine(q: Queue, enqueued: seq<Message>, handed: seq<Message>, first: seq<Message>, lost: seq<Message>)
    requires q.waiting != [] && InLine(q, enqueued, handed, first, lost) && UniqueIds(q.waiting)
    ensures var m := q.waiting[0];
            first + (if m !in handed then [m] else []) + Without(q.waiting[1..], handed + [m])
                == Without(enqueued, lost)
  {
    var m, rest := q.waiting[0], q.waiting[1..];
    WithoutOther(rest, handed, m);
    if m !in handed {
      ConcatIsAssociative(first, [m], Without(rest, handed));
    } else {
      assert first + [] == first;
    }
  }

  lemma PurgeInLine(q: Queue, enqueued: seq<Message>, handed: seq<Message>, first: seq<Message>, lost: seq<Message>)
    requires Known(q, enqueued, handed, first, lost) && InLine(q, enqueued, handed, first, lost)
    ensures first + Without([], handed) == Without(enqueued, lost + Without(q.waiting, handed))
  {
    var unseen := Without(q.waiting, handed);
    WithoutMembers(q.waiting, handed);
    WithoutMore(enqueued, lost, unseen);
    WithoutConcat(first, unseen, unseen);
    WithoutNone(first, unseen);
    WithoutAll(unseen, unseen);
  }

  lemma WaitingIsUnique(maxSize: int, ops: seq<Op>)
    requires UniqueIds(Records(maxSize, ops).enqueued)
    ensures UniqueIds(MessagesOf(Run(maxSize, ops).inFlight) + Run(maxSize, ops).waiting)
    ensures UniqueIds(Run(maxSize, ops).waiting)
  {
    RunBalances(maxSize, ops);
    var q, h := Run(maxSize, ops), Records(maxSize, ops);
    hide Run, Records;
    LineIsUnique(MessagesOf(q.inFlight), q.waiting, h);
  }

  lemma LineIsUnique(flying: seq<Message>, waiting: seq<Message>, h: Ledger)
    requires UniqueIds(h.enqueued)
    requires multiset(h.enqueued) == multiset(waiting) + multiset(flying) + multiset(h.acked)
                                     + multiset(h.purged) + multiset(h.overwritten)
    ensures UniqueIds(flying + waiting) && UniqueIds(waiting)
  {
    var line := flying + waiting;
    assert multiset(line) == multiset(flying) + multiset(waiting);
    PartIsUnique(line, h.enqueued);
    assert forall i :: 0 <= i < |waiting| ==> line[|flying| + i] == waiting[i];
  }

  lemma PartIsUnique(part: seq<Message>, all: seq<Message>)
    requires multiset(part) <= multiset(all) && UniqueIds(all)
    ensures UniqueIds(part)
  {
    forall i, j | 0 <= i < j < |part| ensures part[i].id != part[j].id {
      assert part[i] in multiset(part) && part[j] in multiset(part);
      assert part[i] in multiset(all) && part[j] in multiset(all);
      assert part[i] in all && part[j] in all;
      UniqueOnce(all, part[i]);
      TwiceCounts(part, i, j);
    }
  }

  lemma TwiceCounts(ms: seq<Message>, i: nat, j: nat)
    requires i < j < |ms|
    ensures ms[i] == ms[j] ==> multiset(ms)[ms[i]] >= 2
  {
    assert ms == ms[..j] + ms[j..];
    assert ms[i] in ms[..j] && ms[j] in ms[j..];
  }

  /**
   First deliveries keep enqueue order: in every run, whatever is rejected, expires or is purged, the
   messages handed out for the first time, followed by those still waiting that nobody was handed yet,
   are the accepted messages in enqueue order, save those purged before anybody was handed them.
   */
  lemma {:induction false} FirstDeliveriesInOrder(maxSize: int, ops: seq<Op>)
    requires UniqueIds(Records(maxSize, ops).enqueued)
    ensures FirstDeliveries(maxSize, ops) + Without(Run(maxSize, ops).waiting, HandedOut(maxSize, ops))
            == Without(Records(maxSize, ops).enqueued, PurgedUnseen(maxSize, ops))
    ensures Known(Run(maxSize, ops), Records(maxSize, ops).enqueued, HandedOut(maxSize, ops),
                  FirstDeliveries(maxSize, ops), PurgedUnseen(maxSize, ops))
  {
    if ops == [] {
    } else {
      var rest, op := ops[..|ops| - 1], ops[|ops| - 1];
      RecordsGrow(maxSize, ops);
      hide Step, Record, Known, Without;
      FirstDeliveriesInOrder(maxSize, rest);
      WaitingIsUnique(maxSize, rest);
      StepKnown(Run(maxSize, rest), Records(maxSize, rest), maxSize, op, HandedOut(maxSize, rest),
                FirstDeliveries(maxSize, rest), PurgedUnseen(maxSize, rest));
      StepInLine(Run(maxSize, rest), Records(maxSize, rest), maxSize, op, HandedOut(maxSize, rest),
                 FirstDeliveries(maxSize, rest), PurgedUnseen(maxSize, rest));
    }
  }

  // ---------------------------------------------------------------- one message at a time

  /** Nothing is handed out while something is in flight. */
  ghost predicate OneAtATime(maxSize: int, ops: seq<Op>) {
    ops == [] ||
    (&& OneAtATime(maxSize, ops[..|ops| - 1])
     && (ops[|ops| - 1].Pop? && Run(maxSize, ops[..|ops| - 1]).waiting != [] ==>
           Run(maxSize, ops[..|ops| - 1]).inFlight == []))
  }

  ghost predicate Serial(q: Queue, h: Ledger) {
    && |q.inFlight| <= 1
    && h.acked + MessagesOf(q.inFlight) + q.waiting == Without(h.enqueued, h.purged)
    && forall m :: m in h.purged ==> m in h.enqueued
  }

  lemma StepSerial(q: Queue, h: Ledger, maxSize: int, op: Op)
    requires Serial(q, h) && UniqueIds(Record(h, q, maxSize, op).enqueued) && UniqueIds(h.enqueued)
    requires op.Pop? && q.waiting != [] ==> q.inFlight == []
    requires forall m :: m in q.waiting ==> m in h.enqueued
    ensures Serial(Step(q, maxSize, op), Record(h, q, maxSize, op))
  {
    match op
    case Enqueue(m, now) =>
      if !AtCapacity(q, maxSize) {
        EnqueueSerial(q, h, m.(brokerTimestamp := now));
      }
    case Purge => PurgeSerial(q, h);
    case _ => TurnSerial(q, h, maxSize, op);
  }

  lemma EnqueueSerial(q: Queue, h: Ledger, m: Message)
    requires Serial(q, h) && UniqueIds(h.enqueued + [m])
    ensures h.acked + MessagesOf(q.inFlight) + (q.waiting + [m]) == Without(h.enqueued + [m], h.purged)
  {
    NewIsNew(h.enqueued, m);
    WithoutConcat(h.enqueued, [m], h.purged);
    WithoutNone([m], h.purged);
    ConcatIsAssociative(h.acked + MessagesOf(q.inFlight), q.waiting, [m]);
  }

  lemma PurgeSerial(q: Queue, h: Ledger)
    requires Serial(q, h) && UniqueIds(h.enqueued)
    ensures h.acked + MessagesOf(q.inFlight) + [] == Without(h.enqueued, h.purged + q.waiting)
  {
    var done := h.acked + MessagesOf(q.inFlight);
    var all := done + q.waiting;
    WithoutMore(h.enqueued, h.purged, q.waiting);
    WithoutUnique(h.enqueued, h.purged);
    WithoutConcat(done, q.waiting, q.waiting);
    WithoutAll(q.waiting, q.waiting);
    UniquePartsDiffer(done, q.waiting);
    WithoutNone(done, q.waiting);
  }

  lemma UniquePartsDiffer(a: seq<Message>, b: seq<Message>)
    requires UniqueIds(a + b)
    ensures forall m :: m in a ==> m !in b
  {
    var all := a + b;
    forall i, j | 0 <= i < |a| && 0 <= j < |b| ensures a[i] != b[j] {
      assert all[i] == a[i] && all[|a| + j] == b[j];
    }
  }

  /** With at most one message in flight, every other step moves one message across one of the two borders, or none. */
  lemma TurnSerial(q: Queue, h: Ledger, maxSize: int, op: Op)
    requires |q.inFlight| <= 1 && (op.Pop? || op.Acknowledge? || op.Nack? || op.Expire?)
    requires op.Pop? && q.waiting != [] ==> q.inFlight == []
    ensures var q', h' := Step(q, maxSize, op), Record(h, q, maxSize, op);
            && |q'.inFlight| <= 1 && h'.enqueued == h.enqueued && h'.purged == h.purged
            && h'.acked + MessagesOf(q'.inFlight) + q'.waiting == h.acked + MessagesOf(q.inFlight) + q.waiting
  {
    if op.Pop? {
      PopSerial(q, h, maxSize, op);
    } else if q.inFlight == [] {
      assert op.Expire? ==> Reversed(MessagesOf(Expired([], op.now))) == [];
      assert [] + q.waiting == q.waiting;
    } else {
      assert q.inFlight == [q.inFlight[0]];
      LastSettles(q, h, maxSize, op, q.inFlight[0]);
    }
  }

  lemma PopSerial(q: Queue, h: Ledger, maxSize: int, op: Op)
    requires op.Pop? && (q.waiting != [] ==> q.inFlight == []) && |q.inFlight| <= 1
    ensures var q', h' := Step(q, maxSize, op), Record(h, q, maxSize, op);
            && |q'.inFlight| <= 1 && h'.enqueued == h.enqueued && h'.purged == h.purged
            && h'.acked + MessagesOf(q'.inFlight) + q'.waiting == h.acked + MessagesOf(q.inFlight) + q.waiting
  {
    if q.waiting != [] {
      var m := q.waiting[0];
      var e := (m.id, Flight(m, op.now + op.timeout));
      assert Put([], m.id, e.1) == [e];
      OneFlight(e);
      assert q.waiting == [m] + q.waiting[1..];
    }
  }

  lemma OneFlight(e: (string, Flight))
    ensures MessagesOf([e]) == [e.1.message] && Remove([e], e.0) == []
    ensures Reversed([e.1.message]) == [e.1.message]
  {
    assert [e][1..] == [] && [e.1.message][1..] == [];
  }

  lemma OneExpires(e: (string, Flight), now: real)
    ensures Expired([e], now) == if now >= e.1.expiry then [e] else []
    ensures Unexpired([e], now) == if now >= e.1.expiry then [] else [e]
  {
    assert [] + [e] == [e];
    WhereAppend([], e, (f: Flight) => now >= f.expiry);
    WhereAppend([], e, (f: Flight) => !(now >= f.expiry));
  }

  /** The queue has one message in flight, and its place in the order is kept. */
  ghost predicate KeepsLine(q: Queue, h: Ledger, q': Queue, h': Ledger) {
    && |q'.inFlight| <= 1 && h'.enqueued == h.enqueued && h'.purged == h.purged
    && h'.acked + MessagesOf(q'.inFlight) + q'.waiting == h.acked + MessagesOf(q.inFlight) + q.waiting
  }

  lemma LastExpires(q: Queue, h: Ledger, maxSize: int, now: real, e: (string, Flight))
    requires q.inFlight == [e]
    ensures KeepsLine(q, h, Step(q, maxSize, Expire(now)), Record(h, q, maxSize, Expire(now)))
  {
    OneFlight(e);
    OneExpires(e, now);
    assert MessagesOf([]) == [] && Reversed([]) == [];
    hide MessagesOf, Reversed, Expired, Unexpired;
    if now >= e.1.expiry {
      assert h.acked + [] + ([e.1.message] + q.waiting) == h.acked + [e.1.message] + q.waiting;
    } else {
      assert [] + q.waiting == q.waiting;
    }
  }

  lemma InFront(a: seq<Message>, m: Message, w: seq<Message>)
    ensures a + [m] + [] + w == a + [m] + w == a + [] + ([m] + w)
  {
  }

  lemma LastReturns(q: Queue, h: Ledger, maxSize: int, op: Op, e: (string, Flight))
    requires q.inFlight == [e] && (op.Acknowledge? || op.Nack?)
    ensures KeepsLine(q, h, Step(q, maxSize, op), Record(h, q, maxSize, op))
  {
    var m := e.1.message;
    OneFlight(e);
    assert [e][1..] == [] && Get([e], op.id) == if op.id == e.0 then Some(e.1) else None;
    assert MessagesOf([]) == [];
    InFront(h.acked, m, q.waiting);
    hide MessagesOf, Get, Remove;
  }

  lemma LastSettles(q: Queue, h: Ledger, maxSize: int, op: Op, e: (string, Flight))
    requires q.inFlight == [e] && (op.Acknowledge? || op.Nack? || op.Expire?)
    ensures KeepsLine(q, h, Step(q, maxSize, op), Record(h, q, maxSize, op))
  {
    if op.Expire? {
      LastExpires(q, h, maxSize, op.now, e);
    } else {
      LastReturns(q, h, maxSize, op, e);
    }
  }

  /**
   Processing one message at a time keeps the order altogether: however often messages are rejected or
   expire, what was acknowledged, what is in flight and what waits are, in this order, the accepted
   messages in enqueue order, save the purged ones.
   */
  lemma {:induction false} OneAtATimeKeepsOrder(maxSize: int, ops: seq<Op>)
    requires OneAtATime(maxSize, ops) && UniqueIds(Records(maxSize, ops).enqueued)
    ensures Serial(Run(maxSize, ops), Records(maxSize, ops))
  {
    if ops != [] {
      var rest, op := ops[..|ops| - 1], ops[|ops| - 1];
      RecordsGrow(maxSize, ops);
      hide Step, Record, Serial;
      OneAtATimeKeepsOrder(maxSize, rest);
      WaitingWasEnqueued(maxSize, rest);
      StepSerial(Run(maxSize, rest), Records(maxSize, rest), maxSize, op);
    } else {
      assert Without([], []) == [];
    }
  }

  lemma WaitingWasEnqueued(maxSize: int, ops: seq<Op>)
    ensures forall m :: m in Run(maxSize, ops).waiting ==> m in Records(maxSize, ops).enqueued
  {
    RunBalances(maxSize, ops);
    forall m | m in Run(maxSize, ops).waiting ensures m in Records(maxSize, ops).enqueued {
      assert m in multiset(Run(maxSize, ops).waiting);
      assert m in multiset(Records(maxSize, ops).enqueued);
    }
  }

  // ---------------------------------------------------------------- returning messages

  /** Steps that settle or return what is in flight. */
  ghost predicate Settling(more: seq<Op>) {
    forall i :: 0 <= i < |more| ==> more[i].Acknowledge? || more[i].Nack? || more[i].Expire?
  }

  ghost predicate Precedes(line: seq<Message>, x: Message, y: Message) {
    exists a, b :: 0 <= a < b < |line| && line[a] == x && line[b] == y
  }

  /** Any two messages of `w` stand in `line` in the same order. */
  ghost predicate KeepsOrder(w: seq<Message>, line: seq<Message>) {
    forall i, j :: 0 <= i < j < |w| ==> Precedes(line, w[i], w[j])
  }

  ghost predicate Tail(w: seq<Message>, line: seq<Message>) {
    |w| <= |line| && w == line[|line| - |w|..]
  }

  /** At most one message is in flight, and what is in flight and waits is the tail of the line. */
  ghost predicate Trails(q: Queue, line: seq<Message>) {
    |q.inFlight| <= 1 && Tail(MessagesOf(q.inFlight) + q.waiting, line)
  }

  lemma {:induction false} SettlingKeepsTail(maxSize: int, ops: seq<Op>, more: seq<Op>)
    requires Settling(more) && |Run(maxSize, ops).inFlight| <= 1
    ensures Trails(Run(maxSize, ops + more), MessagesOf(Run(maxSize, ops).inFlight) + Run(maxSize, ops).waiting)
    decreases more
  {
    hide Run, Step, Record, MessagesOf, Tail;
    var line := MessagesOf(Run(maxSize, ops).inFlight) + Run(maxSize, ops).waiting;
    if more == [] {
      assert ops + more == ops;
      assert [] + MessagesOf(Run(maxSize, ops).inFlight) + Run(maxSize, ops).waiting == line;
      TailOfTail([], MessagesOf(Run(maxSize, ops).inFlight), Run(maxSize, ops).waiting, line, line);
    } else {
      var n := |more| - 1;
      RunSplits(maxSize, ops, more);
      SettlingKeepsTail(maxSize, ops, more[..n]);
      SettlingStep(Run(maxSize, ops + more[..n]), maxSize, more[n], line);
    }
  }

  lemma SettlingStep(q: Queue, maxSize: int, op: Op, line: seq<Message>)
    requires (op.Acknowledge? || op.Nack? || op.Expire?) && Trails(q, line)
    ensures Trails(Step(q, maxSize, op), line)
  {
    hide Step, Record, MessagesOf, Tail;
    var r, none := Step(q, maxSize, op), Ledger([], [], [], []);
    TurnSerial(q, none, maxSize, op);
    var acked := Record(none, q, maxSize, op).acked;
    assert [] + MessagesOf(q.inFlight) + q.waiting == MessagesOf(q.inFlight) + q.waiting;
    TailOfTail(acked, MessagesOf(r.inFlight), r.waiting, MessagesOf(q.inFlight) + q.waiting, line);
  }

  lemma TailOfTail(a: seq<Message>, b: seq<Message>, c: seq<Message>, mid: seq<Message>, line: seq<Message>)
    requires a + b + c == mid && (mid == line || Tail(mid, line))
    ensures Tail(b + c, line) && Tail(c, line)
  {
    assert b + c == mid[|a|..];
  }

  /** Two rejections bring the two oldest flights back in the wrong order. */
  lemma TwoRejections(maxSize: int, ops: seq<Op>)
    requires var d := Run(maxSize, ops).inFlight; |d| >= 2 && d[0].0 != d[1].0
    ensures var q := Run(maxSize, ops);
            Run(maxSize, ops + [Nack(q.inFlight[0].0), Nack(q.inFlight[1].0)]).waiting
            == [q.inFlight[1].1.message] + ([q.inFlight[0].1.message] + q.waiting)
  {
    var d := Run(maxSize, ops).inFlight;
    var first, second := Nack(d[0].0), Nack(d[1].0);
    RunNext(maxSize, ops, first);
    RunNext(maxSize, ops + [first], second);
    assert ops + [first] + [second] == ops + [first, second];
    assert d[1..][0] == d[1];
  }

  /**
   Returning messages in any way keeps every two of them in the order in which they were handed out or
   would have been, if and only if at most one message is in flight.
   */
  lemma {:induction false} RedeliveryKeepsOrderIff(maxSize: int, ops: seq<Op>)
    requires UniqueIds(Records(maxSize, ops).enqueued)
    ensures var line := MessagesOf(Run(maxSize, ops).inFlight) + Run(maxSize, ops).waiting;
            (forall more :: Settling(more) ==> KeepsOrder(Run(maxSize, ops + more).waiting, line))
            <==> |Run(maxSize, ops).inFlight| <= 1
  {
    hide Run, Records, MessagesOf, KeepsOrder, Settling, UniqueIds;
    if |Run(maxSize, ops).inFlight| <= 1 {
      forall more | Settling(more)
        ensures KeepsOrder(Run(maxSize, ops + more).waiting,
                           MessagesOf(Run(maxSize, ops).inFlight) + Run(maxSize, ops).waiting)
      {
        OneReturnsInOrder(maxSize, ops, more);
      }
    } else {
      var more := TwoRejectionsBreakOrder(maxSize, ops);
    }
  }

  lemma OneReturnsInOrder(maxSize: int, ops: seq<Op>, more: seq<Op>)
    requires Settling(more) && |Run(maxSize, ops).inFlight| <= 1
    ensures KeepsOrder(Run(maxSize, ops + more).waiting,
                       MessagesOf(Run(maxSize, ops).inFlight) + Run(maxSize, ops).waiting)
  {
    hide Run, MessagesOf, KeepsOrder, Tail;
    var line := MessagesOf(Run(maxSize, ops).inFlight) + Run(maxSize, ops).waiting;
    var r := Run(maxSize, ops + more);
    SettlingKeepsTail(maxSize, ops, more);
    assert [] + MessagesOf(r.inFlight) + r.waiting == MessagesOf(r.inFlight) + r.waiting;
    TailOfTail([], MessagesOf(r.inFlight), r.waiting, MessagesOf(r.inFlight) + r.waiting, line);
    TailKeepsOrder(r.waiting, line);
  }

  lemma TwoRejectionsBreakOrder(maxSize: int, ops: seq<Op>) returns (more: seq<Op>)
    requires UniqueIds(Records(maxSize, ops).enqueued) && |Run(maxSize, ops).inFlight| >= 2
    ensures Settling(more)
    ensures !KeepsOrder(Run(maxSize, ops + more).waiting,
                        MessagesOf(Run(maxSize, ops).inFlight) + Run(maxSize, ops).waiting)
  {
    var q := Run(maxSize, ops);
    more := [Nack(q.inFlight[0].0), Nack(q.inFlight[1].0)];
    RunBalances(maxSize, ops);
    hide Run, Records, MessagesOf, KeepsOrder;
    TwoRejections(maxSize, ops);
    WaitingIsUnique(maxSize, ops);
    MessageAt(q.inFlight, 0);
    MessageAt(q.inFlight, 1);
    SwapBreaksOrder(Run(maxSize, ops + more).waiting, MessagesOf(q.inFlight) + q.waiting);
  }

  lemma TailKeepsOrder(w: seq<Message>, line: seq<Message>)
    requires Tail(w, line)
    ensures KeepsOrder(w, line)
  {
    var k := |line| - |w|;
    assert forall i :: 0 <= i < |w| ==> line[k + i] == w[i];
    forall i, j | 0 <= i < j < |w| ensures Precedes(line, w[i], w[j]) {
      assert line[k + i] == w[i] && line[k + j] == w[j];
    }
  }

  lemma SwapBreaksOrder(w: seq<Message>, line: seq<Message>)
    requires |w| >= 2 && |line| >= 2 && w[0] == line[1] && w[1] == line[0] && UniqueIds(line)
    ensures !KeepsOrder(w, line)
  {
    assert forall b :: 0 < b < |line| ==> line[b].id != line[0].id;
    assert !Precedes(line, w[0], w[1]);
  }
}

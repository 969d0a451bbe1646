/**
 How long the priority queue hides what it hands out: whatever is enqueued, returned or handed out in between,
 no pop hands a message out again before its deadline unless it was settled.
 */
module PriorityVisibility {
  import opened Prelude
  import opened OrderedDict
  import opened Partitions
  import opened Visibility
  import opened Heaps
  import opened PriorityQueues

  // ---------------------------------------------------------------- how often an identifier is in the queue

  function CopiesOf(ms: seq<Message>, id: string): nat {
    if ms == [] then 0 else (if ms[0].id == id then 1 else 0) + CopiesOf(ms[1..], id)
  }

  function Waiting(w: seq<Entry>, id: string): nat {
    if w == [] then 0 else (if w[0].message.id == id then 1 else 0) + Waiting(w[1..], id)
  }

  /** How often messages with this identifier wait or are in flight. */
  function Copies(q: Queue, id: string): nat {
    Waiting(q.waiting, id) + CopiesOf(MessagesOf(q.inFlight), id)
  }

  lemma {:induction false} InsertCopies(w: seq<Entry>, e: Entry, id: string)
    ensures Waiting(Insert(w, e), id) == Waiting(w, id) + if e.message.id == id then 1 else 0
  {
    if w == [] {
      assert [e][1..] == [];
    } else if Before(e, w[0]) {
      assert ([e] + w)[1..] == w;
    } else {
      InsertCopies(w[1..], e, id);
      var rest := Insert(w[1..], e);
      assert ([w[0]] + rest)[1..] == rest;
    }
  }

  lemma {:induction false} CopiesAppend(ms: seq<Message>, m: Message, id: string)
    ensures CopiesOf(ms + [m], id) == CopiesOf(ms, id) + if m.id == id then 1 else 0
  {
    if ms == [] {
      assert ms + [m] == [m] && [m][1..] == [];
    } else {
      assert (ms + [m])[1..] == ms[1..] + [m];
      CopiesAppend(ms[1..], m, id);
    }
  }

  lemma PushCopies(q: Queue, m: Message, id: string)
    ensures Waiting(Push(q, m).waiting, id) == Waiting(q.waiting, id) + if m.id == id then 1 else 0
  {
    InsertCopies(q.waiting, Entry(-m.priority, q.sequence, m), id);
  }

  lemma {:induction false} PushAllCopies(q: Queue, ms: seq<Message>, id: string)
    ensures Waiting(PushAll(q, ms).waiting, id) == Waiting(q.waiting, id) + CopiesOf(ms, id)
  {
    if ms == [] {
    } else {
      var n := |ms| - 1;
      PushAllCopies(q, ms[..n], id);
      PushCopies(PushAll(q, ms[..n]), ms[n], id);
      CopiesAppend(ms[..n], ms[n], id);
      assert ms == ms[..n] + [ms[n]];
      hide Push, Waiting, CopiesOf;
    }
  }

  lemma {:induction false} ExpiryCopies(d: Flights, now: real, id: string)
    ensures CopiesOf(MessagesOf(d), id)
            == CopiesOf(MessagesOf(Expired(d, now)), id) + CopiesOf(MessagesOf(Unexpired(d, now)), id)
  {
    if d == [] {
    } else {
      ExpiryCopies(d[1..], now, id);
      PrependCopies(d[0], d[1..], id);
      PrependCopies(d[0], Expired(d[1..], now), id);
      PrependCopies(d[0], Unexpired(d[1..], now), id);
      assert d == [d[0]] + d[1..];
      hide MessagesOf, CopiesOf;
    }
  }

  lemma PrependCopies(e: (string, Flight), d: Flights, id: string)
    ensures CopiesOf(MessagesOf([e] + d), id) == (if e.1.message.id == id then 1 else 0) + CopiesOf(MessagesOf(d), id)
  {
    assert ([e] + d)[1..] == d;
    var ms := MessagesOf(d);
    assert ([e.1.message] + ms)[1..] == ms;
  }

  /** Filed under their identifiers, flights hold each identifier at most once. */
  lemma {:induction false} FiledCopies(d: Flights, id: string)
    requires Filed(d, FlightId)
    ensures CopiesOf(MessagesOf(d), id) == if Has(d, id) then 1 else 0
  {
    if d == [] {
    } else {
      var rest := d[1..];
      assert d == [d[0]] + rest && d[0] in d && forall e :: e in rest ==> e in d;
      assert Filed(rest, FlightId);
      FiledCopies(rest, id);
      PrependCopies(d[0], rest, id);
      HasIsMembership(rest, id);
      hide MessagesOf, CopiesOf;
    }
  }

  /** Only an enqueue adds to the copies of an identifier. */
  lemma StepCopies(q: Queue, maxSize: int, op: Op, id: string)
    requires Sound(q)
    ensures Copies(Step(q, maxSize, op), id) <= Copies(q, id) + if op.Enqueue? && op.message.id == id then 1 else 0
  {
    FiledCopies(q.inFlight, id);
    StepSound(q, maxSize, op);
    FiledCopies(Step(q, maxSize, op).inFlight, id);
    hide InOrder, Numbered, Insert, MessagesOf, CopiesOf, Filed;
    match op
    case Enqueue(m, now) => PushCopies(q, m.(brokerTimestamp := now), id);
    case Expire(now) =>
      PushAllCopies(q, MessagesOf(Expired(q.inFlight, now)), id);
      ExpiryCopies(q.inFlight, now, id);
    case Pop(timeout, now) =>
      if q.waiting != [] {
        GetPut(q.inFlight, q.waiting[0].message.id, Flight(q.waiting[0].message, now + timeout), id);
      }
    case Acknowledge(i) =>
      assert WellFormed(q.inFlight) by { FiledIsWellFormed(q); }
      GetRemove(q.inFlight, i, id);
    case Nack(i) =>
      assert WellFormed(q.inFlight) by { FiledIsWellFormed(q); }
      GetRemove(q.inFlight, i, id);
      if Has(q.inFlight, i) {
        FlightCarriesId(q, i);
        PushCopies(q, Get(q.inFlight, i).value.message, id);
      }
  }

  lemma FiledIsWellFormed(q: Queue)
    requires Sound(q)
    ensures WellFormed(q.inFlight)
  {
  }

  lemma FlightCarriesId(q: Queue, id: string)
    requires Sound(q) && Has(q.inFlight, id)
    ensures Get(q.inFlight, id).value.message.id == id
  {
    HasIsMembership(q.inFlight, id);
  }

  function Enqueues(ops: seq<Op>, id: string): nat {
    if ops == [] then 0
    else
      var op := ops[|ops| - 1];
      Enqueues(ops[..|ops| - 1], id) + if op.Enqueue? && op.message.id == id then 1 else 0
  }

  /** What was enqueued at most once is in the queue at most once. */
  lemma {:induction false} RunCopies(maxSize: int, ops: seq<Op>, id: string)
    ensures Copies(Run(maxSize, ops), id) <= Enqueues(ops, id)
  {
    if ops == [] {
    } else {
      var rest := ops[..|ops| - 1];
      RunCopies(maxSize, rest, id);
      ComparisonsAreDecided(maxSize, rest);
      hide Step, Sound, Copies;
      StepCopies(Run(maxSize, rest), maxSize, ops[|ops| - 1], id);
    }
  }

  // ---------------------------------------------------------------- hidden until the deadline

  /** None of these settles the message or enqueues its identifier again, and no sweep comes as late as the deadline. */
  ghost predicate Undisturbed(more: seq<Op>, id: string, deadline: real) {
    forall i :: 0 <= i < |more| ==> !Disturbs(more[i], id, deadline)
  }

  ghost predicate Disturbs(op: Op, id: string, deadline: real) {
    match op
    case Enqueue(m, _) => m.id == id
    case Expire(now) => now >= deadline
    case Pop(_, _) => false
    case Acknowledge(i) => i == id
    case Nack(i) => i == id
  }

  /** The message is in flight with this deadline, and nothing else carries its identifier. */
  ghost predicate Hidden(q: Queue, m: Message, deadline: real) {
    && Sound(q) && Get(q.inFlight, m.id) == Some(Flight(m, deadline)) && Copies(q, m.id) <= 1
  }

  lemma HiddenDoesNotWait(q: Queue, m: Message, deadline: real)
    requires Hidden(q, m, deadline)
    ensures Waiting(q.waiting, m.id) == 0 && (q.waiting != [] ==> q.waiting[0].message.id != m.id)
  {
    FiledCopies(q.inFlight, m.id);
    hide InOrder, Numbered, Filed;
  }

  lemma StepKeepsHidden(q: Queue, maxSize: int, op: Op, m: Message, deadline: real)
    requires Hidden(q, m, deadline) && !Disturbs(op, m.id, deadline)
    ensures Hidden(Step(q, maxSize, op), m, deadline)
  {
    StepCopies(q, maxSize, op, m.id);
    StepSound(q, maxSize, op);
    HiddenDoesNotWait(q, m, deadline);
    FiledIsWellFormed(q);
    hide Sound, Copies, Insert, MessagesOf;
    match op
    case Pop(timeout, now) =>
      if q.waiting != [] {
        GetPut(q.inFlight, q.waiting[0].message.id, Flight(q.waiting[0].message, now + timeout), m.id);
      }
    case Acknowledge(id) => GetRemove(q.inFlight, id, m.id);
    case Nack(id) => GetRemove(q.inFlight, id, m.id);
    case Expire(now) => UnexpiredKeeps(q.inFlight, now, m.id);
    case _ =>
  }

  lemma {:induction false} LaterPops(maxSize: int, ops: seq<Op>, more: seq<Op>, m: Message, deadline: real)
    returns (later: seq<Message>)
    requires Hidden(Run(maxSize, ops), m, deadline) && Undisturbed(more, m.id, deadline)
    ensures Hidden(Run(maxSize, ops + more), m, deadline)
    ensures HandedOut(maxSize, ops + more) == HandedOut(maxSize, ops) + later
    ensures forall x :: x in later ==> x.id != m.id
    decreases more
  {
    hide Run, HandedOut, Hidden, Step, Arrived;
    if more == [] {
      assert ops + more == ops;
      later := [];
      assert HandedOut(maxSize, ops) + [] == HandedOut(maxSize, ops);
    } else {
      var n := |more| - 1;
      var q := Run(maxSize, ops + more[..n]);
      RunSplits(maxSize, ops, more);
      later := LaterPops(maxSize, ops, more[..n], m, deadline);
      StepKeepsHidden(q, maxSize, more[n], m, deadline);
      HiddenDoesNotWait(q, m, deadline);
      ConcatIsAssociative(HandedOut(maxSize, ops), later, Handed(q, more[n]));
      later := later + Handed(q, more[n]);
    }
  }

  lemma PopHides(q: Queue, maxSize: int, timeout: real, now: real)
    requires Sound(q) && q.waiting != [] && Copies(q, q.waiting[0].message.id) <= 1
    ensures Hidden(Step(q, maxSize, Pop(timeout, now)), q.waiting[0].message, now + timeout)
  {
    var m := q.waiting[0].message;
    StepSound(q, maxSize, Pop(timeout, now));
    StepCopies(q, maxSize, Pop(timeout, now), m.id);
    GetPut(q.inFlight, m.id, Flight(m, now + timeout), m.id);
    hide Sound, Copies, Put;
  }

  lemma SweepEnqueuesNothing(ops: seq<Op>, now: real, id: string)
    ensures Enqueues(ops + [Expire(now)], id) == Enqueues(ops, id)
  {
    assert (ops + [Expire(now)])[..|ops|] == ops;
  }

  /** The two steps of a call of `dequeue`. */
  function DequeueSteps(visibility: real, requested: Option<real>, before: real, now: real): seq<Op> {
    [Expire(before)] + [Pop(Timeout(requested, visibility), now)]
  }

  /**
   A call of `dequeue` hides what it hands out, if it was enqueued once, for the queue's own visibility
   timeout, or for the one it asks for if that is not zero: until then no later call hands the message out again
   unless it is settled.
   */
  lemma DequeueHides(maxSize: int, visibility: real, ops: seq<Op>, requested: Option<real>, before: real, now: real,
                     more: seq<Op>)
    returns (later: seq<Message>)
    requires Run(maxSize, ops + [Expire(before)]).waiting != []
    requires var m := Run(maxSize, ops + [Expire(before)]).waiting[0].message;
             && Enqueues(ops, m.id) <= 1
             && Undisturbed(more, m.id, now + if requested.None? || requested.value == 0.0 then visibility
                                              else requested.value)
    ensures HandedOut(maxSize, ops + DequeueSteps(visibility, requested, before, now) + more)
            == HandedOut(maxSize, ops + [Expire(before)])
               + [Run(maxSize, ops + [Expire(before)]).waiting[0].message] + later
    ensures forall x :: x in later ==> x.id != Run(maxSize, ops + [Expire(before)]).waiting[0].message.id
  {
    var swept, t := ops + [Expire(before)], Timeout(requested, visibility);
    assert ops + ([Expire(before)] + [Pop(t, now)]) == swept + [Pop(t, now)];
    hide Run, HandedOut, Undisturbed, Enqueues;
    SweepEnqueuesNothing(ops, before, Run(maxSize, swept).waiting[0].message.id);
    later := PopThenLater(maxSize, swept, t, now, more, Run(maxSize, swept).waiting[0].message);
  }

  lemma PopThenLater(maxSize: int, ops: seq<Op>, t: real, now: real, more: seq<Op>, m: Message)
    returns (later: seq<Message>)
    requires Run(maxSize, ops).waiting != [] && m == Run(maxSize, ops).waiting[0].message
    requires Enqueues(ops, m.id) <= 1 && Undisturbed(more, m.id, now + t)
    ensures HandedOut(maxSize, ops + [Pop(t, now)] + more) == HandedOut(maxSize, ops) + [m] + later
    ensures forall x :: x in later ==> x.id != m.id
  {
    hide Run, HandedOut, Hidden, Step, Arrived, Sound, Copies, Undisturbed, Enqueues;
    ComparisonsAreDecided(maxSize, ops);
    RunCopies(maxSize, ops, m.id);
    RunNext(maxSize, ops, Pop(t, now));
    PopHides(Run(maxSize, ops), maxSize, t, now);
    later := LaterPops(maxSize, ops + [Pop(t, now)], more, m, now + t);
  }
}

/**
 The priority queue. Its meaning is a list ordered by descending priority and then by arrival; the
 object keeps a binary heap. As for the plain queue, `dequeue` is an expire step and a pop step.
 */
module PriorityQueues {
  import opened Prelude
  import opened OrderedDict
  import opened Partitions
  import opened Visibility
  import opened Heaps

  datatype Queue = Queue(waiting: seq<Entry>, sequence: nat, inFlight: Flights, totalEnqueued: nat, totalDequeued: nat)

  const EMPTY_QUEUE := Queue([], 0, [], 0, 0)

  datatype Op =
    | Enqueue(message: Message, now: real)
    | Expire(now: real)
    | Pop(timeout: real, now: real)
    | Acknowledge(id: string)
    | Nack(id: string)

  function Insert(w: seq<Entry>, e: Entry): seq<Entry> {
    if w == [] then [e] else if Before(e, w[0]) then [e] + w else [w[0]] + Insert(w[1..], e)
  }

  /** A message joins the queue, first time or again, with the next sequence number. */
  function Push(q: Queue, m: Message): Queue {
    q.(waiting := Insert(q.waiting, Entry(-m.priority, q.sequence, m)), sequence := q.sequence + 1)
  }

  function PushAll(q: Queue, ms: seq<Message>): Queue {
    if ms == [] then q else Push(PushAll(q, ms[..|ms| - 1]), ms[|ms| - 1])
  }

  predicate AtCapacity(q: Queue, maxSize: int) {
    maxSize > 0 && |q.waiting| >= maxSize
  }

  function Step(q: Queue, maxSize: int, op: Op): Queue {
    match op
    case Enqueue(m, now) =>
      if AtCapacity(q, maxSize) then q
      else Push(q, m.(brokerTimestamp := now)).(totalEnqueued := q.totalEnqueued + 1)
    case Expire(now) =>
      PushAll(q, MessagesOf(Expired(q.inFlight, now))).(inFlight := Unexpired(q.inFlight, now))
    case Pop(timeout, now) =>
      if q.waiting == [] then q
      else
        var m := q.waiting[0].message;
        q.(waiting := q.waiting[1..], inFlight := Put(q.inFlight, m.id, Flight(m, now + timeout)),
           totalDequeued := q.totalDequeued + 1)
    case Acknowledge(id) => q.(inFlight := Remove(q.inFlight, id))
    case Nack(id) =>
      if Has(q.inFlight, id) then Push(q, Get(q.inFlight, id).value.message).(inFlight := Remove(q.inFlight, id)) else q
  }

  function Run(maxSize: int, ops: seq<Op>): Queue {
    if ops == [] then EMPTY_QUEUE else Step(Run(maxSize, ops[..|ops| - 1]), maxSize, ops[|ops| - 1])
  }

  // ---------------------------------------------------------------- the order of the waiting list

  ghost predicate Sorted(w: seq<Entry>) {
    forall i, j :: 0 <= i < j < |w| ==> Before(w[i], w[j])
  }

  ghost predicate DistinctNumbers(w: seq<Entry>) {
    forall i, j :: 0 <= i < j < |w| ==> w[i].sequence != w[j].sequence
  }

  ghost predicate Numbered(w: seq<Entry>, sequence: nat) {
    forall e :: e in w ==> e.sequence < sequence && e.negated == -e.message.priority
  }

  ghost predicate Sound(q: Queue) {
    InOrder(q.waiting) && Numbered(q.waiting, q.sequence) && Filed(q.inFlight, FlightId)
  }

  lemma {:induction false} InsertSame(w: seq<Entry>, e: Entry)
    ensures multiset(Insert(w, e)) == multiset(w) + multiset{e}
    ensures forall x :: x in Insert(w, e) <==> x in w || x == e
  {
    if w == [] {
    } else {
      assert w == [w[0]] + w[1..];
      if !Before(e, w[0]) {
        InsertSame(w[1..], e);
      }
    }
  }

  ghost predicate InOrder(w: seq<Entry>) {
    Sorted(w) && DistinctNumbers(w)
  }

  lemma OrderedPrepend(e: Entry, w: seq<Entry>)
    requires InOrder(w) && forall x :: x in w ==> Before(e, x) && x.sequence != e.sequence
    ensures InOrder([e] + w)
  {
    var r := [e] + w;
    forall i, j | 0 <= i < j < |r| ensures Before(r[i], r[j]) && r[i].sequence != r[j].sequence {
      if i == 0 {
        assert r[j] == w[j - 1];
      } else {
        assert r[i] == w[i - 1] && r[j] == w[j - 1];
      }
    }
  }

  lemma HeadIsLeast(w: seq<Entry>, x: Entry)
    requires InOrder(w) && x in w
    ensures x == w[0] || (Before(w[0], x) && x.sequence != w[0].sequence)
  {
  }

  lemma TailOrdered(w: seq<Entry>)
    requires InOrder(w) && w != []
    ensures InOrder(w[1..])
    ensures forall x :: x in w[1..] ==> Before(w[0], x) && x.sequence != w[0].sequence
  {
  }

  lemma {:induction false} InsertOrdered(w: seq<Entry>, e: Entry)
    requires InOrder(w) && forall x :: x in w ==> x.sequence != e.sequence
    ensures InOrder(Insert(w, e))
  {
    if w == [] {
    } else {
      TailOrdered(w);
      if Before(e, w[0]) {
        forall x | x in w ensures Before(e, x) {
          HeadIsLeast(w, x);
        }
        hide InOrder;
        OrderedPrepend(e, w);
      } else {
        InsertSame(w[1..], e);
        assert w[0] in w && forall x :: x in w[1..] ==> x in w;
        hide InOrder;
        InsertOrdered(w[1..], e);
        OrderedPrepend(w[0], Insert(w[1..], e));
      }
    }
  }

  lemma PushSound(q: Queue, m: Message)
    requires Sound(q)
    ensures Sound(Push(q, m))
  {
    var e := Entry(-m.priority, q.sequence, m);
    InsertSame(q.waiting, e);
    InsertOrdered(q.waiting, e);
  }

  lemma {:induction false} PushAllSound(q: Queue, ms: seq<Message>)
    requires Sound(q)
    ensures Sound(PushAll(q, ms)) && PushAll(q, ms).inFlight == q.inFlight
  {
    if ms == [] {
    } else {
      PushAllSound(q, ms[..|ms| - 1]);
      PushSound(PushAll(q, ms[..|ms| - 1]), ms[|ms| - 1]);
    }
  }

  lemma StepSound(q: Queue, maxSize: int, op: Op)
    requires Sound(q)
    ensures Sound(Step(q, maxSize, op)) && q.sequence <= Step(q, maxSize, op).sequence
  {
    hide Insert, Put, Remove, Where, InOrder, WellFormed;
    match op
    case Enqueue(m, now) => PushSound(q, m.(brokerTimestamp := now));
    case Expire(now) =>
      PushAllSound(q, MessagesOf(Expired(q.inFlight, now)));
      PushAllCounts(q, MessagesOf(Expired(q.inFlight, now)));
      UnexpiredFiled(q.inFlight, now);
    case Pop(timeout, now) =>
      if q.waiting != [] {
        PutFiled(q.inFlight, Flight(q.waiting[0].message, now + timeout));
        TailOrdered(q.waiting);
      }
    case Acknowledge(id) => RemoveFiled(q.inFlight, id);
    case Nack(id) =>
      if Has(q.inFlight, id) {
        PushSound(q, Get(q.inFlight, id).value.message);
        RemoveFiled(q.inFlight, id);
      }
  }

  lemma {:induction false} PushAllCounts(q: Queue, ms: seq<Message>)
    ensures PushAll(q, ms).sequence == q.sequence + |ms|
  {
    if ms == [] {
    } else {
      PushAllCounts(q, ms[..|ms| - 1]);
    }
  }

  /**
   In every run the waiting entries have distinct sequence numbers below the counter, so a comparison of
   two of them is decided by priority and sequence and never reaches the messages.
   */
  lemma {:induction false} ComparisonsAreDecided(maxSize: int, ops: seq<Op>)
    ensures Sound(Run(maxSize, ops))
    ensures var w := Run(maxSize, ops).waiting;
            forall i, j :: 0 <= i < j < |w| ==>
                  w[i].sequence != w[j].sequence && Before(w[i], w[j]) && !Before(w[j], w[i])
  {
    if ops == [] {
    } else {
      ComparisonsAreDecided(maxSize, ops[..|ops| - 1]);
      StepSound(Run(maxSize, ops[..|ops| - 1]), maxSize, ops[|ops| - 1]);
    }
  }

  /** Every pop hands out a message of the highest priority waiting, and of those the one that arrived first. */
  lemma PopTakesBest(maxSize: int, ops: seq<Op>, e: Entry)
    requires e in Run(maxSize, ops).waiting
    ensures var first := Run(maxSize, ops).waiting[0];
            && first.message.priority >= e.message.priority
            && (first.message.priority == e.message.priority && first != e ==> first.sequence < e.sequence)
  {
    ComparisonsAreDecided(maxSize, ops);
    var w := Run(maxSize, ops).waiting;
    assert w[0] in w;
  }

  // ---------------------------------------------------------------- stability

  function Bodies(w: seq<Entry>): (ms: seq<Message>)
    ensures |ms| == |w| && forall i :: 0 <= i < |w| ==> ms[i] == w[i].message
  {
    if w == [] then [] else [w[0].message] + Bodies(w[1..])
  }

  /** The messages of one priority, in order. */
  function Level(ms: seq<Message>, priority: int): seq<Message> {
    if ms == [] then []
    else if ms[0].priority == priority then [ms[0]] + Level(ms[1..], priority)
    else Level(ms[1..], priority)
  }

  /** What a step puts into the queue, new messages and returned ones alike. */
  function Arrivals(q: Queue, maxSize: int, op: Op): seq<Message> {
    match op
    case Enqueue(m, now) => if AtCapacity(q, maxSize) then [] else [m.(brokerTimestamp := now)]
    case Expire(now) => MessagesOf(Expired(q.inFlight, now))
    case Nack(id) => if Has(q.inFlight, id) then [Get(q.inFlight, id).value.message] else []
    case _ => []
  }

  function Handed(q: Queue, op: Op): seq<Message> {
    if op.Pop? && q.waiting != [] then [q.waiting[0].message] else []
  }

  function Arrived(maxSize: int, ops: seq<Op>): seq<Message> {
    if ops == [] then []
    else Arrived(maxSize, ops[..|ops| - 1]) + Arrivals(Run(maxSize, ops[..|ops| - 1]), maxSize, ops[|ops| - 1])
  }

  function HandedOut(maxSize: int, ops: seq<Op>): seq<Message> {
    if ops == [] then []
    else HandedOut(maxSize, ops[..|ops| - 1]) + Handed(Run(maxSize, ops[..|ops| - 1]), ops[|ops| - 1])
  }

  lemma {:induction false} LevelConcat(a: seq<Message>, b: seq<Message>, p: int)
    ensures Level(a + b, p) == Level(a, p) + Level(b, p)
  {
    if a == [] {
      assert a + b == b;
    } else {
      assert (a + b)[1..] == a[1..] + b;
      LevelConcat(a[1..], b, p);
    }
  }

  lemma {:induction false} LevelEmpty(ms: seq<Message>, p: int)
    requires forall m :: m in ms ==> m.priority != p
    ensures Level(ms, p) == []
  {
    if ms == [] {
    } else {
      LevelEmpty(ms[1..], p);
    }
  }

  lemma BodiesPrepend(e: Entry, w: seq<Entry>, p: int)
    ensures Level(Bodies([e] + w), p) == Level([e.message], p) + Level(Bodies(w), p)
  {
    assert Bodies([e] + w) == [e.message] + Bodies(w);
    LevelConcat([e.message], Bodies(w), p);
  }

  /** An insertion with the newest sequence number goes behind everything of its own priority. */
  lemma {:induction false} InsertLevel(w: seq<Entry>, e: Entry, sequence: nat, p: int)
    requires InOrder(w) && Numbered(w, sequence) && e.sequence >= sequence && e.negated == -e.message.priority
    ensures Level(Bodies(Insert(w, e)), p) == Level(Bodies(w), p) + Level([e.message], p)
  {
    if w != [] {
      assert w[0] in w;
      TailOrdered(w);
      if Before(e, w[0]) {
        AheadOfLower(w, e, p);
        BodiesPrepend(e, w, p);
      } else {
        InsertLevel(w[1..], e, sequence, p);
        assert Insert(w, e) == [w[0]] + Insert(w[1..], e);
        hide Bodies, Level, InOrder, Numbered, Insert, Before;
        BodiesPrepend(w[0], Insert(w[1..], e), p);
        BodiesPrepend(w[0], w[1..], p);
        assert w == [w[0]] + w[1..];
        ConcatIsAssociative(Level([w[0].message], p), Level(Bodies(w[1..]), p), Level([e.message], p));
      }
    } else {
      assert Bodies([e]) == [e.message];
    }
  }

  /** An entry that goes to the front has a higher priority than everything waiting. */
  lemma AheadOfLower(w: seq<Entry>, e: Entry, p: int)
    requires InOrder(w) && w != [] && e.negated == -e.message.priority
    requires forall x :: x in w ==> x.negated == -x.message.priority && x.sequence < e.sequence
    requires Before(e, w[0])
    ensures Level([e.message], p) + Level(Bodies(w), p) == Level(Bodies(w), p) + Level([e.message], p)
  {
    assert w[0] in w;
    if p == e.message.priority {
      forall m | m in Bodies(w) ensures m.priority != p {
        var i :| 0 <= i < |w| && Bodies(w)[i] == m;
        HeadIsLeast(w, w[i]);
      }
      LevelEmpty(Bodies(w), p);
    } else {
      assert Level([e.message], p) == [];
    }
  }

  lemma PushLevel(q: Queue, m: Message, p: int)
    requires Sound(q)
    ensures Level(Bodies(Push(q, m).waiting), p) == Level(Bodies(q.waiting), p) + Level([m], p)
  {
    var e := Entry(-m.priority, q.sequence, m);
    assert Push(q, m).waiting == Insert(q.waiting, e);
    hide Insert, Level, Bodies, InOrder, Push, Filed;
    InsertLevel(q.waiting, e, q.sequence, p);
  }

  lemma {:induction false} PushAllLevel(q: Queue, ms: seq<Message>, p: int)
    requires Sound(q)
    ensures Level(Bodies(PushAll(q, ms).waiting), p) == Level(Bodies(q.waiting), p) + Level(ms, p)
  {
    assert Level([], p) == [];
    if ms == [] {
    } else {
      var n := |ms| - 1;
      hide Level, Bodies, Sound, Push;
      PushAllLevel(q, ms[..n], p);
      PushAllSound(q, ms[..n]);
      PushLevel(PushAll(q, ms[..n]), ms[n], p);
      assert ms == ms[..n] + [ms[n]];
      LevelConcat(ms[..n], [ms[n]], p);
      ConcatIsAssociative(Level(Bodies(q.waiting), p), Level(ms[..n], p), Level([ms[n]], p));
    }
  }

  lemma ArrivalsJoin(q: Queue, maxSize: int, op: Op, p: int)
    requires Sound(q) && !op.Pop?
    ensures Level(Bodies(Step(q, maxSize, op).waiting), p)
            == Level(Bodies(q.waiting), p) + Level(Arrivals(q, maxSize, op), p)
  {
    hide Insert, Put, Remove, Where, Sound, Bodies, Level;
    var ms := Arrivals(q, maxSize, op);
    PushAllLevel(q, ms, p);
    if |ms| == 1 {
      assert ms[..0] == [];
      assert PushAll(q, ms) == Push(q, ms[0]);
    }
  }

  lemma PopLeaves(q: Queue, maxSize: int, op: Op, p: int)
    requires op.Pop?
    ensures Level(Bodies(q.waiting), p) == Level(Handed(q, op), p) + Level(Bodies(Step(q, maxSize, op).waiting), p)
  {
    if q.waiting != [] {
      assert Bodies(q.waiting) == [q.waiting[0].message] + Bodies(q.waiting[1..]);
      LevelConcat([q.waiting[0].message], Bodies(q.waiting[1..]), p);
    }
  }

  lemma PopKeeps<T>(out: seq<T>, handed: seq<T>, was: seq<T>, now: seq<T>, all: seq<T>)
    requires out + was == all && was == handed + now
    ensures out + handed + now == all + []
  {
    ConcatIsAssociative(out, handed, now);
  }

  lemma PushKeeps<T>(out: seq<T>, was: seq<T>, now: seq<T>, all: seq<T>, more: seq<T>)
    requires out + was == all && now == was + more
    ensures out + [] + now == all + more
  {
    ConcatIsAssociative(out, was, more);
  }

  ghost predicate LevelsAgree(out: seq<Message>, q: Queue, arrived: seq<Message>, p: int) {
    Level(out, p) + Level(Bodies(q.waiting), p) == Level(arrived, p)
  }

  lemma StepKeepsLevels(out: seq<Message>, q: Queue, arrived: seq<Message>, maxSize: int, op: Op, p: int)
    requires Sound(q) && LevelsAgree(out, q, arrived, p)
    ensures LevelsAgree(out + Handed(q, op), Step(q, maxSize, op), arrived + Arrivals(q, maxSize, op), p)
  {
    LevelConcat(out, Handed(q, op), p);
    LevelConcat(arrived, Arrivals(q, maxSize, op), p);
    assert Level([], p) == [];
    var was, now := Level(Bodies(q.waiting), p), Level(Bodies(Step(q, maxSize, op).waiting), p);
    if op.Pop? {
      assert Arrivals(q, maxSize, op) == [];
      hide Step, Bodies, Arrivals, Handed, Sound, Level;
      PopLeaves(q, maxSize, op, p);
      PopKeeps(Level(out, p), Level(Handed(q, op), p), was, now, Level(arrived, p));
    } else {
      assert Handed(q, op) == [];
      hide Step, Bodies, Arrivals, Handed, Sound, Level;
      ArrivalsJoin(q, maxSize, op, p);
      PushKeeps(Level(out, p), was, now, Level(arrived, p), Level(Arrivals(q, maxSize, op), p));
    }
  }

  /**
   In every run, redeliveries included, the messages of one priority are handed out exactly in the order
   in which they arrived, and those still waiting are the rest, in that order.
   */
  lemma {:induction false} EachPriorityIsFirstInFirstOut(maxSize: int, ops: seq<Op>, p: int)
    ensures Level(HandedOut(maxSize, ops), p) + Level(Bodies(Run(maxSize, ops).waiting), p)
            == Level(Arrived(maxSize, ops), p)
  {
    if ops == [] {
    } else {
      var rest, op := ops[..|ops| - 1], ops[|ops| - 1];
      hide Step, Bodies, Level, Arrivals, Handed, Sound;
      EachPriorityIsFirstInFirstOut(maxSize, rest, p);
      ComparisonsAreDecided(maxSize, rest);
      StepKeepsLevels(HandedOut(maxSize, rest), Run(maxSize, rest), Arrived(maxSize, rest), maxSize, op, p);
    }
  }

  ghost predicate Descending(ms: seq<Message>) {
    forall i, j :: 0 <= i < j < |ms| ==> ms[i].priority >= ms[j].priority
  }

  /** `out` is the stable sort of `given` by descending priority. */
  ghost predicate IsStableSort(out: seq<Message>, given: seq<Message>) {
    Descending(out) && multiset(out) == multiset(given) && forall p :: Level(out, p) == Level(given, p)
  }

  /** A stable sort is unique. */
  lemma {:induction false} StableSortIsUnique(a: seq<Message>, b: seq<Message>)
    requires Descending(a) && Descending(b) && forall p :: Level(a, p) == Level(b, p)
    ensures a == b
  {
    if a == [] || b == [] {
      SomeLevel(a);
      SomeLevel(b);
    } else {
      HeadsAgree(a, b);
      HeadsAgree(b, a);
      var x, y := a[0].priority, b[0].priority;
      assert Level(a, x) == Level(b, x) && Level(a, x)[0] == a[0] && Level(b, y)[0] == b[0];
      forall p ensures Level(a[1..], p) == Level(b[1..], p) {
        assert Level(a, p) == Level(b, p);
        if p == x {
          assert Level(a, p)[1..] == Level(a[1..], p) && Level(b, p)[1..] == Level(b[1..], p);
        }
      }
      StableSortIsUnique(a[1..], b[1..]);
    }
  }

  lemma SomeLevel(ms: seq<Message>)
    ensures ms == [] || exists p :: Level(ms, p) != Level([], p)
  {
    if ms != [] {
      assert Level(ms, ms[0].priority) != Level([], ms[0].priority);
    }
  }

  lemma HeadsAgree(a: seq<Message>, b: seq<Message>)
    requires a != [] && b != [] && Descending(b) && forall p :: Level(a, p) == Level(b, p)
    ensures a[0].priority <= b[0].priority
  {
    var p := a[0].priority;
    assert Level(a, p)[0] == a[0];
    if p > b[0].priority {
      LevelEmpty(b, p);
      assert false;
    }
  }

  /** Equal levels at every priority mean equal contents. */
  lemma {:induction false} LevelCounts(ms: seq<Message>, m: Message)
    ensures multiset(ms)[m] == multiset(Level(ms, m.priority))[m]
  {
    if ms == [] {
    } else {
      LevelCounts(ms[1..], m);
      assert ms == [ms[0]] + ms[1..];
    }
  }

  lemma SameLevelsSameContents(a: seq<Message>, b: seq<Message>)
    requires forall p :: Level(a, p) == Level(b, p)
    ensures multiset(a) == multiset(b)
  {
    forall m: Message ensures multiset(a)[m] == multiset(b)[m] {
      LevelCounts(a, m);
      LevelCounts(b, m);
      assert Level(a, m.priority) == Level(b, m.priority);
    }
  }

  lemma RunNext(maxSize: int, ops: seq<Op>, op: Op)
    ensures Run(maxSize, ops + [op]) == Step(Run(maxSize, ops), maxSize, op)
    ensures HandedOut(maxSize, ops + [op]) == HandedOut(maxSize, ops) + Handed(Run(maxSize, ops), op)
    ensures Arrived(maxSize, ops + [op]) == Arrived(maxSize, ops) + Arrivals(Run(maxSize, ops), maxSize, op)
  {
    assert (ops + [op])[..|ops|] == ops;
  }

  /** More steps, the last one of them on its own. */
  lemma RunSplits(maxSize: int, ops: seq<Op>, more: seq<Op>)
    requires more != []
    ensures var n := |more| - 1;
            var q := Run(maxSize, ops + more[..n]);
            && Run(maxSize, ops + more) == Step(q, maxSize, more[n])
            && HandedOut(maxSize, ops + more) == HandedOut(maxSize, ops + more[..n]) + Handed(q, more[n])
            && Arrived(maxSize, ops + more) == Arrived(maxSize, ops + more[..n]) + Arrivals(q, maxSize, more[n])
  {
    var n := |more| - 1;
    assert ops + more == (ops + more[..n]) + [more[n]];
    RunNext(maxSize, ops + more[..n], more[n]);
  }

  /**
   No step of `more` puts a message into the queue, so that a sweep, as every dequeue runs first, finds
   nothing expired.
   */
  ghost predicate NothingArrives(maxSize: int, ops: seq<Op>, more: seq<Op>)
    decreases more
  {
    more == [] ||
    (&& NothingArrives(maxSize, ops, more[..|more| - 1])
     && Arrivals(Run(maxSize, ops + more[..|more| - 1]), maxSize, more[|more| - 1]) == [])
  }

  /** While nothing arrives the queue hands out the waiting messages in their order. */
  lemma {:induction false} DrainHandsOut(maxSize: int, ops: seq<Op>, more: seq<Op>)
    requires NothingArrives(maxSize, ops, more)
    ensures HandedOut(maxSize, ops + more) + Bodies(Run(maxSize, ops + more).waiting)
            == HandedOut(maxSize, ops) + Bodies(Run(maxSize, ops).waiting)
    ensures Arrived(maxSize, ops + more) == Arrived(maxSize, ops)
    decreases more
  {
    hide HandedOut, Run, Arrived, Step, Bodies, Arrivals, Handed;
    if more == [] {
      assert ops + more == ops;
    } else {
      var n := |more| - 1;
      DrainHandsOut(maxSize, ops, more[..n]);
      RunSplits(maxSize, ops, more);
      var q := Run(maxSize, ops + more[..n]);
      StepDrains(q, maxSize, more[n]);
      ConcatIsAssociative(HandedOut(maxSize, ops + more[..n]), Handed(q, more[n]),
                          Bodies(Run(maxSize, ops + more).waiting));
    }
  }

  lemma StepDrains(q: Queue, maxSize: int, op: Op)
    requires Arrivals(q, maxSize, op) == []
    ensures Handed(q, op) + Bodies(Step(q, maxSize, op).waiting) == Bodies(q.waiting)
  {
    hide Where, Put, Remove, MessagesOf;
    if op.Pop? && q.waiting != [] {
      assert Bodies(q.waiting) == [q.waiting[0].message] + Bodies(q.waiting[1..]);
    } else {
      assert Handed(q, op) == [] && Step(q, maxSize, op).waiting == q.waiting;
    }
  }

  lemma {:induction false} NothingHandedOut(maxSize: int, ops: seq<Op>)
    requires HandedOut(maxSize, ops) == []
    ensures Run(maxSize, ops).inFlight == [] && Arrived(maxSize, ops) == Accepted(maxSize, ops)
  {
    if ops == [] {
    } else {
      var rest, op := ops[..|ops| - 1], ops[|ops| - 1];
      NothingHandedOut(maxSize, rest);
      StepWithoutFlights(Run(maxSize, rest), maxSize, op);
      hide Step, Arrivals, Handed;
    }
  }

  /** With nothing in flight and nothing handed out, only an accepted message arrives. */
  lemma StepWithoutFlights(q: Queue, maxSize: int, op: Op)
    requires q.inFlight == [] && Handed(q, op) == []
    ensures Step(q, maxSize, op).inFlight == []
    ensures Arrivals(q, maxSize, op) ==
            if op.Enqueue? && !AtCapacity(q, maxSize) then [op.message.(brokerTimestamp := op.now)] else []
  {
    hide Insert;
    PushNothing(q);
  }

  lemma PushNothing(q: Queue)
    ensures PushAll(q, []) == q
  {
  }

  /** The messages `enqueue` accepted, as stamped. */
  function Accepted(maxSize: int, ops: seq<Op>): seq<Message> {
    if ops == [] then []
    else
      var op := ops[|ops| - 1];
      Accepted(maxSize, ops[..|ops| - 1]) +
      if op.Enqueue? && !AtCapacity(Run(maxSize, ops[..|ops| - 1]), maxSize)
      then [op.message.(brokerTimestamp := op.now)] else []
  }

  /**
   Filling a queue and then draining it, by any steps that put nothing back, hands out exactly the stable
   sort of what was enqueued.
   */
  lemma {:induction false} DrainIsStableSort(maxSize: int, ops: seq<Op>, more: seq<Op>)
    requires HandedOut(maxSize, ops) == []
    requires NothingArrives(maxSize, ops, more) && Run(maxSize, ops + more).waiting == []
    ensures IsStableSort(HandedOut(maxSize, ops + more), Accepted(maxSize, ops))
  {
    var out, given := HandedOut(maxSize, ops + more), Accepted(maxSize, ops);
    forall p ensures Level(out, p) == Level(given, p) {
      DrainedLevel(maxSize, ops, more, p);
    }
    DrainedInOrder(maxSize, ops, more);
    hide HandedOut, Accepted, Level, Run;
    SameLevelsSameContents(out, given);
  }

  lemma DrainedInOrder(maxSize: int, ops: seq<Op>, more: seq<Op>)
    requires HandedOut(maxSize, ops) == []
    requires NothingArrives(maxSize, ops, more) && Run(maxSize, ops + more).waiting == []
    ensures HandedOut(maxSize, ops + more) == Bodies(Run(maxSize, ops).waiting)
    ensures Descending(HandedOut(maxSize, ops + more))
  {
    assert Bodies([]) == [];
    hide HandedOut, Run, Arrived, Accepted, NothingArrives, Bodies, Sound, Before, Descending;
    DrainHandsOut(maxSize, ops, more);
    ComparisonsAreDecided(maxSize, ops);
    WaitingDescends(Run(maxSize, ops));
    var out, waiting := HandedOut(maxSize, ops + more), Bodies(Run(maxSize, ops).waiting);
    JustThese(out, waiting);
  }

  lemma JustThese(a: seq<Message>, b: seq<Message>)
    requires a + [] == [] + b
    ensures a == b
  {
    assert a + [] == a && [] + b == b;
  }

  lemma DrainedLevel(maxSize: int, ops: seq<Op>, more: seq<Op>, p: int)
    requires HandedOut(maxSize, ops) == []
    requires NothingArrives(maxSize, ops, more) && Run(maxSize, ops + more).waiting == []
    ensures Level(HandedOut(maxSize, ops + more), p) == Level(Accepted(maxSize, ops), p)
  {
    assert Level([], p) == [];
    hide HandedOut, Run, Arrived, Accepted, Level, Bodies, NothingArrives;
    DrainedInOrder(maxSize, ops, more);
    NothingHandedOut(maxSize, ops);
    EachPriorityIsFirstInFirstOut(maxSize, ops, p);
  }

  lemma WaitingDescends(q: Queue)
    requires Sound(q)
    ensures Descending(Bodies(q.waiting))
  {
    var w := q.waiting;
    forall i, j | 0 <= i < j < |w| ensures Bodies(w)[i].priority >= Bodies(w)[j].priority {
      assert w[i] in w && w[j] in w;
    }
  }

  // ---------------------------------------------------------------- draining by dequeue

  /** One call of `dequeue`: the time of its sweep, its timeout, and the time of its pop. */
  datatype Call = Call(before: real, timeout: real, now: real)

  /** Dequeue calls as the steps they take. */
  function Dequeues(calls: seq<Call>): seq<Op> {
    if calls == [] then []
    else
      var call := calls[|calls| - 1];
      Dequeues(calls[..|calls| - 1]) + [Expire(call.before)] + [Pop(call.timeout, call.now)]
  }

  /** No call sweeps at or after a deadline that an earlier call set. */
  ghost predicate Prompt(calls: seq<Call>) {
    forall i, j :: 0 <= i < j < |calls| ==> calls[j].before < calls[i].now + calls[i].timeout
  }

  ghost predicate FromCalls(d: Flights, calls: seq<Call>) {
    forall e :: e in d ==> exists i :: 0 <= i < |calls| && e.1.expiry == calls[i].now + calls[i].timeout
  }

  /** A sweep before every deadline changes nothing. */
  lemma IdleSweep(q: Queue, maxSize: int, calls: seq<Call>, now: real)
    requires FromCalls(q.inFlight, calls)
    requires forall i :: 0 <= i < |calls| ==> now < calls[i].now + calls[i].timeout
    ensures Step(q, maxSize, Expire(now)) == q && Arrivals(q, maxSize, Expire(now)) == []
  {
    WhereNone(q.inFlight, (f: Flight) => now >= f.expiry);
    forall i | 0 <= i < |q.inFlight| ensures !(now >= q.inFlight[i].1.expiry) {
      assert q.inFlight[i] in q.inFlight;
    }
    WhereEverything(q.inFlight, (f: Flight) => !(now >= f.expiry));
    PushNothing(q);
  }

  lemma PopFromCalls(q: Queue, maxSize: int, calls: seq<Call>, call: Call)
    requires FromCalls(q.inFlight, calls)
    ensures var r := Step(q, maxSize, Pop(call.timeout, call.now));
            && FromCalls(r.inFlight, calls + [call])
            && |r.waiting| == if q.waiting == [] then 0 else |q.waiting| - 1
  {
    var all := calls + [call];
    assert forall i :: 0 <= i < |calls| ==> all[i] == calls[i];
    assert all[|calls|] == call;
    if q.waiting != [] {
      PutEntries(q.inFlight, q.waiting[0].message.id, Flight(q.waiting[0].message, call.now + call.timeout));
    }
  }

  lemma NothingMoreArrives(maxSize: int, ops: seq<Op>, more: seq<Op>, op: Op)
    requires NothingArrives(maxSize, ops, more) && Arrivals(Run(maxSize, ops + more), maxSize, op) == []
    ensures NothingArrives(maxSize, ops, more + [op])
    ensures Run(maxSize, ops + (more + [op])) == Step(Run(maxSize, ops + more), maxSize, op)
  {
    assert (more + [op])[..|more|] == more;
    RunSplits(maxSize, ops, more + [op]);
  }

  lemma {:induction false} DequeuesDrain(maxSize: int, ops: seq<Op>, calls: seq<Call>)
    requires Run(maxSize, ops).inFlight == [] && Prompt(calls)
    ensures NothingArrives(maxSize, ops, Dequeues(calls))
    ensures FromCalls(Run(maxSize, ops + Dequeues(calls)).inFlight, calls)
    ensures |Run(maxSize, ops + Dequeues(calls)).waiting| == Max(|Run(maxSize, ops).waiting| - |calls|, 0)
  {
    hide Run, Step, Arrivals;
    if calls == [] {
      assert ops + Dequeues([]) == ops;
    } else {
      var n := |calls| - 1;
      var rest, call := calls[..n], calls[n];
      var sweep, pop := Expire(call.before), Pop(call.timeout, call.now);
      DequeuesDrain(maxSize, ops, rest);
      var q := Run(maxSize, ops + Dequeues(rest));
      assert Dequeues(calls) == Dequeues(rest) + [sweep] + [pop];
      hide Dequeues;
      IdleSweep(q, maxSize, rest, call.before);
      NothingMoreArrives(maxSize, ops, Dequeues(rest), sweep);
      PopFromCalls(q, maxSize, rest, call);
      assert rest + [call] == calls;
      PopArrivesNothing(q, maxSize, pop);
      NothingMoreArrives(maxSize, ops, Dequeues(rest) + [sweep], pop);
    }
  }

  lemma PopArrivesNothing(q: Queue, maxSize: int, pop: Op)
    requires pop.Pop?
    ensures Arrivals(q, maxSize, pop) == []
  {
  }

  /**
   The stable sort as a caller sees it: once a queue is filled, as many calls of `dequeue` as there are
   messages, none of them so late that an earlier message has timed out, hand out the stable sort.
   */
  lemma {:induction false} DequeuesAreStableSort(maxSize: int, ops: seq<Op>, calls: seq<Call>)
    requires HandedOut(maxSize, ops) == [] && Prompt(calls) && |calls| >= |Run(maxSize, ops).waiting|
    ensures IsStableSort(HandedOut(maxSize, ops + Dequeues(calls)), Accepted(maxSize, ops))
  {
    hide Run, HandedOut, Accepted, IsStableSort, NothingArrives, Dequeues;
    NothingHandedOut(maxSize, ops);
    DequeuesDrain(maxSize, ops, calls);
    DrainIsStableSort(maxSize, ops, Dequeues(calls));
  }

  // ---------------------------------------------------------------- capacity

  /** Everything the queue is responsible for. */
  function Held(q: Queue): nat { |q.waiting| + |q.inFlight| }

  lemma {:induction false} InsertCount(w: seq<Entry>, e: Entry)
    ensures |Insert(w, e)| == |w| + 1
  {
    if w != [] && !Before(e, w[0]) {
      InsertCount(w[1..], e);
    }
  }

  lemma {:induction false} PushAllCount(q: Queue, ms: seq<Message>)
    ensures |PushAll(q, ms).waiting| == |q.waiting| + |ms|
  {
    if ms == [] {
    } else {
      var n := |ms| - 1;
      PushAllCount(q, ms[..n]);
      InsertCount(PushAll(q, ms[..n]).waiting, Entry(-ms[n].priority, PushAll(q, ms[..n]).sequence, ms[n]));
    }
  }

  /** Only an accepted message adds to it. */
  lemma StepHolds(q: Queue, maxSize: int, op: Op)
    ensures Held(Step(q, maxSize, op)) <= Held(q) + if op.Enqueue? && !AtCapacity(q, maxSize) then 1 else 0
  {
    hide MessagesOf, Where, Insert;
    match op
    case Enqueue(m, now) => InsertCount(q.waiting, Entry(-m.priority, q.sequence, m.(brokerTimestamp := now)));
    case Expire(now) =>
      ExpiryCounts(q.inFlight, now);
      MessageCount(Expired(q.inFlight, now));
      PushAllCount(q, MessagesOf(Expired(q.inFlight, now)));
    case Pop(timeout, now) =>
      if q.waiting != [] {
        PutCount(q.inFlight, q.waiting[0].message.id, Flight(q.waiting[0].message, now + timeout));
      }
    case Acknowledge(id) => RemoveCount(q.inFlight, id);
    case Nack(id) =>
      RemoveCount(q.inFlight, id);
      if Has(q.inFlight, id) {
        var m := Get(q.inFlight, id).value.message;
        InsertCount(q.waiting, Entry(-m.priority, q.sequence, m));
      }
  }

  lemma {:induction false} ReturnsStayWithin(maxSize: int, ops: seq<Op>, more: seq<Op>)
    requires forall i :: 0 <= i < |more| ==> !more[i].Enqueue?
    ensures Held(Run(maxSize, ops + more)) <= Held(Run(maxSize, ops))
    decreases more
  {
    if more == [] {
      assert ops + more == ops;
    } else {
      var n := |more| - 1;
      hide Run, Step, HandedOut, Arrived, Arrivals, Handed;
      RunSplits(maxSize, ops, more);
      ReturnsStayWithin(maxSize, ops, more[..n]);
      StepHolds(Run(maxSize, ops + more[..n]), maxSize, more[n]);
    }
  }

  /**
   Neither rejections nor sweeps look at the capacity. Nothing that happens without a further enqueue can
   exceed it if and only if there is room for everything that waits or is in flight.
   */
  lemma ReturnsFitIff(maxSize: int, ops: seq<Op>)
    ensures (forall more: seq<Op> :: (forall i :: 0 <= i < |more| ==> !more[i].Enqueue?) ==>
                                       |Run(maxSize, ops + more).waiting| <= maxSize)
            <==> Held(Run(maxSize, ops)) <= maxSize
  {
    var q := Run(maxSize, ops);
    hide HandedOut, Arrived, Insert;
    if Held(q) <= maxSize {
      forall more: seq<Op> | forall i :: 0 <= i < |more| ==> !more[i].Enqueue?
        ensures |Run(maxSize, ops + more).waiting| <= maxSize
      {
        ReturnsStayWithin(maxSize, ops, more);
      }
    } else {
      var now := LastExpiry(q.inFlight);
      var sweep := [Expire(now)];
      MessageCount(q.inFlight);
      PushAllCount(q, MessagesOf(q.inFlight));
      RunNext(maxSize, ops, Expire(now));
      assert |Run(maxSize, ops + sweep).waiting| == Held(q);
    }
  }

  /** The caller enqueues only while there is room for everything that waits or is in flight. */
  ghost predicate Cautious(maxSize: int, ops: seq<Op>) {
    ops == [] ||
    (Cautious(maxSize, ops[..|ops| - 1])
     && (ops[|ops| - 1].Enqueue? ==> Held(Run(maxSize, ops[..|ops| - 1])) < maxSize))
  }

  /** Such a caller never sees the capacity exceeded, whatever is rejected or expires. */
  lemma {:induction false} CautiousNeverExceeds(maxSize: int, ops: seq<Op>)
    requires maxSize > 0 && Cautious(maxSize, ops)
    ensures Held(Run(maxSize, ops)) <= maxSize
  {
    if ops == [] {
    } else {
      CautiousNeverExceeds(maxSize, ops[..|ops| - 1]);
      StepHolds(Run(maxSize, ops[..|ops| - 1]), maxSize, ops[|ops| - 1]);
    }
  }

  // ---------------------------------------------------------------- the object

  class PriorityQueue {
    const maxSize: int
    const visibilityTimeout: real
    var heap: seq<Entry>
    var sequence: nat
    var inFlight: Flights
    var totalEnqueued: nat
    var totalDequeued: nat
    /** The contents of the heap in the order in which they will come out. */
    ghost var order: seq<Entry>

    constructor (maxSize: int, visibilityTimeout: real)
      ensures this.maxSize == maxSize && this.visibilityTimeout == visibilityTimeout
      ensures Valid() && State() == EMPTY_QUEUE
    {
      this.maxSize, this.visibilityTimeout := maxSize, visibilityTimeout;
      heap, sequence, inFlight, totalEnqueued, totalDequeued, order := [], 0, [], 0, 0, [];
    }

    ghost function State(): Queue
      reads this
    {
      Queue(order, sequence, inFlight, totalEnqueued, totalDequeued)
    }

    ghost predicate Valid()
      reads this
    {
      IsHeap(heap) && multiset(heap) == multiset(order) && |heap| == |order| && Sound(State())
    }

    method PushMessage(message: Message)
      requires Valid()
      modifies this`heap, this`sequence, this`order
      ensures Valid() && State() == Push(old(State()), message)
      ensures multiset(heap) == multiset(old(heap)) + multiset{Entry(-message.priority, old(sequence), message)}
      ensures sequence == old(sequence) + 1
    {
      var entry := Entry(-message.priority, sequence, message);
      PushSound(State(), message);
      InsertSame(order, entry);
      heap := HeapPush(heap, entry);
      order := Insert(order, entry);
      sequence := sequence + 1;
      SameSize(heap, order);
    }

    static lemma SameSize(a: seq<Entry>, b: seq<Entry>)
      requires multiset(a) == multiset(b)
      ensures |a| == |b|
    {
      assert |multiset(a)| == |a| && |multiset(b)| == |b|;
    }

    /** Reports whether there was room. */
    method Enqueue(message: Message, now: real) returns (accepted: bool)
      requires Valid()
      modifies this
      ensures Valid() && State() == Step(old(State()), maxSize, Op.Enqueue(message, now))
      ensures accepted <==> maxSize <= 0 || |old(heap)| < maxSize
      ensures multiset(heap) == multiset(old(heap)) +
              if accepted then multiset{Entry(-message.priority, old(sequence), message.(brokerTimestamp := now))}
              else multiset{}
      ensures inFlight == old(inFlight) && totalDequeued == old(totalDequeued)
      ensures totalEnqueued == old(totalEnqueued) + if accepted then 1 else 0
    {
      if maxSize > 0 && |heap| >= maxSize {
        assert multiset(heap) + multiset{} == multiset(heap);
        return false;
      }
      PushMessage(message.(brokerTimestamp := now));
      totalEnqueued := totalEnqueued + 1;
      return true;
    }

    method RequeueTimedOut(now: real) returns (requeued: nat)
      requires Valid()
      modifies this
      ensures Valid() && State() == Step(old(State()), maxSize, Expire(now))
      ensures requeued == |Expired(old(inFlight), now)|
      ensures forall e :: e in old(inFlight) ==> (e in inFlight <==> now < e.1.expiry)
    {
      hide Where, Remove, Get, MessagesOf, Keys, WellFormed, InOrder, Numbered, IsHeap, Push;
      var expired := Expired(inFlight, now);
      var ids := Keys(expired);
      ghost var was, ms, start := inFlight, MessagesOf(expired), State();
      requeued := 0;
      assert ids[..0] == [] && ms[..0] == [];
      MessageCount(expired);
      for i := 0 to |ids|
        invariant requeued == i && Valid()
        invariant State() == PushAll(start, ms[..i]).(inFlight := RemoveAll(was, ids[..i]))
      {
        ExpiredNext(was, now, i);
        PushAllNext(start, ms, i, RemoveAll(was, ids[..i + 1]));
        RemoveFiled(inFlight, ids[i]);
        var message := Get(inFlight, ids[i]).value.message;
        inFlight := Remove(inFlight, ids[i]);
        PushMessage(message);
        requeued := requeued + 1;
      }
      assert ids[..|ids|] == ids && ms[..|ms|] == ms;
      PoppingExpired(was, now);
      SweepReturnsLate(was, now);
    }

    /** A push does not look at what is in flight. */
    static lemma PushAllNext(q: Queue, ms: seq<Message>, i: nat, flights: Flights)
      requires i < |ms|
      ensures PushAll(q, ms[..i + 1]).(inFlight := flights) == Push(PushAll(q, ms[..i]).(inFlight := flights), ms[i])
    {
      assert ms[..i + 1][..i] == ms[..i];
    }

    method PopNext(timeout: real, now: real) returns (next: Option<Message>)
      requires Valid()
      modifies this
      ensures Valid() && State() == Step(old(State()), maxSize, Pop(timeout, now))
      ensures next == if old(order) == [] then None else Some(old(order)[0].message)
      ensures totalDequeued == old(totalDequeued) + if next.Some? then 1 else 0
    {
      if heap == [] {
        return None;
      }
      hide IsHeap, InOrder, Numbered, Filed, Put;
      StepSound(State(), maxSize, Pop(timeout, now));
      var entry, rest := HeapPop(heap);
      LeastIsFirst(heap, order, entry, rest);
      heap := rest;
      order := order[1..];
      inFlight := Put(inFlight, entry.message.id, Flight(entry.message, now + timeout));
      totalDequeued := totalDequeued + 1;
      return Some(entry.message);
    }

    static lemma Cancel(a: multiset<Entry>, b: multiset<Entry>, c: multiset<Entry>)
      requires a + c == b + c
      ensures a == b
    {
      assert a == a + c - c && b == b + c - c;
    }

    static lemma LeastIsFirst(heap: seq<Entry>, order: seq<Entry>, least: Entry, rest: seq<Entry>)
      requires multiset(heap) == multiset(order) && InOrder(order) && order != []
      requires least in heap && forall e :: e in heap ==> !Before(e, least)
      requires multiset(heap) == multiset(rest) + multiset{least}
      ensures least == order[0] && multiset(rest) == multiset(order[1..]) && |rest| == |order[1..]|
    {
      assert least in multiset(heap) && order[0] in multiset(order);
      var i :| 0 <= i < |order| && order[i] == least;
      assert order[0] in heap;
      assert order == [order[0]] + order[1..];
      assert multiset(order) == multiset(order[1..]) + multiset{least};
      Cancel(multiset(rest), multiset(order[1..]), multiset{least});
      SameSize(rest, order[1..]);
    }

    /** Without interference a dequeue is an expire step followed by a pop step, each at its own time. */
    method Dequeue(requested: Option<real>, before: real, now: real) returns (next: Option<Message>)
      requires Valid()
      modifies this
      ensures Valid()
      ensures var swept := Step(old(State()), maxSize, Expire(before));
              && State() == Step(swept, maxSize, Pop(Timeout(requested, visibilityTimeout), now))
              && next == if swept.waiting == [] then None else Some(swept.waiting[0].message)
      ensures next.Some? && (requested.None? || requested.value == 0.0) ==>
                Get(inFlight, next.value.id) == Some(Flight(next.value, now + visibilityTimeout))
      ensures next.Some? && requested.Some? && requested.value != 0.0 ==>
                Get(inFlight, next.value.id) == Some(Flight(next.value, now + requested.value))
    {
      hide Step, Where, Put, Get, MessagesOf, InOrder, Numbered, IsHeap;
      var _ := RequeueTimedOut(before);
      var timeout := if requested.Some? && requested.value != 0.0 then requested.value else visibilityTimeout;
      ghost var swept := State();
      next := PopNext(timeout, now);
      if next.Some? {
        PopFiles(swept, maxSize, timeout, now);
      }
    }

    static lemma PopFiles(q: Queue, maxSize: int, timeout: real, now: real)
      requires q.waiting != []
      ensures var m := q.waiting[0].message;
              Get(Step(q, maxSize, Pop(timeout, now)).inFlight, m.id) == Some(Flight(m, now + timeout))
    {
      var m := q.waiting[0].message;
      GetPut(q.inFlight, m.id, Flight(m, now + timeout), m.id);
    }

    method Acknowledge(id: string) returns (found: bool)
      requires Valid()
      modifies this`inFlight
      ensures Valid() && State() == Step(old(State()), maxSize, Op.Acknowledge(id)) && found == Has(old(inFlight), id)
      ensures !Has(inFlight, id)
    {
      found := Has(inFlight, id);
      if found {
        RemoveFiled(inFlight, id);
        GetRemove(inFlight, id, id);
        inFlight := Remove(inFlight, id);
      } else {
        RemoveAbsent(inFlight, id);
      }
    }

    method Nack(id: string) returns (found: bool)
      requires Valid()
      modifies this
      ensures Valid() && State() == Step(old(State()), maxSize, Op.Nack(id)) && found == Has(old(inFlight), id)
      ensures !Has(inFlight, id)
    {
      var entry := Get(inFlight, id);
      found := entry.Some?;
      if found {
        RemoveFiled(inFlight, id);
        GetRemove(inFlight, id, id);
        inFlight := Remove(inFlight, id);
        PushMessage(entry.value.message);
      }
    }
  }
}

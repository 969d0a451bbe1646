/**
 What one poll of a consumer reads, and what it hands to the application: every assigned partition is
 read from the consumer's position, positions move past all that was read, and the result is cut to
 the limit.
 */
module Polling {
  import opened Prelude
  import opened Partitions
  import Assignment

  type Offsets = map<TopicPartition, int>

  /** An assigned partition as the poll sees it. */
  datatype Source = Source(tp: TopicPartition, entries: seq<Message>)

  datatype Delivery = Delivery(tp: TopicPartition, message: Message)

  datatype Polled = Polled(deliveries: seq<Delivery>, offsets: Offsets)

  function Position(offsets: Offsets, tp: TopicPartition): int {
    if tp in offsets then offsets[tp] else 0
  }

  function Tagged(tp: TopicPartition, batch: seq<Message>): (r: seq<Delivery>)
    ensures |r| == |batch| && forall i :: 0 <= i < |batch| ==> r[i] == Delivery(tp, batch[i])
  {
    seq(|batch|, i requires 0 <= i < |batch| => Delivery(tp, batch[i]))
  }

  function Messages(ds: seq<Delivery>): (r: seq<Message>)
    ensures |r| == |ds| && forall i :: 0 <= i < |ds| ==> r[i] == ds[i].message
  {
    seq(|ds|, i requires 0 <= i < |ds| => ds[i].message)
  }

  lemma MessagesConcat(ds: seq<Delivery>, tp: TopicPartition, batch: seq<Message>)
    ensures Messages(ds + Tagged(tp, batch)) == Messages(ds) + batch
  {
  }

  /** `max_messages or config.max_poll_messages`: nothing and zero both mean the configured limit. */
  function Limit(maxMessages: Option<int>, configured: int): int {
    if maxMessages.Some? && maxMessages.value != 0 then maxMessages.value else configured
  }

  function PerPartition(limit: int, n: nat): int
    requires n > 0
  {
    Max(1, limit / n)
  }

  function Advance(offsets: Offsets, tp: TopicPartition, batch: seq<Message>): Offsets {
    if batch == [] then offsets else offsets[tp := batch[|batch| - 1].offset + 1]
  }

  /** The polling loop: partitions in order, `per` messages each. */
  function PollSources(sources: seq<Source>, offsets: Offsets, per: int): Polled {
    if sources == [] then Polled([], offsets)
    else
      var n := |sources| - 1;
      var before := PollSources(sources[..n], offsets, per);
      var tp := sources[n].tp;
      var batch := ReadLog(sources[n].entries, Position(before.offsets, tp), per);
      Polled(before.deliveries + Tagged(tp, batch), Advance(before.offsets, tp, batch))
  }

  function Poll(sources: seq<Source>, offsets: Offsets, limit: int): Polled {
    if sources == [] then Polled([], offsets) else PollSources(sources, offsets, PerPartition(limit, |sources|))
  }

  /** What the caller of poll gets, and what is read but withheld. */
  function Returned(polled: Polled, limit: int): seq<Delivery> {
    Slice(polled.deliveries, 0, limit)
  }

  function Withheld(polled: Polled, limit: int): seq<Delivery> {
    polled.deliveries[|Returned(polled, limit)|..]
  }

  /** Positions filled in when partitions are assigned: the committed offset, unless the consumer has one already. */
  function Seed(offsets: Offsets, seeds: seq<(TopicPartition, int)>): Offsets {
    if seeds == [] then offsets
    else
      var before := Seed(offsets, seeds[..|seeds| - 1]);
      var (tp, committed) := seeds[|seeds| - 1];
      if tp in before then before else before[tp := committed]
  }

  lemma SeedNext(offsets: Offsets, seeds: seq<(TopicPartition, int)>, i: nat)
    requires i < |seeds|
    ensures Seed(offsets, seeds[..i + 1]) ==
            var before := Seed(offsets, seeds[..i]);
            if seeds[i].0 in before then before else before[seeds[i].0 := seeds[i].1]
  {
    assert seeds[..i + 1][..i] == seeds[..i];
  }

  /** One turn of the polling loop, as its caller sees it. */
  lemma PollNext(sources: seq<Source>, offsets: Offsets, per: int, i: nat, batch: seq<Message>)
    requires i < |sources|
    requires batch == ReadLog(sources[i].entries,
                              Position(PollSources(sources[..i], offsets, per).offsets, sources[i].tp), per)
    ensures var before, after := PollSources(sources[..i], offsets, per), PollSources(sources[..i + 1], offsets, per);
            && Messages(after.deliveries) == Messages(before.deliveries) + batch
            && after.offsets == Advance(before.offsets, sources[i].tp, batch)
  {
    assert sources[..i + 1][..i] == sources[..i];
    MessagesConcat(PollSources(sources[..i], offsets, per).deliveries, sources[i].tp, batch);
  }

  // ---------------------------------------------------------------- when truncation loses nothing

  /** Where reading `k` messages of one log one by one leads. */
  function Onward(entries: seq<Message>, position: int, k: nat): int {
    if k == 0 then position
    else
      var before := Onward(entries, position, k - 1);
      var batch := ReadLog(entries, before, 1);
      if batch == [] then before else batch[0].offset + 1
  }

  /** The partition still has something to read after this many messages. */
  ghost predicate Unread(s: Source, offsets: Offsets, taken: nat) {
    ReadLog(s.entries, Onward(s.entries, Position(offsets, s.tp), taken), 1) != []
  }

  /** How often a partition is assigned. */
  ghost function Times(sources: seq<Source>, tp: TopicPartition): nat {
    if sources == [] then 0
    else Times(sources[..|sources| - 1], tp) + if sources[|sources| - 1].tp == tp then 1 else 0
  }

  /**
   The number of assigned partitions that hold something to read; one that is assigned k times counts k times
   if it holds k messages.
   */
  ghost function Ready(sources: seq<Source>, offsets: Offsets): nat {
    if sources == [] then 0
    else
      var n := |sources| - 1;
      Ready(sources[..n], offsets)
      + if Unread(sources[n], offsets, Times(sources[..n], sources[n].tp)) then 1 else 0
  }

  ghost predicate DistinctSources(sources: seq<Source>) {
    forall i, j :: 0 <= i < j < |sources| ==> sources[i].tp != sources[j].tp
  }

  /** A partition that is assigned twice is one log. */
  ghost predicate SoundSources(sources: seq<Source>) {
    forall i, j :: 0 <= i < j < |sources| && sources[i].tp == sources[j].tp ==> sources[i].entries == sources[j].entries
  }

  lemma MessagesReturned(polled: Polled, limit: int)
    ensures Messages(Returned(polled, limit)) == Slice(Messages(polled.deliveries), 0, limit)
  {
  }

  /** Where the partition of `s` is assigned, it is the same log. */
  ghost predicate Agrees(sources: seq<Source>, s: Source) {
    forall i :: 0 <= i < |sources| && sources[i].tp == s.tp ==> sources[i].entries == s.entries
  }

  lemma AgreesBefore(sources: seq<Source>, s: Source)
    requires sources != [] && Agrees(sources, s)
    ensures Agrees(sources[..|sources| - 1], s)
    ensures sources[|sources| - 1].tp == s.tp ==> sources[|sources| - 1].entries == s.entries
  {
  }

  lemma OneOnward(before: Polled, last: Source, s: Source, position: int, k: nat)
    requires last.tp == s.tp ==> last.entries == s.entries
    requires Position(before.offsets, s.tp) == Onward(s.entries, position, k)
    ensures Position(OneMore(before, last, 1).offsets, s.tp)
            == Onward(s.entries, position, if last.tp == s.tp then k + 1 else k)
  {
    OneMoreMoves(before, last, 1, s.tp);
    AtMostOne(last.entries, Position(before.offsets, last.tp));
    hide ReadLog, OneMore;
  }

  lemma AtMostOne(entries: seq<Message>, position: int)
    ensures |ReadLog(entries, position, 1)| <= 1
  {
  }

  lemma TimesExtend(sources: seq<Source>, tp: TopicPartition)
    requires sources != []
    ensures var n := |sources| - 1;
            Times(sources, tp) == if sources[n].tp == tp then Times(sources[..n], tp) + 1 else Times(sources[..n], tp)
  {
  }

  lemma NothingRead(offsets: Offsets, s: Source)
    ensures PollSources([], offsets, 1).offsets == offsets
    ensures Onward(s.entries, Position(offsets, s.tp), Times([], s.tp)) == Position(offsets, s.tp)
  {
  }

  /** Where a round with one message per assignment leaves the position in a partition. */
  lemma {:induction false} OnePerPartitionMoves(sources: seq<Source>, offsets: Offsets, s: Source)
    requires Agrees(sources, s)
    ensures Position(PollSources(sources, offsets, 1).offsets, s.tp)
            == Onward(s.entries, Position(offsets, s.tp), Times(sources, s.tp))
  {
    hide *;
    if sources == [] {
      NothingRead(offsets, s);
    } else {
      var n := |sources| - 1;
      var rest, last := sources[..n], sources[n];
      PollExtends(sources, offsets, 1);
      TimesExtend(sources, s.tp);
      AgreesBefore(sources, s);
      OnePerPartitionMoves(rest, offsets, s);
      OneOnward(PollSources(rest, offsets, 1), last, s, Position(offsets, s.tp), Times(rest, s.tp));
    }
  }

  lemma PollExtends(sources: seq<Source>, offsets: Offsets, per: int)
    requires sources != []
    ensures var n := |sources| - 1;
            PollSources(sources, offsets, per) == OneMore(PollSources(sources[..n], offsets, per), sources[n], per)
  {
  }

  lemma SoundBefore(sources: seq<Source>)
    requires sources != [] && SoundSources(sources)
    ensures SoundSources(sources[..|sources| - 1]) && Agrees(sources[..|sources| - 1], sources[|sources| - 1])
  {
  }

  /** A round reads one more message exactly if the last partition has one left. */
  lemma OneMoreReads(before: Polled, last: Source, offsets: Offsets, taken: nat)
    requires Position(before.offsets, last.tp) == Onward(last.entries, Position(offsets, last.tp), taken)
    ensures |OneMore(before, last, 1).deliveries|
            == |before.deliveries| + if Unread(last, offsets, taken) then 1 else 0
  {
    AtMostOne(last.entries, Position(before.offsets, last.tp));
    hide ReadLog, Onward;
  }

  lemma ReadyExtends(sources: seq<Source>, offsets: Offsets)
    requires sources != []
    ensures var n := |sources| - 1;
            var taken := Times(sources[..n], sources[n].tp);
            Ready(sources, offsets)
            == Ready(sources[..n], offsets) + if Unread(sources[n], offsets, taken) then 1 else 0
  {
  }

  lemma {:induction false} OnePerPartitionReadsReady(sources: seq<Source>, offsets: Offsets)
    requires SoundSources(sources)
    ensures |PollSources(sources, offsets, 1).deliveries| == Ready(sources, offsets)
  {
    if sources == [] {
    } else {
      hide *;
      var n := |sources| - 1;
      var rest, last := sources[..n], sources[n];
      PollExtends(sources, offsets, 1);
      SoundBefore(sources);
      ReadyExtends(sources, offsets);
      OnePerPartitionMoves(rest, offsets, last);
      OneMoreReads(PollSources(rest, offsets, 1), last, offsets, Times(rest, last.tp));
      OnePerPartitionReadsReady(rest, offsets);
    }
  }

  lemma {:induction false} PollIsBounded(sources: seq<Source>, offsets: Offsets, per: nat)
    ensures |PollSources(sources, offsets, per).deliveries| <= |sources| * per
  {
    if sources == [] {
    } else {
      var n := |sources| - 1;
      PollIsBounded(sources[..n], offsets, per);
      var before := PollSources(sources[..n], offsets, per);
      BatchIsBounded(sources[n].entries, Position(before.offsets, sources[n].tp), per);
      OneMoreTimes(n, per);
    }
  }

  lemma BatchIsBounded(entries: seq<Message>, position: int, per: nat)
    ensures |ReadLog(entries, position, per)| <= per
  {
  }

  lemma OneMoreTimes(n: nat, per: nat)
    ensures (n + 1) * per == n * per + per
  {
  }

  lemma TightLimitReadsOne(limit: int, n: nat)
    requires limit < n && 0 < n
    ensures PerPartition(limit, n) == 1
  {
    assert limit == n * (limit / n) + limit % n;
    ScaledBound(n, limit / n);
  }

  lemma {:induction false} ReadyAtMostAll(sources: seq<Source>, offsets: Offsets)
    ensures Ready(sources, offsets) <= |sources|
  {
    if sources == [] {
    } else {
      ReadyAtMostAll(sources[..|sources| - 1], offsets);
    }
  }

  lemma QuotientFits(limit: nat, n: nat)
    requires 0 < n <= limit
    ensures PerPartition(limit, n) >= 0 && n * PerPartition(limit, n) <= limit
  {
    assert limit == n * (limit / n) + limit % n;
    ScaledBound(n, limit / n);
  }

  /** With a limit of at least one message per partition, everything that is read fits. */
  lemma AmpleLimitFits(sources: seq<Source>, offsets: Offsets, limit: int)
    requires limit >= |sources|
    ensures |Poll(sources, offsets, limit).deliveries| <= limit
  {
    if sources != [] {
      PollIsBounded(sources, offsets, PerPartition(limit, |sources|));
      QuotientFits(limit, |sources|);
    }
  }

  /**
   Poll withholds nothing it has moved past if and only if no more partitions have something to read
   than the limit allows, also where a partition is assigned more than once.
   */
  lemma PollLosslessIff(sources: seq<Source>, offsets: Offsets, limit: int)
    requires SoundSources(sources)
    ensures Withheld(Poll(sources, offsets, limit), limit) == [] <==> Ready(sources, offsets) <= Max(limit, 0)
  {
    ReadyAtMostAll(sources, offsets);
    var polled := Poll(sources, offsets, limit);
    assert Withheld(polled, limit) == [] <==> |polled.deliveries| <= Max(limit, 0);
    if limit >= |sources| {
      AmpleLimitFits(sources, offsets, limit);
    } else if sources != [] {
      TightLimitReadsOne(limit, |sources|);
      OnePerPartitionReadsReady(sources, offsets);
    }
  }

  /** A poll never returns more than its limit. */
  lemma PollWithinLimit(sources: seq<Source>, offsets: Offsets, limit: nat)
    ensures |Returned(Poll(sources, offsets, limit), limit)| <= limit
    ensures Returned(Poll(sources, offsets, limit), limit) + Withheld(Poll(sources, offsets, limit), limit)
            == Poll(sources, offsets, limit).deliveries
  {
    var polled := Poll(sources, offsets, limit);
    assert polled.deliveries == Returned(polled, limit) + Withheld(polled, limit);
  }

  lemma TwoReady(s: Source, t: Source, offsets: Offsets)
    requires s.tp != t.tp && Unread(s, offsets, 0) && Unread(t, offsets, 0)
    ensures Ready([s, t], offsets) == 2
  {
    assert [s, t][..1] == [s] && [s][..0] == [];
    assert Times([], s.tp) == 0 && Times([], t.tp) == 0 && Ready([], offsets) == 0;
    TimesExtend([s], t.tp);
    ReadyExtends([s], offsets);
    ReadyExtends([s, t], offsets);
    hide Ready, Times, Unread;
  }

  lemma OneMessageUnread(tp: TopicPartition, m: Message)
    requires m.offset == 0
    ensures Unread(Source(tp, [m]), map[], 0)
  {
  }

  /** Two partitions, a limit of one: the second message is moved past and never handed over. */
  lemma TightLimitLoses()
    ensures exists sources: seq<Source>, offsets: Offsets ::
              && DistinctSources(sources)
              && Withheld(Poll(sources, offsets, 1), 1) != []
  {
    var m := Message("", None, [], 0, 0, 0, 0, 0.0);
    var s, t := Source(TopicPartition("t", 0), [m]), Source(TopicPartition("t", 1), [m]);
    var sources := [s, t];
    assert SoundSources(sources) && DistinctSources(sources);
    hide *;
    OneMessageUnread(s.tp, m);
    OneMessageUnread(t.tp, m);
    TwoReady(s, t, map[]);
    PollLosslessIff(sources, map[], 1);
  }

  // ---------------------------------------------------------------- what one poll reads from one partition

  ghost function From(ds: seq<Delivery>, tp: TopicPartition): seq<Message> {
    if ds == [] then []
    else
      From(ds[..|ds| - 1], tp) + if ds[|ds| - 1].tp == tp then [ds[|ds| - 1].message] else []
  }

  lemma {:induction false} FromConcat(a: seq<Delivery>, b: seq<Delivery>, tp: TopicPartition)
    ensures From(a + b, tp) == From(a, tp) + From(b, tp)
  {
    if b == [] {
      assert a + b == a;
    } else {
      var n := |b| - 1;
      FromConcat(a, b[..n], tp);
      assert (a + b)[..|a + b| - 1] == a + b[..n];
    }
  }

  lemma {:induction false} FromTagged(tp: TopicPartition, batch: seq<Message>, q: TopicPartition)
    ensures From(Tagged(tp, batch), q) == if tp == q then batch else []
  {
    if batch == [] {
    } else {
      var n := |batch| - 1;
      FromTagged(tp, batch[..n], q);
      assert Tagged(tp, batch)[..n] == Tagged(tp, batch[..n]) && Tagged(tp, batch)[n] == Delivery(tp, batch[n]);
      assert batch == batch[..n] + [batch[n]];
      hide Tagged;
    }
  }

  /** Where a gap-free log starts to be unread for a position. */
  function ReadIndex(entries: seq<Message>, position: int): nat {
    if entries == [] then 0 else Min(Max(position - entries[0].offset, 0), |entries|)
  }

  lemma OneStepOnward(entries: seq<Message>, position: int)
    requires Contiguous(entries)
    ensures var batch, i := ReadLog(entries, position, 1), ReadIndex(entries, position);
            && (batch != [] <==> i < |entries|)
            && (batch != [] ==> ReadIndex(entries, batch[0].offset + 1) == i + 1)
  {
  }

  /** In a gap-free log that is so as long as that many messages lie behind the position. */
  lemma {:induction false} OnwardIndex(entries: seq<Message>, position: int, k: nat)
    requires Contiguous(entries)
    ensures ReadIndex(entries, Onward(entries, position, k)) == Min(ReadIndex(entries, position) + k, |entries|)
  {
    if k == 0 {
    } else {
      OnwardIndex(entries, position, k - 1);
      OneStepOnward(entries, Onward(entries, position, k - 1));
      hide ReadLog, Contiguous;
    }
  }

  lemma GapFreeUnread(s: Source, offsets: Offsets, taken: nat)
    requires Contiguous(s.entries)
    ensures Unread(s, offsets, taken) <==> ReadIndex(s.entries, Position(offsets, s.tp)) + taken < |s.entries|
  {
    OnwardIndex(s.entries, Position(offsets, s.tp), taken);
    OneStepOnward(s.entries, Onward(s.entries, Position(offsets, s.tp), taken));
    hide ReadLog, Contiguous, Onward;
  }

  /** Moving from position `p` to `q` over a log takes exactly the slice that lies between them. */
  ghost predicate Takes(entries: seq<Message>, p: int, q: int, got: seq<Message>) {
    var i := ReadIndex(entries, p);
    && i + |got| <= |entries|
    && got == entries[i..i + |got|]
    && ReadIndex(entries, q) == i + |got|
    && (q == if got == [] then p else entries[0].offset + i + |got|)
  }

  lemma ReadTakes(entries: seq<Message>, p: int, per: nat)
    requires Contiguous(entries)
    ensures var batch := ReadLog(entries, p, per);
            Takes(entries, p, if batch == [] then p else batch[|batch| - 1].offset + 1, batch)
  {
  }

  lemma TakesCompose(entries: seq<Message>, p: int, q: int, r: int, a: seq<Message>, b: seq<Message>)
    requires Takes(entries, p, q, a) && Takes(entries, q, r, b)
    ensures Takes(entries, p, r, a + b)
  {
    SlicesJoin(entries, ReadIndex(entries, p), |a|, |b|);
  }

  /**
   From one partition a poll takes the slice of its log that starts at the consumer's position and
   leaves the position just after it, even if the partition is assigned twice.
   */
  lemma {:induction false} PollTakes(sources: seq<Source>, offsets: Offsets, per: nat, tp: TopicPartition,
                                     entries: seq<Message>)
    requires Contiguous(entries)
    requires forall i :: 0 <= i < |sources| && sources[i].tp == tp ==> sources[i].entries == entries
    ensures var polled := PollSources(sources, offsets, per);
            Takes(entries, Position(offsets, tp), Position(polled.offsets, tp), From(polled.deliveries, tp))
  {
    if sources != [] {
      var n := |sources| - 1;
      var before := PollSources(sources[..n], offsets, per);
      PollTakes(sources[..n], offsets, per, tp, entries);
      assert PollSources(sources, offsets, per) == OneMore(before, sources[n], per);
      OneMoreTakes(before, sources[n], per, tp, entries, Position(offsets, tp));
    } else {
      assert From([], tp) == [];
    }
  }

  /** A polling round extended by one source. */
  function OneMore(before: Polled, s: Source, per: int): Polled {
    var batch := ReadLog(s.entries, Position(before.offsets, s.tp), per);
    Polled(before.deliveries + Tagged(s.tp, batch), Advance(before.offsets, s.tp, batch))
  }

  lemma OneMoreMoves(before: Polled, s: Source, per: int, tp: TopicPartition)
    ensures var batch := ReadLog(s.entries, Position(before.offsets, s.tp), per);
            var after := OneMore(before, s, per);
            && after.deliveries == before.deliveries + Tagged(s.tp, batch)
            && Position(after.offsets, tp) == if s.tp == tp && batch != [] then batch[|batch| - 1].offset + 1
                                              else Position(before.offsets, tp)
  {
    hide ReadLog, Tagged;
  }

  lemma OneMoreTakes(before: Polled, s: Source, per: nat, tp: TopicPartition, entries: seq<Message>, p: int)
    requires Contiguous(entries) && (s.tp == tp ==> s.entries == entries)
    requires Takes(entries, p, Position(before.offsets, tp), From(before.deliveries, tp))
    ensures var after := OneMore(before, s, per);
            Takes(entries, p, Position(after.offsets, tp), From(after.deliveries, tp))
  {
    var batch := ReadLog(s.entries, Position(before.offsets, s.tp), per);
    var mid := Position(before.offsets, tp);
    OneMoreMoves(before, s, per, tp);
    hide Takes, ReadLog, From, Tagged, Contiguous, OneMore;
    FromConcat(before.deliveries, Tagged(s.tp, batch), tp);
    FromTagged(s.tp, batch, tp);
    if s.tp == tp {
      ReadTakes(entries, mid, per);
      var onward := if batch == [] then mid else batch[|batch| - 1].offset + 1;
      TakesCompose(entries, p, mid, onward, From(before.deliveries, tp), batch);
    } else {
      assert From(before.deliveries, tp) + [] == From(before.deliveries, tp);
    }
  }

  lemma SlicesJoin(entries: seq<Message>, i: nat, a: nat, b: nat)
    requires i + a + b <= |entries|
    ensures entries[i..i + a] + entries[i + a..i + a + b] == entries[i..i + a + b]
  {
  }

  // ---------------------------------------------------------------- how much a poll reads

  /** The portion of each of `n` partitions: an even part of the limit, and at least one message. */
  ghost predicate IsPortion(limit: int, n: nat, q: nat) {
    if limit < n then q == 1 else q * n <= limit < (q + 1) * n
  }

  /** From each partition in turn the first `q` messages at or above the position. */
  ghost function Portions(sources: seq<Source>, offsets: Offsets, q: nat): seq<Delivery> {
    if sources == [] then []
    else
      var n := |sources| - 1;
      Portions(sources[..n], offsets, q)
      + Tagged(sources[n].tp, FirstFrom(sources[n].entries, OffsetOf, Position(offsets, sources[n].tp), q))
  }

  ghost predicate GapFree(sources: seq<Source>) {
    forall i :: 0 <= i < |sources| ==> Contiguous(sources[i].entries)
  }

  lemma ReadIsFirst(entries: seq<Message>, position: int, q: nat)
    requires Contiguous(entries)
    ensures ReadLog(entries, position, q) == FirstFrom(entries, OffsetOf, position, q)
  {
    ReadExactIffContiguous(entries);
  }

  lemma {:induction false} RoundTakesPortions(sources: seq<Source>, offsets: Offsets, q: nat)
    requires DistinctSources(sources) && GapFree(sources)
    ensures PollSources(sources, offsets, q).deliveries == Portions(sources, offsets, q)
  {
    if sources == [] {
    } else {
      var n := |sources| - 1;
      var rest, last := sources[..n], sources[n];
      RoundTakesPortions(rest, offsets, q);
      OtherPositionsKept(rest, offsets, q, last.tp);
      ReadIsFirst(last.entries, Position(offsets, last.tp), q);
      hide ReadLog, FirstFrom, Contiguous, Tagged;
    }
  }

  lemma {:induction false} OtherPositionsKept(sources: seq<Source>, offsets: Offsets, per: int, tp: TopicPartition)
    requires forall i :: 0 <= i < |sources| ==> sources[i].tp != tp
    ensures Position(PollSources(sources, offsets, per).offsets, tp) == Position(offsets, tp)
  {
    if sources == [] {
    } else {
      OtherPositionsKept(sources[..|sources| - 1], offsets, per, tp);
    }
  }

  lemma PortionIsQuotient(limit: int, n: nat, q: nat)
    requires 0 < n && IsPortion(limit, n, q)
    ensures PerPartition(limit, n) == q
  {
    if limit < n {
      TightLimitReadsOne(limit, n);
    } else {
      assert (q + 1) * n == q * n + n && q * n == n * q;
      DivisionIsUnique(limit, n, q, limit - q * n);
    }
  }

  /**
   How much a poll reads: from each of its partitions, in their order, the first messages at or above its
   position, as many as an even part of the limit allows; if the limit is below the number of partitions, one.
   */
  lemma PollTakesPortions(sources: seq<Source>, offsets: Offsets, limit: int, q: nat)
    requires sources != [] && DistinctSources(sources) && GapFree(sources) && IsPortion(limit, |sources|, q)
    ensures Poll(sources, offsets, limit).deliveries == Portions(sources, offsets, q)
    ensures forall i :: 0 <= i < |sources| ==>
                          From(Poll(sources, offsets, limit).deliveries, sources[i].tp)
                          == FirstFrom(sources[i].entries, OffsetOf, Position(offsets, sources[i].tp), q)
  {
    PortionIsQuotient(limit, |sources|, q);
    RoundTakesPortions(sources, offsets, q);
    forall i | 0 <= i < |sources|
      ensures From(Portions(sources, offsets, q), sources[i].tp)
              == FirstFrom(sources[i].entries, OffsetOf, Position(offsets, sources[i].tp), q)
    {
      PortionOf(sources, offsets, q, i);
    }
  }

  lemma PortionsExtend(sources: seq<Source>, offsets: Offsets, q: nat, tp: TopicPartition)
    requires sources != []
    ensures var n := |sources| - 1;
            var got := FirstFrom(sources[n].entries, OffsetOf, Position(offsets, sources[n].tp), q);
            From(Portions(sources, offsets, q), tp)
            == From(Portions(sources[..n], offsets, q), tp) + if sources[n].tp == tp then got else []
  {
    var n := |sources| - 1;
    var got := FirstFrom(sources[n].entries, OffsetOf, Position(offsets, sources[n].tp), q);
    var before := Portions(sources[..n], offsets, q);
    assert Portions(sources, offsets, q) == before + Tagged(sources[n].tp, got);
    hide *;
    FromConcat(before, Tagged(sources[n].tp, got), tp);
    FromTagged(sources[n].tp, got, tp);
  }

  lemma FromNoSource(offsets: Offsets, q: nat, tp: TopicPartition)
    ensures From(Portions([], offsets, q), tp) == []
  {
  }

  lemma {:induction false} NothingFrom(sources: seq<Source>, offsets: Offsets, q: nat, tp: TopicPartition)
    requires forall i :: 0 <= i < |sources| ==> sources[i].tp != tp
    ensures From(Portions(sources, offsets, q), tp) == []
  {
    hide *;
    if sources == [] {
      FromNoSource(offsets, q, tp);
    } else {
      PortionsExtend(sources, offsets, q, tp);
      NothingFrom(sources[..|sources| - 1], offsets, q, tp);
    }
  }

  lemma {:induction false} PortionOf(sources: seq<Source>, offsets: Offsets, q: nat, i: nat)
    requires DistinctSources(sources) && i < |sources|
    ensures From(Portions(sources, offsets, q), sources[i].tp)
            == FirstFrom(sources[i].entries, OffsetOf, Position(offsets, sources[i].tp), q)
  {
    hide Portions, From, FirstFrom, Position;
    var n := |sources| - 1;
    PortionsExtend(sources, offsets, q, sources[i].tp);
    if i == n {
      NothingFrom(sources[..n], offsets, q, sources[i].tp);
    } else {
      PortionOf(sources[..n], offsets, q, i);
    }
  }

  lemma SinglePortion(source: Source, offsets: Offsets, q: nat)
    ensures Portions([source], offsets, q)
            == Tagged(source.tp, FirstFrom(source.entries, OffsetOf, Position(offsets, source.tp), q))
  {
    assert [source][..0] == [] && Portions([], offsets, q) == [];
    hide Tagged, FirstFrom;
  }

  /** A batch from one partition, cut to the limit; without a limit above zero it holds at most one message. */
  lemma ReturnedBatch(polled: Polled, tp: TopicPartition, batch: seq<Message>, limit: int)
    requires polled.deliveries == Tagged(tp, batch) && |batch| <= Max(limit, 1)
    ensures Messages(Returned(polled, limit)) == if limit <= 0 then [] else batch
  {
    assert Messages(polled.deliveries) == batch;
    MessagesReturned(polled, limit);
    hide Returned, Tagged, Messages;
  }

  /** With one partition a poll hands over the first messages at or above the position, up to the limit. */
  lemma PollOnePartition(source: Source, offsets: Offsets, limit: int)
    requires Contiguous(source.entries)
    ensures Messages(Returned(Poll([source], offsets, limit), limit))
            == FirstFrom(source.entries, OffsetOf, Position(offsets, source.tp), limit)
  {
    var q, position := Max(limit, 1), Position(offsets, source.tp);
    assert DistinctSources([source]) && GapFree([source]) && IsPortion(limit, 1, q);
    hide Contiguous, DistinctSources, GapFree, Poll, Portions, FirstFrom, Tagged, Messages, Returned, IsPortion;
    PollTakesPortions([source], offsets, limit, q);
    SinglePortion(source, offsets, q);
    FirstAtMost(source.entries, position, q);
    NoneFrom(source.entries, position, Min(limit, 0));
    ReturnedBatch(Poll([source], offsets, limit), source.tp, FirstFrom(source.entries, OffsetOf, position, q), limit);
  }

  lemma {:induction false} FirstAtMost(entries: seq<Message>, position: int, q: nat)
    ensures |FirstFrom(entries, OffsetOf, position, q)| <= q
  {
    if entries == [] || q == 0 {
    } else if entries[0].offset >= position {
      FirstAtMost(entries[1..], position, q - 1);
    } else {
      FirstAtMost(entries[1..], position, q);
    }
  }

  lemma NoneFrom(entries: seq<Message>, position: int, n: int)
    requires n <= 0
    ensures FirstFrom(entries, OffsetOf, position, n) == []
  {
  }
}

/** Messages that are being processed: hidden from other consumers until settled or until their time is up. */
module Visibility {
  import opened Prelude
  import opened OrderedDict
  import opened Partitions

  datatype Flight = Flight(message: Message, expiry: real)

  function FlightId(f: Flight): string { f.message.id }

  /** In-flight messages by identifier, in the order they were handed out. */
  type Flights = Dict<string, Flight>

  function MessagesOf(d: Flights): seq<Message> {
    if d == [] then [] else [d[0].1.message] + MessagesOf(d[1..])
  }

  function Expired(d: Flights, now: real): Flights { Where(d, (f: Flight) => now >= f.expiry) }

  function Unexpired(d: Flights, now: real): Flights { Where(d, (f: Flight) => !(now >= f.expiry)) }

  /** `visibility_timeout or self.visibility_timeout` */
  function Timeout(requested: Option<real>, default: real): real {
    if requested.Some? && requested.value != 0.0 then requested.value else default
  }

  lemma {:induction false} MessagesOfConcat(a: Flights, b: Flights)
    ensures MessagesOf(a + b) == MessagesOf(a) + MessagesOf(b)
  {
    if a == [] {
      assert a + b == b;
    } else {
      assert (a + b)[1..] == a[1..] + b;
      MessagesOfConcat(a[1..], b);
    }
  }

  lemma {:induction false} MessageIsOf(d: Flights, k: string)
    requires Has(d, k)
    ensures Get(d, k).value.message in MessagesOf(d)
  {
    if d[0].0 != k {
      MessageIsOf(d[1..], k);
    }
  }

  lemma {:induction false} TakeOut(d: Flights, k: string)
    requires Has(d, k)
    ensures multiset(MessagesOf(d)) == multiset(MessagesOf(Remove(d, k))) + multiset{Get(d, k).value.message}
  {
    var head := d[0].1.message;
    if d[0].0 != k {
      TakeOut(d[1..], k);
      var rest := Remove(d[1..], k);
      assert ([d[0]] + rest)[1..] == rest;
      assert multiset(MessagesOf(d)) == multiset{head} + multiset(MessagesOf(d[1..]));
      assert multiset(MessagesOf([d[0]] + rest)) == multiset{head} + multiset(MessagesOf(rest));
    } else {
      assert multiset(MessagesOf(d)) == multiset{head} + multiset(MessagesOf(d[1..]));
    }
  }

  /** Filing a message under a free identifier adds it; under a taken one it replaces what was there. */
  lemma {:induction false} PutIn(d: Flights, k: string, f: Flight)
    ensures Has(d, k) ==> multiset(MessagesOf(Put(d, k, f))) + multiset{Get(d, k).value.message}
                          == multiset(MessagesOf(d)) + multiset{f.message}
    ensures !Has(d, k) ==> multiset(MessagesOf(Put(d, k, f))) == multiset(MessagesOf(d)) + multiset{f.message}
  {
    if Has(d, k) {
      PutOver(d, k, f);
    } else {
      PutAbsent(d, k, f);
      MessagesOfConcat(d, [(k, f)]);
      assert [(k, f)][1..] == [] && MessagesOf([(k, f)]) == [f.message];
    }
  }

  lemma {:induction false} PutOver(d: Flights, k: string, f: Flight)
    requires Has(d, k)
    ensures multiset(MessagesOf(Put(d, k, f))) + multiset{Get(d, k).value.message}
            == multiset(MessagesOf(d)) + multiset{f.message}
  {
    assert d == [d[0]] + d[1..];
    var head, rest := d[0].1.message, d[1..];
    if d[0].0 == k {
      PrependMessage((k, f), rest);
      PrependMessage(d[0], rest);
    } else {
      PutOver(rest, k, f);
      PrependMessage(d[0], Put(rest, k, f));
      PrependMessage(d[0], rest);
      AddToBoth(multiset{head}, multiset(MessagesOf(Put(rest, k, f))), multiset{Get(d, k).value.message},
                multiset(MessagesOf(rest)), multiset{f.message});
    }
  }

  lemma PrependMessage(e: (string, Flight), d: Flights)
    ensures multiset(MessagesOf([e] + d)) == multiset{e.1.message} + multiset(MessagesOf(d))
  {
    assert ([e] + d)[1..] == d;
  }

  lemma AddToBoth(h: multiset<Message>, a: multiset<Message>, b: multiset<Message>, c: multiset<Message>,
                  d: multiset<Message>)
    requires a + b == c + d
    ensures h + a + b == h + c + d
  {
    assert h + a + b == h + (a + b) && h + c + d == h + (c + d);
  }

  /** Expiry splits the flights. */
  lemma {:induction false} ExpirySplits(d: Flights, now: real)
    ensures multiset(MessagesOf(d)) == multiset(MessagesOf(Expired(d, now))) + multiset(MessagesOf(Unexpired(d, now)))
  {
    if d == [] {
    } else {
      ExpirySplits(d[1..], now);
      var head := d[0].1.message;
      var e, u := Expired(d[1..], now), Unexpired(d[1..], now);
      assert multiset(MessagesOf(d)) == multiset{head} + multiset(MessagesOf(d[1..]));
      if now >= d[0].1.expiry {
        assert ([d[0]] + e)[1..] == e && Expired(d, now) == [d[0]] + e && Unexpired(d, now) == u;
        assert multiset(MessagesOf([d[0]] + e)) == multiset{head} + multiset(MessagesOf(e));
      } else {
        assert ([d[0]] + u)[1..] == u && Unexpired(d, now) == [d[0]] + u && Expired(d, now) == e;
        assert multiset(MessagesOf([d[0]] + u)) == multiset{head} + multiset(MessagesOf(u));
      }
    }
  }

  lemma {:induction false} MessageCount(d: Flights)
    ensures |MessagesOf(d)| == |d|
  {
    if d == [] {
    } else {
      MessageCount(d[1..]);
    }
  }

  lemma PutFiled(d: Flights, f: Flight)
    requires Filed(d, FlightId)
    ensures Filed(Put(d, f.message.id, f), FlightId)
  {
    PutWellFormed(d, f.message.id, f);
    PutEntries(d, f.message.id, f);
  }

  lemma RemoveFiled(d: Flights, k: string)
    requires Filed(d, FlightId)
    ensures Filed(Remove(d, k), FlightId)
  {
    RemoveWellFormed(d, k);
  }

  lemma UnexpiredFiled(d: Flights, now: real)
    requires Filed(d, FlightId)
    ensures Filed(Unexpired(d, now), FlightId)
  {
    WhereWellFormed(d, (f: Flight) => !(now >= f.expiry));
    WhereEntries(d, (f: Flight) => !(now >= f.expiry));
  }

  /** Popping the expired identifiers one by one leaves the flights that are not expired. */
  lemma PoppingExpired(d: Flights, now: real)
    requires WellFormed(d)
    ensures RemoveAll(d, Keys(Expired(d, now))) == Unexpired(d, now)
  {
    RemoveAllWhere(d, (f: Flight) => now >= f.expiry, (f: Flight) => !(now >= f.expiry));
  }

  /** A flight that is not expired survives the sweep. */
  lemma {:induction false} UnexpiredKeeps(d: Flights, now: real, k: string)
    ensures Has(d, k) && now < Get(d, k).value.expiry && WellFormed(d) ==> Get(Unexpired(d, now), k) == Get(d, k)
    ensures !Has(d, k) ==> !Has(Unexpired(d, now), k)
  {
    if d == [] {
    } else {
      UnexpiredKeeps(d[1..], now, k);
      var u := Unexpired(d[1..], now);
      assert ([d[0]] + u)[1..] == u;
      if d[0].0 != k && Has(d, k) && now < Get(d, k).value.expiry {
        assert Unexpired(d, now) == if now >= d[0].1.expiry then u else [d[0]] + u;
      }
    }
  }

  /** The i-th expired identifier is still in flight when its turn comes, with its own message. */
  lemma ExpiredNext(d: Flights, now: real, i: nat)
    requires Filed(d, FlightId) && i < |Expired(d, now)|
    ensures var expired := Expired(d, now);
            var left := RemoveAll(d, Keys(expired)[..i]);
            && i < |MessagesOf(expired)|
            && Get(left, Keys(expired)[i]) == Some(expired[i].1) && expired[i].1.message == MessagesOf(expired)[i]
            && RemoveAll(d, Keys(expired)[..i + 1]) == Remove(left, Keys(expired)[i])
  {
    var expired := Expired(d, now);
    SelectedNext(d, (f: Flight) => now >= f.expiry, i);
    MessageAt(expired, i);
  }

  lemma {:induction false} MessageAt(d: Flights, i: nat)
    requires i < |d|
    ensures i < |MessagesOf(d)| && MessagesOf(d)[i] == d[i].1.message
  {
    if i == 0 {
    } else {
      MessageAt(d[1..], i - 1);
    }
  }

  lemma EachMessage(d: Flights)
    ensures |MessagesOf(d)| == |d| && forall i :: 0 <= i < |d| ==> MessagesOf(d)[i] == d[i].1.message
  {
    MessageCount(d);
    forall i | 0 <= i < |d| ensures MessagesOf(d)[i] == d[i].1.message {
      MessageAt(d, i);
    }
  }

  /** A sweep leaves exactly the flights whose time is not up, and returns the messages of all others. */
  lemma SweepReturnsLate(d: Flights, now: real)
    ensures forall e :: e in d ==> (e in Unexpired(d, now) <==> now < e.1.expiry)
    ensures forall e :: e in d && now >= e.1.expiry ==> e.1.message in MessagesOf(Expired(d, now))
  {
    WhereEntries(d, (f: Flight) => !(now >= f.expiry));
    WhereEntries(d, (f: Flight) => now >= f.expiry);
    forall e | e in d && now >= e.1.expiry ensures e.1.message in MessagesOf(Expired(d, now)) {
      MessageOf(Expired(d, now), e);
    }
  }

  lemma {:induction false} MessageOf(d: Flights, e: (string, Flight))
    requires e in d
    ensures e.1.message in MessagesOf(d)
  {
    if d[0] != e {
      MessageOf(d[1..], e);
    }
  }

  // ---------------------------------------------------------------- how many

  lemma {:induction false} PutCount(d: Flights, k: string, f: Flight)
    ensures |Put(d, k, f)| == |d| + if Has(d, k) then 0 else 1
  {
    if d != [] && d[0].0 != k {
      PutCount(d[1..], k, f);
    }
  }

  lemma {:induction false} RemoveCount(d: Flights, k: string)
    ensures |Remove(d, k)| == |d| - if Has(d, k) then 1 else 0
  {
    if d != [] && d[0].0 != k {
      RemoveCount(d[1..], k);
    }
  }

  lemma ExpiryCounts(d: Flights, now: real)
    ensures |d| == |Expired(d, now)| + |Unexpired(d, now)|
  {
    WhereSplits(d, (f: Flight) => now >= f.expiry, (f: Flight) => !(now >= f.expiry));
  }

  /** Everything expires in time. */
  lemma {:induction false} LastExpiry(d: Flights) returns (now: real)
    ensures Expired(d, now) == d
  {
    now := 0.0;
    for i := 0 to |d|
      invariant forall j :: 0 <= j < i ==> now >= d[j].1.expiry
    {
      if now < d[i].1.expiry {
        now := d[i].1.expiry;
      }
    }
    WhereEverything(d, (f: Flight) => now >= f.expiry);
  }
}

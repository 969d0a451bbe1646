/** The token-bucket rate limiter, over reals and explicit monotonic times. */
module RateLimiters {
  datatype Limits = Limits(rate: real, burst: int)

  datatype Bucket = Bucket(tokens: real, last: real)

  /** Python's `int(x)`: truncation toward zero. */
  function Truncated(x: real): int { if x >= 0.0 then x.Floor else -(-x).Floor }

  /** A burst that is not positive stands for the rate itself. */
  function Configured(rate: real, burst: int): Limits {
    Limits(rate, if burst > 0 then burst else Truncated(rate))
  }

  /** What the rate adds between two times. */
  function Gained(l: Limits, since: real, now: real): real { (now - since) * l.rate }

  function Refill(l: Limits, b: Bucket, now: real): Bucket {
    var filled := b.tokens + Gained(l, b.last, now);
    Bucket(if filled < l.burst as real then filled else l.burst as real, now)
  }

  datatype Event = Acquire(tokens: int, now: real) | Observe(now: real)

  predicate Granted(l: Limits, b: Bucket, e: Event) {
    e.Acquire? && Refill(l, b, e.now).tokens >= e.tokens as real
  }

  function Step(l: Limits, b: Bucket, e: Event): Bucket {
    var filled := Refill(l, b, e.now);
    if Granted(l, b, e) then filled.(tokens := filled.tokens - e.tokens as real) else filled
  }

  function Run(l: Limits, b: Bucket, es: seq<Event>): Bucket
    decreases es
  {
    if es == [] then b else Run(l, Step(l, b, es[0]), es[1..])
  }

  /** The answers a run gives to its requests, in order. */
  function Decisions(l: Limits, b: Bucket, es: seq<Event>): seq<bool>
    decreases es
  {
    if es == [] then []
    else (if es[0].Acquire? then [Granted(l, b, es[0])] else []) + Decisions(l, Step(l, b, es[0]), es[1..])
  }

  /** Every request of the run is served. */
  ghost predicate AllGranted(l: Limits, b: Bucket, es: seq<Event>) {
    forall i :: 0 <= i < |Decisions(l, b, es)| ==> Decisions(l, b, es)[i]
  }

  /** The tokens a run hands out. */
  function Total(l: Limits, b: Bucket, es: seq<Event>): int
    decreases es
  {
    if es == [] then 0
    else (if Granted(l, b, es[0]) then es[0].tokens else 0) + Total(l, Step(l, b, es[0]), es[1..])
  }

  function LastTime(t: real, es: seq<Event>): real
    decreases es
  {
    if es == [] then t else LastTime(es[0].now, es[1..])
  }

  ghost predicate Timely(t: real, es: seq<Event>)
    decreases es
  {
    es == [] || (es[0].now >= t && Timely(es[0].now, es[1..]))
  }

  ghost predicate NonNegative(es: seq<Event>) {
    forall i :: 0 <= i < |es| && es[i].Acquire? ==> es[i].tokens >= 0
  }

  ghost predicate Within(l: Limits, b: Bucket) {
    0.0 <= b.tokens <= l.burst as real
  }

  // ---------------------------------------------------------------- bounds

  lemma RefillWithin(l: Limits, b: Bucket, now: real)
    requires l.rate >= 0.0 && Within(l, b) && now >= b.last
    ensures Within(l, Refill(l, b, now))
    ensures Refill(l, b, now).tokens <= b.tokens + Gained(l, b.last, now)
  {
    GainsAdd(l, b.last, b.last, now);
    hide Gained;
  }

  lemma GainsAdd(l: Limits, s: real, t: real, u: real)
    ensures Gained(l, s, t) + Gained(l, t, u) == Gained(l, s, u) && Gained(l, s, s) == 0.0
    ensures l.rate >= 0.0 && t <= u ==> Gained(l, t, u) >= 0.0
  {
    assert (t - s) * l.rate + (u - t) * l.rate == ((t - s) + (u - t)) * l.rate;
    if l.rate >= 0.0 && t <= u {
      ProductNonNegative(u - t, l.rate);
    }
  }

  lemma ProductNonNegative(x: real, y: real)
    requires x >= 0.0 && y >= 0.0
    ensures x * y >= 0.0
  {
  }

  lemma StepWithin(l: Limits, b: Bucket, e: Event)
    requires l.rate >= 0.0 && Within(l, b) && e.now >= b.last && (e.Acquire? ==> e.tokens >= 0)
    ensures Within(l, Step(l, b, e)) && Step(l, b, e).last == e.now
    ensures (if Granted(l, b, e) then e.tokens as real else 0.0) + Step(l, b, e).tokens == Refill(l, b, e.now).tokens
  {
    RefillWithin(l, b, e.now);
  }

  /** The bucket never holds less than nothing or more than the burst. */
  lemma {:induction false} TokensStayWithin(l: Limits, b: Bucket, es: seq<Event>)
    requires l.rate >= 0.0 && Within(l, b) && Timely(b.last, es) && NonNegative(es)
    ensures Within(l, Run(l, b, es))
    decreases es
  {
    if es == [] {
    } else {
      StepWithin(l, b, es[0]);
      TokensStayWithin(l, Step(l, b, es[0]), es[1..]);
    }
  }

  /** Tokens handed out plus tokens left never exceed tokens at the start plus what time can add. */
  lemma {:induction false} TokensAreConserved(l: Limits, b: Bucket, es: seq<Event>)
    requires l.rate >= 0.0 && Within(l, b) && Timely(b.last, es) && NonNegative(es)
    ensures Total(l, b, es) as real + Run(l, b, es).tokens <= b.tokens + Gained(l, b.last, LastTime(b.last, es))
    decreases es
  {
    hide Gained;
    GainsAdd(l, b.last, b.last, b.last);
    if es == [] {
    } else {
      hide Refill;
      StepWithin(l, b, es[0]);
      RefillWithin(l, b, es[0].now);
      TokensAreConserved(l, Step(l, b, es[0]), es[1..]);
      GainsAdd(l, b.last, es[0].now, LastTime(b.last, es));
    }
  }

  lemma RefillTwice(l: Limits, b: Bucket, t: real, u: real)
    requires l.rate >= 0.0 && t <= u
    ensures Refill(l, Refill(l, b, t), u) == Refill(l, b, u)
  {
    GainsAdd(l, b.last, t, u);
    hide Gained;
  }

  /**
   The token-bucket bound: after any history, the tokens granted in any window of events are at most
   the burst plus the rate times the length of the window.
   */
  lemma WindowBound(l: Limits, start: Bucket, history: seq<Event>, window: seq<Event>)
    requires l.rate >= 0.0 && Within(l, start)
    requires Timely(start.last, history) && NonNegative(history)
    requires window != [] && Timely(Run(l, start, history).last, window) && NonNegative(window)
    ensures Total(l, Run(l, start, history), window) as real
            <= l.burst as real + Gained(l, window[0].now, LastTime(window[0].now, window))
  {
    TokensStayWithin(l, start, history);
    WindowFrom(l, Run(l, start, history), window);
  }

  lemma WindowFrom(l: Limits, b: Bucket, window: seq<Event>)
    requires l.rate >= 0.0 && Within(l, b)
    requires window != [] && Timely(b.last, window) && NonNegative(window)
    ensures Total(l, b, window) as real <= l.burst as real + Gained(l, window[0].now, LastTime(window[0].now, window))
  {
    hide Gained;
    var t := window[0].now;
    RefillWithin(l, b, t);
    RefillTwice(l, b, t, t);
    hide Refill;
    var full := Refill(l, b, t);
    assert full.last == t by { StepWithin(l, b, Observe(t)); }
    assert Step(l, full, window[0]) == Step(l, b, window[0]) && Granted(l, full, window[0]) == Granted(l, b, window[0]);
    assert Total(l, full, window) == Total(l, b, window);
    TokensAreConserved(l, full, window);
    TokensStayWithin(l, full, window);
  }

  /** A request whose tokens have accrued since the last refill is served. */
  lemma PacedRequestIsGranted(l: Limits, b: Bucket, tokens: nat, now: real)
    requires l.rate >= 0.0 && Within(l, b) && tokens <= l.burst
    requires Gained(l, b.last, now) >= tokens as real
    ensures Granted(l, b, Acquire(tokens, now))
  {
    hide Gained;
  }

  // ---------------------------------------------------------------- observing changes nothing

  function Requests(es: seq<Event>): seq<Event> {
    if es == [] then [] else (if es[0].Acquire? then [es[0]] else []) + Requests(es[1..])
  }

  /** `b` is `c`, perhaps refilled in between. */
  ghost predicate SameButRefilled(l: Limits, b: Bucket, c: Bucket) {
    b == c || (c.last <= b.last && b == Refill(l, c, b.last))
  }

  lemma {:induction false} ObservationIsNeutral(l: Limits, b: Bucket, c: Bucket, es: seq<Event>)
    requires l.rate >= 0.0 && Timely(b.last, es) && SameButRefilled(l, b, c)
    ensures Decisions(l, b, es) == Decisions(l, c, Requests(es))
    decreases |es|
  {
    hide Gained;
    if es == [] {
    } else {
      var e := es[0];
      if b != c {
        RefillTwice(l, c, b.last, e.now);
      }
      assert Refill(l, b, e.now) == Refill(l, c, e.now);
      if e.Acquire? {
        ObservationIsNeutral(l, Step(l, b, e), Step(l, c, e), es[1..]);
        assert Requests(es)[0] == e && Requests(es)[1..] == Requests(es[1..]);
      } else {
        ObservationIsNeutral(l, Step(l, b, e), c, es[1..]);
        assert Requests(es) == Requests(es[1..]);
      }
    }
  }

  /** Reading the token count or taking a snapshot, any number of times, changes no later decision. */
  lemma ObservationNeutrality(l: Limits, b: Bucket, es: seq<Event>)
    requires l.rate >= 0.0 && Timely(b.last, es)
    ensures Decisions(l, b, es) == Decisions(l, b, Requests(es))
  {
    ObservationIsNeutral(l, b, b, es);
  }

  // ---------------------------------------------------------------- paced clients

  /** Each request asks for no more than the burst, and for no more than has accrued since the request before it. */
  ghost predicate Paced(l: Limits, t: real, requests: seq<Event>)
    decreases requests
  {
    requests == [] ||
    (&& requests[0].Acquire? && 0 <= requests[0].tokens <= l.burst
     && Gained(l, t, requests[0].now) >= requests[0].tokens as real
     && Paced(l, requests[0].now, requests[1..]))
  }

  lemma {:induction false} PacedRequestsAreGranted(l: Limits, b: Bucket, requests: seq<Event>)
    requires l.rate >= 0.0 && Within(l, b) && Timely(b.last, requests) && Paced(l, b.last, requests)
    ensures AllGranted(l, b, requests)
    decreases requests
  {
    if requests == [] {
    } else {
      var e := requests[0];
      PacedRequestIsGranted(l, b, e.tokens, e.now);
      StepWithin(l, b, e);
      DecisionsSplit(l, b, requests);
      hide Gained, Refill, AllGranted;
      PacedRequestsAreGranted(l, Step(l, b, e), requests[1..]);
    }
  }

  lemma {:induction false} RequestsInTime(t: real, u: real, es: seq<Event>)
    requires Timely(t, es) && u <= t
    ensures Timely(u, Requests(es))
    decreases es
  {
    if es == [] {
    } else {
      if es[0].Acquire? {
        RequestsInTime(es[0].now, es[0].now, es[1..]);
        assert Requests(es)[0] == es[0] && Requests(es)[1..] == Requests(es[1..]);
      } else {
        RequestsInTime(es[0].now, u, es[1..]);
        assert Requests(es) == Requests(es[1..]);
      }
    }
  }

  /**
   The bound is not vacuous: a client whose every request asks for what has accrued since its request
   before, and for no more than the burst, is never rejected, however often the bucket is observed.
   */
  lemma {:induction false} PacedScheduleIsGranted(l: Limits, b: Bucket, es: seq<Event>)
    requires l.rate >= 0.0 && Within(l, b) && Timely(b.last, es) && Paced(l, b.last, Requests(es))
    ensures AllGranted(l, b, es)
  {
    ObservationNeutrality(l, b, es);
    RequestsInTime(b.last, b.last, es);
    PacedRequestsAreGranted(l, b, Requests(es));
  }

  // ---------------------------------------------------------------- schedules that are granted

  /** The tokens one event asks for. */
  function Asked(e: Event): int { if e.Acquire? then e.tokens else 0 }

  function Demand(es: seq<Event>): int
    decreases es
  {
    if es == [] then 0 else Asked(es[0]) + Demand(es[1..])
  }

  /** What the events up to `j` ask for is there at the start or accrues in time. */
  ghost predicate PrefixFits(l: Limits, b: Bucket, es: seq<Event>, j: nat)
    requires j < |es|
  {
    Demand(es[..j + 1]) as real <= b.tokens + Gained(l, b.last, es[j].now)
  }

  /** What the events from `i` to `j` ask for is at most the burst and what accrues between them. */
  ghost predicate WindowFits(l: Limits, es: seq<Event>, i: nat, j: nat)
    requires i <= j < |es|
  {
    Demand(es[i..j + 1]) as real <= l.burst as real + Gained(l, es[i].now, es[j].now)
  }

  ghost predicate Fits(l: Limits, b: Bucket, es: seq<Event>) {
    && (forall j: nat :: j < |es| ==> PrefixFits(l, b, es, j))
    && forall i: nat, j: nat :: i <= j < |es| ==> WindowFits(l, es, i, j)
  }

  lemma DemandSplits(es: seq<Event>, j: nat)
    requires es != [] && j < |es|
    ensures Demand(es[..j + 1]) == Asked(es[0]) + Demand(es[1..][..j])
  {
    assert es[..j + 1][1..] == es[1..][..j];
  }

  lemma LaterWindow(l: Limits, es: seq<Event>, i: nat, j: nat)
    requires 0 < i <= j < |es|
    ensures WindowFits(l, es, i, j) <==> WindowFits(l, es[1..], i - 1, j - 1)
  {
    assert es[1..][i - 1..j] == es[i..j + 1];
  }

  /** After a first event that is served: the rest fits from there on if and only if the whole fits. */
  lemma FitsFromHere(l: Limits, b: Bucket, es: seq<Event>, j: nat)
    requires l.rate >= 0.0 && Within(l, b) && Timely(b.last, es) && NonNegative(es) && j < |es|
    requires es[0].Acquire? ==> Granted(l, b, es[0])
    ensures (j == 0 || PrefixFits(l, Step(l, b, es[0]), es[1..], j - 1))
            <==> PrefixFits(l, b, es, j) && WindowFits(l, es, 0, j)
  {
    var e, after, rest := es[0], Step(l, b, es[0]), es[1..];
    DemandSplits(es, j);
    assert es[0..j + 1] == es[..j + 1];
    GainsAdd(l, b.last, e.now, es[j].now);
    GainsAdd(l, e.now, e.now, e.now);
    RefillWithin(l, b, e.now);
    assert after.last == e.now && after.tokens == Refill(l, b, e.now).tokens - Asked(e) as real;
    if j == 0 {
      assert rest[..j] == [] && Demand(rest[..j]) == 0;
    } else {
      assert rest[j - 1] == es[j];
      assert PrefixFits(l, after, rest, j - 1) <==>
             Demand(rest[..j]) as real <= after.tokens + Gained(l, e.now, es[j].now);
    }
    hide Gained, Demand, Step;
  }

  lemma FirstFits(l: Limits, b: Bucket, es: seq<Event>)
    requires es != [] && l.rate >= 0.0 && Within(l, b) && Timely(b.last, es) && NonNegative(es)
    ensures (es[0].Acquire? ==> Granted(l, b, es[0])) <==> PrefixFits(l, b, es, 0) && WindowFits(l, es, 0, 0)
  {
    var e := es[0];
    DemandSplits(es, 0);
    assert es[0..1] == es[..1] && Demand(es[1..][..0]) == 0;
    GainsAdd(l, b.last, b.last, e.now);
    GainsAdd(l, e.now, e.now, e.now);
    hide Gained, Demand;
  }

  lemma DecisionsSplit(l: Limits, b: Bucket, es: seq<Event>)
    requires es != []
    ensures AllGranted(l, b, es) <==>
            (es[0].Acquire? ==> Granted(l, b, es[0])) && AllGranted(l, Step(l, b, es[0]), es[1..])
  {
    var first := if es[0].Acquire? then [Granted(l, b, es[0])] else [];
    var rest := Decisions(l, Step(l, b, es[0]), es[1..]);
    var all := Decisions(l, b, es);
    assert all == first + rest;
    hide Decisions, Granted, Step;
    assert forall i :: 0 <= i < |rest| ==> rest[i] == all[|first| + i];
    assert forall i :: |first| <= i < |all| ==> all[i] == rest[i - |first|];
    assert es[0].Acquire? ==> all[0] == Granted(l, b, es[0]);
  }

  lemma FitsSplits(l: Limits, b: Bucket, es: seq<Event>)
    requires es != [] && l.rate >= 0.0 && Within(l, b) && Timely(b.last, es) && NonNegative(es)
    requires es[0].Acquire? ==> Granted(l, b, es[0])
    ensures Fits(l, b, es) <==> Fits(l, Step(l, b, es[0]), es[1..])
  {
    var rest, after := es[1..], Step(l, b, es[0]);
    forall j: nat | j < |es|
      ensures (j == 0 || PrefixFits(l, after, rest, j - 1)) <==> PrefixFits(l, b, es, j) && WindowFits(l, es, 0, j)
    {
      FitsFromHere(l, b, es, j);
    }
    forall i: nat, j: nat | 0 < i <= j < |es| ensures WindowFits(l, es, i, j) <==> WindowFits(l, rest, i - 1, j - 1) {
      LaterWindow(l, es, i, j);
    }
    hide PrefixFits, WindowFits, Step;
    if Fits(l, after, rest) {
      forall j: nat | j < |es| ensures PrefixFits(l, b, es, j) && WindowFits(l, es, 0, j) {
        assert j > 0 ==> PrefixFits(l, after, rest, j - 1);
      }
      forall i: nat, j: nat | i <= j < |es| ensures WindowFits(l, es, i, j) {
        assert i > 0 ==> WindowFits(l, rest, i - 1, j - 1);
      }
    }
    if Fits(l, b, es) {
      forall j: nat | j < |rest| ensures PrefixFits(l, after, rest, j) {
        assert PrefixFits(l, b, es, j + 1) && WindowFits(l, es, 0, j + 1);
      }
      forall i: nat, j: nat | i <= j < |rest| ensures WindowFits(l, rest, i, j) {
        assert WindowFits(l, es, i + 1, j + 1);
      }
    }
  }

  /**
   A schedule is granted as a whole if and only if what it asks for up to any event is there at the start or
   accrues in time, and what it asks for in any window is at most the burst and what accrues in the window.
   */
  lemma {:induction false} GrantedIffFits(l: Limits, b: Bucket, es: seq<Event>)
    requires l.rate >= 0.0 && Within(l, b) && Timely(b.last, es) && NonNegative(es)
    ensures AllGranted(l, b, es) <==> Fits(l, b, es)
    decreases es
  {
    if es == [] {
      assert Decisions(l, b, es) == [];
    } else {
      DecisionsSplit(l, b, es);
      FirstFits(l, b, es);
      if es[0].Acquire? ==> Granted(l, b, es[0]) {
        StepWithin(l, b, es[0]);
        FitsSplits(l, b, es);
        hide AllGranted, Fits, Step, Granted;
        GrantedIffFits(l, Step(l, b, es[0]), es[1..]);
      }
    }
  }

  lemma {:induction false} NeverBefore(t: real, es: seq<Event>, j: nat)
    requires Timely(t, es) && j < |es|
    ensures es[j].now >= es[0].now >= t
    decreases j
  {
    if j == 0 {
    } else {
      NeverBefore(es[0].now, es[1..], j - 1);
    }
  }

  /** From a full bucket only the windows matter: the bound on what a window is granted is tight. */
  lemma {:induction false} FullBucketGrantsIff(l: Limits, b: Bucket, es: seq<Event>)
    requires l.rate >= 0.0 && l.burst >= 0 && b.tokens == l.burst as real
    requires Timely(b.last, es) && NonNegative(es)
    ensures AllGranted(l, b, es) <==> forall i: nat, j: nat :: i <= j < |es| ==> WindowFits(l, es, i, j)
  {
    GrantedIffFits(l, b, es);
    if forall i: nat, j: nat :: i <= j < |es| ==> WindowFits(l, es, i, j) {
      forall j: nat | j < |es| ensures PrefixFits(l, b, es, j) {
        NeverBefore(b.last, es, j);
        assert WindowFits(l, es, 0, j) && es[0..j + 1] == es[..j + 1];
        GainsAdd(l, b.last, es[0].now, es[j].now);
        GainsAdd(l, b.last, b.last, es[0].now);
      }
    }
  }

  // ---------------------------------------------------------------- the object

  class RateLimiter {
    const rate: real
    const burst: int
    var tokens: real
    var lastRefill: real
    var totalAllowed: nat
    var totalRejected: nat

    constructor (rate: real, burst: int, now: real)
      ensures Settings() == Configured(rate, burst)
      ensures State() == Bucket(Settings().burst as real, now) && totalAllowed == totalRejected == 0
      ensures rate >= 0.0 ==> Within(Settings(), State())
      ensures burst > 0 ==> this.burst == burst
      ensures burst <= 0 && rate >= 0.0 ==> this.burst as real <= rate < this.burst as real + 1.0
      ensures burst <= 0 && rate < 0.0 ==> this.burst as real - 1.0 < rate <= this.burst as real
      ensures this.rate == rate && tokens == this.burst as real && lastRefill == now
    {
      this.rate := rate;
      this.burst := if burst > 0 then burst else Truncated(rate);
      tokens, lastRefill := (if burst > 0 then burst else Truncated(rate)) as real, now;
      totalAllowed, totalRejected := 0, 0;
    }

    function Settings(): Limits { Limits(rate, burst) }

    function State(): Bucket
      reads this
    {
      Bucket(tokens, lastRefill)
    }

    method RefillNow(now: real)
      modifies this`tokens, this`lastRefill
      ensures State() == Refill(Settings(), old(State()), now) && lastRefill == now
      ensures var filled := old(tokens) + (now - old(lastRefill)) * rate;
              tokens <= filled && tokens <= burst as real && (tokens == filled || tokens == burst as real)
    {
      var elapsed := now - lastRefill;
      var filled := tokens + elapsed * rate;
      tokens := if filled < burst as real then filled else burst as real;
      lastRefill := now;
    }

    method Acquire(n: int, now: real) returns (allowed: bool)
      modifies this
      ensures State() == Step(Settings(), old(State()), Event.Acquire(n, now))
      ensures allowed == Granted(Settings(), old(State()), Event.Acquire(n, now))
      ensures var filled := old(tokens) + (now - old(lastRefill)) * rate;
              && (allowed <==> filled >= n as real && burst >= n)
              && (allowed ==> tokens >= 0.0 && (tokens == filled - n as real || tokens == (burst - n) as real))
      ensures totalAllowed == old(totalAllowed) + (if allowed then 1 else 0)
      ensures totalRejected == old(totalRejected) + (if allowed then 0 else 1)
    {
      RefillNow(now);
      if tokens >= n as real {
        tokens := tokens - n as real;
        totalAllowed := totalAllowed + 1;
        return true;
      }
      totalRejected := totalRejected + 1;
      return false;
    }

    method AvailableTokens(now: real) returns (available: real)
      modifies this`tokens, this`lastRefill
      ensures State() == Step(Settings(), old(State()), Observe(now)) && available == tokens
    {
      RefillNow(now);
      available := tokens;
    }
  }
}

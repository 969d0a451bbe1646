/** How a consumer group shares a list of partitions among its members. */
module Assignment {
  import opened Prelude

  datatype Strategy = Range | RoundRobin | Sticky

  /** What a member is due: `per` partitions, and one more for each of the first `extra` members. */
  function Quota(per: nat, extra: nat, i: nat): nat {
    per + if i < extra then 1 else 0
  }

  /** The running index of the range loop when it reaches member `i`. */
  function RangeStart(per: nat, extra: nat, i: nat): nat {
    if i == 0 then 0 else RangeStart(per, extra, i - 1) + Quota(per, extra, i - 1)
  }

  lemma {:induction false} RangeStartClosedForm(per: nat, extra: nat, i: nat)
    ensures RangeStart(per, extra, i) == i * per + Min(i, extra)
  {
    if i == 0 {
    } else {
      RangeStartClosedForm(per, extra, i - 1);
      assert i * per == (i - 1) * per + per;
    }
  }

  lemma {:induction false} RangeStartMonotone(per: nat, extra: nat, i: nat, k: nat)
    requires i <= k
    ensures RangeStart(per, extra, i) <= RangeStart(per, extra, k)
  {
    if i < k {
      RangeStartMonotone(per, extra, i, k - 1);
    }
  }

  /** The ranges end exactly at the last of n partitions. */
  lemma RangeStartTotal(n: nat, m: nat)
    requires m > 0
    ensures RangeStart(n / m, n % m, m) == n
  {
    RangeStartClosedForm(n / m, n % m, m);
    assert m * (n / m) + n % m == n;
  }

  lemma RangeInBounds(n: nat, m: nat, i: nat)
    requires i < m
    ensures RangeStart(n / m, n % m, i) <= RangeStart(n / m, n % m, i + 1) <= n
  {
    RangeStartMonotone(n / m, n % m, i + 1, m);
    RangeStartTotal(n, m);
  }

  function Stretch<T>(ps: seq<T>, start: nat, count: nat): (run: seq<T>)
    requires start + count <= |ps|
    ensures |run| == count
  {
    ps[start..start + count]
  }

  /** The run of member `i` when the list is cut into runs of `per`, the first `extra` of them one longer. */
  ghost function RunOf<T>(ps: seq<T>, per: nat, extra: nat, m: nat, i: nat): (run: seq<T>)
    requires i < m && RangeStart(per, extra, m) <= |ps|
    ensures |run| == Quota(per, extra, i)
  {
    RangeStartMonotone(per, extra, i + 1, m);
    Stretch(ps, RangeStart(per, extra, i), Quota(per, extra, i))
  }

  ghost function RangeShare<T>(ps: seq<T>, m: nat, i: nat): seq<T>
    requires i < m
  {
    RangeStartTotal(|ps|, m);
    RunOf(ps, |ps| / m, |ps| % m, m, i)
  }

  function RoundRobinShare<T>(ps: seq<T>, m: nat, i: nat): seq<T>
    requires i < m
  {
    if ps == [] then []
    else
      var n := |ps| - 1;
      if n % m == i then RoundRobinShare(ps[..n], m, i) + [ps[n]] else RoundRobinShare(ps[..n], m, i)
  }

  ghost function Share<T>(strategy: Strategy, ps: seq<T>, m: nat, i: nat): seq<T>
    requires i < m
  {
    if strategy == RoundRobin then RoundRobinShare(ps, m, i) else RangeShare(ps, m, i)
  }

  lemma RoundRobinNext<T>(ps: seq<T>, m: nat, i: nat, k: nat)
    requires i < m && k < |ps|
    ensures RoundRobinShare(ps[..k + 1], m, i)
            == RoundRobinShare(ps[..k], m, i) + if k % m == i then [ps[k]] else []
  {
    assert ps[..k + 1][..k] == ps[..k];
  }

  /** The range shares of the first k members, one after the other. */
  ghost function RangesTogether<T>(ps: seq<T>, m: nat, k: nat): seq<T>
    requires k <= m
  {
    if k == 0 then [] else RangesTogether(ps, m, k - 1) + RangeShare(ps, m, k - 1)
  }

  /** Range shares, put side by side, are the partition list itself. */
  lemma RangeSharesConcatenate<T>(ps: seq<T>, m: nat)
    requires 0 < m
    ensures RangesTogether(ps, m, m) == ps
  {
    RangePrefix(ps, m, m);
    RangeStartTotal(|ps|, m);
  }

  lemma {:induction false} RangePrefix<T>(ps: seq<T>, m: nat, k: nat)
    requires 0 < m && k <= m
    ensures RangeStart(|ps| / m, |ps| % m, k) <= |ps|
    ensures RangesTogether(ps, m, k) == ps[..RangeStart(|ps| / m, |ps| % m, k)]
  {
    if k == 0 {
    } else {
      RangePrefix(ps, m, k - 1);
      RangeInBounds(|ps|, m, k - 1);
      PrefixExtends(ps, RangeStart(|ps| / m, |ps| % m, k - 1), RangeStart(|ps| / m, |ps| % m, k));
    }
  }

  lemma PrefixExtends<T>(ps: seq<T>, a: nat, b: nat)
    requires a <= b <= |ps|
    ensures ps[..a] + ps[a..b] == ps[..b]
  {
  }

  // ---------------------------------------------------------------- round robin

  lemma QuotaGrows(n: nat, m: nat, i: nat)
    requires i < m
    ensures Quota((n + 1) / m, (n + 1) % m, i) == Quota(n / m, n % m, i) + if n % m == i then 1 else 0
  {
    NextDivision(n, m, n / m, n % m);
  }

  /** Counting up by one goes to the next remainder, or starts over with the next quotient. */
  lemma NextDivision(n: nat, m: nat, q: nat, r: nat)
    requires m > 0 && q == n / m && r == n % m
    ensures if r == m - 1 then (n + 1) / m == q + 1 && (n + 1) % m == 0 else (n + 1) / m == q && (n + 1) % m == r + 1
  {
    assert n == m * q + r;
    if r == m - 1 {
      assert m * (q + 1) == m * q + m;
      DivisionIsUnique(n + 1, m, q + 1, 0);
    } else {
      DivisionIsUnique(n + 1, m, q, r + 1);
    }
  }

  /** Round-robin gives partition j to member j mod m. */
  lemma {:induction false} RoundRobinShareMembers<T>(ps: seq<T>, m: nat, i: nat, p: T)
    requires i < m
    ensures p in RoundRobinShare(ps, m, i) <==> exists j: nat :: j < |ps| && j % m == i && ps[j] == p
  {
    if ps == [] {
    } else {
      var n := |ps| - 1;
      RoundRobinShareMembers(ps[..n], m, i, p);
    }
  }

  lemma {:induction false} RoundRobinShareLength<T>(ps: seq<T>, m: nat, i: nat)
    requires i < m
    ensures |RoundRobinShare(ps, m, i)| == Quota(|ps| / m, |ps| % m, i)
  {
    if ps == [] {
      DivisionIsUnique(0, m, 0, 0);
    } else {
      RoundRobinShareLength(ps[..|ps| - 1], m, i);
      QuotaGrows(|ps| - 1, m, i);
    }
  }

  /** The t-th partition of member i is partition t*m + i of the list. */
  lemma {:induction false} RoundRobinShareAt<T>(ps: seq<T>, m: nat, i: nat, t: nat)
    requires i < m && t < |RoundRobinShare(ps, m, i)|
    ensures t * m + i < |ps| && RoundRobinShare(ps, m, i)[t] == ps[t * m + i]
  {
    var n := |ps| - 1;
    var before := RoundRobinShare(ps[..n], m, i);
    if t < |before| {
      RoundRobinShareAt(ps[..n], m, i, t);
    } else {
      RoundRobinShareLength(ps[..n], m, i);
      LastIndex(n, m, i, t);
    }
  }

  lemma LastIndex(n: nat, m: nat, i: nat, t: nat)
    requires i < m && n % m == i && t == Quota(n / m, n % m, i)
    ensures t * m + i == n
  {
    assert n == m * (n / m) + n % m;
  }

  // ---------------------------------------------------------------- ownership

  /** Both strategies are fair: n/m partitions each, one more for the first n mod m members. */
  lemma {:induction false} ShareIsFair<T>(strategy: Strategy, ps: seq<T>, m: nat, i: nat)
    requires i < m
    ensures |Share(strategy, ps, m, i)| == |ps| / m + if i < |ps| % m then 1 else 0
  {
    if strategy == RoundRobin {
      RoundRobinShareLength(ps, m, i);
    } else {
      RangeInBounds(|ps|, m, i);
    }
  }

  lemma {:induction false} RangeOwner<T>(ps: seq<T>, m: nat, j: nat, k: nat) returns (i: nat)
    requires k <= m && 0 < m && j < |ps| && j < RangeStart(|ps| / m, |ps| % m, k)
    ensures i < m && ps[j] in RangeShare(ps, m, i)
  {
    var start := RangeStart(|ps| / m, |ps| % m, k - 1);
    RangeInBounds(|ps|, m, k - 1);
    if j < start {
      i := RangeOwner(ps, m, j, k - 1);
    } else {
      i := k - 1;
      assert RangeShare(ps, m, i)[j - start] == ps[j];
    }
  }

  lemma RangeIndex<T>(ps: seq<T>, m: nat, i: nat, p: T) returns (j: nat)
    requires i < m && p in RangeShare(ps, m, i)
    ensures RangeStart(|ps| / m, |ps| % m, i) <= j < RangeStart(|ps| / m, |ps| % m, i + 1)
    ensures j < |ps| && ps[j] == p
  {
    RangeInBounds(|ps|, m, i);
    var share := RangeShare(ps, m, i);
    var t: nat :| t < |share| && share[t] == p;
    j := RangeStart(|ps| / m, |ps| % m, i) + t;
  }

  lemma RangesDisjoint<T>(ps: seq<T>, m: nat, p: T, i: nat, k: nat)
    requires Distinct(ps) && i < m && k < m
    requires p in RangeShare(ps, m, i) && p in RangeShare(ps, m, k)
    ensures i == k
  {
    var j := RangeIndex(ps, m, i, p);
    var l := RangeIndex(ps, m, k, p);
    assert j == l;
    if i < k {
      RangeStartMonotone(|ps| / m, |ps| % m, i + 1, k);
    } else if k < i {
      RangeStartMonotone(|ps| / m, |ps| % m, k + 1, i);
    }
  }

  lemma RoundRobinDisjoint<T>(ps: seq<T>, m: nat, p: T, i: nat, k: nat)
    requires Distinct(ps) && i < m && k < m
    requires p in RoundRobinShare(ps, m, i) && p in RoundRobinShare(ps, m, k)
    ensures i == k
  {
    RoundRobinShareMembers(ps, m, i, p);
    RoundRobinShareMembers(ps, m, k, p);
    var j: nat :| j < |ps| && j % m == i && ps[j] == p;
    var l: nat :| l < |ps| && l % m == k && ps[l] == p;
    assert j == l;
  }

  ghost predicate OwnedBy<T>(strategy: Strategy, ps: seq<T>, m: nat, p: T, i: nat) {
    i < m && p in Share(strategy, ps, m, i)
  }

  /** Exclusive ownership: every partition is in the share of exactly one member, under every strategy. */
  lemma ExactlyOneOwner<T>(strategy: Strategy, ps: seq<T>, m: nat, p: T) returns (owner: nat)
    requires Distinct(ps) && 0 < m && p in ps
    ensures forall i: nat :: OwnedBy(strategy, ps, m, p, i) <==> i == owner
  {
    var j: nat :| j < |ps| && ps[j] == p;
    if strategy == RoundRobin {
      owner := j % m;
      RoundRobinShareMembers(ps, m, owner, p);
    } else {
      RangeStartTotal(|ps|, m);
      owner := RangeOwner(ps, m, j, m);
    }
    assert OwnedBy(strategy, ps, m, p, owner);
    forall i: nat | OwnedBy(strategy, ps, m, p, i) ensures i == owner {
      if strategy == RoundRobin {
        RoundRobinDisjoint(ps, m, p, i, owner);
      } else {
        RangesDisjoint(ps, m, p, i, owner);
      }
    }
  }

  /** Nobody is given a partition that is not in the list. */
  lemma ShareWithin<T>(strategy: Strategy, ps: seq<T>, m: nat, i: nat, p: T)
    requires OwnedBy(strategy, ps, m, p, i)
    ensures p in ps
  {
    if strategy == RoundRobin {
      RoundRobinShareMembers(ps, m, i, p);
    } else {
      RangeInBounds(|ps|, m, i);
    }
  }

  // ---------------------------------------------------------------- lists that name a partition twice

  /** The member whose range contains index `j`, among the first `k` ranges. */
  ghost function RangeTurn(n: nat, m: nat, j: nat, k: nat): (i: nat)
    requires 0 < k <= m && j < RangeStart(n / m, n % m, k)
    ensures i < k && RangeStart(n / m, n % m, i) <= j < RangeStart(n / m, n % m, i + 1)
  {
    if RangeStart(n / m, n % m, k - 1) <= j then k - 1 else RangeTurn(n, m, j, k - 1)
  }

  /** The member who is given the partition at index `j` of a list of `n`. */
  ghost function Turn(strategy: Strategy, n: nat, m: nat, j: nat): (i: nat)
    requires 0 < m && j < n
    ensures i < m
  {
    RangeStartTotal(n, m);
    if strategy == RoundRobin then j % m else RangeTurn(n, m, j, m)
  }

  lemma RangeTurnIsUnique(n: nat, m: nat, i: nat, k: nat, j: nat)
    requires i < m && k < m
    requires RangeStart(n / m, n % m, i) <= j < RangeStart(n / m, n % m, i + 1)
    requires RangeStart(n / m, n % m, k) <= j < RangeStart(n / m, n % m, k + 1)
    ensures i == k
  {
    if i < k {
      RangeStartMonotone(n / m, n % m, i + 1, k);
    } else if k < i {
      RangeStartMonotone(n / m, n % m, k + 1, i);
    }
  }

  ghost predicate HasTurn<T>(strategy: Strategy, ps: seq<T>, m: nat, p: T, i: nat)
    requires 0 < m
  {
    exists j: nat :: j < |ps| && ps[j] == p && Turn(strategy, |ps|, m, j) == i
  }

  lemma RangeShareAt<T>(ps: seq<T>, m: nat, j: nat)
    requires 0 < m && j < |ps|
    ensures ps[j] in RangeShare(ps, m, Turn(Range, |ps|, m, j))
  {
    var i := Turn(Range, |ps|, m, j);
    RangeInBounds(|ps|, m, i);
    assert RangeShare(ps, m, i)[j - RangeStart(|ps| / m, |ps| % m, i)] == ps[j];
  }

  lemma RangeShareHasTurn<T>(ps: seq<T>, m: nat, p: T, i: nat)
    requires i < m && p in RangeShare(ps, m, i)
    ensures HasTurn(Range, ps, m, p, i)
  {
    var j := RangeIndex(ps, m, i, p);
    hide RangeShare;
    RangeTurnIsUnique(|ps|, m, i, Turn(Range, |ps|, m, j), j);
  }

  lemma RangeIsByTurn<T>(ps: seq<T>, m: nat, p: T, i: nat)
    requires i < m
    ensures p in RangeShare(ps, m, i) <==> HasTurn(Range, ps, m, p, i)
  {
    hide RangeShare, Turn;
    if p in RangeShare(ps, m, i) {
      RangeShareHasTurn(ps, m, p, i);
    }
    if HasTurn(Range, ps, m, p, i) {
      var j: nat :| j < |ps| && ps[j] == p && Turn(Range, |ps|, m, j) == i;
      RangeShareAt(ps, m, j);
    }
  }

  /** A share holds what stands at the indices whose turn it is, in a list with or without repetitions. */
  lemma ShareIsByTurn<T>(strategy: Strategy, ps: seq<T>, m: nat, p: T, i: nat)
    requires i < m
    ensures OwnedBy(strategy, ps, m, p, i) <==> HasTurn(strategy, ps, m, p, i)
  {
    if strategy == RoundRobin {
      RoundRobinShareMembers(ps, m, i, p);
    } else {
      RangeIsByTurn(ps, m, p, i);
      assert forall j: nat :: j < |ps| ==> Turn(strategy, |ps|, m, j) == Turn(Range, |ps|, m, j);
    }
  }

  /** All occurrences of a partition in the list fall to one member. */
  ghost predicate OneTurn<T>(strategy: Strategy, ps: seq<T>, m: nat, p: T)
    requires 0 < m
  {
    forall j: nat, k: nat :: j < |ps| && k < |ps| && ps[j] == p && ps[k] == p ==>
                               Turn(strategy, |ps|, m, j) == Turn(strategy, |ps|, m, k)
  }

  ghost predicate OnlyOwner<T>(strategy: Strategy, ps: seq<T>, m: nat, p: T, owner: nat) {
    forall i: nat :: OwnedBy(strategy, ps, m, p, i) <==> i == owner
  }

  /** A partition of the list has exactly one owner if and only if all its occurrences fall to one member. */
  lemma {:induction false} OneOwnerIff<T>(strategy: Strategy, ps: seq<T>, m: nat, p: T)
    requires 0 < m && p in ps
    ensures (exists owner :: OnlyOwner(strategy, ps, m, p, owner)) <==> OneTurn(strategy, ps, m, p)
  {
    hide Share, Turn;
    forall i: nat | i < m ensures OwnedBy(strategy, ps, m, p, i) <==> HasTurn(strategy, ps, m, p, i) {
      ShareIsByTurn(strategy, ps, m, p, i);
    }
    assert forall j: nat :: j < |ps| && ps[j] == p ==> HasTurn(strategy, ps, m, p, Turn(strategy, |ps|, m, j));
    var j: nat :| j < |ps| && ps[j] == p;
    if OneTurn(strategy, ps, m, p) {
      assert OnlyOwner(strategy, ps, m, p, Turn(strategy, |ps|, m, j));
    }
  }
}

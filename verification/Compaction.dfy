/**
 Key-based log compaction, shared by partitions and the write-ahead log: an entry survives when it
 has no key or when no later entry carries the same key.
 */
module Compaction {
  import opened Prelude

  ghost predicate HasKey<E, K>(s: seq<E>, key: E -> Option<K>, k: K) {
    exists i :: 0 <= i < |s| && key(s[i]) == Some(k)
  }

  /** Entry `i` of the log is superseded by a later entry with its key. */
  ghost predicate Superseded<E, K>(s: seq<E>, key: E -> Option<K>, i: nat)
    requires i < |s|
  {
    key(s[i]).Some? && HasKey(s[i + 1..], key, key(s[i]).value)
  }

  ghost function Compact<E, K>(s: seq<E>, key: E -> Option<K>): seq<E> {
    if s == [] then []
    else if Superseded(s, key, 0) then Compact(s[1..], key)
    else [s[0]] + Compact(s[1..], key)
  }

  /** The entry a reader of key `k` sees: the last one. */
  ghost function Latest<E, K>(s: seq<E>, key: E -> Option<K>, k: K): Option<E> {
    if s == [] then None
    else if key(s[|s| - 1]) == Some(k) then Some(s[|s| - 1])
    else Latest(s[..|s| - 1], key, k)
  }

  ghost function Keyless<E, K>(s: seq<E>, key: E -> Option<K>): seq<E> {
    if s == [] then []
    else if key(s[0]).None? then [s[0]] + Keyless(s[1..], key)
    else Keyless(s[1..], key)
  }

  ghost function SupersededIndices<E, K>(s: seq<E>, key: E -> Option<K>): set<nat> {
    set i: nat | i < |s| && Superseded(s, key, i)
  }

  lemma HasKeyTail<E, K>(s: seq<E>, key: E -> Option<K>, k: K)
    requires s != []
    ensures HasKey(s, key, k) <==> key(s[0]) == Some(k) || HasKey(s[1..], key, k)
  {
    assert forall i :: 0 < i < |s| ==> s[i] == s[1..][i - 1];
    if HasKey(s[1..], key, k) {
      var i :| 0 <= i < |s[1..]| && key(s[1..][i]) == Some(k);
      assert key(s[i + 1]) == Some(k);
    }
  }

  lemma HasKeyConcat<E, K>(a: seq<E>, b: seq<E>, key: E -> Option<K>, k: K)
    ensures HasKey(a + b, key, k) <==> HasKey(a, key, k) || HasKey(b, key, k)
  {
    if HasKey(a, key, k) {
      var i :| 0 <= i < |a| && key(a[i]) == Some(k);
      assert key((a + b)[i]) == Some(k);
    }
    if HasKey(b, key, k) {
      var i :| 0 <= i < |b| && key(b[i]) == Some(k);
      assert key((a + b)[|a| + i]) == Some(k);
    }
  }

  /** Compaction neither loses nor invents a key. */
  lemma {:induction false} CompactKeys<E, K>(s: seq<E>, key: E -> Option<K>, k: K)
    ensures HasKey(Compact(s, key), key, k) <==> HasKey(s, key, k)
  {
    if s == [] {
    } else {
      CompactKeys(s[1..], key, k);
      HasKeyTail(s, key, k);
      if !Superseded(s, key, 0) {
        HasKeyTail(Compact(s, key), key, k);
        assert Compact(s, key)[1..] == Compact(s[1..], key);
      }
    }
  }

  /**
   Compacting early and appending later is the same as appending first: compact(compact(L) ++ M) ==
   compact(L ++ M).
   */
  lemma {:induction false} CompactAbsorbs<E, K>(l: seq<E>, m: seq<E>, key: E -> Option<K>)
    ensures Compact(Compact(l, key) + m, key) == Compact(l + m, key)
  {
    if l == [] {
      assert Compact(l, key) + m == l + m;
    } else {
      var e, rest, c := l[0], l[1..], Compact(l[1..], key);
      hide Compact, HasKey;
      CompactAbsorbs(rest, m, key);
      assert l == [e] + rest && l + m == [e] + (rest + m) && [e] + c + m == [e] + (c + m);
      CompactHead(e, rest, key);
      CompactHead(e, rest + m, key);
      CompactHead(e, c + m, key);
      if key(e).Some? {
        HasKeyConcat(rest, m, key, key(e).value);
        HasKeyConcat(c, m, key, key(e).value);
        CompactKeys(rest, key, key(e).value);
      }
    }
  }

  lemma CompactHead<E, K>(e: E, s: seq<E>, key: E -> Option<K>)
    ensures Compact([e] + s, key) ==
            if key(e).Some? && HasKey(s, key, key(e).value) then Compact(s, key) else [e] + Compact(s, key)
  {
    assert ([e] + s)[1..] == s;
  }

  lemma CompactIdempotent<E, K>(s: seq<E>, key: E -> Option<K>)
    ensures Compact(Compact(s, key), key) == Compact(s, key)
  {
    CompactAbsorbs(s, [], key);
    assert Compact(s, key) + [] == Compact(s, key) && s + [] == s;
  }

  lemma {:induction false} LatestPrepend<E, K>(e: E, s: seq<E>, key: E -> Option<K>, k: K)
    ensures Latest([e] + s, key, k) ==
            if HasKey(s, key, k) then Latest(s, key, k) else if key(e) == Some(k) then Some(e) else None
  {
    var t := [e] + s;
    if s == [] {
      assert t[..|t| - 1] == [];
    } else {
      var p := s[..|s| - 1];
      assert t[..|t| - 1] == [e] + p;
      assert s == p + [s[|s| - 1]];
      HasKeyConcat(p, [s[|s| - 1]], key, k);
      if key(s[|s| - 1]) == Some(k) {
        assert HasKey([s[|s| - 1]], key, k) by { assert key([s[|s| - 1]][0]) == Some(k); }
      } else {
        LatestPrepend(e, p, key, k);
        LatestFound(p, key, k);
      }
    }
  }

  lemma {:induction false} LatestFound<E, K>(s: seq<E>, key: E -> Option<K>, k: K)
    ensures Latest(s, key, k).Some? <==> HasKey(s, key, k)
  {
    if s != [] && key(s[|s| - 1]) != Some(k) {
      LatestFound(s[..|s| - 1], key, k);
      assert s == s[..|s| - 1] + [s[|s| - 1]];
      HasKeyConcat(s[..|s| - 1], [s[|s| - 1]], key, k);
    }
  }

  /** Every reader of the compacted log sees what it saw before: the last entry of each key and every keyless entry. */
  lemma {:induction false} CompactPreservesReads<E, K>(s: seq<E>, key: E -> Option<K>, k: K)
    ensures Latest(Compact(s, key), key, k) == Latest(s, key, k)
    ensures Keyless(Compact(s, key), key) == Keyless(s, key)
  {
    if s == [] {
    } else {
      CompactPreservesReads(s[1..], key, k);
      assert s == [s[0]] + s[1..];
      LatestPrepend(s[0], s[1..], key, k);
      LatestFound(s[1..], key, k);
      LatestPrepend(s[0], Compact(s[1..], key), key, k);
      CompactKeys(s[1..], key, k);
      if !Superseded(s, key, 0) {
        assert Compact(s, key)[1..] == Compact(s[1..], key);
      }
    }
  }

  /** The survivors are the entries that are not superseded, in log order, and nothing in the result is superseded. */
  lemma {:induction false} CompactSurvivors<E, K>(s: seq<E>, key: E -> Option<K>, e: E)
    ensures e in Compact(s, key) <==> exists i: nat :: i < |s| && s[i] == e && !Superseded(s, key, i)
  {
    if s == [] {
    } else {
      CompactSurvivors(s[1..], key, e);
      forall i: nat | i < |s| - 1
        ensures Superseded(s[1..], key, i) == Superseded(s, key, i + 1) && s[1..][i] == s[i + 1]
      {
        assert s[1..][i + 1..] == s[i + 2..];
      }
      if i: nat :| i < |s| && s[i] == e && !Superseded(s, key, i) {
        if i > 0 {
          assert s[1..][i - 1] == e && !Superseded(s[1..], key, i - 1);
        }
      }
      if e in Compact(s[1..], key) {
        var i: nat :| i < |s[1..]| && s[1..][i] == e && !Superseded(s[1..], key, i);
        assert s[i + 1] == e && !Superseded(s, key, i + 1);
      }
    }
  }

  function Shifted(at: seq<nat>): (r: seq<nat>)
    ensures |r| == |at| && forall n :: 0 <= n < |at| ==> r[n] == at[n] + 1
  {
    if at == [] then [] else [at[0] + 1] + Shifted(at[1..])
  }

  /** Keyless, or the last entry with its key. */
  ghost predicate Survives<E, K>(s: seq<E>, key: E -> Option<K>, i: nat)
    requires i < |s|
  {
    key(s[i]).None? || forall j :: i < j < |s| ==> key(s[j]) != key(s[i])
  }

  lemma SurvivesInTail<E, K>(s: seq<E>, key: E -> Option<K>, i: nat)
    requires 0 < i < |s|
    ensures Survives(s, key, i) <==> Survives(s[1..], key, i - 1)
  {
    var t := s[1..];
    assert forall j :: 0 < j < |s| ==> s[j] == t[j - 1];
    if Survives(t, key, i - 1) && key(s[i]).Some? {
      forall j | i < j < |s| ensures key(s[j]) != key(s[i]) {
        assert key(t[j - 1]) != key(t[i - 1]);
      }
    }
    if Survives(s, key, i) && key(s[i]).Some? {
      forall j | i - 1 < j < |t| ensures key(t[j]) != key(t[i - 1]) {
        assert key(s[j + 1]) != key(s[i]);
      }
    }
  }

  lemma FirstSurvives<E, K>(s: seq<E>, key: E -> Option<K>)
    requires s != []
    ensures Survives(s, key, 0) <==> !Superseded(s, key, 0)
  {
    assert forall j :: 0 < j < |s| ==> s[j] == s[1..][j - 1];
    if Superseded(s, key, 0) {
      var j :| 0 <= j < |s[1..]| && key(s[1..][j]) == key(s[0]);
      assert key(s[j + 1]) == key(s[0]);
    }
  }

  /** The positions of the survivors: increasing, in range, and exactly those that are keyless or last of their key. */
  ghost predicate AreSurvivors<E, K>(s: seq<E>, key: E -> Option<K>, at: seq<nat>) {
    && (forall n :: 0 <= n < |at| ==> at[n] < |s|)
    && (forall n, m :: 0 <= n < m < |at| ==> at[n] < at[m])
    && forall i: nat :: i < |s| ==> (i in at <==> Survives(s, key, i))
  }

  lemma ShiftedMembers(at: seq<nat>, i: nat)
    ensures i in Shifted(at) <==> i > 0 && i - 1 in at
  {
    var r := Shifted(at);
    if i in r {
      var n :| 0 <= n < |r| && r[n] == i;
      assert at[n] == i - 1;
    }
    if i > 0 && i - 1 in at {
      var n :| 0 <= n < |at| && at[n] == i - 1;
      assert r[n] == i;
    }
  }

  lemma SurvivorsPrepend<E, K>(s: seq<E>, key: E -> Option<K>, at: seq<nat>)
    requires s != [] && AreSurvivors(s[1..], key, at)
    ensures AreSurvivors(s, key, (if Survives(s, key, 0) then [0] else []) + Shifted(at))
  {
    var first: seq<nat> := if Survives(s, key, 0) then [0] else [];
    var all := first + Shifted(at);
    forall i: nat | i < |s| ensures i in all <==> Survives(s, key, i) {
      ShiftedMembers(at, i);
      if i > 0 {
        SurvivesInTail(s, key, i);
      }
    }
    hide Survives;
  }

  /** Compaction keeps, in order, exactly the entries that are keyless or the last with their key. */
  lemma {:induction false} CompactKeepsLast<E, K>(s: seq<E>, key: E -> Option<K>) returns (at: seq<nat>)
    ensures AreSurvivors(s, key, at)
    ensures |Compact(s, key)| == |at| && forall n :: 0 <= n < |at| ==> Compact(s, key)[n] == s[at[n]]
  {
    if s == [] {
      at := [];
    } else {
      var rest := CompactKeepsLast(s[1..], key);
      at := (if Survives(s, key, 0) then [0] else []) + Shifted(rest);
      SurvivorsPrepend(s, key, rest);
      FirstSurvives(s, key);
      hide Survives, Superseded;
    }
  }

  lemma SupersededInTail<E, K>(s: seq<E>, key: E -> Option<K>, i: nat)
    requires i + 1 < |s|
    ensures Superseded(s[1..], key, i) == Superseded(s, key, i + 1)
  {
    assert s[1..][i + 1..] == s[i + 2..];
  }

  lemma SupersededIndicesTail<E, K>(s: seq<E>, key: E -> Option<K>) returns (shifted: set<nat>)
    requires s != []
    ensures shifted == set i: nat | i in SupersededIndices(s[1..], key) :: i + 1
    ensures SupersededIndices(s, key) == shifted + if Superseded(s, key, 0) then {0} else {}
  {
    var rest := SupersededIndices(s[1..], key);
    shifted := set i: nat | i in rest :: i + 1;
    forall j: nat ensures j in SupersededIndices(s, key) <==> j in shifted || (j == 0 && Superseded(s, key, 0)) {
      if 0 < j < |s| {
        SupersededInTail(s, key, j - 1);
        assert j in shifted <==> j - 1 in rest;
      }
    }
  }

  /** The returned count is exactly the number of superseded entries. */
  lemma {:induction false} CompactCount<E, K>(s: seq<E>, key: E -> Option<K>)
    ensures |s| - |Compact(s, key)| == |SupersededIndices(s, key)|
  {
    if s == [] {
    } else {
      CompactCount(s[1..], key);
      var shifted := SupersededIndicesTail(s, key);
      ShiftCardinality(SupersededIndices(s[1..], key), shifted);
      assert 0 !in shifted;
    }
  }

  lemma {:induction false} ShiftCardinality(a: set<nat>, b: set<nat>)
    requires b == set i: nat | i in a :: i + 1
    ensures |a| == |b|
  {
    if a != {} {
      var x :| x in a;
      var b' := set i: nat | i in a - {x} :: i + 1;
      ShiftCardinality(a - {x}, b');
      forall j: nat ensures j in b <==> j in b' || j == x + 1 {
        if j in b && j != x + 1 {
          var i: nat :| i in a && j == i + 1;
          assert i in a - {x};
        }
      }
      assert b == b' + {x + 1};
    }
  }

  /** The first loop: the index of the last entry of each key. */
  method LastIndices<E, K(==)>(s: seq<E>, key: E -> Option<K>) returns (latest: map<K, nat>)
    ensures IsLastIndex(s, key, latest)
  {
    latest := map[];
    for i := 0 to |s|
      invariant forall k :: k in latest ==> latest[k] < i && key(s[latest[k]]) == Some(k)
      invariant forall j :: 0 <= j < i && key(s[j]).Some? ==> key(s[j]).value in latest && j <= latest[key(s[j]).value]
    {
      if key(s[i]).Some? {
        latest := latest[key(s[i]).value := i];
      }
    }
  }

  lemma SupersededIffNotLast<E, K>(s: seq<E>, key: E -> Option<K>, latest: map<K, nat>, i: nat)
    requires i < |s| && IsLastIndex(s, key, latest)
    ensures Superseded(s[i..], key, 0) <==> key(s[i]).Some? && latest[key(s[i]).value] != i
  {
    var k := key(s[i]);
    assert s[i..][1..] == s[i + 1..];
    if k.Some? && latest[k.value] != i {
      assert key(s[i + 1..][latest[k.value] - i - 1]) == k;
    }
    if Superseded(s[i..], key, 0) {
      var j :| 0 <= j < |s[i + 1..]| && key(s[i + 1..][j]) == k;
      assert key(s[i + 1 + j]) == k;
    }
  }

  ghost predicate IsLastIndex<E, K>(s: seq<E>, key: E -> Option<K>, latest: map<K, nat>) {
    && (forall k :: k in latest ==> latest[k] < |s| && key(s[latest[k]]) == Some(k))
    && forall j :: 0 <= j < |s| && key(s[j]).Some? ==> key(s[j]).value in latest && j <= latest[key(s[j]).value]
  }

  lemma CompactFrom<E, K>(s: seq<E>, key: E -> Option<K>, latest: map<K, nat>, i: nat)
    requires i < |s| && IsLastIndex(s, key, latest)
    ensures Compact(s[i..], key) ==
            (if key(s[i]).None? || latest[key(s[i]).value] == i then [s[i]] else []) + Compact(s[i + 1..], key)
  {
    SupersededIffNotLast(s, key, latest, i);
    assert s[i..][1..] == s[i + 1..];
  }

  /** The two loops of the source: note the last index of each key, then keep what is keyless or last. */
  method CompactLog<E, K(==)>(s: seq<E>, key: E -> Option<K>) returns (compacted: seq<E>)
    ensures compacted == Compact(s, key)
  {
    var latest := LastIndices(s, key);
    compacted := [];
    for i := 0 to |s|
      invariant compacted + Compact(s[i..], key) == Compact(s, key)
    {
      var k := key(s[i]);
      ghost var was := compacted;
      if k.None? {
        compacted := compacted + [s[i]];
      } else if latest[k.value] == i {
        compacted := compacted + [s[i]];
      }
      CompactFrom(s, key, latest, i);
      ConcatIsAssociative(was, if k.None? || latest[k.value] == i then [s[i]] else [], Compact(s[i + 1..], key));
    }
  }
}

/**
 A Python dictionary: distinct keys, iterated in insertion order. Overwriting a key keeps its
 position; a key that was deleted and inserted again goes to the end.
 */
module OrderedDict {
  import opened Prelude

  type Dict<K, V> = seq<(K, V)>

  predicate Has<K(==), V>(d: Dict<K, V>, k: K) {
    Get(d, k).Some?
  }

  function Get<K(==), V>(d: Dict<K, V>, k: K): Option<V> {
    if d == [] then None else if d[0].0 == k then Some(d[0].1) else Get(d[1..], k)
  }

  function Put<K(==), V>(d: Dict<K, V>, k: K, v: V): Dict<K, V> {
    if d == [] then [(k, v)] else if d[0].0 == k then [(k, v)] + d[1..] else [d[0]] + Put(d[1..], k, v)
  }

  function Remove<K(==), V>(d: Dict<K, V>, k: K): Dict<K, V> {
    if d == [] then [] else if d[0].0 == k then d[1..] else [d[0]] + Remove(d[1..], k)
  }

  /** `for k in ks: del d[k]` */
  function RemoveAll<K(==), V>(d: Dict<K, V>, ks: seq<K>): Dict<K, V>
    decreases ks
  {
    if ks == [] then d else RemoveAll(Remove(d, ks[0]), ks[1..])
  }

  function Keys<K, V>(d: Dict<K, V>): (ks: seq<K>)
    ensures |ks| == |d| && forall i :: 0 <= i < |d| ==> ks[i] == d[i].0
  {
    if d == [] then [] else [d[0].0] + Keys(d[1..])
  }

  /** The entries that satisfy `p`, in dictionary order. */
  function Where<K, V>(d: Dict<K, V>, p: V -> bool): Dict<K, V> {
    if d == [] then [] else if p(d[0].1) then [d[0]] + Where(d[1..], p) else Where(d[1..], p)
  }

  /** The lists held by a dictionary of lists, one after the other. */
  function Concatenated<K, T>(d: Dict<K, seq<T>>): seq<T> {
    if d == [] then [] else d[0].1 + Concatenated(d[1..])
  }

  ghost predicate WellFormed<K, V>(d: Dict<K, V>) {
    forall i, j :: 0 <= i < j < |d| ==> d[i].0 != d[j].0
  }

  /** Every value is filed under the identifier it carries. */
  ghost predicate Filed<V>(d: Dict<string, V>, idOf: V -> string) {
    WellFormed(d) && forall e :: e in d ==> idOf(e.1) == e.0
  }

  lemma {:induction false} HasIsMembership<K, V>(d: Dict<K, V>, k: K)
    ensures Has(d, k) <==> exists i :: 0 <= i < |d| && d[i].0 == k
    ensures Has(d, k) ==> (k, Get(d, k).value) in d
  {
    if d != [] && d[0].0 != k {
      HasIsMembership(d[1..], k);
      assert forall i :: 0 < i < |d| ==> d[i] == d[1..][i - 1];
    }
  }

  lemma {:induction false} GetEntry<K, V>(d: Dict<K, V>, i: nat)
    requires WellFormed(d) && i < |d|
    ensures Get(d, d[i].0) == Some(d[i].1)
  {
    if i == 0 {
    } else {
      GetEntry(d[1..], i - 1);
    }
  }

  lemma {:induction false} GetPut<K, V>(d: Dict<K, V>, k: K, v: V, q: K)
    ensures Get(Put(d, k, v), q) == if q == k then Some(v) else Get(d, q)
  {
    if d == [] {
    } else {
      if d[0].0 != k {
        GetPut(d[1..], k, v, q);
      }
      assert Put(d, k, v)[1..] == if d[0].0 == k then d[1..] else Put(d[1..], k, v);
    }
  }

  lemma {:induction false} GetRemove<K, V>(d: Dict<K, V>, k: K, q: K)
    requires WellFormed(d)
    ensures Get(Remove(d, k), q) == if q == k then None else Get(d, q)
  {
    if d == [] {
    } else {
      if d[0].0 == k {
        HasIsMembership(d[1..], k);
      } else {
        GetRemove(d[1..], k, q);
        assert Remove(d, k)[1..] == Remove(d[1..], k);
      }
    }
  }

  lemma {:induction false} PutAbsent<K, V>(d: Dict<K, V>, k: K, v: V)
    requires !Has(d, k)
    ensures Put(d, k, v) == d + [(k, v)]
  {
    if d == [] {
    } else {
      PutAbsent(d[1..], k, v);
      assert d == [d[0]] + d[1..];
    }
  }

  lemma {:induction false} PutPresent<K, V>(d: Dict<K, V>, k: K, v: V)
    requires Has(d, k)
    ensures Keys(Put(d, k, v)) == Keys(d)
  {
    if d[0].0 != k {
      PutPresent(d[1..], k, v);
      assert Put(d, k, v)[1..] == Put(d[1..], k, v);
    }
  }

  lemma PutWellFormed<K, V>(d: Dict<K, V>, k: K, v: V)
    requires WellFormed(d)
    ensures WellFormed(Put(d, k, v))
  {
    var r := Put(d, k, v);
    if Has(d, k) {
      PutPresent(d, k, v);
      forall i, j | 0 <= i < j < |r| ensures r[i].0 != r[j].0 {
        assert Keys(r)[i] == Keys(d)[i] && Keys(r)[j] == Keys(d)[j];
      }
    } else {
      PutAbsent(d, k, v);
      HasIsMembership(d, k);
    }
  }

  lemma {:induction false} PutEntries<K, V>(d: Dict<K, V>, k: K, v: V)
    ensures Put(d, k, v) != [] && forall e :: e in Put(d, k, v) ==> e in d || e == (k, v)
  {
    if d != [] && d[0].0 != k {
      PutEntries(d[1..], k, v);
    }
  }

  lemma {:induction false} RemoveAbsent<K, V>(d: Dict<K, V>, k: K)
    requires !Has(d, k)
    ensures Remove(d, k) == d
  {
    if d == [] {
    } else {
      RemoveAbsent(d[1..], k);
      assert d == [d[0]] + d[1..];
    }
  }

  lemma {:induction false} RemoveWellFormed<K, V>(d: Dict<K, V>, k: K)
    requires WellFormed(d)
    ensures WellFormed(Remove(d, k))
    ensures forall e :: e in Remove(d, k) ==> e in d
  {
    if d != [] && d[0].0 != k {
      RemoveWellFormed(d[1..], k);
      var r := Remove(d[1..], k);
      assert forall e :: e in r ==> e in d[1..];
      forall j | 0 <= j < |r| ensures d[0].0 != r[j].0 {
        assert r[j] in d[1..];
      }
    }
  }

  lemma {:induction false} WhereEntries<K, V>(d: Dict<K, V>, p: V -> bool)
    ensures forall e :: e in Where(d, p) ==> e in d && p(e.1)
    ensures forall e :: e in d && p(e.1) ==> e in Where(d, p)
  {
    if d == [] {
    } else {
      WhereEntries(d[1..], p);
      assert d == [d[0]] + d[1..];
    }
  }

  lemma {:induction false} WhereNone<K, V>(d: Dict<K, V>, p: V -> bool)
    requires forall e :: e in d ==> !p(e.1)
    ensures Where(d, p) == []
  {
    if d == [] {
    } else {
      WhereNone(d[1..], p);
    }
  }

  lemma {:induction false} WhereEverything<K, V>(d: Dict<K, V>, p: V -> bool)
    requires forall i :: 0 <= i < |d| ==> p(d[i].1)
    ensures Where(d, p) == d
  {
    if d == [] {
    } else {
      WhereEverything(d[1..], p);
      assert d == [d[0]] + d[1..];
    }
  }

  lemma {:induction false} WhereWellFormed<K, V>(d: Dict<K, V>, p: V -> bool)
    requires WellFormed(d)
    ensures WellFormed(Where(d, p))
  {
    if d == [] {
    } else {
      WhereWellFormed(d[1..], p);
      WhereEntries(d[1..], p);
      var r := Where(d[1..], p);
      forall j | 0 <= j < |r| ensures d[0].0 != r[j].0 {
        assert r[j] in Where(d[1..], p);
      }
    }
  }

  /** Selecting by a test and by its negation splits the dictionary. */
  lemma {:induction false} WhereSplits<K, V>(d: Dict<K, V>, p: V -> bool, q: V -> bool)
    requires forall v :: q(v) <==> !p(v)
    ensures multiset(d) == multiset(Where(d, p)) + multiset(Where(d, q))
    ensures |d| == |Where(d, p)| + |Where(d, q)|
  {
    if d == [] {
    } else {
      assert d == [d[0]] + d[1..];
      WhereSplits(d[1..], p, q);
    }
  }

  lemma {:induction false} RemoveAllSkipsHead<K, V>(e: (K, V), d: Dict<K, V>, ks: seq<K>)
    requires e.0 !in ks
    ensures RemoveAll([e] + d, ks) == [e] + RemoveAll(d, ks)
    decreases ks
  {
    if ks == [] {
    } else {
      assert ([e] + d)[1..] == d;
      RemoveAllSkipsHead(e, Remove(d, ks[0]), ks[1..]);
    }
  }

  /** Deleting the keys selected by `p`, one at a time, leaves the entries selected by its negation. */
  lemma {:induction false} RemoveAllWhere<K, V>(d: Dict<K, V>, p: V -> bool, q: V -> bool)
    requires WellFormed(d)
    requires forall v :: q(v) <==> !p(v)
    ensures RemoveAll(d, Keys(Where(d, p))) == Where(d, q)
  {
    if d == [] {
    } else {
      RemoveAllWhere(d[1..], p, q);
      var ks := Keys(Where(d[1..], p));
      assert d == [d[0]] + d[1..];
      if p(d[0].1) {
        assert Keys(Where(d, p)) == [d[0].0] + ks;
        assert Keys(Where(d, p))[1..] == ks;
      } else {
        WhereEntries(d[1..], p);
        forall i | 0 <= i < |ks| ensures ks[i] != d[0].0 {
          assert Where(d[1..], p)[i] in Where(d[1..], p);
        }
        RemoveAllSkipsHead(d[0], d[1..], ks);
      }
    }
  }

  lemma {:induction false} RemoveAllAppend<K, V>(d: Dict<K, V>, ks: seq<K>, k: K)
    ensures RemoveAll(d, ks + [k]) == Remove(RemoveAll(d, ks), k)
    decreases ks
  {
    if ks == [] {
      assert ks + [k] == [k] && [k][1..] == [];
    } else {
      RemoveAllAppend(Remove(d, ks[0]), ks[1..], k);
      assert (ks + [k])[1..] == ks[1..] + [k];
    }
  }

  /** Deleting other keys does not touch an entry. */
  lemma {:induction false} RemoveAllKeeps<K, V>(d: Dict<K, V>, ks: seq<K>, q: K)
    requires WellFormed(d) && q !in ks
    ensures WellFormed(RemoveAll(d, ks)) && Get(RemoveAll(d, ks), q) == Get(d, q)
    ensures forall e :: e in RemoveAll(d, ks) ==> e in d
    decreases ks
  {
    if ks == [] {
    } else {
      GetRemove(d, ks[0], q);
      RemoveWellFormed(d, ks[0]);
      RemoveAllKeeps(Remove(d, ks[0]), ks[1..], q);
    }
  }

  /** Deleting the selected keys in turn: each is still there, with its own value, when its turn comes. */
  lemma SelectedNext<K, V>(d: Dict<K, V>, p: V -> bool, i: nat)
    requires WellFormed(d) && i < |Where(d, p)|
    ensures var ks := Keys(Where(d, p));
            && Get(RemoveAll(d, ks[..i]), ks[i]) == Some(Where(d, p)[i].1)
            && RemoveAll(d, ks[..i + 1]) == Remove(RemoveAll(d, ks[..i]), ks[i])
  {
    var selected := Where(d, p);
    var ks := Keys(selected);
    SelectedEntry(d, p, i);
    assert ks[i] !in ks[..i] by { WhereWellFormed(d, p); }
    hide Get, Where, Keys, Remove, WellFormed;
    RemoveAllKeeps(d, ks[..i], ks[i]);
    assert ks[..i + 1] == ks[..i] + [ks[i]];
    RemoveAllAppend(d, ks[..i], ks[i]);
  }

  lemma SelectedEntry<K, V>(d: Dict<K, V>, p: V -> bool, i: nat)
    requires WellFormed(d) && i < |Where(d, p)|
    ensures Get(d, Where(d, p)[i].0) == Some(Where(d, p)[i].1)
  {
    WhereEntries(d, p);
    assert Where(d, p)[i] in Where(d, p);
    var j :| 0 <= j < |d| && d[j] == Where(d, p)[i];
    GetEntry(d, j);
  }

  lemma {:induction false} WhereAppend<K, V>(d: Dict<K, V>, e: (K, V), p: V -> bool)
    ensures Where(d + [e], p) == Where(d, p) + if p(e.1) then [e] else []
  {
    if d == [] {
      assert d + [e] == [e] && [e][1..] == [];
    } else {
      assert (d + [e])[1..] == d[1..] + [e];
      WhereAppend(d[1..], e, p);
    }
  }
}

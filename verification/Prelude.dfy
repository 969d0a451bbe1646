/** Shared vocabulary: optional values and Python's list slicing. */
module Prelude {

  type byte = x: int | 0 <= x < 256

  datatype Option<+T> = None | Some(value: T)

  datatype Result<+T, +E> = Ok(value: T) | Err(error: E)

  function Max(a: int, b: int): int { if a < b then b else a }

  function Min(a: int, b: int): int { if a < b then a else b }

  /** A slice bound as Python normalises it: negative bounds count from the end, then the bound is clamped. */
  function SliceBound(i: int, length: nat): (r: nat)
    ensures r <= length
    ensures 0 <= i <= length ==> r == i
  {
    if i < 0 then Max(i + length, 0) else Min(i, length)
  }

  /** Python's `s[lo:hi]`, for any two integers. */
  function Slice<T>(s: seq<T>, lo: int, hi: int): (r: seq<T>)
    ensures 0 <= lo <= hi <= |s| ==> r == s[lo..hi]
  {
    var a, b := SliceBound(lo, |s|), SliceBound(hi, |s|);
    if a <= b then s[a..b] else []
  }

  ghost predicate Distinct<T>(s: seq<T>) {
    forall i, j :: 0 <= i < j < |s| ==> s[i] != s[j]
  }

  /** The first `n` entries whose offset is at least `offset`. */
  ghost function FirstFrom<T>(entries: seq<T>, offsetOf: T -> int, offset: int, n: int): seq<T> {
    if entries == [] || n <= 0 then []
    else if offsetOf(entries[0]) >= offset then [entries[0]] + FirstFrom(entries[1..], offsetOf, offset, n - 1)
    else FirstFrom(entries[1..], offsetOf, offset, n)
  }

  lemma {:induction false} OffsetsGrow<T>(entries: seq<T>, offsetOf: T -> int, i: nat, j: nat)
    requires forall k, l :: 0 <= k < l < |entries| ==> offsetOf(entries[k]) < offsetOf(entries[l])
    requires i <= j < |entries|
    ensures offsetOf(entries[j]) - offsetOf(entries[i]) >= j - i
  {
    if i < j {
      OffsetsGrow(entries, offsetOf, i, j - 1);
    }
  }

  lemma ConcatIsAssociative<T>(a: seq<T>, b: seq<T>, c: seq<T>)
    ensures a + b + c == a + (b + c)
  {
  }

  lemma ScaledBound(m: nat, d: int)
    ensures d >= 1 ==> m * d >= m
    ensures d <= -1 ==> m * d <= -(m as int)
  {
  }

  lemma DivisionIsUnique(n: nat, m: nat, q: nat, r: nat)
    requires r < m && n == m * q + r
    ensures n / m == q && n % m == r
  {
    var d: int := n / m - q;
    assert m * d == r - n % m by {
      assert n == m * (n / m) + n % m;
      assert m * d == m * (n / m) - m * q;
    }
    ScaledBound(m, d);
  }
}

/**
 The segmented write-ahead log: rotating segments that together behave as one flat, gap-free log under
 append, reads across segments, retention and compaction.
 */
module WriteAheadLogs {
  import opened Prelude
  import Compaction

  datatype LogEntry = LogEntry(offset: int, timestamp: real, key: Option<string>, value: seq<byte>)

  datatype Segment = Segment(base: int, entries: seq<LogEntry>, size: int)

  /** What compaction works on: keys and values, whatever offset they sit at. */
  type Pair = (Option<string>, seq<byte>)

  const OVERHEAD := 64

  function EntryKey(e: LogEntry): Option<string> { e.key }

  function EntryOffset(e: LogEntry): int { e.offset }

  function PairKey(p: Pair): Option<string> { p.0 }

  // ---------------------------------------------------------------- one segment

  function NextOf(s: Segment): int {
    if s.entries == [] then s.base else s.entries[|s.entries| - 1].offset + 1
  }

  function AppendTo(s: Segment, key: Option<string>, value: seq<byte>, now: real): Segment {
    Segment(s.base, s.entries + [LogEntry(NextOf(s), now, key, value)], s.size + |value| + OVERHEAD)
  }

  function ReadSegment(s: Segment, offset: int, maxEntries: int): seq<LogEntry> {
    if s.entries == [] then []
    else
      var start := Max(offset - s.base, 0);
      if start >= |s.entries| then [] else Slice(s.entries, start, Min(start + maxEntries, |s.entries|))
  }

  function Bytes(entries: seq<LogEntry>): int {
    if entries == [] then 0 else Bytes(entries[..|entries| - 1]) + |entries[|entries| - 1].value| + OVERHEAD
  }

  ghost predicate SegmentOk(s: Segment) {
    && (forall i :: 0 <= i < |s.entries| ==> s.entries[i].offset == s.base + i)
    && s.size == Bytes(s.entries)
  }

  // ---------------------------------------------------------------- the list of segments

  /** Every segment starts where the one before it ends. */
  ghost predicate Chained(ss: seq<Segment>) {
    && (forall i :: 0 <= i < |ss| ==> SegmentOk(ss[i]))
    && forall i :: 0 <= i < |ss| - 1 ==> ss[i + 1].base == NextOf(ss[i])
  }

  ghost predicate Sound(ss: seq<Segment>) {
    ss != [] && Chained(ss)
  }

  function Flat(ss: seq<Segment>): seq<LogEntry> {
    if ss == [] then [] else ss[0].entries + Flat(ss[1..])
  }

  function Latest(ss: seq<Segment>): int
    requires ss != []
  {
    NextOf(ss[|ss| - 1])
  }

  function AppendChain(ss: seq<Segment>, maxBytes: int, key: Option<string>, value: seq<byte>, now: real): seq<Segment>
    requires ss != []
  {
    var n := |ss| - 1;
    if ss[n].size >= maxBytes then ss + [AppendTo(Segment(NextOf(ss[n]), [], 0), key, value, now)]
    else ss[..n] + [AppendTo(ss[n], key, value, now)]
  }

  /** The reading loop: skip segments that end at or before the offset, then read on from segment to segment. */
  function ReadChain(ss: seq<Segment>, offset: int, remaining: int): seq<LogEntry> {
    if ss == [] || remaining <= 0 then []
    else if NextOf(ss[0]) <= offset then ReadChain(ss[1..], offset, remaining)
    else
      var entries := ReadSegment(ss[0], offset, remaining);
      var onward := if entries == [] then offset else entries[|entries| - 1].offset + 1;
      entries + ReadChain(ss[1..], onward, remaining - |entries|)
  }

  /**
   Whole segments go, judged by their first entry; the last segment always stays, and an empty one stops
   the sweep.
   */
  function RetainChain(ss: seq<Segment>, cutoff: real): seq<Segment> {
    if |ss| > 1 && ss[0].entries != [] && ss[0].entries[0].timestamp < cutoff then RetainChain(ss[1..], cutoff) else ss
  }

  function Renumbered(base: int, entries: seq<LogEntry>, now: real): seq<LogEntry> {
    if entries == [] then []
    else
      var n := |entries| - 1;
      Renumbered(base, entries[..n], now) + [LogEntry(base + n, now, entries[n].key, entries[n].value)]
  }

  function CompactedBase(survivors: seq<LogEntry>): int {
    if survivors == [] then 0 else survivors[0].offset
  }

  ghost function CompactChain(ss: seq<Segment>, now: real): seq<Segment> {
    var survivors := Compaction.Compact(Flat(ss), EntryKey);
    var entries := Renumbered(CompactedBase(survivors), survivors, now);
    [Segment(CompactedBase(survivors), entries, Bytes(entries))]
  }

  datatype Op =
    | AppendOp(key: Option<string>, value: seq<byte>, now: real)
    | RetainOp(cutoff: real)
    | CompactOp(now: real)

  ghost function Step(ss: seq<Segment>, maxBytes: int, op: Op): seq<Segment>
    requires ss != []
    ensures Step(ss, maxBytes, op) != []
  {
    match op
    case AppendOp(key, value, now) => AppendChain(ss, maxBytes, key, value, now)
    case RetainOp(cutoff) => RetainKeepsLast(ss, cutoff); RetainChain(ss, cutoff)
    case CompactOp(now) => CompactChain(ss, now)
  }

  const FRESH := [Segment(0, [], 0)]

  ghost function Run(maxBytes: int, ops: seq<Op>): (ss: seq<Segment>)
    ensures ss != []
  {
    if ops == [] then FRESH else Step(Run(maxBytes, ops[..|ops| - 1]), maxBytes, ops[|ops| - 1])
  }

  lemma {:induction false} RetainKeepsLast(ss: seq<Segment>, cutoff: real)
    requires ss != []
    ensures RetainChain(ss, cutoff) != []
    ensures RetainChain(ss, cutoff)[|RetainChain(ss, cutoff)| - 1] == ss[|ss| - 1]
  {
    if |ss| > 1 && ss[0].entries != [] && ss[0].entries[0].timestamp < cutoff {
      RetainKeepsLast(ss[1..], cutoff);
    }
  }

  // ---------------------------------------------------------------- the segments are one flat log

  ghost predicate Numbered(entries: seq<LogEntry>, base: int) {
    forall i :: 0 <= i < |entries| ==> entries[i].offset == base + i
  }

  lemma {:induction false} FlatIsNumbered(ss: seq<Segment>)
    requires Sound(ss)
    ensures Numbered(Flat(ss), ss[0].base)
    ensures Latest(ss) == ss[0].base + |Flat(ss)|
  {
    if |ss| == 1 {
      assert Flat(ss[1..]) == [];
    } else {
      FlatIsNumbered(ss[1..]);
    }
  }

  lemma {:induction false} FlatConcat(a: seq<Segment>, b: seq<Segment>)
    ensures Flat(a + b) == Flat(a) + Flat(b)
  {
    if a == [] {
      assert a + b == b;
    } else {
      assert (a + b)[1..] == a[1..] + b;
      FlatConcat(a[1..], b);
    }
  }

  lemma FlatOne(s: Segment)
    ensures Flat([s]) == s.entries
  {
    assert [s][1..] == [];
  }

  /** In a gap-free log those are a window that starts at the distance from the base. */
  function Window(entries: seq<LogEntry>, base: int, offset: int, n: nat): seq<LogEntry> {
    var i := Min(Max(offset - base, 0), |entries|);
    entries[i..Min(i + n, |entries|)]
  }

  lemma HeadAndWindow(entries: seq<LogEntry>, last: nat)
    requires 0 < last <= |entries|
    ensures entries[0..last] == [entries[0]] + entries[1..][0..last - 1]
  {
  }

  lemma TailWindow(entries: seq<LogEntry>, i: nat, last: nat)
    requires 0 < i <= last <= |entries|
    ensures entries[i..last] == entries[1..][i - 1..last - 1]
  {
    var tail := entries[1..];
    assert forall k :: i <= k < last ==> entries[k] == tail[k - 1];
  }

  lemma WindowStep(entries: seq<LogEntry>, base: int, offset: int, n: nat)
    requires entries != [] && n > 0
    ensures Window(entries, base, offset, n) ==
            if offset <= base then [entries[0]] + Window(entries[1..], base + 1, offset, n - 1)
            else Window(entries[1..], base + 1, offset, n)
  {
    var i := Min(Max(offset - base, 0), |entries|);
    var last := Min(i + n, |entries|);
    if offset <= base {
      HeadAndWindow(entries, last);
    } else {
      TailWindow(entries, i, last);
    }
  }

  lemma {:induction false} FirstFromIsWindow(entries: seq<LogEntry>, base: int, offset: int, n: nat)
    requires Numbered(entries, base)
    ensures FirstFrom(entries, EntryOffset, offset, n) == Window(entries, base, offset, n)
  {
    if entries != [] && n > 0 {
      WindowStep(entries, base, offset, n);
      FirstFromIsWindow(entries[1..], base + 1, offset, if offset <= base then n - 1 else n);
    }
  }

  lemma SegmentReadIsWindow(s: Segment, offset: int, n: nat)
    requires SegmentOk(s)
    ensures ReadSegment(s, offset, n) == Window(s.entries, s.base, offset, n)
    ensures s.entries != [] && offset < NextOf(s) && n > 0 ==>
              0 < |ReadSegment(s, offset, n)| <= n &&
              ReadSegment(s, offset, n)[|ReadSegment(s, offset, n)| - 1].offset + 1 <= NextOf(s)
  {
    var size := |s.entries|;
    if size > 0 {
      var start := Max(offset - s.base, 0);
      assert NextOf(s) == s.base + size;
      if start < size {
        var end := Min(start + n, size);
        SliceInside(s.entries, start, end);
        var r := s.entries[start..end];
        if n > 0 {
          assert r[|r| - 1] == s.entries[end - 1];
        }
      }
    }
  }

  lemma SliceInside(entries: seq<LogEntry>, start: nat, end: nat)
    requires start <= end <= |entries|
    ensures Slice(entries, start, end) == entries[start..end]
  {
  }

  /** A window over two adjacent logs is a window over the first and, with what is left, one over the second. */
  lemma WindowSplits(a: seq<LogEntry>, b: seq<LogEntry>, base: int, offset: int, onward: int, n: nat)
    requires offset < base + |a| || a == []
    requires onward <= base + |a|
    ensures |Window(a, base, offset, n)| <= n
    ensures a == [] ==> onward == offset ==> Window(a + b, base, offset, n) == Window(b, base, offset, n)
    ensures a != [] ==> Window(a + b, base, offset, n)
                        == Window(a, base, offset, n) + Window(b, base + |a|, onward, n - |Window(a, base, offset, n)|)
  {
    if a == [] {
      assert a + b == b;
    } else {
      var i := Max(offset - base, 0);
      var m := Min(i + n, |a|);
      var last := Min(i + n, |a + b|);
      assert (a + b)[i..last] == (a + b)[i..m] + (a + b)[m..last];
      assert (a + b)[i..m] == a[i..m];
      assert m < |a| ==> last == m;
      assert m == |a| ==> (a + b)[m..last] == b[..last - |a|];
    }
  }

  lemma SliceBeyond(a: seq<LogEntry>, b: seq<LogEntry>, i: nat, j: nat)
    requires |a| <= i <= j <= |a| + |b|
    ensures (a + b)[i..j] == b[i - |a|..j - |a|]
  {
  }

  lemma WindowBeyond(a: seq<LogEntry>, b: seq<LogEntry>, base: int, offset: int, n: nat)
    requires base + |a| <= offset
    ensures Window(a + b, base, offset, n) == Window(b, base + |a|, offset, n)
  {
    var i := Min(offset - base, |a + b|);
    var last := Min(i + n, |a + b|);
    SliceBeyond(a, b, i, last);
  }

  lemma EmptyWindow(entries: seq<LogEntry>, base: int, offset: int)
    ensures Window(entries, base, offset, 0) == []
  {
  }

  lemma EmptyLogWindow(base: int, offset: int, n: nat)
    ensures Window([], base, offset, n) == []
  {
  }

  /** The reading loop over chained segments is one window over the flat log. */
  lemma {:induction false} ReadIsWindow(ss: seq<Segment>, offset: int, n: nat)
    requires Sound(ss)
    ensures ReadChain(ss, offset, n) == Window(Flat(ss), ss[0].base, offset, n)
    decreases |ss|, 1
  {
    hide Window, ReadSegment, Flat, Chained, ReadChain;
    var s, rest := ss[0], ss[1..];
    HeadEnds(ss);
    FlatHead(ss);
    if n == 0 {
      ReadChainDone(ss, offset, n);
      EmptyWindow(Flat(ss), s.base, offset);
    } else {
      ReadChainHead(ss, offset, n);
      if NextOf(s) <= offset {
        WindowBeyond(s.entries, Flat(rest), s.base, offset, n);
        ReadRestIsWindow(ss, offset, n);
      } else if s.entries == [] {
        assert [] + Flat(rest) == Flat(rest);
        SegmentReadIsWindow(s, offset, n);
        EmptyLogWindow(s.base, offset, n);
        assert [] + ReadChain(rest, offset, n) == ReadChain(rest, offset, n);
        ReadRestIsWindow(ss, offset, n);
      } else {
        SegmentReadIsWindow(s, offset, n);
        var entries := ReadSegment(s, offset, n);
        var onward := entries[|entries| - 1].offset + 1;
        WindowSplits(s.entries, Flat(rest), s.base, offset, onward, n);
        ReadRestIsWindow(ss, onward, n - |entries|);
      }
    }
  }

  lemma HeadEnds(ss: seq<Segment>)
    requires Sound(ss)
    ensures SegmentOk(ss[0]) && NextOf(ss[0]) == ss[0].base + |ss[0].entries|
  {
  }

  lemma FlatHead(ss: seq<Segment>)
    requires ss != []
    ensures Flat(ss) == ss[0].entries + Flat(ss[1..])
  {
  }

  lemma {:induction false} ReadRestIsWindow(ss: seq<Segment>, offset: int, n: nat)
    requires Sound(ss)
    ensures ReadChain(ss[1..], offset, n) == Window(Flat(ss[1..]), NextOf(ss[0]), offset, n)
    decreases |ss|, 0
  {
    hide Window;
    if |ss| > 1 {
      SuffixChained(ss, 1);
      ReadIsWindow(ss[1..], offset, n);
    } else {
      EmptyLogWindow(NextOf(ss[0]), offset, n);
    }
  }

  /**
   Reading is exact across any number of rotations: the reading loop returns precisely the first n
   entries of the flat log at or above the offset.
   */
  lemma ReadIsFlatRead(ss: seq<Segment>, offset: int, n: int)
    requires Sound(ss)
    ensures ReadChain(ss, offset, n) == FirstFrom(Flat(ss), EntryOffset, offset, n)
  {
    if n > 0 {
      FlatIsNumbered(ss);
      ReadIsWindow(ss, offset, n);
      FirstFromIsWindow(Flat(ss), ss[0].base, offset, n);
    }
  }

  // ---------------------------------------------------------------- what each operation does to the flat log

  lemma BytesAppend(entries: seq<LogEntry>, e: LogEntry)
    ensures Bytes(entries + [e]) == Bytes(entries) + |e.value| + OVERHEAD
  {
    assert (entries + [e])[..|entries|] == entries;
  }

  lemma AppendToOk(s: Segment, key: Option<string>, value: seq<byte>, now: real)
    requires SegmentOk(s)
    ensures SegmentOk(AppendTo(s, key, value, now))
    ensures NextOf(AppendTo(s, key, value, now)) == NextOf(s) + 1
  {
    BytesAppend(s.entries, LogEntry(NextOf(s), now, key, value));
  }

  lemma ChainExtends(ss: seq<Segment>, s: Segment)
    requires Chained(ss) && SegmentOk(s) && (ss == [] || s.base == Latest(ss))
    ensures Chained(ss + [s])
    ensures Flat(ss + [s]) == Flat(ss) + s.entries
  {
    FlatConcat(ss, [s]);
    FlatOne(s);
  }

  lemma AppendToActive(ss: seq<Segment>, key: Option<string>, value: seq<byte>, now: real)
    requires Sound(ss)
    ensures var n := |ss| - 1;
            var after := ss[..n] + [AppendTo(ss[n], key, value, now)];
            Chained(after) && Flat(after) == Flat(ss) + [LogEntry(Latest(ss), now, key, value)]
  {
    var n := |ss| - 1;
    var s := AppendTo(ss[n], key, value, now);
    AppendToOk(ss[n], key, value, now);
    assert ss == ss[..n] + [ss[n]];
    SuffixChained(ss, n);
    PrefixChained(ss, n);
    assert s.entries == ss[n].entries + [LogEntry(Latest(ss), now, key, value)] && s.base == ss[n].base;
    hide Flat, SegmentOk, AppendTo;
    ChainExtends(ss[..n], ss[n]);
    ChainExtends(ss[..n], s);
    ConcatIsAssociative(Flat(ss[..n]), ss[n].entries, [LogEntry(Latest(ss), now, key, value)]);
  }

  lemma AppendToNew(ss: seq<Segment>, key: Option<string>, value: seq<byte>, now: real)
    requires Sound(ss)
    ensures var after := ss + [AppendTo(Segment(Latest(ss), [], 0), key, value, now)];
            Chained(after) && Flat(after) == Flat(ss) + [LogEntry(Latest(ss), now, key, value)]
  {
    var s := Segment(Latest(ss), [], 0);
    AppendToOk(s, key, value, now);
    ChainExtends(ss, AppendTo(s, key, value, now));
  }

  lemma PrefixChained(ss: seq<Segment>, k: nat)
    requires Chained(ss) && k <= |ss|
    ensures Chained(ss[..k]) && (0 < k < |ss| ==> ss[k].base == Latest(ss[..k]))
    ensures forall i :: 0 <= i < |ss| ==> SegmentOk(ss[i])
  {
  }

  /** Appending adds one entry at the next offset, rotating or not. */
  lemma AppendIsFlatAppend(ss: seq<Segment>, maxBytes: int, key: Option<string>, value: seq<byte>, now: real)
    requires Sound(ss)
    ensures Sound(AppendChain(ss, maxBytes, key, value, now))
    ensures AppendChain(ss, maxBytes, key, value, now)[0].base == ss[0].base
    ensures Flat(AppendChain(ss, maxBytes, key, value, now)) == Flat(ss) + [LogEntry(Latest(ss), now, key, value)]
  {
    if ss[|ss| - 1].size >= maxBytes {
      AppendToNew(ss, key, value, now);
    } else {
      AppendToActive(ss, key, value, now);
    }
  }

  /** Retention drops whole leading segments: k of them, all with an old first entry, and k is as large as it can be. */
  lemma {:induction false} RetainDropsLeadingSegments(ss: seq<Segment>, cutoff: real) returns (k: nat)
    requires ss != []
    ensures k < |ss| && RetainChain(ss, cutoff) == ss[k..]
    ensures forall i :: 0 <= i < k ==> ss[i].entries != [] && ss[i].entries[0].timestamp < cutoff
    ensures k == |ss| - 1 || ss[k].entries == [] || ss[k].entries[0].timestamp >= cutoff
  {
    k := 0;
    if |ss| > 1 && ss[0].entries != [] && ss[0].entries[0].timestamp < cutoff {
      var j := RetainDropsLeadingSegments(ss[1..], cutoff);
      k := j + 1;
      assert ss[1..][j..] == ss[k..];
      assert forall i :: 0 < i < k ==> ss[i] == ss[1..][i - 1];
    }
  }

  /** So the flat log loses a prefix, keeps the rest untouched, and its next offset does not move. */
  lemma RetainIsFlatSuffix(ss: seq<Segment>, cutoff: real)
    requires Sound(ss)
    ensures Sound(RetainChain(ss, cutoff)) && Latest(RetainChain(ss, cutoff)) == Latest(ss)
    ensures |Flat(RetainChain(ss, cutoff))| <= |Flat(ss)|
    ensures Flat(RetainChain(ss, cutoff)) == Flat(ss)[|Flat(ss)| - |Flat(RetainChain(ss, cutoff))|..]
  {
    hide RetainChain, Flat, Chained, NextOf;
    var k := RetainDropsLeadingSegments(ss, cutoff);
    SuffixChained(ss, k);
    SuffixFlat(ss, k);
    assert ss[k..][|ss[k..]| - 1] == ss[|ss| - 1];
  }

  lemma SuffixFlat(ss: seq<Segment>, k: nat)
    requires k < |ss|
    ensures |Flat(ss[k..])| <= |Flat(ss)| && Flat(ss[k..]) == Flat(ss)[|Flat(ss)| - |Flat(ss[k..])|..]
  {
    FlatConcat(ss[..k], ss[k..]);
    assert ss == ss[..k] + ss[k..];
    assert (Flat(ss[..k]) + Flat(ss[k..]))[|Flat(ss[..k])|..] == Flat(ss[k..]);
  }

  lemma SuffixChained(ss: seq<Segment>, k: nat)
    requires Chained(ss) && k <= |ss|
    ensures Chained(ss[k..])
  {
    var rest := ss[k..];
    forall i | 0 <= i < |rest| - 1 ensures rest[i + 1].base == NextOf(rest[i]) {
      assert ss[k + i + 1].base == NextOf(ss[k + i]);
    }
  }

  function Pairs(entries: seq<LogEntry>): (ps: seq<Pair>)
    ensures |ps| == |entries| && forall i :: 0 <= i < |ps| ==> ps[i] == (entries[i].key, entries[i].value)
  {
    seq(|entries|, i requires 0 <= i < |entries| => (entries[i].key, entries[i].value))
  }

  /** Compacting entries and compacting their key/value pairs is the same. */
  lemma {:induction false} CompactPairs(entries: seq<LogEntry>)
    ensures Pairs(Compaction.Compact(entries, EntryKey)) == Compaction.Compact(Pairs(entries), PairKey)
  {
    if entries != [] {
      var ps := Pairs(entries);
      CompactPairs(entries[1..]);
      assert ps[1..] == Pairs(entries[1..]);
      if entries[0].key.Some? {
        PairsHaveSameKeys(entries[1..], entries[0].key);
      }
      assert Compaction.Superseded(entries, EntryKey, 0) <==> Compaction.Superseded(ps, PairKey, 0);
    } else {
      assert Pairs(entries) == [];
    }
  }

  lemma PairsHaveSameKeys(entries: seq<LogEntry>, k: Option<string>)
    requires k.Some?
    ensures Compaction.HasKey(entries, EntryKey, k.value) <==> Compaction.HasKey(Pairs(entries), PairKey, k.value)
  {
    if Compaction.HasKey(entries, EntryKey, k.value) {
      var i :| 0 <= i < |entries| && EntryKey(entries[i]) == k;
      assert PairKey(Pairs(entries)[i]) == k;
    }
    if Compaction.HasKey(Pairs(entries), PairKey, k.value) {
      var i :| 0 <= i < |entries| && PairKey(Pairs(entries)[i]) == k;
      assert EntryKey(entries[i]) == k;
    }
  }

  lemma {:induction false} RenumberedEntries(base: int, entries: seq<LogEntry>, now: real)
    ensures |Renumbered(base, entries, now)| == |entries|
    ensures forall i :: 0 <= i < |entries| ==>
                          Renumbered(base, entries, now)[i] == LogEntry(base + i, now, entries[i].key, entries[i].value)
  {
    if entries == [] {
    } else {
      RenumberedEntries(base, entries[..|entries| - 1], now);
    }
  }

  /** Compaction leaves one segment holding the compacted key/value pairs. */
  lemma CompactIsFlatCompact(ss: seq<Segment>, now: real)
    ensures Sound(CompactChain(ss, now))
    ensures Pairs(Flat(CompactChain(ss, now))) == Compaction.Compact(Pairs(Flat(ss)), PairKey)
  {
    var survivors := Compaction.Compact(Flat(ss), EntryKey);
    RenumberedEntries(CompactedBase(survivors), survivors, now);
    FlatOne(CompactChain(ss, now)[0]);
    CompactPairs(Flat(ss));
    assert Pairs(Flat(CompactChain(ss, now))) == Pairs(survivors);
  }

  lemma {:induction false} SurvivorsSpread(entries: seq<LogEntry>, base: int)
    requires Numbered(entries, base)
    ensures forall i, j :: 0 <= i < j < |Compaction.Compact(entries, EntryKey)| ==>
              Compaction.Compact(entries, EntryKey)[i].offset < Compaction.Compact(entries, EntryKey)[j].offset
    ensures forall i :: 0 <= i < |Compaction.Compact(entries, EntryKey)| ==>
              base <= Compaction.Compact(entries, EntryKey)[i].offset < base + |entries|
  {
    if entries == [] {
    } else {
      SurvivorsSpread(entries[1..], base + 1);
    }
  }

  /** Survivors are renumbered downwards: no entry moves to a higher offset, and the next offset does not grow. */
  lemma {:induction false} CompactMovesDown(ss: seq<Segment>, now: real)
    requires Sound(ss) && (Flat(ss) == [] ==> ss[0].base == 0)
    ensures var survivors, after := Compaction.Compact(Flat(ss), EntryKey), Flat(CompactChain(ss, now));
            && |after| == |survivors|
            && (forall i :: 0 <= i < |after| ==> after[i].offset <= survivors[i].offset)
            && Latest(CompactChain(ss, now)) <= Latest(ss)
  {
    var survivors, chain := Compaction.Compact(Flat(ss), EntryKey), CompactChain(ss, now);
    RenumberedEntries(CompactedBase(survivors), survivors, now);
    FlatOne(chain[0]);
    assert Flat(chain) == chain[0].entries == Renumbered(CompactedBase(survivors), survivors, now);
    FlatIsNumbered(ss);
    SurvivorsSpread(Flat(ss), ss[0].base);
    hide Flat, Renumbered, Compaction.Compact, Numbered, Sound;
    forall i | 0 <= i < |survivors| ensures survivors[0].offset + i <= survivors[i].offset {
      OffsetsGrow(survivors, EntryOffset, 0, i);
    }
    if Flat(ss) == [] {
      assert survivors == [];
    } else {
      CompactNonempty(Flat(ss));
    }
  }

  lemma {:induction false} CompactNonempty(entries: seq<LogEntry>)
    requires entries != []
    ensures Compaction.Compact(entries, EntryKey) != []
  {
    if |entries| > 1 && Compaction.Superseded(entries, EntryKey, 0) {
      CompactNonempty(entries[1..]);
    }
  }

  /** Every entry before the first survivor is superseded, so compaction starts there. */
  lemma {:induction false} CompactSkips(entries: seq<LogEntry>, base: int) returns (first: nat)
    requires Numbered(entries, base) && entries != []
    ensures first < |entries| && !Compaction.Superseded(entries, EntryKey, first)
    ensures forall i: nat :: i < first ==> Compaction.Superseded(entries, EntryKey, i)
    ensures Compaction.Compact(entries, EntryKey) == Compaction.Compact(entries[first..], EntryKey)
    ensures Compaction.Compact(entries, EntryKey) != [] && Compaction.Compact(entries, EntryKey)[0] == entries[first]
  {
    if Compaction.Superseded(entries, EntryKey, 0) {
      var f := CompactSkips(entries[1..], base + 1);
      first := f + 1;
      assert entries[1..][f..] == entries[first..];
      Compaction.SupersededInTail(entries, EntryKey, f);
      forall i: nat | i < first ensures Compaction.Superseded(entries, EntryKey, i) {
        if i > 0 {
          Compaction.SupersededInTail(entries, EntryKey, i - 1);
        }
      }
    } else {
      first := 0;
      assert entries[0..] == entries;
    }
  }

  /** The next offset survives compaction if and only if nothing after the first surviving entry was superseded. */
  lemma CompactKeepsNextOffsetIff(ss: seq<Segment>, now: real) returns (first: nat)
    requires Sound(ss) && Flat(ss) != []
    ensures first < |Flat(ss)| && !Compaction.Superseded(Flat(ss), EntryKey, first)
    ensures forall i: nat :: i < first ==> Compaction.Superseded(Flat(ss), EntryKey, i)
    ensures Latest(CompactChain(ss, now)) == Latest(ss)
            <==> forall i: nat :: first < i < |Flat(ss)| ==> !Compaction.Superseded(Flat(ss), EntryKey, i)
  {
    var flat := Flat(ss);
    FlatIsNumbered(ss);
    first := CompactSkips(flat, ss[0].base);
    var survivors := Compaction.Compact(flat, EntryKey);
    RenumberedEntries(CompactedBase(survivors), survivors, now);
    assert Latest(CompactChain(ss, now)) == flat[first].offset + |survivors|;
    Compaction.CompactCount(flat[first..], EntryKey);
    SupersededFrom(flat, first);
  }

  lemma SupersededFrom(flat: seq<LogEntry>, first: nat)
    requires first < |flat| && !Compaction.Superseded(flat, EntryKey, first)
    ensures |Compaction.SupersededIndices(flat[first..], EntryKey)| == 0
            <==> forall i: nat :: first < i < |flat| ==> !Compaction.Superseded(flat, EntryKey, i)
  {
    var gone := Compaction.SupersededIndices(flat[first..], EntryKey);
    forall i: nat | first <= i < |flat|
      ensures Compaction.Superseded(flat[first..], EntryKey, i - first) == Compaction.Superseded(flat, EntryKey, i)
    {
      assert flat[first..][i - first + 1..] == flat[i + 1..];
    }
    if |gone| == 0 {
      forall i: nat | first < i < |flat| ensures !Compaction.Superseded(flat, EntryKey, i) {
        assert i - first !in gone;
      }
    } else {
      var j :| j in gone;
      assert Compaction.Superseded(flat, EntryKey, first + j);
    }
  }

  // ---------------------------------------------------------------- every run

  /**
   Chained segments from a non-negative base; only a log that is one segment can be empty, and then it
   starts at 0.
   */
  ghost predicate Invariant(ss: seq<Segment>) {
    && Sound(ss)
    && 0 <= ss[0].base
    && (|ss| > 1 ==> ss[|ss| - 1].entries != [])
    && (Flat(ss) == [] ==> ss[0].base == 0)
  }

  lemma LastIsInFlat(ss: seq<Segment>)
    requires ss != [] && ss[|ss| - 1].entries != []
    ensures Flat(ss) != []
  {
    hide Flat;
    var n := |ss| - 1;
    assert ss == ss[..n] + [ss[n]];
    FlatConcat(ss[..n], [ss[n]]);
    FlatOne(ss[n]);
    assert |Flat(ss)| >= |ss[n].entries|;
  }

  lemma RetainKeepsInvariant(ss: seq<Segment>, cutoff: real)
    requires Invariant(ss)
    ensures Invariant(RetainChain(ss, cutoff))
  {
    var k := RetainDropsLeadingSegments(ss, cutoff);
    RetainIsFlatSuffix(ss, cutoff);
    if k > 0 {
      LastIsInFlat(ss[k..]);
      FlatIsNumbered(ss);
      FlatIsNumbered(ss[k..]);
    }
  }

  lemma CompactKeepsInvariant(ss: seq<Segment>, now: real)
    requires Invariant(ss)
    ensures Invariant(CompactChain(ss, now))
  {
    var survivors := Compaction.Compact(Flat(ss), EntryKey);
    CompactIsFlatCompact(ss, now);
    FlatIsNumbered(ss);
    SurvivorsSpread(Flat(ss), ss[0].base);
    RenumberedEntries(CompactedBase(survivors), survivors, now);
    FlatOne(CompactChain(ss, now)[0]);
  }

  lemma StepKeepsInvariant(ss: seq<Segment>, maxBytes: int, op: Op)
    requires Invariant(ss)
    ensures Invariant(Step(ss, maxBytes, op))
  {
    match op
    case AppendOp(key, value, now) => AppendIsFlatAppend(ss, maxBytes, key, value, now);
    case RetainOp(cutoff) => RetainKeepsInvariant(ss, cutoff);
    case CompactOp(now) => CompactKeepsInvariant(ss, now);
  }

  /**
   The segmented log refines the flat one: after every run of appends, retention and compaction the
   segments are chained without gaps, and a read is exactly a read of the concatenated log.
   */
  lemma {:induction false} RunReadsExactly(maxBytes: int, ops: seq<Op>, offset: int, n: int)
    ensures Invariant(Run(maxBytes, ops))
    ensures Numbered(Flat(Run(maxBytes, ops)), Run(maxBytes, ops)[0].base)
    ensures ReadChain(Run(maxBytes, ops), offset, n) == FirstFrom(Flat(Run(maxBytes, ops)), EntryOffset, offset, n)
  {
    if ops == [] {
      assert Flat(FRESH) == [];
    } else {
      RunReadsExactly(maxBytes, ops[..|ops| - 1], offset, n);
      StepKeepsInvariant(Run(maxBytes, ops[..|ops| - 1]), maxBytes, ops[|ops| - 1]);
    }
    FlatIsNumbered(Run(maxBytes, ops));
    ReadIsFlatRead(Run(maxBytes, ops), offset, n);
  }

  /** Everything a run appended, as key/value pairs. */
  ghost function Appended(ops: seq<Op>): seq<Pair> {
    if ops == [] then []
    else
      var op := ops[|ops| - 1];
      Appended(ops[..|ops| - 1]) + if op.AppendOp? then [(op.key, op.value)] else []
  }

  /**
   When compaction runs does not matter: without retention, compacting the log at the end gives the
   compaction of everything ever appended, whatever was compacted and renumbered on the way.
   */
  lemma {:induction false} CompactionTimingIsInvisible(maxBytes: int, ops: seq<Op>)
    requires forall i :: 0 <= i < |ops| ==> !ops[i].RetainOp?
    ensures Compaction.Compact(Pairs(Flat(Run(maxBytes, ops))), PairKey) == Compaction.Compact(Appended(ops), PairKey)
  {
    if ops == [] {
      assert Flat(FRESH) == [];
    } else {
      var rest, op := ops[..|ops| - 1], ops[|ops| - 1];
      var ss := Run(maxBytes, rest);
      CompactionTimingIsInvisible(maxBytes, rest);
      RunReadsExactly(maxBytes, rest, 0, 0);
      match op
      case AppendOp(key, value, now) =>
        AppendIsFlatAppend(ss, maxBytes, key, value, now);
        assert Pairs(Flat(Step(ss, maxBytes, op))) == Pairs(Flat(ss)) + [(key, value)];
        Compaction.CompactAbsorbs(Pairs(Flat(ss)), [(key, value)], PairKey);
        Compaction.CompactAbsorbs(Appended(rest), [(key, value)], PairKey);
      case CompactOp(now) =>
        CompactIsFlatCompact(ss, now);
        Compaction.CompactIdempotent(Pairs(Flat(ss)), PairKey);
        assert Appended(ops) == Appended(rest);
    }
  }

  // ---------------------------------------------------------------- rotation

  /** Every segment that is no longer written to has reached the size at which the log rotates. */
  ghost predicate FullButLast(ss: seq<Segment>, maxBytes: int) {
    forall i :: 0 <= i < |ss| - 1 ==> ss[i].size >= maxBytes
  }

  /** Nothing was added to a segment that had reached that size, except the first entry. */
  ghost predicate NeverOverfull(ss: seq<Segment>, maxBytes: int) {
    forall i :: 0 <= i < |ss| ==> NotOverfull(ss[i], maxBytes)
  }

  ghost predicate NotOverfull(s: Segment, maxBytes: int) {
    |s.entries| >= 2 ==> Bytes(s.entries[..|s.entries| - 1]) < maxBytes
  }

  lemma AddedInTime(s: Segment, maxBytes: int, key: Option<string>, value: seq<byte>, now: real)
    requires s.size == Bytes(s.entries) && (s.entries == [] || s.size < maxBytes)
    ensures NotOverfull(AppendTo(s, key, value, now), maxBytes)
  {
    var added := AppendTo(s, key, value, now);
    assert added.entries[..|added.entries| - 1] == s.entries;
    hide Bytes, NextOf;
  }

  lemma AppendLeavesFull(ss: seq<Segment>, maxBytes: int, key: Option<string>, value: seq<byte>, now: real)
    requires ss != [] && FullButLast(ss, maxBytes)
    ensures FullButLast(AppendChain(ss, maxBytes, key, value, now), maxBytes)
  {
    hide NextOf, AppendTo;
  }

  lemma AppendNotOverfull(ss: seq<Segment>, maxBytes: int, key: Option<string>, value: seq<byte>, now: real)
    requires Sound(ss) && NeverOverfull(ss, maxBytes)
    ensures NeverOverfull(AppendChain(ss, maxBytes, key, value, now), maxBytes)
  {
    var n := |ss| - 1;
    var empty := Segment(NextOf(ss[n]), [], 0);
    assert SegmentOk(ss[n]) && Bytes([]) == 0;
    if ss[n].size < maxBytes {
      AddedInTime(ss[n], maxBytes, key, value, now);
    }
    AddedInTime(empty, maxBytes, key, value, now);
    hide Bytes, NextOf, Chained, SegmentOk, AppendTo, NotOverfull;
  }

  lemma {:induction false} RetainRotates(ss: seq<Segment>, maxBytes: int, cutoff: real)
    requires ss != []
    ensures FullButLast(ss, maxBytes) ==> FullButLast(RetainChain(ss, cutoff), maxBytes)
    ensures NeverOverfull(ss, maxBytes) ==> NeverOverfull(RetainChain(ss, cutoff), maxBytes)
  {
    var k := RetainDropsLeadingSegments(ss, cutoff);
    hide RetainChain, Bytes;
  }

  /**
   When the log rotates: in every run each segment but the last has reached the configured size, and as long as
   nothing is compacted no entry but its first was added to a segment that had.
   */
  lemma {:induction false} RunRotates(maxBytes: int, ops: seq<Op>)
    ensures FullButLast(Run(maxBytes, ops), maxBytes)
    ensures (forall i :: 0 <= i < |ops| ==> !ops[i].CompactOp?) ==> NeverOverfull(Run(maxBytes, ops), maxBytes)
  {
    if ops == [] {
    } else {
      var rest, op := ops[..|ops| - 1], ops[|ops| - 1];
      RunRotates(maxBytes, rest);
      RunReadsExactly(maxBytes, rest, 0, 0);
      hide FullButLast, NeverOverfull, Sound;
      match op
      case AppendOp(key, value, now) =>
        AppendLeavesFull(Run(maxBytes, rest), maxBytes, key, value, now);
        if NeverOverfull(Run(maxBytes, rest), maxBytes) {
          AppendNotOverfull(Run(maxBytes, rest), maxBytes, key, value, now);
        }
      case RetainOp(cutoff) => RetainRotates(Run(maxBytes, rest), maxBytes, cutoff);
      case CompactOp(now) => CompactedIsOne(Run(maxBytes, rest), maxBytes, now);
    }
  }

  lemma CompactedIsOne(ss: seq<Segment>, maxBytes: int, now: real)
    ensures FullButLast(CompactChain(ss, now), maxBytes)
  {
  }

  lemma SuffixFrom(entries: seq<LogEntry>, base: int, i: nat, e: LogEntry)
    requires i <= |entries| && Numbered(entries, base)
    ensures e in entries[i..] <==> e in entries && e.offset >= base + i
  {
    var kept := entries[i..];
    assert forall k :: 0 <= k < |kept| ==> kept[k] == entries[i + k];
    if e in entries && e.offset >= base + i {
      var k :| 0 <= k < |entries| && entries[k] == e;
      assert kept[k - i] == e;
    }
  }

  lemma {:induction false} BytesSplit(entries: seq<LogEntry>, i: nat)
    requires i <= |entries|
    ensures Bytes(entries) == Bytes(entries[..i]) + Bytes(entries[i..])
  {
    var n := |entries| - 1;
    if i == |entries| {
      assert entries[..i] == entries && entries[i..] == [];
    } else {
      BytesSplit(entries[..n], i);
      assert entries[..n][..i] == entries[..i] && entries[..n][i..] == entries[i..][..n - i];
    }
  }

  /** What truncating at an offset keeps: exactly the entries from that offset on, and their size. */
  lemma TruncationKeeps(s: Segment, offset: int, e: LogEntry)
    requires SegmentOk(s)
    ensures e in Truncated(s, offset).entries <==> e in s.entries && e.offset >= offset
    ensures Truncated(s, offset).size == Bytes(Truncated(s, offset).entries) && Truncated(s, offset).base == s.base
  {
    var i := Min(Max(offset - s.base, 0), |s.entries|);
    assert Truncated(s, offset).entries == s.entries[i..];
    assert i > 0 ==> Slice(s.entries, 0, offset - s.base) == s.entries[..i];
    assert Truncated(s, offset).size == s.size - Bytes(s.entries[..i]);
    SuffixFrom(s.entries, s.base, i, e);
    BytesSplit(s.entries, i);
    hide Truncated, Bytes;
  }

  // ---------------------------------------------------------------- where the obvious claims stop

  /** The times of appends and compactions never go back. */
  ghost predicate Timely(ops: seq<Op>) {
    forall i, j :: 0 <= i < j < |ops| && !ops[i].RetainOp? && !ops[j].RetainOp? ==> ops[i].now <= ops[j].now
  }

  ghost predicate InTime(entries: seq<LogEntry>) {
    forall i, j :: 0 <= i <= j < |entries| ==> entries[i].timestamp <= entries[j].timestamp
  }

  ghost predicate Until(entries: seq<LogEntry>, t: real) {
    forall i :: 0 <= i < |entries| ==> entries[i].timestamp <= t
  }

  /** On a clock that never goes back, the flat log is in order of time after every run. */
  lemma {:induction false} RunInTime(maxBytes: int, ops: seq<Op>, t: real)
    requires Timely(ops) && forall i :: 0 <= i < |ops| && !ops[i].RetainOp? ==> ops[i].now <= t
    ensures InTime(Flat(Run(maxBytes, ops))) && Until(Flat(Run(maxBytes, ops)), t)
  {
    if ops == [] {
      assert Flat(FRESH) == [];
    } else {
      var rest, op := ops[..|ops| - 1], ops[|ops| - 1];
      RunInTime(maxBytes, rest, if op.RetainOp? then t else op.now);
      RunReadsExactly(maxBytes, rest, 0, 0);
      StepInTime(Run(maxBytes, rest), maxBytes, op, t);
    }
  }

  lemma StepInTime(ss: seq<Segment>, maxBytes: int, op: Op, t: real)
    requires Sound(ss) && InTime(Flat(ss)) && Until(Flat(ss), if op.RetainOp? then t else op.now)
    requires !op.RetainOp? ==> op.now <= t
    ensures InTime(Flat(Step(ss, maxBytes, op))) && Until(Flat(Step(ss, maxBytes, op)), t)
  {
    match op
    case AppendOp(key, value, now) => AppendInTime(ss, maxBytes, key, value, now, t);
    case RetainOp(cutoff) => RetainInTime(ss, cutoff, t);
    case CompactOp(now) =>
      var survivors := Compaction.Compact(Flat(ss), EntryKey);
      RenumberedEntries(CompactedBase(survivors), survivors, now);
      FlatOne(CompactChain(ss, now)[0]);
  }

  lemma AppendInTime(ss: seq<Segment>, maxBytes: int, key: Option<string>, value: seq<byte>, now: real, t: real)
    requires Sound(ss) && InTime(Flat(ss)) && Until(Flat(ss), now) && now <= t
    ensures InTime(Flat(AppendChain(ss, maxBytes, key, value, now)))
            && Until(Flat(AppendChain(ss, maxBytes, key, value, now)), t)
  {
    hide AppendChain, Flat;
    AppendIsFlatAppend(ss, maxBytes, key, value, now);
  }

  lemma RetainInTime(ss: seq<Segment>, cutoff: real, t: real)
    requires Sound(ss) && InTime(Flat(ss)) && Until(Flat(ss), t)
    ensures InTime(Flat(RetainChain(ss, cutoff))) && Until(Flat(RetainChain(ss, cutoff)), t)
  {
    hide RetainChain, Flat;
    RetainIsFlatSuffix(ss, cutoff);
  }

  /** The segment begins before the cutoff and ends at or after it. */
  ghost predicate Straddles(s: Segment, cutoff: real) {
    s.entries != [] && s.entries[0].timestamp < cutoff <= s.entries[|s.entries| - 1].timestamp
  }

  /** A sweep can get as far as segment `i`: another one follows it, and nothing up to it is empty. */
  ghost predicate WithinReach(ss: seq<Segment>, i: nat) {
    i + 1 < |ss| && forall j :: 0 <= j <= i ==> ss[j].entries != []
  }

  lemma {:induction false} SegmentsInTime(ss: seq<Segment>, i: nat, j: nat)
    requires InTime(Flat(ss)) && i <= j < |ss|
    ensures InTime(ss[i].entries)
    ensures i < j ==> forall e, f :: e in ss[i].entries && f in ss[j].entries ==> e.timestamp <= f.timestamp
  {
    HeadInTime(ss);
    if i > 0 {
      SegmentsInTime(ss[1..], i - 1, j - 1);
    } else if j > 0 {
      forall e, f | e in ss[0].entries && f in ss[j].entries ensures e.timestamp <= f.timestamp {
        FlatMembers(ss[1..], f);
        assert ss[1..][j - 1] == ss[j];
      }
    }
  }

  lemma {:induction false} HeadInTime(ss: seq<Segment>)
    requires ss != [] && InTime(Flat(ss))
    ensures InTime(ss[0].entries) && InTime(Flat(ss[1..]))
    ensures forall e, f :: e in ss[0].entries && f in Flat(ss[1..]) ==> e.timestamp <= f.timestamp
  {
    var head, rest, flat := ss[0].entries, Flat(ss[1..]), Flat(ss);
    FlatHead(ss);
    hide Flat;
    PartsInTime(head, rest);
  }

  lemma PartsInTime(a: seq<LogEntry>, b: seq<LogEntry>)
    requires InTime(a + b)
    ensures InTime(a) && InTime(b)
    ensures forall e, f :: e in a && f in b ==> e.timestamp <= f.timestamp
  {
    var all := a + b;
    assert forall i :: 0 <= i < |a| ==> a[i] == all[i];
    assert forall i :: 0 <= i < |b| ==> b[i] == all[|a| + i];
  }

  /**
   Retention judges a segment by its first entry. On a clock that never goes back it drops only old
   entries if and only if no segment within its reach straddles the cutoff.
   */
  lemma {:induction false} RetentionDropsOnlyOldIff(maxBytes: int, ops: seq<Op>, cutoff: real)
    requires Timely(ops)
    ensures var ss := Run(maxBytes, ops);
            var dropped := |Flat(ss)| - |Flat(RetainChain(ss, cutoff))|;
            (forall n :: 0 <= n < dropped ==> Flat(ss)[n].timestamp < cutoff)
            <==> forall i: nat :: WithinReach(ss, i) ==> !Straddles(ss[i], cutoff)
  {
    var t := LastTime(ops);
    RunInTime(maxBytes, ops, t);
    hide Run, Timely, RetainChain, Flat, InTime, Straddles, WithinReach, Until;
    var ss := Run(maxBytes, ops);
    var k := RetainDropsLeadingSegments(ss, cutoff);
    var gone := Flat(ss[..k]);
    DroppedComeFirst(ss, k);
    if i: nat :| WithinReach(ss, i) && Straddles(ss[i], cutoff) {
      StraddlingIsDropped(ss, cutoff, k, i);
    }
    if n :| 0 <= n < |gone| && gone[n].timestamp >= cutoff {
      YoungMeansStraddling(ss, cutoff, k, gone[n]);
    }
  }

  lemma DroppedComeFirst(ss: seq<Segment>, k: nat)
    requires k <= |ss|
    ensures |Flat(ss)| == |Flat(ss[..k])| + |Flat(ss[k..])|
    ensures forall n :: 0 <= n < |Flat(ss[..k])| ==> Flat(ss[..k])[n] == Flat(ss)[n]
  {
    assert ss == ss[..k] + ss[k..];
    FlatConcat(ss[..k], ss[k..]);
    hide Flat;
  }

  lemma LastTime(ops: seq<Op>) returns (t: real)
    ensures forall i :: 0 <= i < |ops| && !ops[i].RetainOp? ==> ops[i].now <= t
  {
    t := 0.0;
    for i := 0 to |ops|
      invariant forall j :: 0 <= j < i && !ops[j].RetainOp? ==> ops[j].now <= t
    {
      if !ops[i].RetainOp? && t < ops[i].now {
        t := ops[i].now;
      }
    }
  }

  lemma {:induction false} StraddlingIsDropped(ss: seq<Segment>, cutoff: real, k: nat, i: nat)
    requires InTime(Flat(ss)) && WithinReach(ss, i) && Straddles(ss[i], cutoff)
    requires k < |ss| && (k == |ss| - 1 || ss[k].entries == [] || ss[k].entries[0].timestamp >= cutoff)
    ensures i < k && exists n :: 0 <= n < |Flat(ss[..k])| && Flat(ss[..k])[n].timestamp >= cutoff
  {
    if k <= i {
      FirstInTime(ss, k, i);
    }
    var last := ss[i].entries[|ss[i].entries| - 1];
    if i < k {
      assert ss[..k][i] == ss[i] && last in ss[i].entries;
      FlatMembers(ss[..k], last);
      var n :| 0 <= n < |Flat(ss[..k])| && Flat(ss[..k])[n] == last;
    }
  }

  lemma {:induction false} FirstInTime(ss: seq<Segment>, i: nat, j: nat)
    requires InTime(Flat(ss)) && i <= j < |ss| && ss[i].entries != [] && ss[j].entries != []
    ensures ss[i].entries[0].timestamp <= ss[j].entries[0].timestamp
  {
    SegmentsInTime(ss, i, j);
    assert ss[i].entries[0] in ss[i].entries && ss[j].entries[0] in ss[j].entries;
  }

  lemma {:induction false} YoungMeansStraddling(ss: seq<Segment>, cutoff: real, k: nat, e: LogEntry)
    requires InTime(Flat(ss)) && k < |ss| && e in Flat(ss[..k]) && e.timestamp >= cutoff
    requires forall j :: 0 <= j < k ==> ss[j].entries != [] && ss[j].entries[0].timestamp < cutoff
    ensures exists i: nat :: WithinReach(ss, i) && Straddles(ss[i], cutoff)
  {
    FlatMembers(ss[..k], e);
    var i: nat :| i < k && e in ss[..k][i].entries;
    SegmentsInTime(ss, i, i);
    var a :| 0 <= a < |ss[i].entries| && ss[i].entries[a] == e;
    assert WithinReach(ss, i) && Straddles(ss[i], cutoff);
  }

  lemma {:induction false} FlatMembers(ss: seq<Segment>, e: LogEntry)
    ensures e in Flat(ss) <==> exists i :: 0 <= i < |ss| && e in ss[i].entries
  {
    if ss == [] {
    } else {
      FlatMembers(ss[1..], e);
      if i :| 0 <= i < |ss| && e in ss[i].entries {
        assert i == 0 || ss[1..][i - 1] == ss[i];
      }
      if i :| 0 <= i < |ss[1..]| && e in ss[1..][i].entries {
        assert ss[i + 1] == ss[1..][i];
      }
    }
  }

  lemma RunOneMore(maxBytes: int, ops: seq<Op>, op: Op)
    ensures Run(maxBytes, ops + [op]) == Step(Run(maxBytes, ops), maxBytes, op)
  {
    assert (ops + [op])[..|ops|] == ops;
  }

  /** Appending while the active segment has room. */
  lemma RunAppendsInPlace(maxBytes: int, ops: seq<Op>, s: Segment, op: Op)
    requires Run(maxBytes, ops) == [s] && s.size < maxBytes && op.AppendOp?
    ensures Run(maxBytes, ops + [op]) == [AppendTo(s, op.key, op.value, op.now)]
  {
    RunOneMore(maxBytes, ops, op);
    assert [s][..0] + [AppendTo(s, op.key, op.value, op.now)] == [AppendTo(s, op.key, op.value, op.now)];
  }

  lemma OneByOne(e0: LogEntry, e1: LogEntry)
    ensures [] + [e0] == [e0] && [e0] + [e1] == [e0, e1]
  {
  }

  lemma EmptyAppend(s: Segment, op: Op)
    requires op.AppendOp? && op.value == []
    ensures AppendTo(s, op.key, op.value, op.now)
            == Segment(s.base, s.entries + [LogEntry(NextOf(s), op.now, op.key, [])], s.size + 64)
  {
  }

  /** Two entries of 64 bytes each in one segment of a new log. */
  lemma TwoEntries(maxBytes: int, op0: Op, op1: Op) returns (e0: LogEntry, e1: LogEntry)
    requires maxBytes > 64 && op0.AppendOp? && op1.AppendOp? && op0.value == op1.value == []
    ensures e0 == LogEntry(0, op0.now, op0.key, []) && e1 == LogEntry(1, op1.now, op1.key, [])
    ensures Run(maxBytes, [op0, op1]) == [Segment(0, [e0, e1], 128)]
  {
    e0, e1 := LogEntry(0, op0.now, op0.key, []), LogEntry(1, op1.now, op1.key, []);
    assert [] + [op0] == [op0] && [op0] + [op1] == [op0, op1];
    OneByOne(e0, e1);
    var empty, one := Segment(0, [], 0), Segment(0, [e0], 64);
    assert Run(maxBytes, []) == [empty] && NextOf(empty) == 0 && NextOf(one) == 1;
    hide Run, AppendTo, NextOf;
    EmptyAppend(empty, op0);
    RunAppendsInPlace(maxBytes, [], empty, op0);
    EmptyAppend(one, op1);
    RunAppendsInPlace(maxBytes, [op0], one, op1);
  }

  /** One young entry behind an old one in the same segment is dropped with it. */
  lemma RetentionCanDropYoungEntries() returns (ops: seq<Op>, cutoff: real, e: LogEntry)
    ensures e in Flat(Run(100, ops)) && e.timestamp >= cutoff
    ensures e !in Flat(RetainChain(Run(100, ops), cutoff))
  {
    var op0, op1 := AppendOp(None, [], 0.0), AppendOp(None, [], 9.0);
    var e0, e1 := TwoEntries(100, op0, op1);
    ops, cutoff, e := [op0, op1] + [op1], 5.0, e1;
    RunOneMore(100, [op0, op1], op1);
    var full, active := Segment(0, [e0, e1], 128), Segment(2, [] + [LogEntry(2, 9.0, None, [])], 64);
    assert Run(100, ops) == [full] + [active] == [full, active];
    assert [full, active][1..] == [active];
    assert RetainChain([full, active], cutoff) == RetainChain([active], cutoff) == [active];
    FlatOne(active);
    FlatMembers([full, active], e1);
    assert e1 in [full, active][0].entries;
  }

  /** After compaction the next offset can be one that was already used. */
  lemma NextOffsetCanDrop() returns (ops: seq<Op>)
    ensures Latest(CompactChain(Run(1000, ops), 0.0)) < Latest(Run(1000, ops))
  {
    var op0, op1 := AppendOp(None, [], 0.0), AppendOp(Some("a"), [], 0.0);
    var e0, e1 := TwoEntries(1000, op0, op1);
    ops := [op0, op1] + [op1];
    RunAppendsInPlace(1000, [op0, op1], Segment(0, [e0, e1], 128), op1);
    var ss := Run(1000, ops);
    FlatOne(ss[0]);
    var flat := Flat(ss);
    assert |flat| == 3;
    RunReadsExactly(1000, ops, 0, 0);
    assert EntryKey(flat[2..][0]) == Some("a");
    assert Compaction.Superseded(flat, EntryKey, 1) && !Compaction.Superseded(flat, EntryKey, 0);
    var first := CompactKeepsNextOffsetIff(ss, 0.0);
    assert first == 0;
    CompactMovesDown(ss, 0.0);
  }

  /** The unused `truncate`: entries go, the base offset stays. */
  function Truncated(s: Segment, offset: int): Segment {
    var idx := offset - s.base;
    if idx <= 0 then s
    else
      var kept := Slice(s.entries, idx, |s.entries|);
      Segment(s.base, kept, s.size - Bytes(Slice(s.entries, 0, idx)))
  }

  /** Reads stay exact after truncation if and only if it removed nothing or everything. */
  lemma TruncateKeepsReadsIff(s: Segment, offset: int)
    requires SegmentOk(s)
    ensures (forall q: int, n: nat ::
               ReadSegment(Truncated(s, offset), q, n) == FirstFrom(Truncated(s, offset).entries, EntryOffset, q, n))
            <==> offset <= s.base || offset >= NextOf(s)
  {
    var t := Truncated(s, offset);
    if offset <= s.base {
      forall q: int, n: nat ensures ReadSegment(t, q, n) == FirstFrom(t.entries, EntryOffset, q, n) {
        FirstFromIsWindow(s.entries, s.base, q, n);
        SegmentReadIsWindow(s, q, n);
      }
    } else if offset < NextOf(s) {
      assert t.entries == s.entries[offset - s.base..];
      assert t.entries[0].offset == offset;
      assert FirstFrom(t.entries, EntryOffset, offset, 1) == [t.entries[0]];
      assert ReadSegment(t, offset, 1) == [] || ReadSegment(t, offset, 1)[0].offset > offset;
    }
  }

  // ---------------------------------------------------------------- the objects

  lemma ReadChainDone(ss: seq<Segment>, offset: int, remaining: int)
    requires ss == [] || remaining <= 0
    ensures ReadChain(ss, offset, remaining) == []
  {
  }

  lemma ReadChainNext(ss: seq<Segment>, i: nat, offset: int, remaining: int)
    requires i < |ss| && remaining > 0
    ensures var entries := ReadSegment(ss[i], offset, remaining);
            var onward := if entries == [] then offset else entries[|entries| - 1].offset + 1;
            ReadChain(ss[i..], offset, remaining) ==
            if NextOf(ss[i]) <= offset then ReadChain(ss[i + 1..], offset, remaining)
            else entries + ReadChain(ss[i + 1..], onward, remaining - |entries|)
  {
    hide ReadSegment, NextOf;
    ReadChainHead(ss[i..], offset, remaining);
    assert ss[i..][1..] == ss[i + 1..];
  }

  lemma ReadChainHead(ss: seq<Segment>, offset: int, remaining: int)
    requires ss != [] && remaining > 0
    ensures var entries := ReadSegment(ss[0], offset, remaining);
            var onward := if entries == [] then offset else entries[|entries| - 1].offset + 1;
            ReadChain(ss, offset, remaining) ==
            if NextOf(ss[0]) <= offset then ReadChain(ss[1..], offset, remaining)
            else entries + ReadChain(ss[1..], onward, remaining - |entries|)
  {
  }

  lemma RetainLast(ss: seq<Segment>, cutoff: real)
    requires |ss| <= 1
    ensures RetainChain(ss, cutoff) == ss
  {
  }

  /** One turn of the retention loop: what it looks at, and what dropping the segment does. */
  lemma RetainNext(ss: seq<Segment>, k: nat, cutoff: real)
    requires k + 1 < |ss| && SegmentOk(ss[k])
    ensures var head := ReadSegment(ss[k], ss[k].base, 1);
            RetainChain(ss[k..], cutoff) ==
            if head != [] && head[0].timestamp < cutoff then RetainChain(ss[k + 1..], cutoff) else ss[k..]
    ensures |Flat(ss[k..])| == |ss[k].entries| + |Flat(ss[k + 1..])|
  {
    assert ss[k..][1..] == ss[k + 1..];
  }

  lemma RenumberedNext(base: int, survivors: seq<LogEntry>, i: nat, now: real)
    requires i < |survivors|
    ensures var before, after := Renumbered(base, survivors[..i], now), Renumbered(base, survivors[..i + 1], now);
            AppendTo(Segment(base, before, Bytes(before)), survivors[i].key, survivors[i].value, now)
            == Segment(base, after, Bytes(after))
  {
    RenumberedEntries(base, survivors[..i], now);
    assert survivors[..i + 1][..i] == survivors[..i];
    BytesAppend(Renumbered(base, survivors[..i], now), LogEntry(base + i, now, survivors[i].key, survivors[i].value));
  }

  class LogSegment {
    const maxBytes: int
    var baseOffset: int
    var entries: seq<LogEntry>
    var sizeBytes: int

    constructor (baseOffset: int, maxBytes: int)
      ensures State() == Segment(baseOffset, [], 0) && this.maxBytes == maxBytes
    {
      this.baseOffset, this.maxBytes := baseOffset, maxBytes;
      entries, sizeBytes := [], 0;
    }

    function State(): Segment
      reads this
    {
      Segment(baseOffset, entries, sizeBytes)
    }

    function NextOffset(): int
      reads this
    {
      if entries == [] then baseOffset else entries[|entries| - 1].offset + 1
    }

    predicate IsFull()
      reads this
    {
      sizeBytes >= maxBytes
    }

    method Append(key: Option<string>, value: seq<byte>, now: real) returns (offset: int)
      modifies this`entries, this`sizeBytes
      ensures State() == AppendTo(old(State()), key, value, now) && offset == NextOf(old(State()))
      ensures entries == old(entries) + [LogEntry(offset, now, key, value)]
      ensures sizeBytes == old(sizeBytes) + |value| + 64
    {
      offset := NextOffset();
      entries := entries + [LogEntry(offset, now, key, value)];
      sizeBytes := sizeBytes + |value| + OVERHEAD;
    }

    method Read(offset: int, maxEntries: int) returns (batch: seq<LogEntry>)
      ensures batch == ReadSegment(State(), offset, maxEntries)
    {
      if entries == [] {
        return [];
      }
      var start := offset - baseOffset;
      if start < 0 {
        start := 0;
      }
      if start >= |entries| {
        return [];
      }
      batch := Slice(entries, start, Min(start + maxEntries, |entries|));
    }

    static lemma SliceToEnd(s: seq<LogEntry>, i: nat)
      ensures Slice(s, i, |s|) == s[Min(i, |s|)..]
    {
    }

    method Truncate(offset: int) returns (removed: nat)
      modifies this`entries, this`sizeBytes
      ensures State() == Truncated(old(State()), offset)
      ensures entries == old(entries)[Min(Max(offset - baseOffset, 0), |old(entries)|)..]
      ensures removed == |old(entries)| - |entries|
    {
      var idx := offset - baseOffset;
      if idx <= 0 {
        return 0;
      }
      var gone := Slice(entries, 0, idx);
      var removedBytes := Bytes(gone);
      removed := |gone|;
      SliceToEnd(entries, idx);
      entries := Slice(entries, idx, |entries|);
      sizeBytes := sizeBytes - removedBytes;
    }
  }

  class WriteAheadLog {
    const segmentMaxBytes: int
    const retentionMs: int
    var segments: seq<LogSegment>
    var totalAppended: nat

    constructor (segmentMaxBytes: int, retentionMs: int)
      ensures this.segmentMaxBytes == segmentMaxBytes && this.retentionMs == retentionMs
      ensures Valid() && State() == FRESH && fresh(segments)
    {
      this.segmentMaxBytes, this.retentionMs, totalAppended := segmentMaxBytes, retentionMs, 0;
      var first := new LogSegment(0, segmentMaxBytes);
      segments := [first];
      new;
      assert State() == [first.State()];
    }

    ghost function State(): (ss: seq<Segment>)
      reads this, segments
      ensures |ss| == |segments| && forall i :: 0 <= i < |segments| ==> ss[i] == segments[i].State()
    {
      seq(|segments|, i requires 0 <= i < |segments| reads this, segments => segments[i].State())
    }

    /** The segments are this log's own, there is an active one, and they form a sound log. */
    ghost predicate Valid()
      reads this, segments
    {
      && segments != []
      && (forall i, j :: 0 <= i < j < |segments| ==> segments[i] != segments[j])
      && (forall i :: 0 <= i < |segments| ==> segments[i].maxBytes == segmentMaxBytes)
      && Invariant(State())
    }

    method Append(key: Option<string>, value: seq<byte>, now: real) returns (offset: int)
      requires Valid()
      modifies this, segments[|segments| - 1]
      ensures Valid() && fresh((set s | s in segments) - old(set s | s in segments))
      ensures State() == Step(old(State()), segmentMaxBytes, AppendOp(key, value, now))
      ensures offset == Latest(old(State())) && totalAppended == old(totalAppended) + 1
      ensures |segments| == |old(segments)|
                            + if old(segments[|segments| - 1].sizeBytes) >= segmentMaxBytes then 1 else 0
      ensures var active := segments[|segments| - 1];
              && active.entries != [] && active.entries[|active.entries| - 1] == LogEntry(offset, now, key, value)
              && active.sizeBytes == |value| + 64 + (if |segments| > |old(segments)| then 0
                                                     else old(segments[|segments| - 1].sizeBytes))
    {
      hide Flat;
      hide SegmentOk;
      ghost var before := State();
      StepKeepsInvariant(before, segmentMaxBytes, AppendOp(key, value, now));
      if segments[|segments| - 1].IsFull() {
        var nextBase := segments[|segments| - 1].NextOffset();
        var added := new LogSegment(nextBase, segmentMaxBytes);
        segments := segments + [added];
      }
      offset := segments[|segments| - 1].Append(key, value, now);
      totalAppended := totalAppended + 1;
      assert State() == Step(before, segmentMaxBytes, AppendOp(key, value, now));
    }

    method Read(offset: int, maxEntries: int) returns (results: seq<LogEntry>)
      requires Valid()
      ensures results == FirstFrom(Flat(State()), EntryOffset, offset, maxEntries)
    {
      hide ReadSegment, ReadChain, FirstFrom, EntryOffset, Flat, State, SegmentOk, Chained, Slice, Bytes;
      ghost var ss := State();
      ReadIsFlatRead(ss, offset, maxEntries);
      ghost var wanted := ReadChain(ss, offset, maxEntries);
      assert wanted == FirstFrom(Flat(State()), EntryOffset, offset, maxEntries);
      hide Invariant;
      results := [];
      var from, remaining := offset, maxEntries;
      assert ss[0..] == ss;
      for i := 0 to |segments|
        invariant results + ReadChain(ss[i..], from, remaining) == wanted
      {
        if remaining <= 0 {
          ReadChainDone(ss[i..], from, remaining);
          assert results + [] == results;
          return;
        }
        ReadChainNext(ss, i, from, remaining);
        if segments[i].NextOffset() > from {
          var entries := segments[i].Read(from, remaining);
          ghost var was := results;
          results := results + entries;
          remaining := remaining - |entries|;
          if entries != [] {
            from := entries[|entries| - 1].offset + 1;
          }
          ConcatIsAssociative(was, entries, ReadChain(ss[i + 1..], from, remaining));
        }
      }
      ReadChainDone([], from, remaining);
      assert ss[|segments|..] == [] && results + [] == results;
    }

    /** The retention loop: pop leading segments while there is another one and the first entry is too old. */
    method Sweep(cutoff: real) returns (removed: nat)
      requires Valid()
      modifies this`segments
      ensures segments != [] && |segments| <= |old(segments)|
      ensures segments == old(segments)[|old(segments)| - |segments|..]
      ensures State() == RetainChain(old(State()), cutoff)
      ensures removed + |Flat(State())| == |Flat(old(State()))|
    {
      hide RetainChain, ReadSegment, Flat, SegmentOk, NextOf, State;
      removed := 0;
      ghost var before := State();
      assert forall i :: 0 <= i < |before| ==> SegmentOk(before[i]);
      assert before[0..] == before;
      hide Invariant;
      ghost var k, segs := 0, segments;
      while |segments| > 1
        invariant k + |segments| == |segs| && segments == segs[k..] && segments != []
        invariant State() == before[k..]
        invariant RetainChain(before[k..], cutoff) == RetainChain(before, cutoff)
        invariant removed + |Flat(before[k..])| == |Flat(before)|
        decreases |segments|
      {
        var segment := segments[0];
        RetainNext(before, k, cutoff);
        var entries := segment.Read(segment.baseOffset, 1);
        if entries != [] && entries[0].timestamp < cutoff {
          removed := removed + |segment.entries|;
          segments := segments[1..];
          k := k + 1;
          forall i | 0 <= i < |segments| ensures State()[i] == before[k..][i] {
            assert segments[i] == segs[k + i];
          }
        } else {
          return;
        }
      }
      RetainLast(before[k..], cutoff);
    }

    method ApplyRetention(now: real) returns (removed: nat)
      requires Valid()
      modifies this`segments
      ensures Valid() && (set s | s in segments) <= old(set s | s in segments)
      ensures State() == if retentionMs <= 0 then old(State())
                         else RetainChain(old(State()), now - retentionMs as real / 1000.0)
      ensures removed == |Flat(old(State()))| - |Flat(State())|
    {
      hide RetainChain, Flat, SegmentOk, Chained, State;
      removed := 0;
      if retentionMs > 0 {
        var cutoff := now - retentionMs as real / 1000.0;
        RetainKeepsInvariant(State(), cutoff);
        hide Invariant;
        removed := Sweep(cutoff);
      }
    }

    /** Everything in the log, read segment by segment. */
    method AllEntries() returns (all: seq<LogEntry>)
      requires Valid()
      ensures all == Flat(State())
    {
      ghost var ss := State();
      all := [];
      for i := 0 to |segments|
        invariant all + Flat(ss[i..]) == Flat(ss)
      {
        assert ss[i..][1..] == ss[i + 1..];
        var entries := segments[i].Read(segments[i].baseOffset, |segments[i].entries|);
        assert entries == segments[i].entries == ss[i].entries;
        all := all + entries;
      }
    }

    method Rewrite(base: int, survivors: seq<LogEntry>, now: real) returns (added: LogSegment)
      ensures fresh(added) && added.maxBytes == segmentMaxBytes
      ensures added.State() == Segment(base, Renumbered(base, survivors, now), Bytes(Renumbered(base, survivors, now)))
    {
      added := new LogSegment(base, segmentMaxBytes);
      assert added.State() == Segment(base, Renumbered(base, survivors[..0], now),
                                      Bytes(Renumbered(base, survivors[..0], now)));
      hide Renumbered;
      hide Bytes;
      hide AppendTo;
      for i := 0 to |survivors|
        invariant fresh(added)
        invariant added.State() == Segment(base, Renumbered(base, survivors[..i], now),
                                           Bytes(Renumbered(base, survivors[..i], now)))
      {
        RenumberedNext(base, survivors, i, now);
        var _ := added.Append(survivors[i].key, survivors[i].value, now);
      }
      assert survivors[..|survivors|] == survivors;
    }

    method Compact(now: real) returns (removed: nat)
      requires Valid()
      modifies this`segments
      ensures Valid() && fresh(segments)
      ensures State() == Step(old(State()), segmentMaxBytes, CompactOp(now))
      ensures removed == |Compaction.SupersededIndices(Flat(old(State())), EntryKey)|
    {
      hide Renumbered;
      hide Bytes;
      hide Flat;
      ghost var before := State();
      CompactKeepsInvariant(before, now);
      hide Invariant;
      var all := AllEntries();
      var compacted := Compaction.CompactLog(all, EntryKey);
      Compaction.CompactCount(all, EntryKey);
      var base := if compacted != [] then compacted[0].offset else 0;
      var added := Rewrite(base, compacted, now);
      segments := [added];
      assert State() == [added.State()];
      removed := |all| - |compacted|;
    }
  }
}

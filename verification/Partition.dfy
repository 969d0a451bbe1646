/**
 A partition: an offset-numbered log with retention, key compaction and one committed offset per
 consumer group.
 */
module Partitions {
  import opened Prelude
  import Compaction

  /** A message as the broker sees it; `sizeBytes` is the size the message reports for itself. */
  datatype Message = Message(id: string, key: Option<string>, value: seq<byte>, sizeBytes: nat, priority: int,
                             partition: int, offset: int, brokerTimestamp: real)

  /** The identity of a partition, used as the key of consumer positions. */
  datatype TopicPartition = TopicPartition(topic: string, id: int)

  datatype Config = Config(id: int, maxSize: int, retentionMs: int)

  datatype Log = Log(entries: seq<Message>, next: int, committed: map<string, int>)

  const EMPTY := Log([], 0, map[])

  function MessageKey(m: Message): Option<string> { m.key }

  function OffsetOf(m: Message): int { m.offset }

  // ---------------------------------------------------------------- operations on values

  predicate Full(cfg: Config, l: Log) {
    cfg.maxSize > 0 && |l.entries| >= cfg.maxSize
  }

  function Stamped(cfg: Config, l: Log, m: Message, now: real): Message {
    m.(partition := cfg.id, offset := l.next, brokerTimestamp := now)
  }

  function AppendTo(cfg: Config, l: Log, m: Message, now: real): Log {
    if Full(cfg, l) then l
    else l.(entries := l.entries + [Stamped(cfg, l, m, now)], next := l.next + 1)
  }

  /** Indexes by distance from the first offset, as the source does. */
  function ReadLog(entries: seq<Message>, offset: int, maxMessages: int): seq<Message> {
    if entries == [] then []
    else
      var start := Max(offset - entries[0].offset, 0);
      if start >= |entries| then [] else Slice(entries, start, Min(start + maxMessages, |entries|))
  }

  function RetainedFrom(entries: seq<Message>, cutoff: real): seq<Message> {
    if entries == [] then []
    else if entries[0].brokerTimestamp >= cutoff then [entries[0]] + RetainedFrom(entries[1..], cutoff)
    else RetainedFrom(entries[1..], cutoff)
  }

  function Cutoff(cfg: Config, now: real): real { now - cfg.retentionMs as real / 1000.0 }

  function Retain(cfg: Config, l: Log, now: real): Log {
    if cfg.retentionMs <= 0 then l else l.(entries := RetainedFrom(l.entries, Cutoff(cfg, now)))
  }

  ghost function CompactLog(l: Log): Log {
    l.(entries := Compaction.Compact(l.entries, MessageKey))
  }

  function Committed(l: Log, group: string): int {
    if group in l.committed then l.committed[group] else 0
  }

  datatype LogOp =
    | Append(message: Message, now: real)
    | ApplyRetention(now: real)
    | Clear
    | Compact
    | Commit(group: string, offset: int)

  ghost function LogStep(cfg: Config, l: Log, op: LogOp): Log {
    match op
    case Append(m, now) => AppendTo(cfg, l, m, now)
    case ApplyRetention(now) => Retain(cfg, l, now)
    case Clear => l.(entries := [])
    case Compact => CompactLog(l)
    case Commit(g, o) => l.(committed := l.committed[g := o])
  }

  ghost function LogRun(cfg: Config, l: Log, ops: seq<LogOp>): Log {
    if ops == [] then l else LogStep(cfg, LogRun(cfg, l, ops[..|ops| - 1]), ops[|ops| - 1])
  }

  /** The messages a run accepted, as stamped. */
  ghost function Accepted(cfg: Config, l: Log, ops: seq<LogOp>): seq<Message> {
    if ops == [] then []
    else
      var before := LogRun(cfg, l, ops[..|ops| - 1]);
      var op := ops[|ops| - 1];
      Accepted(cfg, l, ops[..|ops| - 1]) +
      if op.Append? && !Full(cfg, before) then [Stamped(cfg, before, op.message, op.now)] else []
  }

  // ---------------------------------------------------------------- offsets under any mix of operations

  ghost predicate Increasing(entries: seq<Message>) {
    forall i, j :: 0 <= i < j < |entries| ==> entries[i].offset < entries[j].offset
  }

  ghost predicate Ordered(l: Log) {
    && 0 <= l.next
    && Increasing(l.entries)
    && forall m :: m in l.entries ==> 0 <= m.offset < l.next
  }

  lemma {:induction false} RetainedIsSubsequence(entries: seq<Message>, cutoff: real)
    requires Increasing(entries)
    ensures Increasing(RetainedFrom(entries, cutoff))
    ensures forall m :: m in RetainedFrom(entries, cutoff) <==> m in entries && m.brokerTimestamp >= cutoff
  {
    if entries == [] {
    } else {
      RetainedIsSubsequence(entries[1..], cutoff);
      var rest := RetainedFrom(entries[1..], cutoff);
      forall j | 0 <= j < |rest| ensures entries[0].offset < rest[j].offset {
        assert rest[j] in entries[1..];
      }
      assert entries == [entries[0]] + entries[1..];
    }
  }

  lemma {:induction false} CompactIsSubsequence(entries: seq<Message>)
    requires Increasing(entries)
    ensures Increasing(Compaction.Compact(entries, MessageKey))
    ensures forall m :: m in Compaction.Compact(entries, MessageKey) ==> m in entries
  {
    if entries == [] {
    } else {
      CompactIsSubsequence(entries[1..]);
      var rest := Compaction.Compact(entries[1..], MessageKey);
      forall j | 0 <= j < |rest| ensures entries[0].offset < rest[j].offset {
        assert rest[j] in entries[1..];
      }
    }
  }

  lemma StepOrdered(cfg: Config, l: Log, op: LogOp)
    requires Ordered(l)
    ensures Ordered(LogStep(cfg, l, op)) && l.next <= LogStep(cfg, l, op).next
  {
    match op
    case ApplyRetention(now) => RetainedIsSubsequence(l.entries, Cutoff(cfg, now));
    case Compact => CompactIsSubsequence(l.entries);
    case _ =>
  }

  /**
   After any mix of operations the log is strictly increasing below the next offset, and every
   surviving message is the accepted message that carries its offset: survivors keep append order.
   */
  lemma {:induction false} RunKeepsOffsets(cfg: Config, ops: seq<LogOp>)
    ensures Ordered(LogRun(cfg, EMPTY, ops))
    ensures LogRun(cfg, EMPTY, ops).next == |Accepted(cfg, EMPTY, ops)|
    ensures forall i :: 0 <= i < |Accepted(cfg, EMPTY, ops)| ==> Accepted(cfg, EMPTY, ops)[i].offset == i
    ensures forall m :: m in LogRun(cfg, EMPTY, ops).entries ==>
                          0 <= m.offset < |Accepted(cfg, EMPTY, ops)| && Accepted(cfg, EMPTY, ops)[m.offset] == m
  {
    if ops == [] {
    } else {
      var n := |ops| - 1;
      RunKeepsOffsets(cfg, ops[..n]);
      var l := LogRun(cfg, EMPTY, ops[..n]);
      StepOrdered(cfg, l, ops[n]);
      match ops[n]
      case ApplyRetention(now) => RetainedIsSubsequence(l.entries, Cutoff(cfg, now));
      case Compact => CompactIsSubsequence(l.entries);
      case _ =>
    }
  }

  /** A read never goes back: whatever was compacted or retained away, no message below the offset is returned. */
  lemma ReadNeverBelow(entries: seq<Message>, offset: int, maxMessages: int)
    requires Increasing(entries)
    ensures forall m :: m in ReadLog(entries, offset, maxMessages) ==> m in entries && m.offset >= offset
  {
    var r := ReadLog(entries, offset, maxMessages);
    if entries != [] {
      var start := Max(offset - entries[0].offset, 0);
      forall i | 0 <= i < |r| ensures r[i] in entries && r[i].offset >= offset {
        assert r[i] == entries[start + i];
        OffsetsGrow(entries, OffsetOf, 0, start + i);
      }
    }
  }

  // ---------------------------------------------------------------- what an exact read would be

  ghost predicate Contiguous(entries: seq<Message>) {
    forall i :: 0 <= i < |entries| ==> entries[i].offset == entries[0].offset + i
  }

  lemma TailSlice(entries: seq<Message>, i: nat, j: nat)
    requires 0 < i <= j <= |entries|
    ensures entries[1..][i - 1..j - 1] == entries[i..j]
  {
  }

  lemma HeadAndSlice(entries: seq<Message>, last: nat)
    requires 0 < last <= |entries|
    ensures [entries[0]] + entries[1..][..last - 1] == entries[..last]
  {
  }

  lemma {:induction false} FirstFromIsSlice(entries: seq<Message>, offset: int, n: nat, c: nat)
    requires c <= |entries|
    requires forall i :: 0 <= i < c ==> entries[i].offset < offset
    requires forall i :: c <= i < |entries| ==> entries[i].offset >= offset
    ensures FirstFrom(entries, OffsetOf, offset, n) == entries[c..Min(c + n, |entries|)]
  {
    if entries != [] && n > 0 {
      var last := Min(c + n, |entries|);
      if c > 0 {
        FirstFromIsSlice(entries[1..], offset, n, c - 1);
        TailSlice(entries, c, last);
      } else {
        FirstFromIsSlice(entries[1..], offset, n - 1, 0);
        HeadAndSlice(entries, last);
      }
    }
  }

  lemma {:induction false} SplitPoint(entries: seq<Message>, offset: int) returns (c: nat)
    requires Increasing(entries)
    ensures c <= |entries|
    ensures forall i :: 0 <= i < c ==> entries[i].offset < offset
    ensures forall i :: c <= i < |entries| ==> entries[i].offset >= offset
  {
    c := 0;
    while c < |entries| && entries[c].offset < offset
      invariant c <= |entries| && forall i :: 0 <= i < c ==> entries[i].offset < offset
    {
      c := c + 1;
    }
  }

  /**
   One call of `read` is exact if and only if the entry just before the index it computes lies below
   the requested offset.
   */
  lemma {:induction false} ReadCallExactIff(entries: seq<Message>, offset: int, n: nat)
    requires Increasing(entries) && entries != [] && n > 0
    ensures ReadLog(entries, offset, n) == FirstFrom(entries, OffsetOf, offset, n) <==>
            var start := offset - entries[0].offset;
            start <= 0 || entries[Min(start, |entries|) - 1].offset < offset
  {
    var s: nat := Min(Max(offset - entries[0].offset, 0), |entries|);
    var c := SplitPoint(entries, offset);
    FirstFromIsSlice(entries, offset, n, c);
    ReadIsSlice(entries, offset, n);
    if s < |entries| {
      OffsetsGrow(entries, OffsetOf, 0, s);
    }
    SlicesAgreeIff(entries, c, s, n);
  }

  lemma ReadIsSlice(entries: seq<Message>, offset: int, n: nat)
    requires entries != []
    ensures var s := Min(Max(offset - entries[0].offset, 0), |entries|);
            ReadLog(entries, offset, n) == entries[s..Min(s + n, |entries|)]
  {
  }

  lemma SlicesAgreeIff(entries: seq<Message>, c: nat, s: nat, n: nat)
    requires Increasing(entries) && c <= s <= |entries| && n > 0
    ensures entries[s..Min(s + n, |entries|)] == entries[c..Min(c + n, |entries|)] <==> c == s
  {
    if c < s {
      assert entries[c..Min(c + n, |entries|)][0] == entries[c];
    }
  }

  /** `read` is exact for every offset and count if and only if the log has no gap. */
  lemma ReadExactIffContiguous(entries: seq<Message>)
    requires Increasing(entries)
    ensures (forall offset: int, n: nat :: ReadLog(entries, offset, n) == FirstFrom(entries, OffsetOf, offset, n))
            <==> Contiguous(entries)
  {
    if Contiguous(entries) {
      forall offset: int, n: nat ensures ReadLog(entries, offset, n) == FirstFrom(entries, OffsetOf, offset, n) {
        if entries != [] && n > 0 {
          ReadCallExactIff(entries, offset, n);
        }
      }
    } else {
      var i :| 0 <= i < |entries| && entries[i].offset != entries[0].offset + i;
      OffsetsGrow(entries, OffsetOf, 0, i);
      var start := entries[i].offset - entries[0].offset;
      assert entries[Min(start, |entries|) - 1].offset >= entries[i].offset;
      ReadCallExactIff(entries, entries[i].offset, 1);
    }
  }

  /** After compaction a read can skip a live message: offset 3 is in the log, and reading from 3 finds nothing. */
  lemma CompactedReadSkips()
    ensures exists cfg: Config, ops: seq<LogOp> ::
              var l := LogRun(cfg, EMPTY, ops);
              (exists m :: m in l.entries && m.offset == 3) && ReadLog(l.entries, 3, 100) == []
  {
    var cfg := Config(0, 0, 0);
    var plain := Message("", None, [], 0, 0, -1, -1, 0.0);
    var a, b := plain.(key := Some("a")), plain.(key := Some("b"));
    var ops := [Append(plain, 0.0), Append(a, 0.0), Append(a, 0.0), Append(b, 0.0)];
    var e0, e1 := plain.(partition := 0, offset := 0), a.(partition := 0, offset := 1);
    var e2, e3 := a.(partition := 0, offset := 2), b.(partition := 0, offset := 3);
    RunAppends(cfg, ops, [e0, e1, e2, e3]);
    assert (ops + [Compact])[..4] == ops;
    CompactFour(e0, e1, e2, e3);
    var l := LogRun(cfg, EMPTY, ops + [Compact]);
    assert l.entries == [e0, e2, e3];
    assert e3 in l.entries && ReadLog(l.entries, 3, 100) == [];
  }

  lemma CompactFour(e0: Message, e1: Message, e2: Message, e3: Message)
    requires e0.key == None && e1.key == e2.key == Some("a") && e3.key == Some("b")
    ensures Compaction.Compact([e0, e1, e2, e3], MessageKey) == [e0, e2, e3]
  {
    assert [e0, e1, e2, e3][1..] == [e1, e2, e3] && [e1, e2, e3][1..] == [e2, e3] && [e2, e3][1..] == [e3];
    assert Compaction.Compact([e3], MessageKey) == [e3];
    assert Compaction.Compact([e2, e3], MessageKey) == [e2, e3];
    assert Compaction.HasKey([e2, e3], MessageKey, "a") by { assert MessageKey([e2, e3][0]) == Some("a"); }
    assert Compaction.Compact([e1, e2, e3], MessageKey) == [e2, e3];
  }

  lemma {:induction false} RunAppends(cfg: Config, ops: seq<LogOp>, stamped: seq<Message>)
    requires cfg.maxSize <= 0 && |stamped| == |ops|
    requires forall i :: 0 <= i < |ops| ==>
                           ops[i].Append? &&
                           stamped[i]
                               == ops[i].message.(partition := cfg.id, offset := i, brokerTimestamp := ops[i].now)
    ensures LogRun(cfg, EMPTY, ops) == Log(stamped, |ops|, map[])
  {
    if ops == [] {
    } else {
      var n := |ops| - 1;
      RunAppends(cfg, ops[..n], stamped[..n]);
      assert stamped == stamped[..n] + [stamped[n]];
    }
  }

  // ---------------------------------------------------------------- age and size

  lemma {:induction false} RetainedSame(entries: seq<Message>, cutoff: real)
    ensures forall m :: m in RetainedFrom(entries, cutoff) <==> m in entries && m.brokerTimestamp >= cutoff
  {
    if entries == [] {
    } else {
      RetainedSame(entries[1..], cutoff);
      assert entries == [entries[0]] + entries[1..];
    }
  }

  lemma OldIff(cfg: Config, now: real, timestamp: real)
    ensures timestamp >= Cutoff(cfg, now) <==> (now - timestamp) * 1000.0 <= cfg.retentionMs as real
  {
  }

  /** Retention keeps exactly what is not older than it allows, in milliseconds; without a limit everything. */
  lemma KeepsTheYoung(cfg: Config, l: Log, now: real)
    ensures forall m :: m in Retain(cfg, l, now).entries <==>
                          && m in l.entries
                          && (cfg.retentionMs <= 0 || (now - m.brokerTimestamp) * 1000.0 <= cfg.retentionMs as real)
  {
    RetainedSame(l.entries, Cutoff(cfg, now));
    forall m: Message ensures m.brokerTimestamp >= Cutoff(cfg, now)
                     <==> (now - m.brokerTimestamp) * 1000.0 <= cfg.retentionMs as real {
      OldIff(cfg, now, m.brokerTimestamp);
    }
    hide Cutoff;
  }

  lemma {:induction false} RetainedCount(entries: seq<Message>, cutoff: real)
    ensures |RetainedFrom(entries, cutoff)| <= |entries|
  {
    if entries == [] {
    } else {
      RetainedCount(entries[1..], cutoff);
    }
  }

  /** A bounded partition never holds more than its bound, and accepts a message exactly while it holds less. */
  lemma {:induction false} BoundedBySize(cfg: Config, ops: seq<LogOp>, m: Message, now: real)
    ensures cfg.maxSize > 0 ==> |LogRun(cfg, EMPTY, ops).entries| <= cfg.maxSize
    ensures LogStep(cfg, LogRun(cfg, EMPTY, ops), Append(m, now)).next == LogRun(cfg, EMPTY, ops).next + 1
            <==> cfg.maxSize <= 0 || |LogRun(cfg, EMPTY, ops).entries| < cfg.maxSize
  {
    if ops == [] {
    } else {
      var n := |ops| - 1;
      var l := LogRun(cfg, EMPTY, ops[..n]);
      BoundedBySize(cfg, ops[..n], m, now);
      match ops[n]
      case ApplyRetention(t) => RetainedCount(l.entries, Cutoff(cfg, t));
      case Compact => Compaction.CompactCount(l.entries, MessageKey);
      case _ =>
    }
  }

  // ------------------------------------------------ runs without compaction, on a clock that never goes back

  /** The log is exactly the last |entries| offsets that were handed out. */
  ghost predicate Dense(l: Log) {
    && |l.entries| <= l.next
    && forall i :: 0 <= i < |l.entries| ==> l.entries[i].offset == l.next - |l.entries| + i
  }

  ghost predicate Clocked(l: Log, t: real) {
    && (forall i, j :: 0 <= i <= j < |l.entries| ==> l.entries[i].brokerTimestamp <= l.entries[j].brokerTimestamp)
    && forall i :: 0 <= i < |l.entries| ==> l.entries[i].brokerTimestamp <= t
  }

  ghost predicate Timely(op: LogOp, t: real) {
    match op
    case Append(_, now) => now >= t
    case ApplyRetention(now) => now >= t
    case Compact => false
    case _ => true
  }

  ghost function Clock(op: LogOp, t: real): real {
    match op
    case Append(_, now) => now
    case ApplyRetention(now) => now
    case _ => t
  }

  ghost function FinalClock(t: real, ops: seq<LogOp>): real {
    if ops == [] then t else Clock(ops[|ops| - 1], FinalClock(t, ops[..|ops| - 1]))
  }

  /** No compaction, and the times of a run never go back. */
  ghost predicate TimelyRun(t: real, ops: seq<LogOp>) {
    ops == [] ||
    (TimelyRun(t, ops[..|ops| - 1]) && Timely(ops[|ops| - 1], FinalClock(t, ops[..|ops| - 1])))
  }

  /** With timestamps in order, retention removes a prefix and nothing else. */
  lemma {:induction false} RetentionDropsPrefix(entries: seq<Message>, cutoff: real)
    requires forall i, j :: 0 <= i <= j < |entries| ==> entries[i].brokerTimestamp <= entries[j].brokerTimestamp
    ensures |RetainedFrom(entries, cutoff)| <= |entries|
    ensures RetainedFrom(entries, cutoff) == entries[|entries| - |RetainedFrom(entries, cutoff)|..]
  {
    if entries == [] {
    } else {
      RetentionDropsPrefix(entries[1..], cutoff);
      if entries[0].brokerTimestamp >= cutoff {
        RetainedAll(entries, cutoff);
      }
    }
  }

  lemma {:induction false} RetainedAll(entries: seq<Message>, cutoff: real)
    requires forall i :: 0 <= i < |entries| ==> entries[i].brokerTimestamp >= cutoff
    ensures RetainedFrom(entries, cutoff) == entries
  {
    if entries == [] {
    } else {
      RetainedAll(entries[1..], cutoff);
    }
  }

  lemma StepDense(cfg: Config, l: Log, op: LogOp, t: real)
    requires Dense(l) && Clocked(l, t) && Timely(op, t)
    ensures Dense(LogStep(cfg, l, op)) && Clocked(LogStep(cfg, l, op), Clock(op, t))
  {
    if op.ApplyRetention? {
      RetentionDropsPrefix(l.entries, Cutoff(cfg, op.now));
      hide RetainedFrom;
    } else if op.Append? {
      AppendDense(cfg, l, op.message, op.now, t);
    }
  }

  lemma AppendDense(cfg: Config, l: Log, m: Message, now: real, t: real)
    requires Dense(l) && Clocked(l, t) && now >= t
    ensures Dense(AppendTo(cfg, l, m, now)) && Clocked(AppendTo(cfg, l, m, now), now)
  {
  }

  /** Hence, on every such run, `read` returns exactly the first n messages at or above the offset. */
  lemma {:induction false} TimelyRunReadsExactly(cfg: Config, t: real, ops: seq<LogOp>, offset: int, n: nat)
    requires TimelyRun(t, ops)
    ensures Dense(LogRun(cfg, EMPTY, ops)) && Clocked(LogRun(cfg, EMPTY, ops), FinalClock(t, ops))
    ensures ReadLog(LogRun(cfg, EMPTY, ops).entries, offset, n)
            == FirstFrom(LogRun(cfg, EMPTY, ops).entries, OffsetOf, offset, n)
  {
    if ops == [] {
    } else {
      TimelyRunReadsExactly(cfg, t, ops[..|ops| - 1], offset, n);
      StepDense(cfg, LogRun(cfg, EMPTY, ops[..|ops| - 1]), ops[|ops| - 1], FinalClock(t, ops[..|ops| - 1]));
    }
    var l := LogRun(cfg, EMPTY, ops);
    ReadExactIffContiguous(l.entries);
  }

  // ---------------------------------------------------------------- the object

  class Partition {
    const topic: string
    const partitionId: int
    const maxSize: int
    const retentionMs: int
    var log: seq<Message>
    var nextOffset: int
    var committedOffsets: map<string, int>

    constructor (topic: string, partitionId: int, maxSize: int, retentionMs: int)
      ensures this.topic == topic && Settings() == Config(partitionId, maxSize, retentionMs)
      ensures State() == EMPTY
    {
      this.topic, this.partitionId, this.maxSize, this.retentionMs := topic, partitionId, maxSize, retentionMs;
      log, nextOffset, committedOffsets := [], 0, map[];
    }

    function Settings(): Config { Config(partitionId, maxSize, retentionMs) }

    function Identity(): TopicPartition { TopicPartition(topic, partitionId) }

    function State(): Log
      reads this
    {
      Log(log, nextOffset, committedOffsets)
    }

    /** Returns the assigned offset, or nothing when the partition is full. */
    method Append(message: Message, now: real) returns (slot: Option<int>)
      modifies this
      ensures State() == LogStep(Settings(), old(State()), LogOp.Append(message, now))
      ensures slot.Some? <==> maxSize <= 0 || |old(log)| < maxSize
      ensures slot.Some? ==>
                && slot.value == old(nextOffset) && nextOffset == old(nextOffset) + 1
                && log == old(log) + [message.(partition := partitionId, offset := old(nextOffset),
                                               brokerTimestamp := now)]
      ensures slot.None? ==> log == old(log) && nextOffset == old(nextOffset)
      ensures committedOffsets == old(committedOffsets)
    {
      if maxSize > 0 && |log| >= maxSize {
        return None;
      }
      var offset := nextOffset;
      log := log + [message.(partition := partitionId, offset := offset, brokerTimestamp := now)];
      nextOffset := nextOffset + 1;
      return Some(offset);
    }

    method Read(offset: int, maxMessages: int) returns (batch: seq<Message>)
      ensures batch == ReadLog(log, offset, maxMessages)
    {
      if log == [] {
        return [];
      }
      var baseOffset := log[0].offset;
      var start := offset - baseOffset;
      if start < 0 {
        start := 0;
      }
      if start >= |log| {
        return [];
      }
      var end := Min(start + maxMessages, |log|);
      batch := Slice(log, start, end);
    }

    method CommitOffset(group: string, offset: int)
      modifies this`committedOffsets
      ensures State() == LogStep(Settings(), old(State()), LogOp.Commit(group, offset))
      ensures committedOffsets == old(committedOffsets)[group := offset]
    {
      committedOffsets := committedOffsets[group := offset];
    }

    method GetCommittedOffset(group: string) returns (offset: int)
      ensures offset == Committed(State(), group)
      ensures group in committedOffsets ==> offset == committedOffsets[group]
      ensures group !in committedOffsets ==> offset == 0
    {
      offset := if group in committedOffsets then committedOffsets[group] else 0;
    }

    method ApplyRetention(now: real) returns (removed: int)
      modifies this`log
      ensures State() == LogStep(Settings(), old(State()), LogOp.ApplyRetention(now))
      ensures removed == |old(log)| - |log|
      ensures forall m :: m in log <==>
                            && m in old(log)
                            && (retentionMs <= 0 || (now - m.brokerTimestamp) * 1000.0 <= retentionMs as real)
    {
      if retentionMs <= 0 {
        return 0;
      }
      var cutoff := now - retentionMs as real / 1000.0;
      var kept: seq<Message> := [];
      for i := 0 to |log|
        invariant kept + RetainedFrom(log[i..], cutoff) == RetainedFrom(log, cutoff)
        invariant log == old(log)
      {
        assert log[i..][1..] == log[i + 1..];
        if log[i].brokerTimestamp >= cutoff {
          kept := kept + [log[i]];
        }
      }
      removed := |log| - |kept|;
      log := kept;
      KeepsTheYoung(Settings(), old(State()), now);
    }

    method Compact() returns (removed: int)
      modifies this`log
      ensures State() == LogStep(Settings(), old(State()), LogOp.Compact)
      ensures removed == |Compaction.SupersededIndices(old(log), MessageKey)|
    {
      var compacted := Compaction.CompactLog(log, MessageKey);
      Compaction.CompactCount(log, MessageKey);
      removed := |log| - |compacted|;
      log := compacted;
    }

    method Clear()
      modifies this`log
      ensures State() == LogStep(Settings(), old(State()), LogOp.Clear) && log == []
    {
      log := [];
    }
  }
}

/** A topic: its partitions, and the choice of a partition for a message by key or by turn. */
module Topics {
  import opened Prelude
  import opened Partitions
  import Assignment

  datatype TopicConfig = TopicConfig(numPartitions: nat, retentionMs: int, maxMessageBytes: int, maxPartitionSize: int)

  datatype State = State(logs: seq<Log>, counter: nat)

  /** `NoPartitions` is the division by zero and `NoSuchPartition` the index error of the source. */
  datatype Outcome = Published(offset: int) | TooLarge | NoPartitions | NoSuchPartition | PartitionFull

  /** The hash of a key, as a number. */
  type Hash = string -> nat

  datatype TopicOp =
    | Publish(message: Message, now: real)
    | Maintain(partition: nat, op: LogOp)

  function ConfigOf(cfg: TopicConfig, id: int): Config { Config(id, cfg.maxPartitionSize, cfg.retentionMs) }

  ghost function Empty(cfg: TopicConfig): State { State(seq(cfg.numPartitions, i => EMPTY), 0) }

  predicate Oversized(cfg: TopicConfig, m: Message) {
    cfg.maxMessageBytes > 0 && m.sizeBytes > cfg.maxMessageBytes
  }

  /** Where a message goes; nothing when it names a partition that does not exist, or there is none. */
  function Route(hash: Hash, s: State, m: Message): (q: Option<nat>)
    ensures q.Some? ==> q.value < |s.logs|
  {
    if m.partition >= 0 then (if m.partition < |s.logs| then Some(m.partition) else None)
    else if |s.logs| == 0 then None
    else if m.key.Some? then Some(hash(m.key.value) % |s.logs|)
    else Some(s.counter % |s.logs|)
  }

  /** Publishing this message takes a turn of the round-robin counter. */
  predicate TakesTurn(cfg: TopicConfig, s: State, m: Message) {
    !Oversized(cfg, m) && m.partition < 0 && m.key.None? && |s.logs| > 0
  }

  function OutcomeOf(cfg: TopicConfig, hash: Hash, s: State, m: Message): Outcome {
    if Oversized(cfg, m) then TooLarge
    else
      var q := Route(hash, s, m);
      if q.None? then (if m.partition >= 0 then NoSuchPartition else NoPartitions)
      else if !Full(ConfigOf(cfg, q.value), s.logs[q.value]) then Published(s.logs[q.value].next)
      else PartitionFull
  }

  /** Any direct append to a partition goes through `Publish`. */
  ghost function Step(cfg: TopicConfig, hash: Hash, s: State, op: TopicOp): State {
    match op
    case Publish(m, now) =>
      var counter := if TakesTurn(cfg, s, m) then s.counter + 1 else s.counter;
      var q := Route(hash, s, m);
      if OutcomeOf(cfg, hash, s, m).Published? && q.Some?
      then State(s.logs[q.value := AppendTo(ConfigOf(cfg, q.value), s.logs[q.value], m, now)], counter)
      else s.(counter := counter)
    case Maintain(q, logOp) =>
      if q < |s.logs| && !logOp.Append? then s.(logs := s.logs[q := LogStep(ConfigOf(cfg, q), s.logs[q], logOp)]) else s
  }

  ghost function Run(cfg: TopicConfig, hash: Hash, ops: seq<TopicOp>): State {
    if ops == [] then Empty(cfg) else Step(cfg, hash, Run(cfg, hash, ops[..|ops| - 1]), ops[|ops| - 1])
  }

  // ---------------------------------------------------------------- each partition sees its own run

  /** What one step is to partition `q`. */
  ghost function LogOpsOf(cfg: TopicConfig, hash: Hash, s: State, op: TopicOp, q: nat): seq<LogOp> {
    match op
    case Publish(m, now) =>
      if OutcomeOf(cfg, hash, s, m).Published? && Route(hash, s, m) == Some(q) then [Append(m, now)] else []
    case Maintain(p, logOp) => if p == q && !logOp.Append? then [logOp] else []
  }

  ghost function Projected(cfg: TopicConfig, hash: Hash, ops: seq<TopicOp>, q: nat): seq<LogOp> {
    if ops == [] then []
    else Projected(cfg, hash, ops[..|ops| - 1], q)
         + LogOpsOf(cfg, hash, Run(cfg, hash, ops[..|ops| - 1]), ops[|ops| - 1], q)
  }

  lemma LogRunOneMore(cfg: Config, ops: seq<LogOp>, more: seq<LogOp>)
    requires |more| <= 1
    ensures LogRun(cfg, EMPTY, ops + more)
            == if more == [] then LogRun(cfg, EMPTY, ops) else LogStep(cfg, LogRun(cfg, EMPTY, ops), more[0])
  {
    assert more == [] ==> ops + more == ops;
    assert (ops + more)[..|ops|] == ops;
  }

  lemma AcceptedOneMore(cfg: Config, ops: seq<LogOp>, more: seq<LogOp>)
    requires |more| <= 1
    ensures Accepted(cfg, EMPTY, ops + more) ==
            Accepted(cfg, EMPTY, ops) +
            if more != [] && more[0].Append? && !Full(cfg, LogRun(cfg, EMPTY, ops))
            then [Stamped(cfg, LogRun(cfg, EMPTY, ops), more[0].message, more[0].now)] else []
  {
    assert more == [] ==> ops + more == ops;
    assert (ops + more)[..|ops|] == ops;
  }

  lemma StepOnPartition(cfg: TopicConfig, hash: Hash, s: State, op: TopicOp, q: nat)
    requires q < |s.logs|
    ensures |Step(cfg, hash, s, op).logs| == |s.logs|
    ensures var mine := LogOpsOf(cfg, hash, s, op, q);
            Step(cfg, hash, s, op).logs[q] == if mine == [] then s.logs[q]
                                              else LogStep(ConfigOf(cfg, q), s.logs[q], mine[0])
  {
  }

  /** A topic is its partitions side by side: each is the partition that ran its own part of the run. */
  lemma {:induction false} PartitionsRunApart(cfg: TopicConfig, hash: Hash, ops: seq<TopicOp>, q: nat)
    requires q < cfg.numPartitions
    ensures |Run(cfg, hash, ops).logs| == cfg.numPartitions
    ensures Run(cfg, hash, ops).logs[q] == LogRun(ConfigOf(cfg, q), EMPTY, Projected(cfg, hash, ops, q))
  {
    if ops == [] {
    } else {
      var rest, op := ops[..|ops| - 1], ops[|ops| - 1];
      PartitionsRunApart(cfg, hash, rest, q);
      StepOnPartition(cfg, hash, Run(cfg, hash, rest), op, q);
      LogRunOneMore(ConfigOf(cfg, q), Projected(cfg, hash, rest, q), LogOpsOf(cfg, hash, Run(cfg, hash, rest), op, q));
    }
  }

  // ---------------------------------------------------------------- order within a key

  ghost function OfKey(ms: seq<Message>, key: string): seq<Message> {
    if ms == [] then []
    else OfKey(ms[..|ms| - 1], key) + if ms[|ms| - 1].key == Some(key) then [ms[|ms| - 1]] else []
  }

  /** The messages of one key that the topic accepted, as stored, in publish order over all partitions. */
  ghost function PublishedOf(cfg: TopicConfig, hash: Hash, ops: seq<TopicOp>, key: string): seq<Message> {
    if ops == [] then []
    else
      var s, op := Run(cfg, hash, ops[..|ops| - 1]), ops[|ops| - 1];
      PublishedOf(cfg, hash, ops[..|ops| - 1], key) + Stored(cfg, hash, s, op, key)
  }

  ghost function Stored(cfg: TopicConfig, hash: Hash, s: State, op: TopicOp, key: string): seq<Message> {
    if !op.Publish? || op.message.key != Some(key) || !OutcomeOf(cfg, hash, s, op.message).Published? then []
    else
      var q := Route(hash, s, op.message);
      if q.Some? then [Stamped(ConfigOf(cfg, q.value), s.logs[q.value], op.message, op.now)] else []
  }

  function Home(cfg: TopicConfig, hash: Hash, key: string): nat
    requires cfg.numPartitions > 0
  {
    hash(key) % cfg.numPartitions
  }

  /** An accepted publish of the key that asked for a partition other than the one its hash gives. */
  ghost predicate Foreign(cfg: TopicConfig, hash: Hash, s: State, op: TopicOp, key: string)
    requires cfg.numPartitions > 0
  {
    && op.Publish? && op.message.key == Some(key) && OutcomeOf(cfg, hash, s, op.message).Published?
    && op.message.partition >= 0 && op.message.partition != Home(cfg, hash, key)
  }

  ghost predicate Homebound(cfg: TopicConfig, hash: Hash, ops: seq<TopicOp>, key: string)
    requires cfg.numPartitions > 0
  {
    ops == [] ||
    (Homebound(cfg, hash, ops[..|ops| - 1], key)
     && !Foreign(cfg, hash, Run(cfg, hash, ops[..|ops| - 1]), ops[|ops| - 1], key))
  }

  ghost function AcceptedBy(cfg: TopicConfig, hash: Hash, ops: seq<TopicOp>, q: nat): seq<Message> {
    Accepted(ConfigOf(cfg, q), EMPTY, Projected(cfg, hash, ops, q))
  }

  lemma OfKeyOneMore(ms: seq<Message>, more: seq<Message>, key: string)
    requires |more| <= 1
    ensures OfKey(ms + more, key) == OfKey(ms, key) + if more != [] && more[0].key == Some(key) then more else []
  {
    if more == [] {
      assert ms + more == ms;
    } else {
      assert (ms + more)[..|ms|] == ms && more == [more[0]];
    }
  }

  /** What a step adds to the messages that partition `q` accepted. */
  ghost function Added(cfg: TopicConfig, hash: Hash, s: State, op: TopicOp, q: nat): seq<Message>
    requires q < |s.logs|
  {
    var mine := LogOpsOf(cfg, hash, s, op, q);
    if mine != [] && mine[0].Append? && !Full(ConfigOf(cfg, q), s.logs[q])
    then [Stamped(ConfigOf(cfg, q), s.logs[q], mine[0].message, mine[0].now)] else []
  }

  lemma AcceptedStep(cfg: TopicConfig, hash: Hash, ops: seq<TopicOp>, key: string, q: nat)
    requires ops != [] && q < cfg.numPartitions == |Run(cfg, hash, ops[..|ops| - 1]).logs|
    ensures var added := Added(cfg, hash, Run(cfg, hash, ops[..|ops| - 1]), ops[|ops| - 1], q);
            && |added| <= 1
            && OfKey(AcceptedBy(cfg, hash, ops, q), key) ==
               OfKey(AcceptedBy(cfg, hash, ops[..|ops| - 1], q), key) +
               if added != [] && added[0].key == Some(key) then added else []
  {
    var rest, op := ops[..|ops| - 1], ops[|ops| - 1];
    var s := Run(cfg, hash, rest);
    PartitionsRunApart(cfg, hash, rest, q);
    AcceptedOneMore(ConfigOf(cfg, q), Projected(cfg, hash, rest, q), LogOpsOf(cfg, hash, s, op, q));
    OfKeyOneMore(AcceptedBy(cfg, hash, rest, q), Added(cfg, hash, s, op, q), key);
  }

  lemma AddedAtHome(cfg: TopicConfig, hash: Hash, s: State, op: TopicOp, key: string, q: nat)
    requires cfg.numPartitions > 0 && |s.logs| == cfg.numPartitions && q < |s.logs|
    requires !Foreign(cfg, hash, s, op, key)
    ensures var added := Added(cfg, hash, s, op, q);
            (if added != [] && added[0].key == Some(key) then added else [])
            == if q == Home(cfg, hash, key) then Stored(cfg, hash, s, op, key) else []
  {
  }

  lemma AddedAbroad(cfg: TopicConfig, hash: Hash, s: State, op: TopicOp, key: string) returns (q: nat)
    requires cfg.numPartitions > 0 && |s.logs| == cfg.numPartitions && Foreign(cfg, hash, s, op, key)
    ensures q < |s.logs| && q != Home(cfg, hash, key)
    ensures var added := Added(cfg, hash, s, op, q); |added| == 1 && added[0].key == Some(key)
  {
    q := op.message.partition;
  }

  lemma {:induction false} KeyGoesHome(cfg: TopicConfig, hash: Hash, ops: seq<TopicOp>, key: string, q: nat)
    requires q < cfg.numPartitions && Homebound(cfg, hash, ops, key)
    ensures OfKey(AcceptedBy(cfg, hash, ops, q), key)
            == if q == Home(cfg, hash, key) then PublishedOf(cfg, hash, ops, key) else []
  {
    if ops == [] {
    } else {
      var rest, op := ops[..|ops| - 1], ops[|ops| - 1];
      KeyGoesHome(cfg, hash, rest, key, q);
      PartitionsRunApart(cfg, hash, rest, q);
      AddedAtHome(cfg, hash, Run(cfg, hash, rest), op, key, q);
      AcceptedStep(cfg, hash, ops, key, q);
    }
  }

  /** All accepted messages of a key are in the partition of its hash if and only if none was sent elsewhere by name. */
  lemma {:induction false} OnePartitionIff(cfg: TopicConfig, hash: Hash, ops: seq<TopicOp>, key: string)
    requires cfg.numPartitions > 0
    ensures Homebound(cfg, hash, ops, key) <==>
            forall q: nat :: q < cfg.numPartitions && q != Home(cfg, hash, key) ==>
                  OfKey(AcceptedBy(cfg, hash, ops, q), key) == []
  {
    if Homebound(cfg, hash, ops, key) {
      forall q: nat | q < cfg.numPartitions && q != Home(cfg, hash, key)
        ensures OfKey(AcceptedBy(cfg, hash, ops, q), key) == []
      {
        KeyGoesHome(cfg, hash, ops, key, q);
      }
    } else {
      var rest := ops[..|ops| - 1];
      OnePartitionIff(cfg, hash, rest, key);
      PartitionsRunApart(cfg, hash, rest, 0);
      if !Homebound(cfg, hash, rest, key) {
        var q: nat :| q < cfg.numPartitions && q != Home(cfg, hash, key)
            && OfKey(AcceptedBy(cfg, hash, rest, q), key) != [];
        AcceptedStep(cfg, hash, ops, key, q);
      } else {
        var q := AddedAbroad(cfg, hash, Run(cfg, hash, rest), ops[|ops| - 1], key);
        AcceptedStep(cfg, hash, ops, key, q);
      }
    }
  }

  lemma {:induction false} OfKeyMembers(ms: seq<Message>, key: string, m: Message)
    requires m in ms && m.key == Some(key)
    ensures m in OfKey(ms, key)
  {
    assert ms == ms[..|ms| - 1] + [ms[|ms| - 1]];
    if m != ms[|ms| - 1] {
      OfKeyMembers(ms[..|ms| - 1], key, m);
    }
  }

  lemma {:induction false} OfKeyIncreasing(ms: seq<Message>, key: string)
    requires Increasing(ms)
    ensures Increasing(OfKey(ms, key)) && forall m :: m in OfKey(ms, key) ==> m in ms
  {
    if ms == [] {
    } else {
      OfKeyIncreasing(ms[..|ms| - 1], key);
      assert ms == ms[..|ms| - 1] + [ms[|ms| - 1]];
      forall m | m in OfKey(ms[..|ms| - 1], key) ensures m.offset < ms[|ms| - 1].offset {
        var i :| 0 <= i < |ms| - 1 && ms[i] == m;
      }
    }
  }

  /**
   Per-key order: in every run of publishes, retention, compaction and clearing in which no accepted
   publish of a key named a foreign partition, the messages accepted for that key get strictly increasing offsets
   in publish order, every one that survives is in the one partition given by the hash, and the
   survivors stand in publish order.
   */
  lemma {:induction false} PerKeyOrder(cfg: TopicConfig, hash: Hash, ops: seq<TopicOp>, key: string, q: nat)
    requires q < cfg.numPartitions && Homebound(cfg, hash, ops, key)
    ensures var s, sent := Run(cfg, hash, ops), PublishedOf(cfg, hash, ops, key);
            && |s.logs| == cfg.numPartitions
            && Increasing(sent)
            && Increasing(s.logs[q].entries)
            && forall m :: m in s.logs[q].entries && m.key == Some(key) ==> q == Home(cfg, hash, key) && m in sent
  {
    hide Run, PublishedOf, Projected, OfKey, LogRun, Accepted, Homebound;
    var home := Home(cfg, hash, key);
    KeyGoesHome(cfg, hash, ops, key, q);
    KeyGoesHome(cfg, hash, ops, key, home);
    PartitionsRunApart(cfg, hash, ops, q);
    RunKeepsOffsets(ConfigOf(cfg, q), Projected(cfg, hash, ops, q));
    RunKeepsOffsets(ConfigOf(cfg, home), Projected(cfg, hash, ops, home));
    OfKeyIncreasing(AcceptedBy(cfg, hash, ops, home), key);
    forall m | m in Run(cfg, hash, ops).logs[q].entries && m.key == Some(key)
      ensures q == home && m in PublishedOf(cfg, hash, ops, key)
    {
      OfKeyMembers(AcceptedBy(cfg, hash, ops, q), key, m);
    }
  }

  /** A publish that asks for a foreign partition breaks the order: two messages of one key with the same offset. */
  lemma ForeignPartitionBreaksOrder(cfg: TopicConfig, hash: Hash)
    requires cfg.numPartitions > 1 && cfg.maxMessageBytes <= 0 && cfg.maxPartitionSize <= 0
    ensures exists ops :: !Increasing(PublishedOf(cfg, hash, ops, "k"))
  {
    var home := Home(cfg, hash, "k");
    var other := if home == 0 then 1 else 0;
    var m := Message("a", Some("k"), [], 0, 0, -1, -1, 0.0);
    var first, second := Publish(m, 0.0), Publish(m.(id := "b", partition := other), 0.0);
    var ops := [first] + [second];
    assert ops[..1] == [first] && [first][..0] == [];
    assert Run(cfg, hash, []) == Empty(cfg);
    assert PublishedOf(cfg, hash, [first], "k") == [] + Stored(cfg, hash, Empty(cfg), first, "k");
    var sent := PublishedOf(cfg, hash, ops, "k");
    assert |sent| == 2 && sent[0].offset == 0 && sent[1].offset == 0;
  }

  // ---------------------------------------------------------------- fairness

  /** The partitions that were chosen by turn, in order. */
  ghost function ChosenByTurn(cfg: TopicConfig, hash: Hash, ops: seq<TopicOp>): seq<nat> {
    if ops == [] then []
    else
      var s, op := Run(cfg, hash, ops[..|ops| - 1]), ops[|ops| - 1];
      ChosenByTurn(cfg, hash, ops[..|ops| - 1]) +
      if op.Publish? && TakesTurn(cfg, s, op.message) && Route(hash, s, op.message).Some?
      then [Route(hash, s, op.message).value] else []
  }

  lemma StepCounts(cfg: TopicConfig, hash: Hash, s: State, op: TopicOp)
    ensures |Step(cfg, hash, s, op).logs| == |s.logs|
    ensures Step(cfg, hash, s, op).counter == s.counter + if op.Publish? && TakesTurn(cfg, s, op.message) then 1 else 0
  {
  }

  /** Keyless messages take turns: the i-th choice is partition i modulo the number of partitions, full or not. */
  lemma {:induction false} TurnsGoRound(cfg: TopicConfig, hash: Hash, ops: seq<TopicOp>)
    ensures var chosen := ChosenByTurn(cfg, hash, ops);
            && |Run(cfg, hash, ops).logs| == cfg.numPartitions
            && |chosen| == Run(cfg, hash, ops).counter
            && (cfg.numPartitions == 0 ==> chosen == [])
            && (cfg.numPartitions > 0 ==> forall i :: 0 <= i < |chosen| ==> chosen[i] == i % cfg.numPartitions)
  {
    if ops == [] {
    } else {
      TurnsGoRound(cfg, hash, ops[..|ops| - 1]);
      StepCounts(cfg, hash, Run(cfg, hash, ops[..|ops| - 1]), ops[|ops| - 1]);
    }
  }

  /**
   Fairness: after n keyless choices among P partitions, partition q was chosen n / P times, or once more
   if q < n % P.
   */
  lemma {:induction false} TurnsAreFair(cfg: TopicConfig, hash: Hash, ops: seq<TopicOp>, q: nat)
    requires q < cfg.numPartitions
    ensures var chosen := ChosenByTurn(cfg, hash, ops);
            multiset(chosen)[q] == |chosen| / cfg.numPartitions + if q < |chosen| % cfg.numPartitions then 1 else 0
  {
    TurnsGoRound(cfg, hash, ops);
    CyclicCount(ChosenByTurn(cfg, hash, ops), cfg.numPartitions, q);
  }

  lemma {:induction false} CyclicCount(chosen: seq<nat>, m: nat, q: nat)
    requires q < m && forall i :: 0 <= i < |chosen| ==> chosen[i] == i % m
    ensures multiset(chosen)[q] == Assignment.Quota(|chosen| / m, |chosen| % m, q)
  {
    if chosen == [] {
      DivisionIsUnique(0, m, 0, 0);
    } else {
      var n := |chosen| - 1;
      CyclicCount(chosen[..n], m, q);
      assert chosen == chosen[..n] + [chosen[n]];
      Assignment.QuotaGrows(n, m, q);
    }
  }

  // ---------------------------------------------------------------- the object

  class Topic {
    const name: string
    const config: TopicConfig
    const hash: Hash
    const partitions: seq<Partition>
    var roundRobinCounter: nat

    constructor (name: string, config: TopicConfig, hash: Hash)
      ensures this.name == name && this.config == config && this.hash == hash
      ensures Valid() && forall p :: p in partitions ==> fresh(p)
      ensures Abstract() == Empty(config)
      ensures forall i :: 0 <= i < |partitions| ==>
                            && partitions[i].partitionId == i && partitions[i].topic == name
                            && partitions[i].maxSize == config.maxPartitionSize
                            && partitions[i].retentionMs == config.retentionMs
    {
      this.name, this.config, this.hash := name, config, hash;
      var made: seq<Partition> := [];
      for i := 0 to config.numPartitions
        invariant |made| == i
        invariant forall j :: 0 <= j < i ==> fresh(made[j]) && made[j].Settings() == ConfigOf(config, j)
        invariant forall j :: 0 <= j < i ==> made[j].topic == name && made[j].State() == EMPTY
        invariant forall j, k :: 0 <= j < k < i ==> made[j] != made[k]
      {
        var p := new Partition(name, i, config.maxPartitionSize, config.retentionMs);
        made := made + [p];
      }
      partitions := made;
      roundRobinCounter := 0;
    }

    ghost function Abstract(): State
      reads this, partitions
    {
      State(seq(|partitions|, i requires 0 <= i < |partitions| reads this, partitions => partitions[i].State()),
            roundRobinCounter)
    }

    ghost predicate Valid()
      reads this, partitions
    {
      && |partitions| == config.numPartitions
      && (forall i :: 0 <= i < |partitions| ==>
                        partitions[i].topic == name && partitions[i].Settings() == ConfigOf(config, i))
      && forall i, j :: 0 <= i < j < |partitions| ==> partitions[i] != partitions[j]
    }

    /** Nothing when there is no partition to choose from. */
    method AssignPartition(key: Option<string>) returns (chosen: Option<nat>)
      requires Valid()
      modifies this`roundRobinCounter
      ensures Valid()
      ensures forall m: Message :: m.partition < 0 && m.key == key ==> chosen == Route(hash, old(Abstract()), m)
      ensures roundRobinCounter == old(roundRobinCounter) + if key.None? && |partitions| > 0 then 1 else 0
    {
      if |partitions| == 0 {
        return None;
      }
      if key.Some? {
        return Some(hash(key.value) % |partitions|);
      }
      var turn := roundRobinCounter % |partitions|;
      roundRobinCounter := roundRobinCounter + 1;
      return Some(turn);
    }

    method Publish(message: Message, now: real) returns (outcome: Outcome)
      requires Valid()
      modifies this`roundRobinCounter, partitions
      ensures Valid()
      ensures outcome == OutcomeOf(config, hash, old(Abstract()), message)
      ensures outcome == TooLarge <==> config.maxMessageBytes > 0 && message.sizeBytes > config.maxMessageBytes
      ensures outcome == NoPartitions ==> message.partition < 0 && partitions == []
      ensures outcome == NoSuchPartition ==> message.partition >= |partitions|
      ensures outcome.Published? || outcome == PartitionFull ==>
                && message.partition < |partitions| && partitions != []
                && var q := if message.partition >= 0 then message.partition
                            else if message.key.Some? then hash(message.key.value) % |partitions|
                            else old(roundRobinCounter) % |partitions|;
                && (outcome == PartitionFull <==>
                    config.maxPartitionSize > 0 && |old(partitions[q].log)| >= config.maxPartitionSize)
                && (outcome.Published? ==>
                      && outcome.offset == old(partitions[q].nextOffset)
                      && partitions[q].log == old(partitions[q].log)
                                              + [message.(partition := q, offset := outcome.offset,
                                                          brokerTimestamp := now)])
                && forall i :: 0 <= i < |partitions| && i != q ==> partitions[i].log == old(partitions[i].log)
      ensures roundRobinCounter == old(roundRobinCounter)
                                   + if outcome != TooLarge && message.partition < 0 && message.key.None?
                                        && partitions != [] then 1 else 0
      ensures Abstract() == Step(config, hash, old(Abstract()), TopicOp.Publish(message, now))
    {
      if config.maxMessageBytes > 0 && message.sizeBytes > config.maxMessageBytes {
        return TooLarge;
      }
      var target: nat;
      if message.partition < 0 {
        var chosen := AssignPartition(message.key);
        if chosen.None? {
          return NoPartitions;
        }
        target := chosen.value;
      } else if message.partition < |partitions| {
        target := message.partition;
      } else {
        return NoSuchPartition;
      }
      ghost var before := old(Abstract());
      var slot := partitions[target].Append(message, now);
      assert forall i :: 0 <= i < |partitions| && i != target ==> partitions[i].State() == before.logs[i];
      outcome := if slot.Some? then Published(slot.value) else PartitionFull;
      ghost var stored := AppendTo(ConfigOf(config, target), before.logs[target], message, now);
      assert Abstract().logs == if slot.Some? then before.logs[target := stored] else before.logs;
    }
  }
}

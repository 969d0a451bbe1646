/**
 The log and consumer-group protocol as a state machine: producers append, retention removes, groups
 redistribute partitions, consumers poll from private positions and commit them. A history records
 what polls handed to each group, what they moved past without handing over, and what was removed.
 */
module ConsumerProtocol {
  import opened Prelude
  import opened Partitions
  import opened Polling
  import opened Assignment
  import OrderedDict

  type GroupId = string
  type ConsumerId = string

  datatype Settings = Settings(autoCommit: bool, autoCommitInterval: real, maxPollMessages: int, sessionTimeout: real)

  datatype ConsumerState = ConsumerState(settings: Settings, group: GroupId, owned: seq<TopicPartition>,
                                         offsets: Offsets,
                                         lastPoll: real, lastCommit: real, active: bool)

  /** Members in joining order; subscribed topics, each with its partitions. */
  datatype GroupState = GroupState(strategy: Strategy, members: seq<ConsumerId>,
                                   topics: OrderedDict.Dict<string, seq<TopicPartition>>)

  datatype Part = Part(config: Config, log: Log)

  datatype Broker = Broker(partitions: map<TopicPartition, Part>, consumers: map<ConsumerId, ConsumerState>,
                           groups: map<GroupId, GroupState>)

  datatype History = History(delivered: set<(GroupId, TopicPartition, int)>,
                             withheld: set<(GroupId, TopicPartition, int)>,
                             removed: set<(TopicPartition, int)>)

  datatype System = System(broker: Broker, clock: real, history: History)

  datatype Op =
    | Append(tp: TopicPartition, message: Message, now: real)
    | Retain(tp: TopicPartition, now: real)
    | Clear(tp: TopicPartition)
    | Join(group: GroupId, consumer: ConsumerId)
    | Leave(group: GroupId, consumer: ConsumerId)
    | Subscribe(group: GroupId, topic: string, tps: seq<TopicPartition>)
    | Unsubscribe(group: GroupId, topic: string)
    | RemoveDead(group: GroupId, now: real)
    | Poll(consumer: ConsumerId, maxMessages: Option<int>, now: real)
    | Commit(consumer: ConsumerId, now: real)
    | Close(consumer: ConsumerId, now: real)

  // ---------------------------------------------------------------- steps

  /** A partition nobody has written to yet is an empty one without limits. */
  function PartOf(b: Broker, tp: TopicPartition): Part {
    if tp in b.partitions then b.partitions[tp] else Part(Config(tp.id, 0, 0), EMPTY)
  }

  function GroupOf(b: Broker, g: GroupId): GroupState {
    if g in b.groups then b.groups[g] else GroupState(Range, [], [])
  }

  function WithLog(b: Broker, tp: TopicPartition, l: Log): Broker {
    b.(partitions := b.partitions[tp := PartOf(b, tp).(log := l)])
  }

  function AllPartitions(topics: OrderedDict.Dict<string, seq<TopicPartition>>): seq<TopicPartition> {
    OrderedDict.Concatenated(topics)
  }

  function Seeds(b: Broker, g: GroupId, tps: seq<TopicPartition>): (r: seq<(TopicPartition, int)>)
    ensures |r| == |tps|
    ensures forall i :: 0 <= i < |r| ==> r[i] == (tps[i], Committed(PartOf(b, tps[i]).log, g))
  {
    seq(|tps|, i requires 0 <= i < |tps| => (tps[i], Committed(PartOf(b, tps[i]).log, g)))
  }

  function Assigned(b: Broker, c: ConsumerState, tps: seq<TopicPartition>): ConsumerState {
    c.(owned := tps, offsets := Seed(c.offsets, Seeds(b, c.group, tps)))
  }

  function IndexOf(members: seq<ConsumerId>, c: ConsumerId): (i: nat)
    requires c in members
    ensures i < |members| && members[i] == c
  {
    if members[0] == c then 0 else 1 + IndexOf(members[1..], c)
  }

  /** Every current member is given its share; with no member nothing happens. */
  ghost function Rebalance(b: Broker, g: GroupId): Broker {
    var gs := GroupOf(b, g);
    b.(consumers := map c | c in b.consumers ::
         if c in gs.members then
           Assigned(b, b.consumers[c],
                    Share(gs.strategy, AllPartitions(gs.topics), |gs.members|, IndexOf(gs.members, c)))
         else b.consumers[c])
  }

  /** Consumers that leave give up their partitions, the group takes its new shape, and is rebalanced. */
  ghost function Regroup(b: Broker, g: GroupId, gs: GroupState, leavers: set<ConsumerId>): Broker {
    Rebalance(b.(groups := b.groups[g := gs],
                 consumers := map c | c in b.consumers ::
                   if c in leavers then b.consumers[c].(owned := []) else b.consumers[c]), g)
  }

  predicate Alive(c: ConsumerState, now: real) {
    c.active && now - c.lastPoll < c.settings.sessionTimeout
  }

  function Live(b: Broker, members: seq<ConsumerId>, now: real): seq<ConsumerId> {
    if members == [] then []
    else if members[0] in b.consumers && Alive(b.consumers[members[0]], now)
         then [members[0]] + Live(b, members[1..], now)
    else Live(b, members[1..], now)
  }

  function Without(members: seq<ConsumerId>, c: ConsumerId): seq<ConsumerId> {
    if members == [] then [] else if members[0] == c then members[1..] else [members[0]] + Without(members[1..], c)
  }

  function SourcesOf(b: Broker, tps: seq<TopicPartition>): (r: seq<Source>)
    ensures |r| == |tps|
    ensures forall i :: 0 <= i < |r| ==> r[i] == Source(tps[i], PartOf(b, tps[i]).log.entries)
  {
    seq(|tps|, i requires 0 <= i < |tps| => Source(tps[i], PartOf(b, tps[i]).log.entries))
  }

  function Keys(g: GroupId, ds: seq<Delivery>): set<(GroupId, TopicPartition, int)> {
    set d | d in ds :: (g, d.tp, d.message.offset)
  }

  /** Writes the consumer's position of every owned partition as the group's committed offset. */
  function CommitPositions(b: Broker, c: ConsumerState): Broker {
    b.(partitions := map tp | tp in b.partitions.Keys + (set p | p in c.owned) ::
         if tp in c.owned then
           var part := PartOf(b, tp);
           part.(log := part.log.(committed := part.log.committed[c.group := Position(c.offsets, tp)]))
         else b.partitions[tp])
  }

  function PollResult(b: Broker, c: ConsumerState, maxMessages: Option<int>): (Polled, int) {
    var limit := Limit(maxMessages, c.settings.maxPollMessages);
    (Polling.Poll(SourcesOf(b, c.owned), c.offsets, limit), limit)
  }

  function AfterPoll(b: Broker, id: ConsumerId, maxMessages: Option<int>, now: real): Broker
    requires id in b.consumers
  {
    var c := b.consumers[id];
    var polled := PollResult(b, c, maxMessages).0;
    var moved := c.(offsets := polled.offsets, lastPoll := now);
    if c.owned != [] && c.settings.autoCommit && now - c.lastCommit >= c.settings.autoCommitInterval then
      CommitPositions(b, moved).(consumers := b.consumers[id := moved.(lastCommit := now)])
    else
      b.(consumers := b.consumers[id := moved])
  }

  function OffsetSet(entries: seq<Message>): set<int> { set m | m in entries :: m.offset }

  function Removal(s: System, tp: TopicPartition, l: Log, now: real): System {
    var gone := OffsetSet(PartOf(s.broker, tp).log.entries) - OffsetSet(l.entries);
    System(WithLog(s.broker, tp, l), now, s.history.(removed := s.history.removed + set o | o in gone :: (tp, o)))
  }

  ghost function Step(s: System, op: Op): System {
    var b := s.broker;
    match op
    case Append(tp, m, now) => s.(broker := WithLog(b, tp, AppendTo(PartOf(b, tp).config, PartOf(b, tp).log, m, now)),
                                  clock := now)
    case Retain(tp, now) => Removal(s, tp, Partitions.Retain(PartOf(b, tp).config, PartOf(b, tp).log, now), now)
    case Clear(tp) => Removal(s, tp, PartOf(b, tp).log.(entries := []), s.clock)
    case Join(g, c) =>
      if c !in b.consumers then s
      else
        var gs := GroupOf(b, g);
        var joined := if c in gs.members then gs else gs.(members := gs.members + [c]);
        s.(broker := Regroup(b.(consumers := b.consumers[c := b.consumers[c].(group := g)]), g, joined, {}))
    case Leave(g, c) =>
      var gs := GroupOf(b, g);
      if c !in gs.members then s
      else s.(broker := Regroup(b, g, gs.(members := Without(gs.members, c)), {c}))
    case Subscribe(g, t, tps) =>
      var gs := GroupOf(b, g);
      s.(broker := Regroup(b, g, gs.(topics := OrderedDict.Put(gs.topics, t, tps)), {}))
    case Unsubscribe(g, t) =>
      var gs := GroupOf(b, g);
      s.(broker := Regroup(b, g, gs.(topics := OrderedDict.Remove(gs.topics, t)), {}))
    case RemoveDead(g, now) =>
      var gs := GroupOf(b, g);
      var live := Live(b, gs.members, now);
      if live == gs.members then s
      else s.(broker := Regroup(b, g, gs.(members := live), set c | c in gs.members && c !in live))
    case Poll(c, maxMessages, now) =>
      if c !in b.consumers then s
      else
        var g := b.consumers[c].group;
        var (polled, limit) := PollResult(b, b.consumers[c], maxMessages);
        s.(broker := AfterPoll(b, c, maxMessages, now),
           history := s.history.(delivered := s.history.delivered + Keys(g, Returned(polled, limit)),
                                 withheld := s.history.withheld + Keys(g, Withheld(polled, limit))))
    case Commit(c, now) =>
      if c !in b.consumers then s
      else s.(broker := CommitPositions(b, b.consumers[c]).(
                consumers := b.consumers[c := b.consumers[c].(lastCommit := now)]))
    case Close(c, now) =>
      if c !in b.consumers then s
      else s.(broker := CommitPositions(b, b.consumers[c]).(
                consumers := b.consumers[c := b.consumers[c].(lastCommit := now, active := false)]))
  }

  ghost function Run(s: System, ops: seq<Op>): System {
    if ops == [] then s else Step(Run(s, ops[..|ops| - 1]), ops[|ops| - 1])
  }

  // ---------------------------------------------------------------- runs

  /** Nothing written, nobody owned, no history. */
  ghost predicate Initial(s: System) {
    && (forall tp :: tp in s.broker.partitions ==> s.broker.partitions[tp].log == EMPTY)
    && (forall c :: c in s.broker.consumers ==>
          s.broker.consumers[c].owned == [] && s.broker.consumers[c].offsets == map[])
    && (forall g :: g in s.broker.groups ==> s.broker.groups[g].members == [] && s.broker.groups[g].topics == [])
    && s.history == History({}, {}, {})
  }

  /**
   A consumer may join a group if it is in it already, or if no position it brings along is ahead of what
   the group has committed.
   */
  ghost predicate MayJoin(b: Broker, g: GroupId, c: ConsumerId) {
    c in b.consumers ==>
      || b.consumers[c].group == g
      || forall tp :: tp in b.consumers[c].offsets ==> b.consumers[c].offsets[tp] <= Committed(PartOf(b, tp).log, g)
  }

  /** Log times never go back, and no consumer brings positions into a group that the group has not reached. */
  ghost predicate Allowed(s: System, op: Op) {
    match op
    case Append(_, _, now) => now >= s.clock
    case Retain(_, now) => now >= s.clock
    case Join(g, c) => MayJoin(s.broker, g, c)
    case _ => true
  }

  ghost predicate Legal(s: System, ops: seq<Op>) {
    ops == [] || (Legal(s, ops[..|ops| - 1]) && Allowed(Run(s, ops[..|ops| - 1]), ops[|ops| - 1]))
  }

  /** No group but perhaps `g` lists the consumer. */
  ghost predicate ListedOnlyIn(b: Broker, g: GroupId, c: ConsumerId) {
    forall h :: h != g ==> c !in GroupOf(b, h).members
  }

  /** A consumer joins a group only while no other group lists it. */
  ghost predicate JoinsAlone(b: Broker, op: Op) {
    op.Join? && op.consumer in b.consumers ==> ListedOnlyIn(b, op.group, op.consumer)
  }

  ghost predicate OneGroupAtATime(s: System, ops: seq<Op>) {
    ops == [] ||
    (OneGroupAtATime(s, ops[..|ops| - 1]) && JoinsAlone(Run(s, ops[..|ops| - 1]).broker, ops[|ops| - 1]))
  }

  /** Every consumer only ever joins its own group. */
  ghost predicate Housed(ops: seq<Op>, home: ConsumerId -> GroupId) {
    forall i :: 0 <= i < |ops| && ops[i].Join? ==> home(ops[i].consumer) == ops[i].group
  }

  // ---------------------------------------------------------------- the invariant

  /** A group was handed the message, a poll moved past it, or it was removed from the log. */
  ghost predicate Accounted(h: History, g: GroupId, tp: TopicPartition, o: int) {
    (g, tp, o) in h.delivered || (g, tp, o) in h.withheld || (tp, o) in h.removed
  }

  ghost predicate Covered(s: System, g: GroupId, tp: TopicPartition, n: int) {
    && 0 <= n <= PartOf(s.broker, tp).log.next
    && forall o :: 0 <= o < n ==> Accounted(s.history, g, tp, o)
  }

  ghost predicate LogOk(s: System, tp: TopicPartition) {
    var l := PartOf(s.broker, tp).log;
    && Dense(l)
    && Clocked(l, s.clock)
    && forall o :: 0 <= o < l.next - |l.entries| ==> (tp, o) in s.history.removed
  }

  ghost predicate CommitsOk(s: System, tp: TopicPartition) {
    forall g :: Covered(s, g, tp, Committed(PartOf(s.broker, tp).log, g))
  }

  ghost predicate PositionsOk(s: System, c: ConsumerId)
    requires c in s.broker.consumers
  {
    var cs := s.broker.consumers[c];
    forall tp :: tp in cs.offsets ==> Covered(s, cs.group, tp, cs.offsets[tp])
  }

  ghost predicate Delivering(s: System) {
    && (forall tp :: LogOk(s, tp))
    && (forall tp :: CommitsOk(s, tp))
    && forall c :: c in s.broker.consumers ==> PositionsOk(s, c)
  }

  /** Members are known consumers that have joined this group last, each holding exactly its share. */
  ghost predicate GroupOk(b: Broker, g: GroupId) {
    var gs := GroupOf(b, g);
    && Distinct(gs.members)
    && forall i :: 0 <= i < |gs.members| ==>
                     && gs.members[i] in b.consumers
                     && b.consumers[gs.members[i]].group == g
                     && b.consumers[gs.members[i]].owned
                        == Share(gs.strategy, AllPartitions(gs.topics), |gs.members|, i)
  }

  /** A consumer that its group does not list holds nothing. */
  ghost predicate ConsumerOk(b: Broker, c: ConsumerId)
    requires c in b.consumers
  {
    c !in GroupOf(b, b.consumers[c].group).members ==> b.consumers[c].owned == []
  }

  ghost predicate Owning(b: Broker) {
    && (forall g :: GroupOk(b, g))
    && forall c :: c in b.consumers ==> ConsumerOk(b, c)
  }
}

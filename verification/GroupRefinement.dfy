/**
 The objects implement the protocol: a broker state represents a set of partition objects, a set of
 consumer objects and a group, and every method of these objects takes one step of the state machine.
 */
module GroupRefinement {
  import opened Prelude
  import opened Partitions
  import opened Polling
  import opened Consumers
  import Assignment
  import OrderedDict
  import Protocol = ConsumerProtocol
  import AtLeastOnce

  type Topics = OrderedDict.Dict<string, seq<Partition>>
  type Members = OrderedDict.Dict<string, Consumer>

  function Identities(ps: seq<Partition>): (tps: seq<TopicPartition>)
    ensures |tps| == |ps| && forall i :: 0 <= i < |ps| ==> tps[i] == ps[i].Identity()
  {
    seq(|ps|, i requires 0 <= i < |ps| => ps[i].Identity())
  }

  function TopicsOf(d: Topics): OrderedDict.Dict<string, seq<TopicPartition>> {
    if d == [] then [] else [(d[0].0, Identities(d[0].1))] + TopicsOf(d[1..])
  }

  ghost function StateOf(c: Consumer): Protocol.ConsumerState
    reads c
  {
    Protocol.ConsumerState(Protocol.Settings(c.autoCommit, c.autoCommitInterval, c.maxPollMessages, c.sessionTimeout),
                           c.groupId, Identities(c.assignedPartitions), c.offsets, c.lastPoll, c.lastCommit, c.active)
  }

  ghost function GroupStateOf(g: ConsumerGroup): Protocol.GroupState
    reads g
  {
    Protocol.GroupState(g.strategy, OrderedDict.Keys(g.members), TopicsOf(g.topics))
  }

  // ---------------------------------------------------------------- the relation

  /** The objects of a broker: partitions and consumers each under an identity of their own, one group of interest. */
  ghost predicate World(parts: set<Partition>, consumers: set<Consumer>, g: ConsumerGroup)
    reads consumers, g
  {
    && g.Valid() && g.Objects() <= consumers && OwnIdentities(parts, consumers)
    && (forall c :: c in consumers ==> Within(c.assignedPartitions, parts))
    && forall i :: 0 <= i < |g.topics| ==> Within(g.topics[i].1, parts)
  }

  ghost predicate OwnIdentities(parts: set<Partition>, consumers: set<Consumer>) {
    && (forall p, q :: p in parts && q in parts && p != q ==> p.Identity() != q.Identity())
    && forall c, d :: c in consumers && d in consumers && c != d ==> c.consumerId != d.consumerId
  }

  ghost predicate Within(ps: seq<Partition>, parts: set<Partition>) {
    forall i :: 0 <= i < |ps| ==> ps[i] in parts
  }

  ghost predicate HoldsLogs(b: Protocol.Broker, parts: set<Partition>)
    reads parts
  {
    forall p :: p in parts ==>
                  p.Identity() in b.partitions && b.partitions[p.Identity()] == Protocol.Part(p.Settings(), p.State())
  }

  ghost predicate HoldsConsumers(b: Protocol.Broker, consumers: set<Consumer>)
    reads consumers
  {
    forall c :: c in consumers ==> c.consumerId in b.consumers && b.consumers[c.consumerId] == StateOf(c)
  }

  /** The broker state holds exactly the state of these objects, and perhaps of others. */
  ghost predicate Represents(b: Protocol.Broker, parts: set<Partition>, consumers: set<Consumer>, g: ConsumerGroup)
    reads parts, consumers, g
  {
    && HoldsLogs(b, parts) && HoldsConsumers(b, consumers)
    && g.groupId in b.groups && b.groups[g.groupId] == GroupStateOf(g)
  }

  // ---------------------------------------------------------------- the beginning

  /** As the constructors leave them: empty logs, consumers without assignment or position, an empty group. */
  ghost predicate New(parts: set<Partition>, consumers: set<Consumer>, g: ConsumerGroup)
    reads parts, consumers, g
  {
    && (forall p :: p in parts ==> p.State() == EMPTY)
    && (forall c :: c in consumers ==> c.assignedPartitions == [] && c.offsets == map[])
    && g.Valid() && g.members == [] && g.topics == []
  }

  ghost function NewBroker(parts: set<Partition>, consumers: set<Consumer>, g: ConsumerGroup): Protocol.Broker
    reads parts, consumers, g
    requires OwnIdentities(parts, consumers)
  {
    Protocol.Broker(map p | p in parts :: p.Identity() := Protocol.Part(p.Settings(), p.State()),
                    map c | c in consumers :: c.consumerId := StateOf(c),
                    map[g.groupId := GroupStateOf(g)])
  }

  /** New objects are represented by an initial state of the protocol. */
  lemma NewObjectsAreInitial(parts: set<Partition>, consumers: set<Consumer>, g: ConsumerGroup, now: real)
    returns (s: Protocol.System)
    requires New(parts, consumers, g) && OwnIdentities(parts, consumers)
    ensures Protocol.Initial(s) && s.clock == now
    ensures World(parts, consumers, g) && Represents(s.broker, parts, consumers, g)
  {
    var b := NewBroker(parts, consumers, g);
    s := Protocol.System(b, now, Protocol.History({}, {}, {}));
    assert TopicsOf([]) == [] && Identities([]) == [];
    forall tp | tp in b.partitions ensures b.partitions[tp].log == EMPTY {
      var p :| p in parts && p.Identity() == tp;
    }
    forall id | id in b.consumers ensures b.consumers[id].owned == [] && b.consumers[id].offsets == map[] {
      var c :| c in consumers && c.consumerId == id;
    }
  }

  // ---------------------------------------------------------------- lists of objects and lists of identities

  lemma {:induction false} RoundRobinMaps(ps: seq<Partition>, m: nat, i: nat)
    requires i < m
    ensures Identities(Assignment.RoundRobinShare(ps, m, i)) == Assignment.RoundRobinShare(Identities(ps), m, i)
  {
    if ps == [] {
    } else {
      var n := |ps| - 1;
      RoundRobinMaps(ps[..n], m, i);
      assert Identities(ps)[..n] == Identities(ps[..n]);
    }
  }

  lemma ShareMaps(strategy: Assignment.Strategy, ps: seq<Partition>, m: nat, i: nat)
    requires i < m
    ensures Identities(Assignment.Share(strategy, ps, m, i)) == Assignment.Share(strategy, Identities(ps), m, i)
  {
    RoundRobinMaps(ps, m, i);
    Assignment.RangeStartTotal(|ps|, m);
    Assignment.RangeStartMonotone(|ps| / m, |ps| % m, i + 1, m);
  }

  lemma {:induction false} AllMaps(d: Topics)
    ensures Identities(OrderedDict.Concatenated(d)) == OrderedDict.Concatenated(TopicsOf(d))
  {
    if d == [] {
    } else {
      AllMaps(d[1..]);
      var rest := TopicsOf(d[1..]);
      assert TopicsOf(d)[1..] == rest;
    }
  }

  lemma {:induction false} PutMaps(d: Topics, topic: string, ps: seq<Partition>)
    ensures TopicsOf(OrderedDict.Put(d, topic, ps)) == OrderedDict.Put(TopicsOf(d), topic, Identities(ps))
  {
    if d == [] {
      assert TopicsOf([(topic, ps)]) == [(topic, Identities(ps))];
    } else {
      var rest := TopicsOf(d[1..]);
      assert TopicsOf(d)[1..] == rest;
      if d[0].0 == topic {
        assert ([(topic, ps)] + d[1..])[1..] == d[1..];
      } else {
        PutMaps(d[1..], topic, ps);
        var put := OrderedDict.Put(d[1..], topic, ps);
        assert ([d[0]] + put)[1..] == put;
      }
    }
  }

  lemma {:induction false} RemoveMaps(d: Topics, topic: string)
    ensures TopicsOf(OrderedDict.Remove(d, topic)) == OrderedDict.Remove(TopicsOf(d), topic)
  {
    if d == [] {
    } else {
      assert TopicsOf(d)[1..] == TopicsOf(d[1..]);
      if d[0].0 != topic {
        RemoveMaps(d[1..], topic);
        var rest := OrderedDict.Remove(d[1..], topic);
        assert ([d[0]] + rest)[1..] == rest;
      }
    }
  }

  lemma {:induction false} AllWithin(d: Topics, parts: set<Partition>)
    requires forall i :: 0 <= i < |d| ==> Within(d[i].1, parts)
    ensures Within(OrderedDict.Concatenated(d), parts)
  {
    if d == [] {
    } else {
      AllWithin(d[1..], parts);
    }
  }

  lemma ShareWithin(strategy: Assignment.Strategy, ps: seq<Partition>, m: nat, i: nat, parts: set<Partition>)
    requires i < m && Within(ps, parts)
    ensures Within(Assignment.Share(strategy, ps, m, i), parts)
  {
    var share := Assignment.Share(strategy, ps, m, i);
    forall k | 0 <= k < |share| ensures share[k] in parts {
      assert Assignment.OwnedBy(strategy, ps, m, share[k], i);
      Assignment.ShareWithin(strategy, ps, m, i, share[k]);
      var j :| 0 <= j < |ps| && ps[j] == share[k];
    }
  }

  lemma {:induction false} IndexIsOwn(ids: seq<string>, i: nat)
    requires i < |ids| && forall j, k :: 0 <= j < k < |ids| ==> ids[j] != ids[k]
    ensures Protocol.IndexOf(ids, ids[i]) == i
  {
    var k := Protocol.IndexOf(ids, ids[i]);
    assert ids[k] == ids[i];
  }

  lemma SeedsMap(b: Protocol.Broker, parts: set<Partition>, ps: seq<Partition>, group: string)
    requires HoldsLogs(b, parts) && Within(ps, parts)
    ensures SeedsOf(ps, group) == Protocol.Seeds(b, group, Identities(ps))
  {
    forall i | 0 <= i < |ps| ensures SeedsOf(ps, group)[i] == Protocol.Seeds(b, group, Identities(ps))[i] {
      assert ps[i] in parts;
    }
  }

  lemma SourcesMap(b: Protocol.Broker, parts: set<Partition>, ps: seq<Partition>)
    requires HoldsLogs(b, parts) && Within(ps, parts)
    ensures SourcesOf(ps) == Protocol.SourcesOf(b, Identities(ps))
  {
    forall i | 0 <= i < |ps| ensures SourcesOf(ps)[i] == Protocol.SourcesOf(b, Identities(ps))[i] {
      assert ps[i] in parts;
    }
  }

  // ---------------------------------------------------------------- rebalancing

  /** What a regrouping has made of a consumer, given its state `was` before. */
  ghost predicate Regrouped(c: Consumer, was: Protocol.ConsumerState, g: ConsumerGroup, leavers: set<string>)
    reads c, g, c.assignedPartitions
  {
    if c in g.Objects() then
      && c.groupId == was.group
      && StateOf(c) == was.(owned := Identities(c.assignedPartitions),
                            offsets := Seed(was.offsets, SeedsOf(c.assignedPartitions, c.groupId)))
    else if c.consumerId in leavers then StateOf(c) == was.(owned := [])
    else StateOf(c) == was
  }

  lemma MemberIndex(g: ConsumerGroup, c: Consumer) returns (i: nat)
    requires g.Valid() && c in g.Objects()
    ensures i < |g.members| && g.members[i].1 == c && g.members[i].0 == c.consumerId
    ensures c.consumerId in OrderedDict.Keys(g.members)
    ensures Protocol.IndexOf(OrderedDict.Keys(g.members), c.consumerId) == i
  {
    i :| 0 <= i < |g.members| && g.members[i].1 == c;
    var ids := OrderedDict.Keys(g.members);
    assert ids[i] == c.consumerId;
    IndexIsOwn(ids, i);
  }

  lemma OutsiderHasOtherId(consumers: set<Consumer>, g: ConsumerGroup, c: Consumer)
    requires g.Valid() && g.Objects() <= consumers && OwnIdentities({}, consumers)
    requires c in consumers && c !in g.Objects()
    ensures c.consumerId !in OrderedDict.Keys(g.members)
  {
    var ids := OrderedDict.Keys(g.members);
    forall i | 0 <= i < |ids| ensures ids[i] != c.consumerId {
      assert g.members[i].1 in g.Objects();
    }
  }

  /** Objects regrouped as the protocol says are represented by the broker the protocol says. */
  lemma RegroupRepresents(b: Protocol.Broker, leavers: set<string>, parts: set<Partition>, consumers: set<Consumer>,
                          g: ConsumerGroup)
    requires World(parts, consumers, g) && g.Balanced() && HoldsLogs(b, parts)
    requires forall c :: c in consumers ==>
                           c.consumerId in b.consumers && Regrouped(c, b.consumers[c.consumerId], g, leavers)
    ensures Represents(Protocol.Regroup(b, g.groupId, GroupStateOf(g), leavers), parts, consumers, g)
  {
    var gs := GroupStateOf(g);
    var r := Protocol.Regroup(b, g.groupId, gs, leavers);
    assert r.partitions == b.partitions && r.groups == b.groups[g.groupId := gs];
    forall c | c in consumers ensures c.consumerId in r.consumers && r.consumers[c.consumerId] == StateOf(c) {
      AtLeastOnce.RegroupState(b, g.groupId, gs, leavers, c.consumerId);
      hide Protocol.Regroup, Seed, Assignment.Share;
      if c in g.Objects() {
        MemberRegroups(b, parts, consumers, g, c);
      } else {
        OutsiderHasOtherId(consumers, g, c);
      }
    }
  }

  lemma MemberRegroups(b: Protocol.Broker, parts: set<Partition>, consumers: set<Consumer>, g: ConsumerGroup,
                       c: Consumer)
    requires World(parts, consumers, g) && g.Balanced() && HoldsLogs(b, parts)
    requires c in consumers && c in g.Objects() && c.consumerId in b.consumers
    requires Regrouped(c, b.consumers[c.consumerId], g, {})
    ensures var gs := GroupStateOf(g);
            && c.consumerId in gs.members
            && StateOf(c) == Protocol.Assigned(b, b.consumers[c.consumerId],
                                               Assignment.Share(gs.strategy, Protocol.AllPartitions(gs.topics),
                                                                |gs.members|,
                                                                Protocol.IndexOf(gs.members, c.consumerId)))
  {
    var i := MemberIndex(g, c);
    AllMaps(g.topics);
    ShareMaps(g.strategy, OrderedDict.Concatenated(g.topics), |g.members|, i);
    SeedsMap(b, parts, c.assignedPartitions, c.groupId);
  }

  // ---------------------------------------------------------------- members

  lemma {:induction false} KeysPut(d: Members, id: string, c: Consumer)
    ensures OrderedDict.Keys(OrderedDict.Put(d, id, c))
            == if id in OrderedDict.Keys(d) then OrderedDict.Keys(d) else OrderedDict.Keys(d) + [id]
    ensures id in OrderedDict.Keys(d) <==> OrderedDict.Has(d, id)
  {
    KeysHave(d, id);
    if OrderedDict.Has(d, id) {
      OrderedDict.PutPresent(d, id, c);
    } else {
      OrderedDict.PutAbsent(d, id, c);
      assert OrderedDict.Keys(d + [(id, c)]) == OrderedDict.Keys(d) + [id];
    }
  }

  lemma {:induction false} KeysHave(d: Members, id: string)
    ensures id in OrderedDict.Keys(d) <==> OrderedDict.Has(d, id)
  {
    if d == [] {
    } else {
      KeysHave(d[1..], id);
    }
  }

  lemma {:induction false} KeysRemove(d: Members, id: string)
    ensures OrderedDict.Keys(OrderedDict.Remove(d, id)) == Protocol.Without(OrderedDict.Keys(d), id)
  {
    if d == [] {
    } else {
      KeysRemove(d[1..], id);
      assert OrderedDict.Keys(d)[1..] == OrderedDict.Keys(d[1..]);
      if d[0].0 != id {
        var rest := OrderedDict.Remove(d[1..], id);
        assert ([d[0]] + rest)[1..] == rest;
      }
    }
  }

  /** The members that are alive, in joining order. */
  ghost function AliveIn(d: Members, now: real): Members
    reads set i | 0 <= i < |d| :: d[i].1
  {
    if d == [] then []
    else AliveIn(d[..|d| - 1], now) + if d[|d| - 1].1.IsAlive(now) then [d[|d| - 1]] else []
  }

  lemma {:induction false} RemoveFromConcat(a: Members, b: Members, id: string)
    ensures OrderedDict.Remove(a + b, id)
            == if OrderedDict.Has(a, id) then OrderedDict.Remove(a, id) + b else a + OrderedDict.Remove(b, id)
  {
    if a == [] {
      assert a + b == b && [] + OrderedDict.Remove(b, id) == OrderedDict.Remove(b, id);
    } else {
      var rest := a[1..];
      assert (a + b)[1..] == rest + b && (a + b)[0] == a[0];
      if a[0].0 != id {
        RemoveFromConcat(rest, b, id);
        ConcatIsAssociative([a[0]], OrderedDict.Remove(rest, id), b);
        ConcatIsAssociative([a[0]], rest, OrderedDict.Remove(b, id));
        assert a == [a[0]] + rest;
      }
    }
  }

  /** Removing keys that are all in the first part leaves the second part alone. */
  lemma {:induction false} RemoveAllFromFirst(a: Members, b: Members, ids: seq<string>)
    requires OrderedDict.WellFormed(a + b)
    requires forall k :: 0 <= k < |ids| ==> OrderedDict.Has(a, ids[k])
    requires forall k, l :: 0 <= k < l < |ids| ==> ids[k] != ids[l]
    ensures OrderedDict.RemoveAll(a + b, ids) == OrderedDict.RemoveAll(a, ids) + b
    decreases ids
  {
    if ids == [] {
    } else {
      var rest := OrderedDict.Remove(a, ids[0]);
      assert forall i :: 0 <= i < |a| ==> (a + b)[i] == a[i];
      assert OrderedDict.WellFormed(a);
      RemoveFromConcat(a, b, ids[0]);
      OrderedDict.RemoveWellFormed(a + b, ids[0]);
      assert OrderedDict.Remove(a + b, ids[0]) == rest + b && OrderedDict.WellFormed(rest + b);
      forall k | 1 <= k < |ids| ensures OrderedDict.Has(rest, ids[k]) {
        OrderedDict.GetRemove(a, ids[0], ids[k]);
      }
      RemoveAllFromFirst(rest, b, ids[1..]);
    }
  }

  /** Dropping the dead leaves the members that are alive. */
  lemma {:induction false} DroppingTheDead(d: Members, now: real)
    requires OrderedDict.WellFormed(d)
    ensures OrderedDict.RemoveAll(d, DeadIds(d, now)) == AliveIn(d, now)
  {
    if d == [] {
    } else {
      var n := |d| - 1;
      var ids := DeadIds(d[..n], now);
      DroppingTheDead(d[..n], now);
      assert d == d[..n] + [d[n]];
      DeadIdsAreDead(d[..n], now);
      RemoveAllFromFirst(d[..n], [d[n]], ids);
      if d[n].1.IsAlive(now) {
        assert DeadIds(d, now) == ids + [] == ids;
      } else {
        assert AliveIn(d, now) == AliveIn(d[..n], now) + [] == AliveIn(d[..n], now);
        LastGoes(d[..n], d[n], ids, now);
      }
    }
  }

  lemma LastGoes(d: Members, e: (string, Consumer), ids: seq<string>, now: real)
    requires OrderedDict.WellFormed(d + [e]) && ids == DeadIds(d, now)
    requires OrderedDict.RemoveAll(d + [e], ids) == AliveIn(d, now) + [e]
    ensures OrderedDict.RemoveAll(d + [e], ids + [e.0]) == AliveIn(d, now)
  {
    OrderedDict.RemoveAllAppend(d + [e], ids, e.0);
    RemoveFromConcat(AliveIn(d, now), [e], e.0);
    AliveAmong(d, now);
    OrderedDict.HasIsMembership(AliveIn(d, now), e.0);
    assert (d + [e])[|d|] == e && forall i :: 0 <= i < |d| ==> (d + [e])[i] == d[i];
    assert OrderedDict.Remove([e], e.0) == [];
  }

  lemma {:induction false} AliveAmong(d: Members, now: real)
    ensures forall e :: e in AliveIn(d, now) ==> e in d
  {
    if d == [] {
    } else {
      AliveAmong(d[..|d| - 1], now);
    }
  }

  /** The protocol's list of live members is the list of the objects that are alive. */
  lemma {:induction false} LiveMaps(b: Protocol.Broker, d: Members, now: real)
    requires forall i :: 0 <= i < |d| ==>
                           d[i].0 in b.consumers && d[i].1.consumerId == d[i].0
                               && b.consumers[d[i].0] == StateOf(d[i].1)
    ensures Protocol.Live(b, OrderedDict.Keys(d), now) == OrderedDict.Keys(AliveIn(d, now))
  {
    if d == [] {
    } else {
      var n := |d| - 1;
      assert forall i :: 0 <= i < n ==> d[..n][i] == d[i];
      LiveMaps(b, d[..n], now);
      assert d == d[..n] + [d[n]];
      assert Protocol.Alive(b.consumers[d[n].0], now) == d[n].1.IsAlive(now);
      hide AliveIn, Protocol.Live, OrderedDict.Keys, StateOf;
      LiveExtends(b, d[..n], d[n], now);
    }
  }

  lemma LiveExtends(b: Protocol.Broker, d: Members, e: (string, Consumer), now: real)
    requires Protocol.Live(b, OrderedDict.Keys(d), now) == OrderedDict.Keys(AliveIn(d, now))
    requires e.0 in b.consumers && Protocol.Alive(b.consumers[e.0], now) == e.1.IsAlive(now)
    ensures Protocol.Live(b, OrderedDict.Keys(d + [e]), now) == OrderedDict.Keys(AliveIn(d + [e], now))
  {
    assert (d + [e])[..|d|] == d;
    AliveLast(d + [e], now);
    hide AliveIn, Protocol.Live, OrderedDict.Keys;
    KeysAppend(d, e);
    KeysAppend(AliveIn(d, now), e);
    LiveAppend(b, OrderedDict.Keys(d), e.0, now);
    LiveOne(b, e.0, now);
    if !e.1.IsAlive(now) {
      assert OrderedDict.Keys(AliveIn(d, now)) + [] == OrderedDict.Keys(AliveIn(d, now));
    }
  }

  lemma AliveLast(d: Members, now: real)
    requires d != []
    ensures var n := |d| - 1;
            AliveIn(d, now) == if d[n].1.IsAlive(now) then AliveIn(d[..n], now) + [d[n]] else AliveIn(d[..n], now)
  {
  }

  lemma LiveOne(b: Protocol.Broker, id: string, now: real)
    ensures Protocol.Live(b, [id], now) == if id in b.consumers && Protocol.Alive(b.consumers[id], now) then [id]
                                           else []
  {
    assert [id][1..] == [];
  }

  lemma KeysAppend(d: Members, e: (string, Consumer))
    ensures OrderedDict.Keys(d + [e]) == OrderedDict.Keys(d) + [e.0]
  {
  }

  lemma {:induction false} LiveAppend(b: Protocol.Broker, ids: seq<string>, id: string, now: real)
    ensures Protocol.Live(b, ids + [id], now) == Protocol.Live(b, ids, now) + Protocol.Live(b, [id], now)
  {
    if ids == [] {
      assert [] + [id] == [id];
    } else {
      assert (ids + [id])[1..] == ids[1..] + [id];
      LiveAppend(b, ids[1..], id, now);
    }
  }

  lemma {:induction false} NobodyDead(d: Members, now: real)
    ensures |AliveIn(d, now)| + |DeadIds(d, now)| == |d|
    ensures DeadIds(d, now) == [] ==> AliveIn(d, now) == d
  {
    if d == [] {
    } else {
      var n := |d| - 1;
      NobodyDead(d[..n], now);
      assert d == d[..n] + [d[n]];
      assert |DeadIds(d, now)| == |DeadIds(d[..n], now)| + if d[n].1.IsAlive(now) then 0 else 1;
      assert |AliveIn(d, now)| == |AliveIn(d[..n], now)| + if d[n].1.IsAlive(now) then 1 else 0;
    }
  }

  // ---------------------------------------------------------------- the group's methods are steps

  lemma {:induction false} PutWithin(d: Topics, topic: string, ps: seq<Partition>, parts: set<Partition>)
    requires (forall i :: 0 <= i < |d| ==> Within(d[i].1, parts)) && Within(ps, parts)
    ensures var put := OrderedDict.Put(d, topic, ps); forall i :: 0 <= i < |put| ==> Within(put[i].1, parts)
  {
    var put := OrderedDict.Put(d, topic, ps);
    OrderedDict.PutEntries(d, topic, ps);
    forall i | 0 <= i < |put| ensures Within(put[i].1, parts) {
      assert put[i] in put;
    }
  }

  lemma RemoveWithin(d: Topics, topic: string, parts: set<Partition>)
    requires forall i :: 0 <= i < |d| ==> Within(d[i].1, parts)
    ensures var rest := OrderedDict.Remove(d, topic); forall i :: 0 <= i < |rest| ==> Within(rest[i].1, parts)
  {
    var rest := OrderedDict.Remove(d, topic);
    RemoveEntries(d, topic);
    forall i | 0 <= i < |rest| ensures Within(rest[i].1, parts) {
      assert rest[i] in d;
    }
  }

  lemma {:induction false} RemoveEntries(d: Topics, topic: string)
    ensures forall e :: e in OrderedDict.Remove(d, topic) ==> e in d
  {
    if d != [] && d[0].0 != topic {
      RemoveEntries(d[1..], topic);
    }
  }

  /** A balanced group hands out only what its topics hold. */
  lemma BalancedWithin(g: ConsumerGroup, parts: set<Partition>)
    requires g.Balanced() && forall i :: 0 <= i < |g.topics| ==> Within(g.topics[i].1, parts)
    ensures forall c :: c in g.Objects() ==> Within(c.assignedPartitions, parts)
  {
    AllWithin(g.topics, parts);
    forall c | c in g.Objects() ensures Within(c.assignedPartitions, parts) {
      var i :| 0 <= i < |g.members| && g.members[i].1 == c;
      ShareWithin(g.strategy, OrderedDict.Concatenated(g.topics), |g.members|, i, parts);
    }
  }

  /** A consumer whose fields changed as the methods of a group change them is regrouped. */
  lemma FieldsRegrouped(c: Consumer, was: Protocol.ConsumerState, g: ConsumerGroup, leavers: set<string>)
    requires was.settings == Protocol.Settings(c.autoCommit, c.autoCommitInterval, c.maxPollMessages, c.sessionTimeout)
    requires was.group == c.groupId && was.lastPoll == c.lastPoll && was.lastCommit == c.lastCommit
             && was.active == c.active
    requires c.offsets == if c in g.Objects() then Seed(was.offsets, SeedsOf(c.assignedPartitions, c.groupId))
                          else was.offsets
    requires c !in g.Objects() ==> Identities(c.assignedPartitions) == if c.consumerId in leavers then [] else was.owned
    ensures Regrouped(c, was, g, leavers)
  {
  }

  /** The common end of the five steps: regrouped objects are represented by the regrouped broker. */
  lemma StepDone(parts: set<Partition>, consumers: set<Consumer>, g: ConsumerGroup, b: Protocol.Broker,
                 leavers: set<string>)
    requires OwnIdentities(parts, consumers) && HoldsLogs(b, parts)
    requires g.Valid() && g.Balanced() && g.Objects() <= consumers
    requires forall i :: 0 <= i < |g.topics| ==> Within(g.topics[i].1, parts)
    requires forall c :: c in consumers ==>
                           c.consumerId in b.consumers && Regrouped(c, b.consumers[c.consumerId], g, leavers)
    requires forall c :: c in consumers && c !in g.Objects() ==> Within(c.assignedPartitions, parts)
    ensures World(parts, consumers, g)
    ensures Represents(Protocol.Regroup(b, g.groupId, GroupStateOf(g), leavers), parts, consumers, g)
  {
    BalancedWithin(g, parts);
    hide Protocol.Regroup;
    RegroupRepresents(b, leavers, parts, consumers, g);
  }

  /** `subscribe` takes the step of the protocol. */
  method Subscribe(g: ConsumerGroup, topic: string, partitions: seq<Partition>,
                   ghost s: Protocol.System, ghost parts: set<Partition>, ghost consumers: set<Consumer>)
    requires World(parts, consumers, g) && Represents(s.broker, parts, consumers, g) && Within(partitions, parts)
    modifies g`topics, g`generation, g.Objects()`assignedPartitions, g.Objects()`offsets
    ensures World(parts, consumers, g)
    ensures Represents(Protocol.Step(s, Protocol.Subscribe(g.groupId, topic, Identities(partitions))).broker, parts,
                       consumers, g)
  {
    ghost var op := Protocol.Subscribe(g.groupId, topic, Identities(partitions));
    ghost var gs := GroupStateOf(g).(topics := OrderedDict.Put(TopicsOf(g.topics), topic, Identities(partitions)));
    assert Protocol.Step(s, op).broker == Protocol.Regroup(s.broker, g.groupId, gs, {});
    hide Protocol.Step, Protocol.Regroup, Seed, Assignment.Share;
    PutMaps(g.topics, topic, partitions);
    PutWithin(g.topics, topic, partitions, parts);
    g.Subscribe(topic, partitions);
    assert GroupStateOf(g) == gs;
    forall c | c in consumers ensures Regrouped(c, s.broker.consumers[c.consumerId], g, {}) {
      FieldsRegrouped(c, s.broker.consumers[c.consumerId], g, {});
    }
    StepDone(parts, consumers, g, s.broker, {});
  }

  /** `unsubscribe` takes the step of the protocol. */
  method Unsubscribe(g: ConsumerGroup, topic: string,
                     ghost s: Protocol.System, ghost parts: set<Partition>, ghost consumers: set<Consumer>)
    requires World(parts, consumers, g) && Represents(s.broker, parts, consumers, g)
    modifies g`topics, g`generation, g.Objects()`assignedPartitions, g.Objects()`offsets
    ensures World(parts, consumers, g)
    ensures Represents(Protocol.Step(s, Protocol.Unsubscribe(g.groupId, topic)).broker, parts, consumers, g)
  {
    ghost var op := Protocol.Unsubscribe(g.groupId, topic);
    ghost var gs := GroupStateOf(g).(topics := OrderedDict.Remove(TopicsOf(g.topics), topic));
    assert Protocol.Step(s, op).broker == Protocol.Regroup(s.broker, g.groupId, gs, {});
    hide Protocol.Step, Protocol.Regroup, Seed, Assignment.Share;
    RemoveMaps(g.topics, topic);
    RemoveWithin(g.topics, topic, parts);
    g.Unsubscribe(topic);
    assert GroupStateOf(g) == gs;
    forall c | c in consumers ensures Regrouped(c, s.broker.consumers[c.consumerId], g, {}) {
      FieldsRegrouped(c, s.broker.consumers[c.consumerId], g, {});
    }
    StepDone(parts, consumers, g, s.broker, {});
  }

  lemma LeaveIsRegroup(s: Protocol.System, g: string, id: string)
    requires g in s.broker.groups
    ensures var gs := s.broker.groups[g];
            Protocol.Step(s, Protocol.Leave(g, id)).broker
            == if id in gs.members
               then Protocol.Regroup(s.broker, g, gs.(members := Protocol.Without(gs.members, id)), {id})
               else s.broker
  {
  }

  ghost function Dropped(b: Protocol.Broker, gs: Protocol.GroupState, now: real): set<string> {
    set id | id in gs.members && id !in Protocol.Live(b, gs.members, now)
  }

  lemma SweepIsRegroup(s: Protocol.System, g: string, now: real)
    requires g in s.broker.groups
    ensures var gs := s.broker.groups[g];
            var live := Protocol.Live(s.broker, gs.members, now);
            Protocol.Step(s, Protocol.RemoveDead(g, now)).broker
            == if live == gs.members then s.broker
               else Protocol.Regroup(s.broker, g, gs.(members := live), Dropped(s.broker, gs, now))
  {
  }

  /** Among consumers with distinct identifiers, the members are those whose identifiers are filed. */
  lemma IdsTellObjects(g: ConsumerGroup, consumers: set<Consumer>)
    requires g.Valid() && g.Objects() <= consumers && OwnIdentities({}, consumers)
    ensures forall c :: c in consumers ==> (c in g.Objects() <==> c.consumerId in OrderedDict.Keys(g.members))
  {
    forall c | c in consumers ensures c in g.Objects() <==> c.consumerId in OrderedDict.Keys(g.members) {
      if c in g.Objects() {
        var i := MemberIndex(g, c);
      } else {
        OutsiderHasOtherId(consumers, g, c);
      }
    }
  }

  /** `join` takes the step of the protocol. */
  method Join(g: ConsumerGroup, consumer: Consumer,
              ghost s: Protocol.System, ghost parts: set<Partition>, ghost consumers: set<Consumer>)
    requires World(parts, consumers, g) && Represents(s.broker, parts, consumers, g) && consumer in consumers
    modifies g`members, g`generation, consumer`groupId
    modifies (g.Objects() + {consumer})`assignedPartitions, (g.Objects() + {consumer})`offsets
    ensures World(parts, consumers, g)
    ensures Represents(Protocol.Step(s, Protocol.Join(g.groupId, consumer.consumerId)).broker, parts, consumers, g)
  {
    hide Protocol.Step, Protocol.Regroup, Seed, Assignment.Share, OrderedDict.Put, OrderedDict.Keys;
    ghost var b := AtLeastOnce.Transferred(s.broker, g.groupId, consumer.consumerId);
    AtLeastOnce.JoinIsRegroup(s, g.groupId, consumer.consumerId);
    KeysPut(g.members, consumer.consumerId, consumer);
    g.Join(consumer);
    assert GroupStateOf(g) == AtLeastOnce.WithMember(s.broker.groups[g.groupId], consumer.consumerId);
    forall c | c in consumers ensures Regrouped(c, b.consumers[c.consumerId], g, {}) {
      FieldsRegrouped(c, b.consumers[c.consumerId], g, {});
    }
    StepDone(parts, consumers, g, b, {});
  }

  /** `leave` takes the step of the protocol. */
  method Leave(g: ConsumerGroup, id: string,
               ghost s: Protocol.System, ghost parts: set<Partition>, ghost consumers: set<Consumer>)
    requires World(parts, consumers, g) && Represents(s.broker, parts, consumers, g)
    modifies g`members, g`generation, g.Objects()`assignedPartitions, g.Objects()`offsets
    ensures World(parts, consumers, g)
    ensures Represents(Protocol.Step(s, Protocol.Leave(g.groupId, id)).broker, parts, consumers, g)
  {
    hide Protocol.Step, Protocol.Regroup, Protocol.Without, Seed, Assignment.Share;
    hide OrderedDict.Remove, OrderedDict.Keys, OrderedDict.Get;
    ghost var gs := s.broker.groups[g.groupId];
    LeaveIsRegroup(s, g.groupId, id);
    LeaverIsHolder(g, id);
    KeysRemove(g.members, id);
    OthersStay(g, id);
    IdsTellObjects(g, consumers);
    assert Identities([]) == [];
    var left := g.Leave(id);
    if left.Some? {
      assert GroupStateOf(g) == gs.(members := Protocol.Without(gs.members, id));
      IdsTellObjects(g, consumers);
      forall c | c in consumers ensures Regrouped(c, s.broker.consumers[c.consumerId], g, {id}) {
        FieldsRegrouped(c, s.broker.consumers[c.consumerId], g, {id});
      }
      StepDone(parts, consumers, g, s.broker, {id});
    }
  }

  lemma OthersStay(g: ConsumerGroup, id: string)
    requires g.Valid()
    ensures var ids := OrderedDict.Keys(g.members);
            forall x :: x in Protocol.Without(ids, id) <==> x in ids && x != id
  {
    var ids := OrderedDict.Keys(g.members);
    forall x ensures x in Protocol.Without(ids, id) <==> x in ids && x != id {
      AtLeastOnce.WithoutMember(ids, id, x);
    }
  }

  /** The object filed under an identifier carries it. */
  lemma LeaverIsHolder(g: ConsumerGroup, id: string)
    requires g.Valid()
    ensures id in OrderedDict.Keys(g.members) <==> OrderedDict.Get(g.members, id).Some?
    ensures OrderedDict.Get(g.members, id).Some? ==>
              OrderedDict.Get(g.members, id).value in g.Objects()
                  && OrderedDict.Get(g.members, id).value.consumerId == id
  {
    KeysHave(g.members, id);
    OrderedDict.HasIsMembership(g.members, id);
    if OrderedDict.Has(g.members, id) {
      var i :| 0 <= i < |g.members| && g.members[i] == (id, OrderedDict.Get(g.members, id).value);
      assert g.members[i].1 in g.Objects();
    }
  }

  /** `remove_dead_members` takes the step of the protocol. */
  method RemoveDeadMembers(g: ConsumerGroup, now: real,
                           ghost s: Protocol.System, ghost parts: set<Partition>, ghost consumers: set<Consumer>)
    requires World(parts, consumers, g) && Represents(s.broker, parts, consumers, g)
    modifies g`members, g`generation, g.Objects()`assignedPartitions, g.Objects()`offsets
    ensures World(parts, consumers, g)
    ensures Represents(Protocol.Step(s, Protocol.RemoveDead(g.groupId, now)).broker, parts, consumers, g)
  {
    hide Protocol.Step, Protocol.Regroup, Protocol.Live, Seed, Assignment.Share;
    hide DeadIds, AliveIn, OrderedDict.RemoveAll, OrderedDict.Keys;
    ghost var gs := s.broker.groups[g.groupId];
    ghost var dropped := Dropped(s.broker, gs, now);
    SweepIsRegroup(s, g.groupId, now);
    DeadAreNotLive(s.broker, g, consumers, now);
    IdsTellObjects(g, consumers);
    assert Identities([]) == [];
    var dead := g.RemoveDeadMembers(now);
    if dead != [] {
      assert GroupStateOf(g) == gs.(members := Protocol.Live(s.broker, gs.members, now));
      IdsTellObjects(g, consumers);
      forall c | c in consumers ensures Regrouped(c, s.broker.consumers[c.consumerId], g, dropped) {
        FieldsRegrouped(c, s.broker.consumers[c.consumerId], g, dropped);
      }
      StepDone(parts, consumers, g, s.broker, dropped);
    }
  }

  /**
   Before the sweep: the dead are exactly the members that are not live in the broker, and dropping them
   leaves the live ones.
   */
  lemma DeadAreNotLive(b: Protocol.Broker, g: ConsumerGroup, consumers: set<Consumer>, now: real)
    requires g.Valid() && g.Objects() <= consumers && HoldsConsumers(b, consumers)
    ensures var was := OrderedDict.Keys(g.members);
            var live, dead := Protocol.Live(b, was, now), DeadIds(g.members, now);
            && OrderedDict.Keys(OrderedDict.RemoveAll(g.members, dead)) == live
            && (live == was <==> dead == [])
            && forall i :: 0 <= i < |g.members| ==> (g.members[i].0 in live <==> g.members[i].0 !in dead)
  {
    var ms := g.members;
    forall i | 0 <= i < |ms| ensures ms[i].0 in b.consumers && b.consumers[ms[i].0] == StateOf(ms[i].1) {
      assert ms[i].1 in g.Objects();
    }
    DroppingTheDead(ms, now);
    NobodyDead(ms, now);
    LiveMaps(b, ms, now);
    DeadIdsAreDead(ms, now);
    AliveKeys(ms, now);
  }

  lemma AliveKeys(d: Members, now: real)
    requires OrderedDict.WellFormed(d)
    ensures forall i :: 0 <= i < |d| ==> (d[i].0 in OrderedDict.Keys(AliveIn(d, now)) <==> d[i].1.IsAlive(now))
  {
    forall i | 0 <= i < |d| ensures d[i].0 in OrderedDict.Keys(AliveIn(d, now)) <==> d[i].1.IsAlive(now) {
      AliveMembers(d, d[i], now);
      AliveAmong(d, now);
      var alive := AliveIn(d, now);
      if d[i].1.IsAlive(now) {
        var k :| 0 <= k < |alive| && alive[k] == d[i];
        assert OrderedDict.Keys(alive)[k] == d[i].0;
      } else {
        forall k | 0 <= k < |alive| ensures alive[k].0 != d[i].0 {
          AliveMembers(d, alive[k], now);
          var j :| 0 <= j < |d| && d[j] == alive[k];
        }
      }
    }
  }

  lemma {:induction false} AliveMembers(d: Members, e: (string, Consumer), now: real)
    ensures e in AliveIn(d, now) <==> e in d && e.1.IsAlive(now)
  {
    if d == [] {
    } else {
      var n := |d| - 1;
      AliveMembers(d[..n], e, now);
      assert d == d[..n] + [d[n]];
    }
  }

  // ---------------------------------------------------------------- the consumer's methods are steps

  /** Partitions into which the positions of a consumer were written hold what the protocol commits. */
  lemma CommittedLogs(b: Protocol.Broker, cs: Protocol.ConsumerState, parts: set<Partition>, ps: seq<Partition>)
    requires OwnIdentities(parts, {}) && Within(ps, parts) && cs.owned == Identities(ps)
    requires forall p :: p in parts ==>
                           && p.Identity() in b.partitions
                           && var part := b.partitions[p.Identity()];
                              && part.config == p.Settings() && part.log.entries == p.log
                                 && part.log.next == p.nextOffset
                              && p.committedOffsets == if p in ps
                                                       then part.log.committed[
                                                              cs.group := Position(cs.offsets, p.Identity())]
                                                       else part.log.committed
    ensures HoldsLogs(Protocol.CommitPositions(b, cs), parts)
  {
    forall p | p in parts ensures p.Identity() in cs.owned <==> p in ps {
      if p in ps {
        var i :| 0 <= i < |ps| && ps[i] == p;
        assert cs.owned[i] == p.Identity();
      }
      if p.Identity() in cs.owned {
        var i :| 0 <= i < |cs.owned| && cs.owned[i] == p.Identity();
        assert ps[i] in parts;
      }
    }
  }

  lemma PollIs(s: Protocol.System, id: string, maxMessages: Option<int>, now: real)
    requires id in s.broker.consumers
    ensures Protocol.Step(s, Protocol.Poll(id, maxMessages, now)).broker
            == Protocol.AfterPoll(s.broker, id, maxMessages, now)
  {
  }

  /** `poll` takes the step of the protocol, and returns what the protocol says it hands over. */
  method Poll(c: Consumer, maxMessages: Option<int>, now: real, ghost g: ConsumerGroup,
              ghost s: Protocol.System, ghost parts: set<Partition>, ghost consumers: set<Consumer>)
    returns (messages: seq<Message>)
    requires World(parts, consumers, g) && Represents(s.broker, parts, consumers, g) && c in consumers
    modifies c`lastPoll, c`offsets, c`totalConsumed, c`lastCommit, (set p | p in c.assignedPartitions)`committedOffsets
    ensures World(parts, consumers, g)
    ensures Represents(Protocol.Step(s, Protocol.Poll(c.consumerId, maxMessages, now)).broker, parts, consumers, g)
    ensures var (polled, limit) := Protocol.PollResult(s.broker, s.broker.consumers[c.consumerId], maxMessages);
            messages == Messages(Returned(polled, limit))
  {
    hide Protocol.Step, Protocol.CommitPositions, PollSources, Polling.Poll;
    ghost var b, id := s.broker, c.consumerId;
    ghost var cs := b.consumers[id];
    ghost var polled := Protocol.PollResult(b, cs, maxMessages).0;
    ghost var moved := cs.(offsets := polled.offsets, lastPoll := now);
    ghost var due := c.CommitDue(now);
    PollIs(s, id, maxMessages, now);
    SourcesMap(b, parts, c.assignedPartitions);
    messages := c.Poll(maxMessages, now);
    assert due <==> cs.owned != [] && cs.settings.autoCommit && now - cs.lastCommit >= cs.settings.autoCommitInterval;
    assert StateOf(c) == if due then moved.(lastCommit := now) else moved;
    ghost var r := Protocol.AfterPoll(b, id, maxMessages, now);
    if due {
      CommittedLogs(b, moved, parts, c.assignedPartitions);
      assert r == Protocol.CommitPositions(b, moved).(consumers := b.consumers[id := moved.(lastCommit := now)]);
      assert HoldsLogs(r, parts);
    } else {
      assert r == b.(consumers := b.consumers[id := moved]);
      assert HoldsLogs(r, parts);
    }
    CommitKeepsGroups(b, moved);
    OthersHeld(b, r, consumers, c);
  }

  lemma CommitKeepsGroups(b: Protocol.Broker, cs: Protocol.ConsumerState)
    ensures Protocol.CommitPositions(b, cs).groups == b.groups
            && Protocol.CommitPositions(b, cs).consumers == b.consumers
  {
  }

  /** One consumer's state was replaced, the others are as they were. */
  lemma OthersHeld(b: Protocol.Broker, r: Protocol.Broker, consumers: set<Consumer>, c: Consumer)
    requires OwnIdentities({}, consumers) && c in consumers
    requires forall d :: d in consumers ==>
               d.consumerId in b.consumers && (d != c ==> b.consumers[d.consumerId] == StateOf(d))
    requires r.consumers == b.consumers[c.consumerId := StateOf(c)]
    ensures HoldsConsumers(r, consumers)
  {
  }

  /** `commit` takes the step of the protocol. */
  method Commit(c: Consumer, now: real, ghost g: ConsumerGroup,
                ghost s: Protocol.System, ghost parts: set<Partition>, ghost consumers: set<Consumer>)
    requires World(parts, consumers, g) && Represents(s.broker, parts, consumers, g) && c in consumers
    modifies c`lastCommit, (set p | p in c.assignedPartitions)`committedOffsets
    ensures World(parts, consumers, g)
    ensures Represents(Protocol.Step(s, Protocol.Commit(c.consumerId, now)).broker, parts, consumers, g)
  {
    ghost var b, cs := s.broker, s.broker.consumers[c.consumerId];
    ghost var r := Protocol.Step(s, Protocol.Commit(c.consumerId, now)).broker;
    assert r == Protocol.CommitPositions(b, cs).(consumers := b.consumers[c.consumerId := cs.(lastCommit := now)]);
    hide Protocol.Step, Protocol.CommitPositions;
    var _ := c.DoCommit(now);
    assert StateOf(c) == cs.(lastCommit := now);
    CommittedLogs(b, cs, parts, c.assignedPartitions);
    CommitKeepsGroups(b, cs);
    assert HoldsLogs(r, parts);
    OthersHeld(b, r, consumers, c);
  }

  /** `close` takes the step of the protocol. */
  method Close(c: Consumer, now: real, ghost g: ConsumerGroup,
               ghost s: Protocol.System, ghost parts: set<Partition>, ghost consumers: set<Consumer>)
    requires World(parts, consumers, g) && Represents(s.broker, parts, consumers, g) && c in consumers
    modifies c`lastCommit, c`active, (set p | p in c.assignedPartitions)`committedOffsets
    ensures World(parts, consumers, g)
    ensures Represents(Protocol.Step(s, Protocol.Close(c.consumerId, now)).broker, parts, consumers, g)
  {
    ghost var b, cs := s.broker, s.broker.consumers[c.consumerId];
    ghost var closed := cs.(lastCommit := now, active := false);
    ghost var r := Protocol.Step(s, Protocol.Close(c.consumerId, now)).broker;
    assert r == Protocol.CommitPositions(b, cs).(consumers := b.consumers[c.consumerId := closed]);
    hide Protocol.Step, Protocol.CommitPositions;
    c.Close(now);
    assert StateOf(c) == closed;
    CommittedLogs(b, cs, parts, c.assignedPartitions);
    CommitKeepsGroups(b, cs);
    assert HoldsLogs(r, parts);
    OthersHeld(b, r, consumers, c);
  }

  // ---------------------------------------------------------------- the partition's methods are steps

  /** One partition's log was replaced, the others are as they were. */
  lemma OneLogHeld(b: Protocol.Broker, parts: set<Partition>, p: Partition)
    requires OwnIdentities(parts, {}) && p in parts
    requires forall q :: q in parts ==>
                           && q.Identity() in b.partitions
                           && b.partitions[q.Identity()].config == q.Settings()
                           && (q != p ==> b.partitions[q.Identity()].log == q.State())
    ensures HoldsLogs(Protocol.WithLog(b, p.Identity(), p.State()), parts)
  {
  }

  /** `append` takes the step of the protocol. */
  method Append(p: Partition, message: Message, now: real, ghost g: ConsumerGroup,
                ghost s: Protocol.System, ghost parts: set<Partition>, ghost consumers: set<Consumer>)
    returns (slot: Option<int>)
    requires World(parts, consumers, g) && Represents(s.broker, parts, consumers, g) && p in parts
    modifies p
    ensures World(parts, consumers, g)
    ensures Represents(Protocol.Step(s, Protocol.Append(p.Identity(), message, now)).broker, parts, consumers, g)
  {
    slot := p.Append(message, now);
    OneLogHeld(s.broker, parts, p);
  }

  /** `apply_retention` takes the step of the protocol. */
  method ApplyRetention(p: Partition, now: real, ghost g: ConsumerGroup,
                        ghost s: Protocol.System, ghost parts: set<Partition>, ghost consumers: set<Consumer>)
    returns (removed: int)
    requires World(parts, consumers, g) && Represents(s.broker, parts, consumers, g) && p in parts
    modifies p`log
    ensures World(parts, consumers, g)
    ensures Represents(Protocol.Step(s, Protocol.Retain(p.Identity(), now)).broker, parts, consumers, g)
  {
    removed := p.ApplyRetention(now);
    OneLogHeld(s.broker, parts, p);
  }

  /** `clear` takes the step of the protocol. */
  method Clear(p: Partition, ghost g: ConsumerGroup,
               ghost s: Protocol.System, ghost parts: set<Partition>, ghost consumers: set<Consumer>)
    requires World(parts, consumers, g) && Represents(s.broker, parts, consumers, g) && p in parts
    modifies p`log
    ensures World(parts, consumers, g)
    ensures Represents(Protocol.Step(s, Protocol.Clear(p.Identity())).broker, parts, consumers, g)
  {
    p.Clear();
    OneLogHeld(s.broker, parts, p);
  }
}

/** Consumers and consumer groups as objects, proved against the polling and assignment functions. */
module Consumers {
  import opened Prelude
  import opened Partitions
  import opened Polling
  import Assignment
  import OrderedDict

  ghost function SourcesOf(ps: seq<Partition>): (r: seq<Source>)
    reads ps
    ensures |r| == |ps| && forall i :: 0 <= i < |ps| ==> r[i] == Source(ps[i].Identity(), ps[i].log)
  {
    seq(|ps|, i requires 0 <= i < |ps| reads ps => Source(ps[i].Identity(), ps[i].log))
  }

  ghost function SeedsOf(ps: seq<Partition>, group: string): (r: seq<(TopicPartition, int)>)
    reads ps
    ensures |r| == |ps| && forall i :: 0 <= i < |ps| ==> r[i] == (ps[i].Identity(), Committed(ps[i].State(), group))
  {
    seq(|ps|, i requires 0 <= i < |ps| reads ps => (ps[i].Identity(), Committed(ps[i].State(), group)))
  }

  class Consumer {
    const consumerId: string
    const autoCommit: bool
    const autoCommitInterval: real
    const maxPollMessages: int
    const sessionTimeout: real
    var groupId: string
    var assignedPartitions: seq<Partition>
    var offsets: Offsets
    var lastPoll: real
    var lastCommit: real
    var totalConsumed: nat
    var active: bool

    constructor (consumerId: string, groupId: string, autoCommit: bool, autoCommitInterval: real, maxPollMessages: int,
                 sessionTimeout: real, now: real)
      ensures this.consumerId == consumerId && this.groupId == groupId && this.autoCommit == autoCommit
      ensures this.autoCommitInterval == autoCommitInterval && this.maxPollMessages == maxPollMessages
      ensures this.sessionTimeout == sessionTimeout && totalConsumed == 0
      ensures assignedPartitions == [] && offsets == map[] && active && lastPoll == lastCommit == now
    {
      this.consumerId, this.groupId, this.autoCommit := consumerId, groupId, autoCommit;
      this.autoCommitInterval, this.maxPollMessages, this.sessionTimeout := autoCommitInterval, maxPollMessages,
          sessionTimeout;
      assignedPartitions, offsets, totalConsumed, active := [], map[], 0, true;
      lastPoll, lastCommit := now, now;
    }

    /** Takes over the list; a partition without a position starts at the group's committed offset. */
    method Assign(partitions: seq<Partition>)
      modifies this`assignedPartitions, this`offsets
      ensures assignedPartitions == partitions
      ensures offsets == Seed(old(offsets), old(SeedsOf(partitions, groupId)))
    {
      assignedPartitions := partitions;
      ghost var seeds := old(SeedsOf(partitions, groupId));
      for i := 0 to |partitions|
        invariant assignedPartitions == partitions
        invariant offsets == Seed(old(offsets), seeds[..i])
      {
        SeedNext(old(offsets), seeds, i);
        var key := partitions[i].Identity();
        if key !in offsets {
          var committed := partitions[i].GetCommittedOffset(groupId);
          offsets := offsets[key := committed];
        }
      }
      assert seeds[..|partitions|] == seeds;
    }

    method Revoke() returns (was: seq<Partition>)
      modifies this`assignedPartitions
      ensures was == old(assignedPartitions) && assignedPartitions == []
    {
      was := assignedPartitions;
      assignedPartitions := [];
    }

    /** Writes the position of every assigned partition into that partition, and nothing else. */
    method DoCommit(now: real) returns (committed: Offsets)
      modifies this`lastCommit, (set p | p in assignedPartitions)`committedOffsets
      ensures lastCommit == now
      ensures forall p :: p in assignedPartitions ==>
                            p.committedOffsets == old(p.committedOffsets)[groupId := Position(offsets, p.Identity())]
      ensures committed.Keys == set p | p in assignedPartitions :: p.Identity()
      ensures forall tp :: tp in committed ==> committed[tp] == Position(offsets, tp)
    {
      committed := map[];
      for i := 0 to |assignedPartitions|
        invariant forall p :: p in assignedPartitions ==>
                                p.committedOffsets == if p in assignedPartitions[..i]
                                                      then old(p.committedOffsets)[
                                                             groupId := Position(offsets, p.Identity())]
                                                      else old(p.committedOffsets)
        invariant committed.Keys == set p | p in assignedPartitions[..i] :: p.Identity()
        invariant forall tp :: tp in committed ==> committed[tp] == Position(offsets, tp)
      {
        var p := assignedPartitions[i];
        assert assignedPartitions[..i + 1] == assignedPartitions[..i] + [p];
        var offset := if p.Identity() in offsets then offsets[p.Identity()] else 0;
        p.CommitOffset(groupId, offset);
        committed := committed[p.Identity() := offset];
      }
      assert assignedPartitions[..|assignedPartitions|] == assignedPartitions;
      lastCommit := now;
    }

    ghost predicate CommitDue(now: real)
      reads this
    {
      assignedPartitions != [] && autoCommit && now - lastCommit >= autoCommitInterval
    }

    /** The loop of `poll`: read every assigned partition once and move its position. */
    method ReadRound(per: int) returns (messages: seq<Message>)
      modifies this`offsets
      ensures var polled := old(PollSources(SourcesOf(assignedPartitions), offsets, per));
              messages == Messages(polled.deliveries) && offsets == polled.offsets
    {
      hide ReadLog;
      hide Tagged;
      messages := [];
      ghost var sources, was := SourcesOf(assignedPartitions), offsets;
      for i := 0 to |assignedPartitions|
        invariant offsets == PollSources(sources[..i], was, per).offsets
        invariant messages == Messages(PollSources(sources[..i], was, per).deliveries)
      {
        var partition := assignedPartitions[i];
        var key := partition.Identity();
        var offset := if key in offsets then offsets[key] else 0;
        var batch := partition.Read(offset, per);
        messages := messages + batch;
        PollNext(sources, was, per, i, batch);
        if batch != [] {
          var lastOffset := batch[|batch| - 1].offset;
          offsets := offsets[key := lastOffset + 1];
        }
      }
      assert sources[..|sources|] == sources;
    }

    /** One round over the assigned partitions; positions pass everything read, the result is cut to the limit. */
    method Poll(maxMessages: Option<int>, now: real) returns (messages: seq<Message>)
      modifies this`lastPoll, this`offsets, this`totalConsumed, this`lastCommit,
               (set p | p in assignedPartitions)`committedOffsets
      ensures var limit := Limit(maxMessages, maxPollMessages);
              var polled := old(Polling.Poll(SourcesOf(assignedPartitions), offsets, limit));
              && messages == Messages(Returned(polled, limit))
              && offsets == polled.offsets
              && totalConsumed == old(totalConsumed) + |polled.deliveries|
      ensures |old(assignedPartitions)| == 1 && Contiguous(old(assignedPartitions[0].log)) ==>
                messages == FirstFrom(old(assignedPartitions[0].log), OffsetOf,
                                      Position(old(offsets), old(assignedPartitions[0].Identity())),
                                      if maxMessages.Some? && maxMessages.value != 0 then maxMessages.value
                                      else maxPollMessages)
      ensures lastPoll == now && lastCommit == if old(CommitDue(now)) then now else old(lastCommit)
      ensures old(CommitDue(now))
              <==> old(assignedPartitions) != [] && autoCommit && now - old(lastCommit) >= autoCommitInterval
      ensures forall p :: p in assignedPartitions ==>
                            p.committedOffsets == if old(CommitDue(now))
                                                  then old(p.committedOffsets)[
                                                         groupId := Position(offsets, p.Identity())]
                                                  else old(p.committedOffsets)
    {
      hide ReadLog;
      hide PollSources;
      var limit := if maxMessages.Some? && maxMessages.value != 0 then maxMessages.value else maxPollMessages;
      messages := [];
      lastPoll := now;
      if assignedPartitions == [] {
        assert Messages(Returned(Polled([], offsets), limit)) == [];
        return;
      }
      var per := Max(1, limit / |assignedPartitions|);
      messages := ReadRound(per);
      ghost var polled := old(Polling.Poll(SourcesOf(assignedPartitions), offsets, limit));
      assert messages == Messages(polled.deliveries) && offsets == polled.offsets;
      MessagesReturned(polled, limit);
      totalConsumed := totalConsumed + |messages|;
      if autoCommit {
        if now - lastCommit >= autoCommitInterval {
          var _ := DoCommit(now);
        }
      }
      messages := Slice(messages, 0, limit);
      ghost var sources := old(SourcesOf(assignedPartitions));
      if |sources| == 1 && Contiguous(sources[0].entries) {
        assert sources == [sources[0]];
        PollOnePartition(sources[0], old(offsets), limit);
      }
    }

    method Close(now: real)
      modifies this`lastCommit, this`active, (set p | p in assignedPartitions)`committedOffsets
      ensures !active && lastCommit == now
      ensures forall p :: p in assignedPartitions ==>
                            p.committedOffsets == old(p.committedOffsets)[groupId := Position(offsets, p.Identity())]
    {
      var _ := DoCommit(now);
      active := false;
    }

    predicate IsAlive(now: real)
      reads this
    {
      active && now - lastPoll < sessionTimeout
    }
  }

  /** The identifiers of the members that are not alive, in joining order. */
  ghost function DeadIds(ms: OrderedDict.Dict<string, Consumer>, now: real): seq<string>
    reads set i | 0 <= i < |ms| :: ms[i].1
  {
    if ms == [] then []
    else DeadIds(ms[..|ms| - 1], now) + if ms[|ms| - 1].1.IsAlive(now) then [] else [ms[|ms| - 1].0]
  }

  /** They are exactly the identifiers of members that are not alive, each once. */
  lemma {:induction false} DeadIdsAreDead(ms: OrderedDict.Dict<string, Consumer>, now: real)
    requires OrderedDict.WellFormed(ms)
    ensures forall i :: 0 <= i < |ms| ==> (ms[i].0 in DeadIds(ms, now) <==> !ms[i].1.IsAlive(now))
    ensures forall id :: id in DeadIds(ms, now) ==> OrderedDict.Has(ms, id)
    ensures forall k, l :: 0 <= k < l < |DeadIds(ms, now)| ==> DeadIds(ms, now)[k] != DeadIds(ms, now)[l]
  {
    if ms == [] {
    } else {
      var n := |ms| - 1;
      var before := DeadIds(ms[..n], now);
      DeadIdsAreDead(ms[..n], now);
      assert forall i :: 0 <= i < n ==> ms[..n][i] == ms[i];
      forall id | id in before ensures id != ms[n].0 && OrderedDict.Has(ms, id) {
        OrderedDict.HasIsMembership(ms[..n], id);
        OrderedDict.HasIsMembership(ms, id);
      }
      OrderedDict.HasIsMembership(ms, ms[n].0);
    }
  }

  class ConsumerGroup {
    const groupId: string
    const strategy: Assignment.Strategy
    var members: OrderedDict.Dict<string, Consumer>
    var topics: OrderedDict.Dict<string, seq<Partition>>
    var generation: nat

    constructor (groupId: string, strategy: Assignment.Strategy)
      ensures this.groupId == groupId && this.strategy == strategy
      ensures Valid() && members == [] && topics == [] && generation == 0
    {
      this.groupId, this.strategy := groupId, strategy;
      members, topics, generation := [], [], 0;
    }

    /** Members are filed under their own identifiers. */
    ghost predicate Valid()
      reads this
    {
      OrderedDict.WellFormed(members) && forall i :: 0 <= i < |members| ==> members[i].1.consumerId == members[i].0
    }

    ghost function Objects(): set<Consumer>
      reads this
    {
      ObjectsOf(members)
    }

    static ghost function ObjectsOf(ms: OrderedDict.Dict<string, Consumer>): set<Consumer> {
      set i | 0 <= i < |ms| :: ms[i].1
    }

    /** Every member holds exactly its share of the subscribed partitions. */
    ghost predicate Balanced()
      reads this, Objects()
    {
      forall i :: 0 <= i < |members| ==>
                    members[i].1.assignedPartitions
                        == Assignment.Share(strategy, OrderedDict.Concatenated(topics), |members|, i)
    }

    static ghost predicate DistinctObjects(cs: seq<Consumer>) {
      forall i, j :: 0 <= i < j < |cs| ==> cs[i] != cs[j] && cs[i].consumerId != cs[j].consumerId
    }

    /** The range loop: consecutive runs of the list, the first `remainder` of them one longer. */
    method AssignRuns(cs: seq<Consumer>, partitions: seq<Partition>, per: nat, remainder: nat,
                      ghost runs: seq<seq<Partition>>)
      requires DistinctObjects(cs) && Assignment.RangeStart(per, remainder, |cs|) <= |partitions|
      requires |runs| == |cs| && forall i :: 0 <= i < |cs| ==>
                 runs[i] == Assignment.RunOf(partitions, per, remainder, |cs|, i)
      modifies (set c | c in cs)`assignedPartitions, (set c | c in cs)`offsets
      ensures forall i :: 0 <= i < |cs| ==> cs[i].assignedPartitions == runs[i]
      ensures forall i :: 0 <= i < |cs| ==> cs[i].offsets == old(Seed(cs[i].offsets, SeedsOf(runs[i], cs[i].groupId)))
    {
      hide Seed;
      var idx := 0;
      for i := 0 to |cs|
        invariant idx == Assignment.RangeStart(per, remainder, i)
        invariant forall j :: 0 <= j < i ==> cs[j].assignedPartitions == runs[j]
        invariant forall j :: 0 <= j < i ==> cs[j].offsets == old(Seed(cs[j].offsets, SeedsOf(runs[j], cs[j].groupId)))
        invariant forall j :: i <= j < |cs| ==> cs[j].offsets == old(cs[j].offsets)
      {
        var count := per + if i < remainder then 1 else 0;
        Assignment.RangeStartMonotone(per, remainder, i + 1, |cs|);
        assert SeedsOf(runs[i], cs[i].groupId) == old(SeedsOf(runs[i], cs[i].groupId));
        var run := Assignment.Stretch(partitions, idx, count);
        assert run == runs[i];
        cs[i].Assign(run);
        idx := idx + count;
      }
    }

    method AssignRange(cs: seq<Consumer>, partitions: seq<Partition>)
      requires cs != [] && DistinctObjects(cs)
      modifies (set c | c in cs)`assignedPartitions, (set c | c in cs)`offsets
      ensures forall i :: 0 <= i < |cs| ==> cs[i].assignedPartitions == Assignment.RangeShare(partitions, |cs|, i)
      ensures forall i :: 0 <= i < |cs| ==>
                            cs[i].offsets
                                == old(Seed(cs[i].offsets,
                                            SeedsOf(Assignment.RangeShare(partitions, |cs|, i), cs[i].groupId)))
    {
      Assignment.RangeStartTotal(|partitions|, |cs|);
      ghost var shares := seq(|cs|, i requires 0 <= i < |cs| => Assignment.RangeShare(partitions, |cs|, i));
      AssignRuns(cs, partitions, |partitions| / |cs|, |partitions| % |cs|, shares);
    }

    /** The first two loops of the round-robin assignment: an empty list per member, then deal the partitions out. */
    static method Deal(cs: seq<Consumer>, partitions: seq<Partition>) returns (assignment: map<string, seq<Partition>>)
      requires cs != [] && DistinctObjects(cs)
      ensures forall j :: 0 <= j < |cs| ==> cs[j].consumerId in assignment &&
                                            assignment[cs[j].consumerId]
                                                == Assignment.RoundRobinShare(partitions, |cs|, j)
    {
      assignment := map[];
      for i := 0 to |cs|
        invariant forall j :: 0 <= j < i ==> cs[j].consumerId in assignment && assignment[cs[j].consumerId] == []
      {
        assignment := assignment[cs[i].consumerId := []];
      }
      for k := 0 to |partitions|
        invariant forall j :: 0 <= j < |cs| ==>
                                cs[j].consumerId in assignment &&
                                assignment[cs[j].consumerId] == Assignment.RoundRobinShare(partitions[..k], |cs|, j)
      {
        var turn := k % |cs|;
        var id := cs[turn].consumerId;
        assignment := assignment[id := assignment[id] + [partitions[k]]];
        forall j | 0 <= j < |cs|
          ensures assignment[cs[j].consumerId] == Assignment.RoundRobinShare(partitions[..k + 1], |cs|, j)
        {
          Assignment.RoundRobinNext(partitions, |cs|, j, k);
          assert j != turn ==> cs[j].consumerId != id;
        }
      }
      assert partitions[..|partitions|] == partitions;
    }

    method AssignRoundRobin(cs: seq<Consumer>, partitions: seq<Partition>)
      requires cs != [] && DistinctObjects(cs)
      modifies (set c | c in cs)`assignedPartitions, (set c | c in cs)`offsets
      ensures forall i :: 0 <= i < |cs| ==> cs[i].assignedPartitions == Assignment.RoundRobinShare(partitions, |cs|, i)
      ensures forall i :: 0 <= i < |cs| ==>
                            cs[i].offsets
                                == old(Seed(cs[i].offsets,
                                            SeedsOf(Assignment.RoundRobinShare(partitions, |cs|, i), cs[i].groupId)))
    {
      ghost var shares := seq(|cs|, i requires 0 <= i < |cs| => Assignment.RoundRobinShare(partitions, |cs|, i));
      hide Assignment.RoundRobinShare, Seed;
      var assignment := Deal(cs, partitions);
      forall i | 0 <= i < |cs|
        ensures Seed(cs[i].offsets, SeedsOf(shares[i], cs[i].groupId))
                == old(Seed(cs[i].offsets, SeedsOf(shares[i], cs[i].groupId)))
      {
        assert SeedsOf(shares[i], cs[i].groupId) == old(SeedsOf(shares[i], cs[i].groupId));
      }
      HandOut(cs, assignment, shares);
    }

    /** The last loop of the round-robin assignment. */
    method HandOut(cs: seq<Consumer>, assignment: map<string, seq<Partition>>, ghost shares: seq<seq<Partition>>)
      requires DistinctObjects(cs) && |shares| == |cs|
      requires forall i :: 0 <= i < |cs| ==> cs[i].consumerId in assignment && assignment[cs[i].consumerId] == shares[i]
      modifies (set c | c in cs)`assignedPartitions, (set c | c in cs)`offsets
      ensures forall i :: 0 <= i < |cs| ==> cs[i].assignedPartitions == shares[i]
      ensures forall i :: 0 <= i < |cs| ==> cs[i].offsets == old(Seed(cs[i].offsets, SeedsOf(shares[i], cs[i].groupId)))
    {
      for i := 0 to |cs|
        invariant forall j :: 0 <= j < i ==> cs[j].assignedPartitions == shares[j]
        invariant forall j :: 0 <= j < i ==>
                    cs[j].offsets == old(Seed(cs[j].offsets, SeedsOf(shares[j], cs[j].groupId)))
        invariant forall j :: i <= j < |cs| ==> cs[j].offsets == old(cs[j].offsets)
      {
        assert SeedsOf(shares[i], cs[i].groupId) == old(SeedsOf(shares[i], cs[i].groupId));
        cs[i].Assign(assignment[cs[i].consumerId]);
      }
    }

    static method Values(ms: OrderedDict.Dict<string, Consumer>) returns (cs: seq<Consumer>)
      ensures |cs| == |ms| && forall i :: 0 <= i < |ms| ==> cs[i] == ms[i].1
    {
      cs := seq(|ms|, i requires 0 <= i < |ms| => ms[i].1);
    }

    /** What a rebalance hands to member `i`, and where its positions start. */
    ghost function Share(i: nat): seq<Partition>
      requires i < |members|
      reads this
    {
      Assignment.Share(strategy, OrderedDict.Concatenated(topics), |members|, i)
    }

    method AllPartitions() returns (all: seq<Partition>)
      ensures all == OrderedDict.Concatenated(topics)
    {
      all := [];
      for i := 0 to |topics|
        invariant all + OrderedDict.Concatenated(topics[i..]) == OrderedDict.Concatenated(topics)
      {
        assert topics[i..][1..] == topics[i + 1..];
        all := all + topics[i].1;
      }
    }

    method Distribute(cs: seq<Consumer>, partitions: seq<Partition>)
      requires cs != [] && DistinctObjects(cs)
      modifies (set c | c in cs)`assignedPartitions, (set c | c in cs)`offsets
      ensures forall i :: 0 <= i < |cs| ==> cs[i].assignedPartitions == Assignment.Share(strategy, partitions, |cs|, i)
      ensures forall c :: c in cs ==> c.offsets == Seed(old(c.offsets), SeedsOf(c.assignedPartitions, c.groupId))
    {
      hide Assignment.RangeStart, Seed;
      if strategy == Assignment.Range {
        AssignRange(cs, partitions);
      } else if strategy == Assignment.RoundRobin {
        AssignRoundRobin(cs, partitions);
      } else {
        AssignRange(cs, partitions);
      }
      forall i | 0 <= i < |cs|
        ensures cs[i].offsets == Seed(old(cs[i].offsets), SeedsOf(cs[i].assignedPartitions, cs[i].groupId))
      {
        ghost var share := Assignment.Share(strategy, partitions, |cs|, i);
        assert SeedsOf(share, cs[i].groupId) == old(SeedsOf(share, cs[i].groupId));
      }
    }

    lemma NothingToShare(m: nat, i: nat)
      requires i < m
      ensures Assignment.Share<Partition>(strategy, [], m, i) == []
    {
      Assignment.ShareIsFair<Partition>(strategy, [], m, i);
      DivisionIsUnique(0, m, 0, 0);
    }

    /** With no member nothing happens; otherwise every member gets its share and keeps the positions it has. */
    method Rebalance()
      requires Valid()
      modifies this`generation, Objects()`assignedPartitions, Objects()`offsets
      ensures Valid() && Balanced()
      ensures generation == old(generation) + if members == [] then 0 else 1
      ensures forall c :: c in Objects() ==> c.offsets == Seed(old(c.offsets), SeedsOf(c.assignedPartitions, c.groupId))
    {
      hide Assignment.RangeStart, Seed;
      if members == [] {
        return;
      }
      generation := generation + 1;
      var cs := Values(members);
      RevokeAll(cs);
      var allPartitions := AllPartitions();
      if allPartitions == [] {
        forall i | 0 <= i < |members| ensures Share(i) == [] {
          NothingToShare(|members|, i);
        }
        forall c | c in Objects() ensures c.offsets == Seed(old(c.offsets), SeedsOf(c.assignedPartitions, c.groupId)) {
          SeedNothing(c.offsets, SeedsOf(c.assignedPartitions, c.groupId));
        }
        return;
      }
      Distribute(cs, allPartitions);
    }

    static lemma SeedNothing(offsets: Offsets, seeds: seq<(TopicPartition, int)>)
      requires seeds == []
      ensures Seed(offsets, seeds) == offsets
    {
    }

    method RevokeAll(cs: seq<Consumer>)
      modifies (set c | c in cs)`assignedPartitions
      ensures forall c :: c in cs ==> c.assignedPartitions == []
    {
      for i := 0 to |cs|
        invariant forall j :: 0 <= j < i ==> cs[j].assignedPartitions == []
      {
        var _ := cs[i].Revoke();
      }
    }

    /** Adds the consumer under its identifier, in place of a member that had the same one. */
    method Join(consumer: Consumer)
      requires Valid()
      modifies this`members, this`generation, consumer`groupId
      modifies (Objects() + {consumer})`assignedPartitions, (Objects() + {consumer})`offsets
      ensures Valid() && Balanced()
      ensures members == OrderedDict.Put(old(members), consumer.consumerId, consumer)
      ensures consumer.groupId == groupId && generation == old(generation) + 1
      ensures consumer in Objects() && Objects() <= old(Objects()) + {consumer}
      ensures forall c :: c in old(Objects()) + {consumer} && c in Objects() ==>
                            c.offsets == Seed(old(c.offsets), SeedsOf(c.assignedPartitions, c.groupId))
      ensures forall c :: c in old(Objects()) && c !in Objects() ==> c.consumerId == consumer.consumerId && unchanged(c)
    {
      consumer.groupId := groupId;
      OrderedDict.PutWellFormed(members, consumer.consumerId, consumer);
      OrderedDict.PutEntries(members, consumer.consumerId, consumer);
      PutObjects(members, consumer);
      var joined := OrderedDict.Put(members, consumer.consumerId, consumer);
      forall i | 0 <= i < |joined|
        ensures joined[i].1 in Objects() + {consumer} && joined[i].1.consumerId == joined[i].0
      {
        assert joined[i] in joined;
      }
      members := joined;
      Rebalance();
    }

    /** Filing a consumer leaves everybody in place except the holder of its identifier. */
    static lemma PutObjects(ms: OrderedDict.Dict<string, Consumer>, consumer: Consumer)
      requires OrderedDict.WellFormed(ms) && forall i :: 0 <= i < |ms| ==> ms[i].1.consumerId == ms[i].0
      ensures var put := OrderedDict.Put(ms, consumer.consumerId, consumer);
              && (exists i :: 0 <= i < |put| && put[i].1 == consumer)
              && forall i :: 0 <= i < |ms| ==>
                               || ms[i].1.consumerId == consumer.consumerId
                               || exists j :: 0 <= j < |put| && put[j].1 == ms[i].1
    {
      var put, id := OrderedDict.Put(ms, consumer.consumerId, consumer), consumer.consumerId;
      OrderedDict.PutWellFormed(ms, id, consumer);
      OrderedDict.GetPut(ms, id, consumer, id);
      OrderedDict.HasIsMembership(put, id);
      var k :| 0 <= k < |put| && put[k] == (id, consumer);
      forall i | 0 <= i < |ms| && ms[i].0 != id ensures exists j :: 0 <= j < |put| && put[j].1 == ms[i].1 {
        OrderedDict.GetEntry(ms, i);
        OrderedDict.GetPut(ms, id, consumer, ms[i].0);
        OrderedDict.HasIsMembership(put, ms[i].0);
      }
    }

    /** The member that leaves holds nothing afterwards; an unknown identifier changes nothing. */
    method Leave(id: string) returns (left: Option<Consumer>)
      requires Valid()
      modifies this`members, this`generation, Objects()`assignedPartitions, Objects()`offsets
      ensures left == OrderedDict.Get(old(members), id)
      ensures Valid()
      ensures left == None ==> unchanged(this) && forall c :: c in old(Objects()) ==> unchanged(c)
      ensures left.Some? ==> Balanced() && members == OrderedDict.Remove(old(members), id)
      ensures left.Some? ==> generation == old(generation) + if members == [] then 0 else 1
      ensures left.Some? ==> left.value in old(Objects()) && left.value !in Objects() && Objects() <= old(Objects())
      ensures left.Some? ==> left.value.assignedPartitions == [] && left.value.offsets == old(left.value.offsets)
      ensures left.Some? ==> forall c :: c in old(Objects()) && c in Objects() ==>
                                           c.offsets == Seed(old(c.offsets), SeedsOf(c.assignedPartitions, c.groupId))
    {
      left := OrderedDict.Get(members, id);
      if left.Some? {
        OrderedDict.RemoveWellFormed(members, id);
        OrderedDict.GetRemove(members, id, id);
        OrderedDict.HasIsMembership(members, id);
        OrderedDict.HasIsMembership(OrderedDict.Remove(members, id), id);
        var rest := OrderedDict.Remove(members, id);
        forall i | 0 <= i < |rest| ensures rest[i].1 in Objects() && rest[i].1.consumerId == rest[i].0 {
          assert rest[i] in members;
        }
        members := rest;
        var _ := left.value.Revoke();
        Rebalance();
      }
    }

    method Subscribe(topic: string, partitions: seq<Partition>)
      requires Valid()
      modifies this`topics, this`generation, Objects()`assignedPartitions, Objects()`offsets
      ensures Valid() && Balanced() && topics == OrderedDict.Put(old(topics), topic, partitions)
      ensures generation == old(generation) + if members == [] then 0 else 1
      ensures forall c :: c in old(Objects()) ==>
                c.offsets == Seed(old(c.offsets), SeedsOf(c.assignedPartitions, c.groupId))
    {
      topics := OrderedDict.Put(topics, topic, partitions);
      Rebalance();
    }

    method Unsubscribe(topic: string)
      requires Valid()
      modifies this`topics, this`generation, Objects()`assignedPartitions, Objects()`offsets
      ensures Valid() && Balanced() && topics == OrderedDict.Remove(old(topics), topic)
      ensures generation == old(generation) + if members == [] then 0 else 1
      ensures forall c :: c in old(Objects()) ==>
                c.offsets == Seed(old(c.offsets), SeedsOf(c.assignedPartitions, c.groupId))
    {
      topics := OrderedDict.Remove(topics, topic);
      Rebalance();
    }

    method FindDead(now: real) returns (dead: seq<string>)
      ensures dead == DeadIds(members, now)
      ensures OrderedDict.WellFormed(members) ==>
                forall i :: 0 <= i < |members| ==>
                              (members[i].0 in dead <==>
                               !members[i].1.active || now - members[i].1.lastPoll >= members[i].1.sessionTimeout)
    {
      dead := [];
      for i := 0 to |members|
        invariant dead == DeadIds(members[..i], now)
      {
        assert members[..i + 1][..i] == members[..i];
        if !members[i].1.IsAlive(now) {
          dead := dead + [members[i].0];
        }
      }
      assert members[..|members|] == members;
      if OrderedDict.WellFormed(members) {
        DeadIdsAreDead(members, now);
      }
    }

    /** Whoever has not polled within its session timeout is dropped and holds nothing; the rest are rebalanced. */
    method RemoveDeadMembers(now: real) returns (dead: seq<string>)
      requires Valid()
      modifies this`members, this`generation, Objects()`assignedPartitions, Objects()`offsets
      ensures Valid() && dead == old(DeadIds(members, now))
      ensures members == OrderedDict.RemoveAll(old(members), dead)
      ensures dead != [] ==> Balanced() && forall i :: 0 <= i < |old(members)| && old(members[i].0) in dead ==>
                                                         old(members[i].1).assignedPartitions == []
      ensures dead == [] ==> unchanged(this) && forall c :: c in old(Objects()) ==> unchanged(c)
      ensures dead != [] ==> generation == old(generation) + if members == [] then 0 else 1
      ensures Objects() <= old(Objects())
      ensures dead != [] ==> forall c :: c in old(Objects()) ==>
                                           c.offsets == if c in Objects()
                                                        then Seed(old(c.offsets),
                                                                  SeedsOf(c.assignedPartitions, c.groupId))
                                                        else old(c.offsets)
    {
      dead := FindDead(now);
      if dead != [] {
        DeadIdsAreDead(members, now);
        hide DeadIds, Seed, OrderedDict.RemoveAll;
        DropAndRebalance(dead);
      }
    }

    method DropAndRebalance(dead: seq<string>)
      requires Valid()
      requires forall id :: id in dead ==> OrderedDict.Has(members, id)
      requires forall k, l :: 0 <= k < l < |dead| ==> dead[k] != dead[l]
      modifies this`members, this`generation, Objects()`assignedPartitions, Objects()`offsets
      ensures Valid() && Balanced() && members == OrderedDict.RemoveAll(old(members), dead)
      ensures forall i :: 0 <= i < |old(members)| && old(members[i].0) in dead ==>
                old(members[i].1).assignedPartitions == []
      ensures generation == old(generation) + if members == [] then 0 else 1
      ensures Objects() <= old(Objects())
      ensures forall c :: c in old(Objects()) ==>
                            c.offsets == if c in Objects()
                                         then Seed(old(c.offsets), SeedsOf(c.assignedPartitions, c.groupId))
                                         else old(c.offsets)
    {
      hide Seed, OrderedDict.RemoveAll;
      DropAll(dead);
      Rebalance();
    }

    /** What is left after dropping some identifiers are other objects than those dropped. */
    static lemma RestOf(was: OrderedDict.Dict<string, Consumer>, rest: OrderedDict.Dict<string, Consumer>,
                        dead: seq<string>)
      requires forall i :: 0 <= i < |was| ==> was[i].1.consumerId == was[i].0
      requires forall e :: e in rest ==> e in was && e.0 !in dead
      ensures ObjectsOf(rest) <= ObjectsOf(was)
      ensures forall i :: 0 <= i < |was| && was[i].0 in dead ==> was[i].1 !in ObjectsOf(rest)
    {
      forall j | 0 <= j < |rest| ensures rest[j].1 in ObjectsOf(was) {
        assert rest[j] in rest;
        var i :| 0 <= i < |was| && was[i] == rest[j];
        assert was[i].1 in ObjectsOf(was);
      }
      forall i, j | 0 <= i < |was| && 0 <= j < |rest| && was[i].0 in dead ensures was[i].1 != rest[j].1 {
        assert rest[j] in rest;
        var k :| 0 <= k < |was| && was[k] == rest[j];
        assert was[k].1.consumerId == rest[j].0;
      }
    }

    method DropAll(dead: seq<string>)
      requires Valid()
      requires forall id :: id in dead ==> OrderedDict.Has(members, id)
      requires forall k, l :: 0 <= k < l < |dead| ==> dead[k] != dead[l]
      modifies this`members, Objects()`assignedPartitions
      ensures Valid() && members == OrderedDict.RemoveAll(old(members), dead)
      ensures forall e :: e in members ==> e in old(members) && e.0 !in dead
      ensures Objects() <= old(Objects())
      ensures forall i :: 0 <= i < |old(members)| && old(members[i].0) in dead ==> old(members[i].1) !in Objects()
      ensures forall i :: 0 <= i < |old(members)| && old(members[i].0) in dead ==>
                old(members[i].1).assignedPartitions == []
    {
      ghost var was := members;
      for k := 0 to |dead|
        invariant Valid() && members == OrderedDict.RemoveAll(was, dead[..k])
        invariant forall e :: e in members ==> e in was && e.0 !in dead[..k]
        invariant forall i :: 0 <= i < |was| && was[i].0 in dead[..k] ==> was[i].1.assignedPartitions == []
      {
        assert dead[k] in dead;
        OrderedDict.RemoveAllKeeps(was, dead[..k], dead[k]);
        OrderedDict.RemoveAllAppend(was, dead[..k], dead[k]);
        assert dead[..k + 1] == dead[..k] + [dead[k]];
        OrderedDict.HasIsMembership(was, dead[k]);
        OrderedDict.RemoveWellFormed(members, dead[k]);
        OrderedDict.GetRemove(members, dead[k], dead[k]);
        var consumer := OrderedDict.Get(members, dead[k]).value;
        forall i | 0 <= i < |was| && was[i].0 == dead[k] ensures was[i].1 == consumer {
          OrderedDict.GetEntry(was, i);
        }
        var rest := OrderedDict.Remove(members, dead[k]);
        OrderedDict.HasIsMembership(rest, dead[k]);
        forall i | 0 <= i < |rest| ensures rest[i].1.consumerId == rest[i].0 && rest[i].0 != dead[k] {
          assert rest[i] in rest;
        }
        members := rest;
        var _ := consumer.Revoke();
      }
      assert dead[..|dead|] == dead;
      RestOf(was, members, dead);
    }
  }

  // ---------------------------------------------------------------- two consumers under one identifier

  /**
   A consumer that was displaced by another one with its identifier is not revoked. What it still holds
   of the subscribed partitions is held by a member as well: two objects hold one partition if and only if
   the displaced one held anything.
   */
  lemma NamesakeOverlapsIff(g: ConsumerGroup, displaced: Consumer)
    requires g.Valid() && g.Balanced() && g.members != []
    requires Distinct(OrderedDict.Concatenated(g.topics))
    requires forall p :: p in displaced.assignedPartitions ==> p in OrderedDict.Concatenated(g.topics)
    ensures displaced.assignedPartitions != [] <==>
            exists p, c :: p in displaced.assignedPartitions && c in g.Objects() && p in c.assignedPartitions
  {
    if displaced.assignedPartitions != [] {
      var p := displaced.assignedPartitions[0];
      var all, m := OrderedDict.Concatenated(g.topics), |g.members|;
      var i := Assignment.ExactlyOneOwner(g.strategy, all, m, p);
      assert Assignment.OwnedBy(g.strategy, all, m, p, i);
      var c := g.members[i].1;
      assert c in g.Objects() && p in c.assignedPartitions;
    }
  }

  /** It happens: two consumers with one identifier, both holding the only partition. */
  method NamesakesHoldOnePartition() returns (first: Consumer, second: Consumer, p: Partition)
    ensures first != second && first.consumerId == second.consumerId && first.groupId == second.groupId
    ensures first.assignedPartitions == second.assignedPartitions == [p]
  {
    hide Seed, Assignment.Share, OrderedDict.Concatenated;
    p := new Partition("t", 0, 0, 0);
    var g := new ConsumerGroup("g", Assignment.RoundRobin);
    first := new Consumer("c", "", true, 5.0, 100, 30.0, 0.0);
    second := new Consumer("c", "", true, 5.0, 100, 30.0, 0.0);
    g.Subscribe("t", [p]);
    OnlyTopic("t", [p]);
    g.Join(first);
    OnlyMember(g, first, p);
    g.Join(second);
    OnlyMember(g, second, p);
  }

  lemma OnlyTopic(topic: string, ps: seq<Partition>)
    ensures OrderedDict.Concatenated(OrderedDict.Put([], topic, ps)) == ps
  {
    assert [(topic, ps)][1..] == [] && ps + [] == ps;
  }

  lemma OnlyMember(g: ConsumerGroup, c: Consumer, p: Partition)
    requires g.Balanced() && g.strategy == Assignment.RoundRobin && OrderedDict.Concatenated(g.topics) == [p]
    requires |g.members| == 1 && c in g.Objects()
    ensures c.assignedPartitions == [p]
  {
    assert [p][..0] == [] && [] + [p] == [p];
    assert Assignment.RoundRobinShare([p], 1, 0) == [p];
  }
}

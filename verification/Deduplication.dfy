/** The de-duplicating middleware: a set and a list that together remember the last W accepted ids. */
module Deduplication {
  import opened Prelude

  type Id = string

  datatype Memory = Memory(seen: set<Id>, order: seq<Id>)

  const BLANK := Memory({}, [])

  function Elements(s: seq<Id>): set<Id> { set x | x in s }

  /** The eviction loop. */
  function Trimmed(m: Memory, window: nat): Memory
    decreases |m.order|
  {
    if |m.order| > window then Trimmed(Memory(m.seen - {m.order[0]}, m.order[1..]), window) else m
  }

  function Step(m: Memory, window: nat, id: Id): Memory {
    if id in m.seen then m else Trimmed(Memory(m.seen + {id}, m.order + [id]), window)
  }

  function Run(window: nat, ids: seq<Id>): Memory {
    if ids == [] then BLANK else Step(Run(window, ids[..|ids| - 1]), window, ids[|ids| - 1])
  }

  // ---------------------------------------------------------------- the reference: the last W accepted ids

  function LastOf(ids: seq<Id>, window: nat): seq<Id> {
    if |ids| <= window then ids else ids[|ids| - window..]
  }

  /** The ids that pass: each one is compared with the last W that passed before it. */
  function Accepted(window: nat, ids: seq<Id>): seq<Id> {
    if ids == [] then []
    else
      var before, id := Accepted(window, ids[..|ids| - 1]), ids[|ids| - 1];
      if id in LastOf(before, window) then before else before + [id]
  }

  ghost predicate Agrees(m: Memory) {
    m.seen == Elements(m.order) && Distinct(m.order)
  }

  lemma {:induction false} TrimmedIsLast(m: Memory, window: nat)
    requires Agrees(m)
    ensures Agrees(Trimmed(m, window)) && Trimmed(m, window).order == LastOf(m.order, window)
    decreases |m.order|
  {
    if |m.order| > window {
      var rest := m.order[1..];
      assert m.order == [m.order[0]] + rest;
      assert m.order[0] !in rest;
      assert Elements(rest) == m.seen - {m.order[0]};
      TrimmedIsLast(Memory(m.seen - {m.order[0]}, rest), window);
    }
  }

  /**
   Over every input stream and window: the set is the set of the list, the list is exactly the last W
   accepted ids, and the next id passes if and only if it is not one of them.
   */
  lemma {:induction false} WindowIsExact(window: nat, ids: seq<Id>, next: Id)
    ensures Agrees(Run(window, ids))
    ensures Run(window, ids).order == LastOf(Accepted(window, ids), window)
    ensures next in Run(window, ids).seen <==> next in LastOf(Accepted(window, ids), window)
  {
    if ids == [] {
    } else {
      var rest, id := ids[..|ids| - 1], ids[|ids| - 1];
      var m, passed := Run(window, rest), Accepted(window, rest);
      WindowIsExact(window, rest, id);
      if id !in m.seen {
        var grown := Memory(m.seen + {id}, m.order + [id]);
        assert Agrees(grown);
        TrimmedIsLast(grown, window);
        LastOfAppend(passed, id, window);
      }
    }
  }

  lemma LastOfAppend(s: seq<Id>, id: Id, window: nat)
    ensures LastOf(LastOf(s, window) + [id], window) == LastOf(s + [id], window)
  {
  }

  /** Any W+1 consecutive accepted ids are pairwise distinct. */
  lemma {:induction false} AcceptedAreDistinct(window: nat, ids: seq<Id>, i: nat, j: nat)
    requires i < j < |Accepted(window, ids)| && j - i <= window
    ensures Accepted(window, ids)[i] != Accepted(window, ids)[j]
  {
    var rest, id := ids[..|ids| - 1], ids[|ids| - 1];
    var before := Accepted(window, rest);
    if j < |before| {
      AcceptedAreDistinct(window, rest, i, j);
    } else {
      var last := LastOf(before, window);
      assert before[i] == last[i - (|before| - |last|)];
    }
  }

  /** With a window of zero nothing is remembered and everything passes. */
  lemma {:induction false} ZeroWindowPassesAll(ids: seq<Id>)
    ensures Accepted(0, ids) == ids
  {
    if ids == [] {
    } else {
      ZeroWindowPassesAll(ids[..|ids| - 1]);
    }
  }

  // ---------------------------------------------------------------- the object

  class DeduplicationMiddleware {
    const windowSize: nat
    var seen: set<Id>
    var order: seq<Id>
    var duplicateCount: nat

    constructor (windowSize: nat)
      ensures this.windowSize == windowSize && State() == BLANK && duplicateCount == 0
    {
      this.windowSize, seen, order, duplicateCount := windowSize, {}, [], 0;
    }

    function State(): Memory
      reads this
    {
      Memory(seen, order)
    }

    /** Passes the message with this id on, or drops it. */
    method Process(id: Id) returns (passed: bool)
      modifies this
      ensures passed == (id !in old(seen)) && State() == Step(old(State()), windowSize, id)
      ensures duplicateCount == old(duplicateCount) + (if passed then 0 else 1)
    {
      if id in seen {
        duplicateCount := duplicateCount + 1;
        return false;
      }
      seen := seen + {id};
      order := order + [id];
      while |order| > windowSize
        invariant Trimmed(State(), windowSize) == Step(old(State()), windowSize, id)
        invariant duplicateCount == old(duplicateCount)
        decreases |order|
      {
        var oldId := order[0];
        order := order[1..];
        seen := seen - {oldId};
      }
      return true;
    }
  }
}

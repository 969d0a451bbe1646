/**
 The binary heap that orders a priority queue: the sift loops of Python's heapq on a list of tuples.
 Comparing two tuples whose first two components agree would go on to compare two messages, which have
 no order; the priority queue proves that this never happens.
 */
module Heaps {
  import opened Partitions

  datatype Entry = Entry(negated: int, sequence: nat, message: Message)

  predicate Before(a: Entry, b: Entry) {
    a.negated < b.negated || (a.negated == b.negated && a.sequence < b.sequence)
  }

  function Parent(i: nat): (p: nat)
    requires i > 0
    ensures p < i
  {
    (i - 1) / 2
  }

  ghost predicate Settled(h: seq<Entry>, i: nat)
    requires 0 < i < |h|
  {
    !Before(h[i], h[Parent(i)])
  }

  ghost predicate IsHeap(h: seq<Entry>) {
    forall i :: 0 < i < |h| ==> Settled(h, i)
  }

  ghost predicate SettledBut(h: seq<Entry>, hole: nat) {
    forall i :: 0 < i < |h| && i != hole ==> Settled(h, i)
  }

  /** Settled wherever the entry at the hole does not take part. */
  ghost predicate SettledAround(h: seq<Entry>, hole: nat) {
    forall i :: 0 < i < |h| && i != hole && Parent(i) != hole ==> Settled(h, i)
  }

  /** No child of `i` comes before the parent of `i`. */
  ghost predicate Bridged(h: seq<Entry>, i: nat)
    requires i < |h|
  {
    i > 0 ==> forall j :: 0 < j < |h| && Parent(j) == i ==> !Before(h[j], h[Parent(i)])
  }

  lemma {:induction false} RootIsLeast(h: seq<Entry>, i: nat)
    requires IsHeap(h) && i < |h|
    ensures !Before(h[i], h[0])
  {
    if i == 0 {
    } else {
      RootIsLeast(h, Parent(i));
      assert Settled(h, i);
    }
  }

  /** Moves the entry at `start` towards the root until its parent does not come after it. */
  method SiftDown(heap: seq<Entry>, start: nat) returns (h: seq<Entry>)
    requires start < |heap| && Bridged(heap, start)
    requires SettledBut(heap, start)
    ensures IsHeap(h) && multiset(h) == multiset(heap)
  {
    h := heap;
    var pos: nat, item := start, heap[start];
    assert heap[pos := item] == heap;
    while pos > 0 && Before(item, h[Parent(pos)])
      invariant pos < |h| == |heap|
      invariant multiset(h[pos := item]) == multiset(heap)
      invariant Bridged(h[pos := item], pos)
      invariant SettledBut(h[pos := item], pos)
    {
      ghost var was: seq<Entry> := h[pos := item];
      var parent := Parent(pos);
      HoleGoesUp(was, pos);
      h := h[pos := h[parent]];
      assert h[parent := item] == was[pos := was[parent]][parent := item];
      pos := parent;
    }
    h := h[pos := item];
    assert forall i :: 0 < i < |h| ==> Settled(h, i);
  }

  /** One exchange with the parent. */
  lemma HoleGoesUp(h: seq<Entry>, pos: nat)
    requires 0 < pos < |h| && Bridged(h, pos) && Before(h[pos], h[Parent(pos)]) && SettledBut(h, pos)
    ensures var up := h[pos := h[Parent(pos)]][Parent(pos) := h[pos]];
            multiset(up) == multiset(h) && Bridged(up, Parent(pos)) && SettledBut(up, Parent(pos))
  {
    var parent := Parent(pos);
    var up := h[pos := h[parent]][parent := h[pos]];
    forall i | 0 < i < |up| && i != parent ensures Settled(up, i) {
      if i != pos {
        assert Settled(h, i);
      }
    }
    if parent > 0 {
      assert Settled(h, parent);
      forall j | 0 < j < |up| && Parent(j) == parent ensures !Before(up[j], up[Parent(parent)]) {
        if j != pos {
          assert Settled(h, j);
        }
      }
    }
  }

  lemma HoleMoves(h: seq<Entry>, pos: nat, child: nat, item: Entry)
    requires pos < |h| && child < |h| && pos != child
    ensures multiset(h[pos := h[child]][child := item]) == multiset(h[pos := item])
  {
  }

  /** Moves the hole at the root down to a leaf along the smaller children, then sifts the entry that belongs in it. */
  method SiftUp(heap: seq<Entry>) returns (h: seq<Entry>)
    requires |heap| > 0 && SettledAround(heap, 0)
    ensures IsHeap(h) && multiset(h) == multiset(heap)
  {
    hide SettledAround, Bridged, SettledBut, IsHeap;
    h := heap;
    var pos: nat, item := 0, heap[0];
    assert heap[pos := item] == heap;
    var child: nat := 1;
    assert Bridged(h, 0) by { RootBridged(h); }
    while child < |h|
      invariant pos < |h| == |heap| && child == 2 * pos + 1
      invariant multiset(h[pos := item]) == multiset(heap)
      invariant Bridged(h, pos) && SettledAround(h, pos)
    {
      var right := child + 1;
      if right < |h| && !Before(h[child], h[right]) {
        child := right;
      }
      HoleGoesDown(h, pos, child);
      HoleMoves(h, pos, child, item);
      h := h[pos := h[child]];
      pos := child;
      child := 2 * pos + 1;
    }
    ghost var was: seq<Entry> := h;
    h := h[pos := item];
    LeafFilled(was, pos, item);
    h := SiftDown(h, pos);
  }

  lemma RootBridged(h: seq<Entry>)
    requires |h| > 0
    ensures Bridged(h, 0)
  {
  }

  /** One step of the hole to the smaller child. */
  lemma HoleGoesDown(h: seq<Entry>, pos: nat, child: nat)
    requires pos < |h| && child < |h| && Bridged(h, pos) && SettledAround(h, pos)
    requires child == 2 * pos + 1 || child == 2 * pos + 2
    requires !Before(h[2 * pos + 1], h[child])
    requires 2 * pos + 2 < |h| ==> !Before(h[2 * pos + 2], h[child])
    ensures var down := h[pos := h[child]];
            Bridged(down, child) && SettledAround(down, child)
  {
    var down := h[pos := h[child]];
    forall i | 0 < i < |h| && i != child && Parent(i) != child ensures Settled(down, i) {
      if i != pos && Parent(i) != pos {
        assert Settled(h, i);
      }
    }
    forall j | 0 < j < |down| && Parent(j) == child ensures !Before(down[j], down[Parent(child)]) {
      assert Settled(h, j);
    }
  }

  lemma LeafFilled(h: seq<Entry>, pos: nat, item: Entry)
    requires pos < |h| <= 2 * pos + 1 && SettledAround(h, pos)
    ensures SettledBut(h[pos := item], pos) && Bridged(h[pos := item], pos)
  {
    var filled: seq<Entry> := h[pos := item];
    forall i | 0 < i < |h| && i != pos ensures Settled(filled, i) {
      assert Settled(h, i);
    }
  }

  method HeapPush(heap: seq<Entry>, item: Entry) returns (h: seq<Entry>)
    requires IsHeap(heap)
    ensures IsHeap(h) && multiset(h) == multiset(heap) + multiset{item}
  {
    h := heap + [item];
    forall i | 0 < i < |heap| ensures Settled(h, i) {
      assert Settled(heap, i);
    }
    h := SiftDown(h, |heap|);
  }

  method HeapPop(heap: seq<Entry>) returns (item: Entry, h: seq<Entry>)
    requires IsHeap(heap) && heap != []
    ensures IsHeap(h) && multiset(heap) == multiset(h) + multiset{item}
    ensures item in heap && forall e :: e in heap ==> !Before(e, item)
  {
    forall e | e in heap ensures !Before(e, heap[0]) {
      var i :| 0 <= i < |heap| && heap[i] == e;
      RootIsLeast(heap, i);
    }
    var last := heap[|heap| - 1];
    h := heap[..|heap| - 1];
    assert heap == h + [last];
    if h == [] {
      return last, h;
    }
    item := heap[0];
    assert multiset(h[0 := last]) == multiset(h) - multiset{h[0]} + multiset{last};
    h := h[0 := last];
    forall i | 0 < i < |h| && Parent(i) != 0 ensures Settled(h, i) {
      assert Settled(heap, i);
    }
    h := SiftUp(h);
  }
}

/** The rate limiter's min-heap of visitors: the interface methods of `visitorHeap` together with
  * the `up`, `down`, `Push`, `Pop` and `Fix` of Go's container/heap that call them. The heap is a
  * slice of shared entry objects; each entry records its own position so that `Fix` can start there.
  */
module HeapOrder {
  // The heap order on the keys alone, and what one exchange does to it.

  function Parent(k: nat): (p: nat)
    ensures k > 0 ==> p < k
  {
    if k == 0 then 0 else (k - 1) / 2
  }

  ghost predicate OrderedAt(ts: seq<int>, k: nat) {
    k < |ts| ==> ts[Parent(k)] <= ts[k]
  }

  ghost predicate Ordered(ts: seq<int>) {
    forall k: nat :: k < |ts| ==> OrderedAt(ts, k)
  }

  // Order within the first n positions, except between hole and its children and, as long as the
  // hole is still at start, between it and its parent. The children are no older than that parent.
  ghost predicate OrderedAround(ts: seq<int>, n: nat, start: nat, hole: nat)
    requires n <= |ts|
  {
    && (forall k: nat :: k < n && Parent(k) != hole && (k != hole || hole != start) ==> OrderedAt(ts, k))
    && (forall k: nat :: 0 < hole < k < n && Parent(k) == hole ==> ts[Parent(hole)] <= ts[k])
  }

  // Order everywhere except between hole and its parent.
  ghost predicate OrderedBelow(ts: seq<int>, hole: nat) {
    && (forall k: nat :: k < |ts| && k != hole ==> OrderedAt(ts, k))
    && (forall k: nat :: 0 < hole < k < |ts| && Parent(k) == hole ==> ts[Parent(hole)] <= ts[k])
  }

  function Exchange<T>(s: seq<T>, i: nat, j: nat): seq<T>
    requires i < |s| && j < |s|
  {
    s[i := s[j]][j := s[i]]
  }

  lemma RootIsLeast(ts: seq<int>, k: nat)
    requires Ordered(ts) && k < |ts|
    ensures ts[0] <= ts[k]
    decreases k
  {
    assert OrderedAt(ts, k);
    if k > 0 {
      RootIsLeast(ts, Parent(k));
    }
  }

  lemma RiseStep(ts: seq<int>, j: nat)
    requires 0 < j < |ts| && OrderedBelow(ts, j) && ts[j] < ts[Parent(j)]
    ensures OrderedBelow(Exchange(ts, Parent(j), j), Parent(j))
  {
    var i, ts' := Parent(j), Exchange(ts, Parent(j), j);
    assert OrderedAt(ts, i);
    forall k: nat | k < |ts| && k != i ensures OrderedAt(ts', k) {
      assert k != j ==> OrderedAt(ts, k);
    }
    forall k: nat | 0 < k < |ts| && Parent(k) == i ensures ts'[Parent(i)] <= ts'[k] {
      assert k != j ==> OrderedAt(ts, k);
    }
  }

  lemma SinkStep(ts: seq<int>, n: nat, start: nat, i: nat, j: nat)
    requires start <= i && (j == 2 * i + 1 || j == 2 * i + 2) && j < n <= |ts|
    requires ts[j] < ts[i] && ts[j] <= ts[2 * i + 1] && (2 * i + 2 < n ==> ts[j] <= ts[2 * i + 2])
    requires OrderedAround(ts, n, start, i)
    ensures OrderedAround(Exchange(ts, i, j), n, start, j)
  {
    var ts' := Exchange(ts, i, j);
    forall k: nat | k < n && Parent(k) != j && (k != j || j != start) ensures OrderedAt(ts', k) {
      if k == 0 {
      } else if Parent(k) == i {
        assert k == 2 * i + 1 || k == 2 * i + 2;
      } else if k == i {
        assert i > start ==> OrderedAt(ts, i);
        assert i == start ==> ts'[Parent(i)] <= ts'[i];
      } else {
        assert OrderedAt(ts, k);
      }
    }
    forall k: nat | 0 < j < k < n && Parent(k) == j ensures ts'[Parent(j)] <= ts'[k] {
      assert OrderedAt(ts, k);
    }
  }

  lemma SinkDone(ts: seq<int>, n: nat, start: nat, i: nat)
    requires start <= i < |ts| && n <= |ts| && OrderedAround(ts, n, start, i)
    requires 2 * i + 1 < n ==> ts[i] <= ts[2 * i + 1]
    requires 2 * i + 2 < n ==> ts[i] <= ts[2 * i + 2]
    ensures forall k: nat :: k < n && (i > start || k != start) ==> OrderedAt(ts, k)
  {
    forall k: nat | k < n && (i > start || k != start) ensures OrderedAt(ts, k) {
      assert Parent(k) == i ==> k == 0 || k == 2 * i + 1 || k == 2 * i + 2;
    }
  }

  lemma RootTaken(ts: seq<int>)
    requires Ordered(ts) && ts != []
    ensures OrderedAround(Exchange(ts, 0, |ts| - 1), |ts| - 1, 0, 0)
    ensures forall k: nat :: k < |ts| ==> ts[0] <= ts[k]
  {
    forall k: nat | k < |ts| ensures ts[0] <= ts[k] {
      RootIsLeast(ts, k);
    }
    forall k: nat | k < |ts| - 1 && Parent(k) != 0 ensures OrderedAt(Exchange(ts, 0, |ts| - 1), k) {
      assert OrderedAt(ts, k);
    }
  }

  lemma Disturbed(ts: seq<int>, i: nat, t: int)
    requires Ordered(ts) && i < |ts|
    ensures OrderedAround(ts[i := t], |ts|, i, i)
  {
    forall k: nat | k < |ts| ensures k != i && Parent(k) != i ==> OrderedAt(ts[i := t], k) {
      assert OrderedAt(ts, k);
    }
    forall k: nat | 0 < i < k < |ts| && Parent(k) == i ensures ts[Parent(i)] <= ts[k] {
      assert OrderedAt(ts, k) && OrderedAt(ts, i);
    }
  }

  lemma PrefixOrdered(ts: seq<int>, n: nat)
    requires n <= |ts| && forall k: nat :: k < n ==> OrderedAt(ts, k)
    ensures Ordered(ts[..n])
  {
    forall k: nat | k < n ensures OrderedAt(ts[..n], k) {
      assert OrderedAt(ts, k);
    }
  }
}

module VisitorHeap {
  import opened HeapOrder
  import opened TokenBucket

  class VisitorEntry {
    const key: Key
    var lastSeen: int // nanoseconds
    var index: int    // position in the heap, -1 once removed

    constructor (key: Key, lastSeen: int)
      ensures this.key == key && this.lastSeen == lastSeen && index == 0
    {
      this.key, this.lastSeen, index := key, lastSeen, 0;
    }
  }

  class Heap {
    var items: seq<VisitorEntry>
    ghost var held: set<VisitorEntry> // the entries of items

    // Back-pointers agree with positions; in particular no entry occurs twice.
    ghost predicate Placed()
      reads this, held
    {
      && (forall k :: 0 <= k < |items| ==> items[k] in held && items[k].index == k)
      && (forall e {:trigger e.index} :: e in held ==> 0 <= e.index < |items| && items[e.index] == e)
    }

    ghost function Times(): (ts: seq<int>)
      requires Placed()
      reads this, held
      ensures |ts| == |items| && forall k :: 0 <= k < |items| ==> ts[k] == items[k].lastSeen
    {
      seq(|items|, k requires 0 <= k < |items| && Placed() reads this, held => items[k].lastSeen)
    }

    ghost predicate Valid()
      reads this, held
    {
      Placed() && Ordered(Times())
    }

    constructor ()
      ensures items == [] && held == {} && Valid()
    {
      items, held := [], {};
    }

    predicate Less(i: nat, j: nat)
      requires i < |items| && j < |items|
      reads this, items
    {
      items[i].lastSeen < items[j].lastSeen
    }

    method Swap(i: nat, j: nat)
      requires i < |items| && j < |items| && Placed()
      modifies `items, held`index
      ensures items == Exchange(old(items), i, j)
      ensures Placed() && Times() == Exchange(old(Times()), i, j)
    {
      items := items[i := items[j]][j := items[i]];
      items[i].index := i;
      items[j].index := j;
    }

    // container/heap's up
    method Up(start: nat)
      requires start < |items| && Placed() && OrderedBelow(Times(), start)
      modifies `items, held`index
      ensures Valid() && |items| == old(|items|)
    {
      var j: nat := start;
      while j > 0 && Less(j, Parent(j))
        invariant j < |items| && |items| == old(|items|)
        invariant Placed() && OrderedBelow(Times(), j)
        decreases j
      {
        RiseStep(Times(), j);
        Swap(Parent(j), j);
        j := Parent(j);
      }
      assert OrderedAt(Times(), j);
    }

    // the child that down compares with: the right one only when it is strictly older
    function OlderChild(i: nat, n: nat): (j: nat)
      requires 2 * i + 1 < n <= |items|
      reads this, items
      ensures (j == 2 * i + 1 || j == 2 * i + 2) && j < n
      ensures items[j].lastSeen <= items[2 * i + 1].lastSeen
      ensures 2 * i + 2 < n ==> items[j].lastSeen <= items[2 * i + 2].lastSeen
    {
      if 2 * i + 2 < n && Less(2 * i + 2, 2 * i + 1) then 2 * i + 2 else 2 * i + 1
    }

    // One step of down: the entry at i changes places with its older child.
    method SinkOnce(start: nat, i: nat, n: nat) returns (j: nat)
      requires start <= i && 2 * i + 1 < n <= |items| && Placed()
      requires Less(OlderChild(i, n), i) && OrderedAround(Times(), n, start, i)
      modifies `items, held`index
      ensures i < j < n && |items| == old(|items|)
      ensures forall k :: n <= k < |items| ==> items[k] == old(items[k])
      ensures Placed() && OrderedAround(Times(), n, start, j)
    {
      j := OlderChild(i, n);
      SinkStep(Times(), n, start, i, j);
      Swap(i, j);
    }

    // container/heap's down: sinks the entry at start within the first n positions
    method Down(start: nat, n: nat) returns (moved: bool)
      requires start < |items| && n <= |items| && Placed()
      requires OrderedAround(Times(), n, start, start)
      modifies `items, held`index
      ensures Placed() && |items| == old(|items|)
      ensures forall k :: n <= k < |items| ==> items[k] == old(items[k])
      ensures !moved ==> items == old(items)
      ensures forall k: nat :: k < n && (moved || k != start) ==> OrderedAt(Times(), k)
    {
      var i: nat := start;
      while 2 * i + 1 < n && Less(OlderChild(i, n), i)
        invariant start <= i < |items| && |items| == old(|items|)
        invariant i > start ==> i < n
        invariant i == start ==> items == old(items)
        invariant forall k :: n <= k < |items| ==> items[k] == old(items[k])
        invariant Placed() && OrderedAround(Times(), n, start, i)
        decreases n - i
      {
        i := SinkOnce(start, i, n);
      }
      SinkDone(Times(), n, start, i);
      moved := i > start;
    }

    // visitorHeap's own Push: append
    method Append(x: VisitorEntry)
      requires Placed() && x !in held
      modifies this, x`index
      ensures items == old(items) + [x] && held == old(held) + {x}
      ensures Placed() && Times() == old(Times()) + [x.lastSeen]
    {
      x.index := |items|;
      items, held := items + [x], held + {x};
    }

    // visitorHeap's own Pop: remove the last entry
    method RemoveLast() returns (x: VisitorEntry)
      requires Placed() && items != []
      modifies this, held`index
      ensures x == old(items[|items| - 1]) && x in old(held) && x.index == -1
      ensures items == old(items[..|items| - 1]) && held == old(held) - {x}
      ensures Placed() && Times() == old(Times()[..|items| - 1])
    {
      var n := |items| - 1;
      x := items[n];
      assert forall e :: e in held - {x} ==> 0 <= e.index < n;
      x.index := -1;
      items, held := items[..n], held - {x};
    }

    // container/heap's Push
    method Push(x: VisitorEntry)
      requires Valid() && x !in held
      modifies this, x`index, held`index
      ensures Valid() && held == old(held) + {x} && |items| == old(|items|) + 1
    {
      ghost var was := Times();
      Append(x);
      forall k: nat | k < |was| ensures OrderedAt(Times(), k) {
        assert OrderedAt(was, k);
      }
      Up(|items| - 1);
    }

    // container/heap's Pop
    method Pop() returns (x: VisitorEntry)
      requires Valid() && items != []
      modifies this, held`index
      ensures Valid() && |items| == old(|items|) - 1
      ensures x == old(items[0]) && x in old(held) && held == old(held) - {x} && x.index == -1
      ensures forall e :: e in old(held) ==> x.lastSeen <= e.lastSeen
    {
      RootTaken(Times());
      forall e | e in held ensures items[0].lastSeen <= e.lastSeen {
        assert Times()[e.index] == e.lastSeen;
      }
      var n := |items| - 1;
      Swap(0, n);
      var _ := Down(0, n);
      ghost var all := Times();
      PrefixOrdered(all, n);
      x := RemoveLast();
      assert Times() == all[..n];
    }

    method Fix(i: nat)
      requires i < |items| && Placed() && OrderedAround(Times(), |items|, i, i)
      modifies `items, held`index
      ensures Valid() && |items| == old(|items|)
    {
      var moved := Down(i, |items|);
      if !moved {
        Up(i);
      }
    }
  }
}

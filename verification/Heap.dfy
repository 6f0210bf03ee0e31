/** The binary heap of Go's container/heap and the result of its sort package, over the slices that
    `nonceHeap` and `priceHeap` are; `key` is what their `Less` compares. */
module Heap {

  /** Index of the parent. */
  function Up(k: nat): (u: nat)
    ensures k > 0 ==> u < k
  {
    if k == 0 then 0 else (k - 1) / 2
  }

  /** The entry at k is not before its parent, if that is at `lo` or above. */
  predicate Ordered<T>(h: seq<T>, key: T -> int, lo: nat, k: nat) {
    0 < k < |h| && Up(k) >= lo ==> key(h[Up(k)]) <= key(h[k])
  }

  ghost predicate HeapFrom<T>(h: seq<T>, key: T -> int, lo: nat) {
    forall k: nat :: Ordered(h, key, lo, k)
  }

  ghost predicate IsHeap<T>(h: seq<T>, key: T -> int) {
    HeapFrom(h, key, 0)
  }

  /** Ordered, unless i is one of the two entries. */
  predicate OrderedBut<T>(h: seq<T>, key: T -> int, lo: nat, i: nat, k: nat) {
    k == i || Up(k) == i || Ordered(h, key, lo, k)
  }

  /** If k is a child of i, it is not before the parent of i. */
  predicate Spans<T>(h: seq<T>, key: T -> int, lo: nat, i: nat, k: nat) {
    0 < i && 0 < k < |h| && Up(k) == i && Up(i) >= lo ==> key(h[Up(i)]) <= key(h[k])
  }

  /** The entry at i may be wrong on both sides, but without it the rest would do. */
  ghost predicate HeapBut<T>(h: seq<T>, key: T -> int, lo: nat, i: nat) {
    forall k: nat :: OrderedBut(h, key, lo, i, k) && Spans(h, key, lo, i, k)
  }

  /** The entry at i may be before its parent. */
  ghost predicate HeapBelow<T>(h: seq<T>, key: T -> int, lo: nat, i: nat) {
    && HeapBut(h, key, lo, i)
    && forall k: nat :: k != i ==> Ordered(h, key, lo, k)
  }

  function Swap<T>(h: seq<T>, i: nat, j: nat): (r: seq<T>)
    requires i < |h| && j < |h|
    ensures |r| == |h| && multiset(r) == multiset(h)
  {
    h[i := h[j]][j := h[i]]
  }

  lemma {:induction false} RootIsLeast<T>(h: seq<T>, key: T -> int, k: nat)
    requires IsHeap(h, key) && k < |h|
    ensures key(h[0]) <= key(h[k])
    decreases k
  {
    if k > 0 {
      assert Ordered(h, key, 0, k);
      RootIsLeast(h, key, Up(k));
    }
  }

  lemma UpStep<T>(g: seq<T>, key: T -> int, j: nat, h: seq<T>)
    requires 0 < j < |g| && h == Swap(g, Up(j), j) && key(g[j]) < key(g[Up(j)])
    requires HeapBelow(g, key, 0, j)
    ensures HeapBelow(h, key, 0, Up(j))
  {
    var i := Up(j);
    forall k: nat | k != i ensures Ordered(h, key, 0, k) {
      assert k != j ==> Ordered(g, key, 0, k);
      assert Spans(g, key, 0, j, k);
    }
    forall k: nat ensures OrderedBut(h, key, 0, i, k) && Spans(h, key, 0, i, k) {
      assert k != i ==> Ordered(h, key, 0, k);
      assert k != j ==> Ordered(g, key, 0, k);
      assert Ordered(g, key, 0, i);
    }
  }

  /** `up` */
  method SiftUp<T>(h0: seq<T>, key: T -> int, j0: nat) returns (h: seq<T>)
    requires j0 < |h0| && HeapBelow(h0, key, 0, j0)
    ensures IsHeap(h, key) && multiset(h) == multiset(h0) && |h| == |h0|
  {
    h := h0;
    var j: nat := j0;
    while Up(j) != j && key(h[j]) < key(h[Up(j)])
      invariant j < |h| == |h0| && multiset(h) == multiset(h0) && HeapBelow(h, key, 0, j)
      decreases j
    {
      UpStep(h, key, j, Swap(h, Up(j), j));
      h := Swap(h, Up(j), j);
      j := Up(j);
    }
    assert Ordered(h, key, 0, j);
  }

  /** j is the least child of i. */
  ghost predicate LeastChild<T>(h: seq<T>, key: T -> int, i: nat, j: nat) {
    && i < j < |h| && Up(j) == i
    && forall k: nat :: 0 < k < |h| && Up(k) == i ==> key(h[j]) <= key(h[k])
  }

  lemma DownStep<T>(g: seq<T>, key: T -> int, lo: nat, i: nat, j: nat, h: seq<T>)
    requires LeastChild(g, key, i, j) && lo <= i && HeapBut(g, key, lo, i) && h == Swap(g, i, j)
    requires key(g[j]) < key(g[i])
    ensures HeapBut(h, key, lo, j) && Ordered(h, key, lo, j) && Ordered(h, key, lo, i)
  {
    assert Spans(g, key, lo, i, j);
    forall k: nat ensures OrderedBut(h, key, lo, j, k) && Spans(h, key, lo, j, k) {
      assert OrderedBut(g, key, lo, i, k);
    }
  }

  /** When nothing is left to swap, only the entry at i itself may still be before its parent. */
  lemma DownEnds<T>(h: seq<T>, key: T -> int, lo: nat, i: nat)
    requires lo <= i && HeapBut(h, key, lo, i)
    requires forall k: nat :: 0 < k < |h| && Up(k) == i ==> key(h[i]) <= key(h[k])
    ensures HeapBelow(h, key, lo, i)
  {
    forall k: nat | k != i ensures Ordered(h, key, lo, k) {
      assert OrderedBut(h, key, lo, i, k);
    }
  }

  /** `down` on the whole slice */
  method SiftDown<T>(h0: seq<T>, key: T -> int, i0: nat, ghost lo: nat) returns (h: seq<T>, moved: bool)
    requires lo <= i0 <= |h0| && HeapBut(h0, key, lo, i0)
    ensures multiset(h) == multiset(h0) && |h| == |h0|
    ensures if moved then HeapFrom(h, key, lo) else h == h0 && HeapBelow(h, key, lo, i0)
  {
    h := h0;
    var i: nat := i0;
    while 2 * i + 1 < |h|
      invariant i0 <= i <= |h| == |h0| && multiset(h) == multiset(h0)
      invariant HeapBut(h, key, lo, i)
      invariant i == i0 ==> h == h0
      invariant i > i0 ==> Ordered(h, key, lo, i)
      decreases |h| - i
    {
      var j: nat := 2 * i + 1;
      if j + 1 < |h| && key(h[j + 1]) < key(h[j]) {
        j := j + 1;
      }
      assert LeastChild(h, key, i, j);
      if key(h[j]) >= key(h[i]) { break; }
      DownStep(h, key, lo, i, j, Swap(h, i, j));
      h := Swap(h, i, j);
      i := j;
    }
    DownEnds(h, key, lo, i);
    moved := i > i0;
  }

  /** Taking the last entry to the place of another. */
  function MovedLast<T>(h: seq<T>, i: nat): (r: seq<T>)
    requires i < |h| - 1
    ensures multiset(r) == multiset(h) - multiset{h[i]} && |r| == |h| - 1
  {
    var n := |h| - 1;
    var r := h[..n][i := h[n]];
    assert h == h[..n] + [h[n]] && h[..n][i] == h[i];
    assert multiset(r) == multiset(h[..n]) - multiset{h[i]} + multiset{h[n]};
    r
  }

  /** This leaves only that place in doubt. */
  lemma MoveLast<T>(h: seq<T>, key: T -> int, i: nat)
    requires IsHeap(h, key) && i < |h| - 1
    ensures HeapBut(MovedLast(h, i), key, 0, i)
  {
    var r := MovedLast(h, i);
    forall k: nat ensures OrderedBut(r, key, 0, i, k) && Spans(r, key, 0, i, k) {
      assert Ordered(h, key, 0, k);
      assert Ordered(h, key, 0, i);
    }
  }

  /** `heap.Push` */
  method Push<T>(h0: seq<T>, key: T -> int, x: T) returns (h: seq<T>)
    requires IsHeap(h0, key)
    ensures IsHeap(h, key) && multiset(h) == multiset(h0) + multiset{x} && |h| == |h0| + 1
  {
    h := h0 + [x];
    forall k: nat
      ensures OrderedBut(h, key, 0, |h0|, k) && Spans(h, key, 0, |h0|, k) && (k != |h0| ==> Ordered(h, key, 0, k))
    {
      assert Ordered(h0, key, 0, k);
    }
    h := SiftUp(h, key, |h0|);
  }

  /** `heap.Pop` */
  method Pop<T>(h0: seq<T>, key: T -> int) returns (x: T, h: seq<T>)
    requires IsHeap(h0, key) && |h0| > 0
    ensures x == h0[0] && IsHeap(h, key) && multiset(h) == multiset(h0) - multiset{x} && |h| == |h0| - 1
    ensures forall k: nat :: k < |h0| ==> key(x) <= key(h0[k])
  {
    forall k: nat | k < |h0| ensures key(h0[0]) <= key(h0[k]) {
      RootIsLeast(h0, key, k);
    }
    x, h := Remove(h0, key, 0);
  }

  /** `heap.Remove`; with index 0 also what `heap.Pop` does, as nothing is above the root. */
  method Remove<T>(h0: seq<T>, key: T -> int, i: nat) returns (x: T, h: seq<T>)
    requires IsHeap(h0, key) && i < |h0|
    ensures x == h0[i] && IsHeap(h, key) && multiset(h) == multiset(h0) - multiset{x} && |h| == |h0| - 1
  {
    var n: nat := |h0| - 1;
    x := h0[i];
    if i != n {
      MoveLast(h0, key, i);
      var moved;
      h, moved := SiftDown(MovedLast(h0, i), key, i, 0);
      if !moved {
        h := SiftUp(h, key, i);
      }
    } else {
      h := h0[..n];
      assert h0 == h + [x];
      forall k: nat ensures Ordered(h, key, 0, k) {
        assert Ordered(h0, key, 0, k);
      }
    }
  }

  /** `heap.Init` */
  method Init<T>(h0: seq<T>, key: T -> int) returns (h: seq<T>)
    ensures IsHeap(h, key) && multiset(h) == multiset(h0)
  {
    h := h0;
    var i: int := |h| / 2 - 1;
    while i >= 0
      invariant -1 <= i < |h| == |h0| && multiset(h) == multiset(h0)
      invariant HeapFrom(h, key, i + 1)
    {
      forall k: nat ensures OrderedBut(h, key, i, i, k) && Spans(h, key, i, i, k) {
        assert Ordered(h, key, i + 1, k);
      }
      ghost var g := h;
      var moved;
      h, moved := SiftDown(h, key, i, i);
      if !moved {
        assert Ordered(h, key, i, i);
      }
      i := i - 1;
    }
  }

  // ---------------------------------------------------------------- sort.Sort

  ghost predicate Sorted<T>(s: seq<T>, key: T -> int) {
    forall i, j :: 0 <= i < j < |s| ==> key(s[i]) <= key(s[j])
  }

  function Insert<T>(s: seq<T>, key: T -> int, x: T): (r: seq<T>)
    requires Sorted(s, key)
    ensures Sorted(r, key) && multiset(r) == multiset(s) + multiset{x}
    ensures |r| == |s| + 1
  {
    if s == [] then [x]
    else
      var n := |s| - 1;
      assert s == s[..n] + [s[n]];
      if key(s[n]) <= key(x) then s + [x]
      else
        var r := Insert(s[..n], key, x);
        assert forall i :: 0 <= i < |r| ==> key(r[i]) <= key(s[n]) by {
          forall i | 0 <= i < |r| ensures key(r[i]) <= key(s[n]) {
            assert r[i] in multiset(r);
          }
        }
        r + [s[n]]
  }

  /** A sorted arrangement of s; `sort.Sort` promises no more. */
  function Sort<T>(s: seq<T>, key: T -> int): (r: seq<T>)
    ensures Sorted(r, key) && multiset(r) == multiset(s) && |r| == |s|
  {
    if s == [] then []
    else
      assert s == s[..|s| - 1] + [s[|s| - 1]];
      Insert(Sort(s[..|s| - 1], key), key, s[|s| - 1])
  }
}

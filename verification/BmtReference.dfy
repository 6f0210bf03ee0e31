/** The reference binary Merkle tree hash and its closed form.
    `RefHash` follows the recursive reference implementation; `NodeValue` says what one node of the
    full binary tree emits.  The two are shown equal, so the concurrent hasher may be compared
    with either.  The base hash is an arbitrary function and the segment size an arbitrary positive number. */
module BmtReference {

  newtype Byte = x: int | 0 <= x < 256
  type Bytes = seq<Byte>

  /** A base hash, the segment size (the size of that hash) and the number of segments of a chunk. */
  datatype Params = Params(hash: Bytes -> Bytes, size: nat, count: nat) {
    predicate Valid() { size > 0 && count > 0 }
    function Section(): nat { 2 * size }
    function Capacity(): nat { size * count }
  }

  /** Bytes covered by a node of height k (leaves have height 0 and cover two segments). */
  function Width(p: Params, k: nat): (w: nat)
    requires p.Valid()
    ensures w >= 2 * p.size
  {
    if k == 0 then p.Section() else 2 * Width(p, k - 1)
  }

  lemma {:induction false} WidthMonotone(p: Params, a: nat, b: nat)
    requires p.Valid() && a <= b
    ensures Width(p, a) <= Width(p, b)
    decreases b
  {
    if a < b { WidthMonotone(p, a, b - 1); }
  }

  // ---------------------------------------------------------------- reference implementation

  /** The span that is left after halving s until it is below l. */
  function Shrink(s: nat, l: nat): (r: nat)
    requires l > 0
    ensures r < l && r <= s
    ensures s > 0 && l > 1 ==> r > 0
  {
    if s < l then s else Shrink(s / 2, l)
  }

  /** The recursive reference hash over data d with current span s. */
  function RefHash(p: Params, d: Bytes, s: nat): Bytes
    requires p.Valid() && s > 0
    decreases |d|
  {
    if |d| <= p.Section() then p.hash(d)
    else
      var m := Shrink(s, |d|);
      var left := RefHash(p, d[..m], m);
      var right := if |d| - m > p.Section() / 2 then RefHash(p, d[m..], m) else d[m..];
      p.hash(left + right)
  }

  /** `RefHasher.hash`: the same recursion, with the halving loop. */
  method RefHasherHash(p: Params, d: Bytes, span: nat) returns (h: Bytes)
    requires p.Valid() && span > 0
    ensures h == RefHash(p, d, span)
    decreases |d|
  {
    var l := |d|;
    var left, right := d, [];
    if l > p.Section() {
      var s := span;
      while s >= l
        invariant s > 0 && Shrink(s, l) == Shrink(span, l)
        decreases s
      {
        s := s / 2;
      }
      left := RefHasherHash(p, d[..s], s);
      right := d[s..];
      if l - s > p.Section() / 2 {
        right := RefHasherHash(p, right, s);
      }
    }
    assert |d| <= p.Section() ==> left + right == d;
    h := p.hash(left + right);
  }

  /** `NewRefHasher`: the doubling loop that chooses the span.  The span is the width of some node
      and twice the span covers every chunk. */
  method NewRefHasher(p: Params) returns (span: nat, ghost k: nat)
    requires p.Valid()
    ensures span == Width(p, k) && p.Capacity() <= 2 * span
    ensures span == Span(p)
  {
    var c := 2;
    k := 0;
    while c < p.count
      invariant c >= 2 && c * p.size == Width(p, k)
      invariant c == 2 <==> k == 0
      invariant k > 0 ==> c / 2 < p.count
      invariant c % 2 == 0
      invariant Doubled(c, p.count) == Doubled(2, p.count)
      decreases p.count - c
    {
      c := c * 2;
      assert c * p.size == 2 * Width(p, k) == Width(p, k + 1);
      k := k + 1;
    }
    if c > 2 {
      assert c * p.size == 2 * (c / 2 * p.size);
      c := c / 2;
      k := k - 1;
    }
    span := c * p.size;
    assert p.count <= 2 * c;
    CapacityBound(p.count, p.size, 2 * c);
  }

  lemma CapacityBound(count: nat, size: nat, c: nat)
    requires count <= c
    ensures size * count <= c * size
  {
    assert (c - count) * size >= 0;
  }

  function Doubled(c: nat, count: nat): nat
    requires c > 0
    decreases count - c
  {
    if c < count then Doubled(2 * c, count) else c
  }

  /** The span chosen by the constructor. */
  function Span(p: Params): nat
    requires p.Valid()
  {
    var c := Doubled(2, p.count);
    (if c > 2 then c / 2 else c) * p.size
  }

  /** The data that is hashed: everything beyond the capacity is ignored. */
  function Clip(p: Params, b: Bytes): (d: Bytes)
    ensures |d| <= p.Capacity() && d <= b
    ensures |b| <= p.Capacity() ==> d == b
  {
    if |b| > p.Capacity() then b[..p.Capacity()] else b
  }

  /** `RefHasher.Hash` */
  function Reference(p: Params, b: Bytes): Bytes
    requires p.Valid()
  {
    SpanPositive(p);
    RefHash(p, Clip(p, b), Span(p))
  }

  lemma {:induction false} DoubledAtLeast(c: nat, count: nat)
    requires c > 0
    ensures Doubled(c, count) >= c
    decreases count - c
  {
    if c < count { DoubledAtLeast(2 * c, count); }
  }

  lemma SpanPositive(p: Params)
    requires p.Valid()
    ensures Span(p) > 0
  {
    DoubledAtLeast(2, p.count);
    var c := Doubled(2, p.count);
    var e := if c > 2 then c / 2 else c;
    assert e >= 1;
    CapacityBound(1, p.size, e);
  }

  // ---------------------------------------------------------------- what a node emits

  /** The value a node of height k emits for the data d below it: a single segment goes up unhashed,
      a node whose right half is empty passes its left value on, any other node hashes its two halves. */
  function NodeValue(p: Params, d: Bytes, k: nat): Bytes
    requires p.Valid()
    decreases k
  {
    if k == 0 then
      if |d| > p.size then p.hash(d) else d
    else
      var w := Width(p, k - 1);
      if |d| <= w then NodeValue(p, d, k - 1)
      else p.hash(NodeValue(p, d[..w], k - 1) + NodeValue(p, d[w..], k - 1))
  }

  /** Heights above the data do not matter. */
  lemma {:induction false} NodeValueLower(p: Params, d: Bytes, k: nat, j: nat)
    requires p.Valid() && j <= k && |d| <= Width(p, j)
    ensures NodeValue(p, d, k) == NodeValue(p, d, j)
    decreases k
  {
    if j < k {
      WidthMonotone(p, j, k - 1);
      NodeValueLower(p, d, k - 1, j);
    }
  }

  /** Halving a node width that covers half of the data stops at the width just below the data. */
  lemma {:induction false} ShrinkWidth(p: Params, m: nat, l: nat) returns (j: nat)
    requires p.Valid() && p.Section() < l <= 2 * Width(p, m)
    ensures j <= m && Shrink(Width(p, m), l) == Width(p, j)
    ensures Width(p, j) < l <= Width(p, j + 1)
    decreases m
  {
    if Width(p, m) < l {
      j := m;
    } else {
      j := ShrinkWidth(p, m - 1, l);
    }
  }

  /** The reference hash of more than one segment is what the tree node above the data emits. */
  lemma {:induction false} RefHashIsNodeValue(p: Params, d: Bytes, m: nat, k: nat)
    requires p.Valid() && p.size < |d| <= Width(p, k)
    requires |d| <= 2 * Width(p, m)
    ensures RefHash(p, d, Width(p, m)) == NodeValue(p, d, k)
    decreases |d|
  {
    if |d| <= p.Section() {
      NodeValueLower(p, d, k, 0);
    } else {
      var j := ShrinkWidth(p, m, |d|);
      var w := Width(p, j);
      if k < j + 1 {
        WidthMonotone(p, k, j);
        assert false;
      }
      NodeValueLower(p, d, k, j + 1);
      RefHashIsNodeValue(p, d[..w], j, j);
      if |d| - w > p.size {
        RefHashIsNodeValue(p, d[w..], j, j);
      } else {
        NodeValueLower(p, d[w..], j, 0);
      }
    }
  }

  /** The chosen span is a node width that covers half of every chunk. */
  lemma SpanIsWidth(p: Params) returns (m: nat)
    requires p.Valid()
    ensures Span(p) == Width(p, m) && p.Capacity() <= 2 * Span(p)
  {
    var c := Doubled(2, p.count);
    m := DoubledWidth(p, 2, 0);
    if c > 2 {
      assert m > 0;
      assert c * p.size == 2 * Width(p, m - 1);
      DoubledEven(1, p.count);
      assert c == 2 * (c / 2);
      assert c * p.size == 2 * (c / 2 * p.size);
      assert Span(p) == Width(p, m - 1);
      CapacityBound(p.count, p.size, c);
      m := m - 1;
    } else {
      DoubledAtLeast(2, p.count);
      CapacityBound(p.count, p.size, 2 * c);
    }
  }

  lemma {:induction false} DoubledEven(h: nat, count: nat)
    requires h > 0
    ensures Doubled(2 * h, count) % 2 == 0
    decreases count - h
  {
    if 2 * h < count { DoubledEven(2 * h, count); }
  }

  lemma {:induction false} DoubledWidth(p: Params, c: nat, k: nat) returns (m: nat)
    requires p.Valid() && c > 0 && c * p.size == Width(p, k)
    ensures Doubled(c, p.count) * p.size == Width(p, m)
    ensures Doubled(c, p.count) >= p.count
    ensures m >= k && (m == k ==> Doubled(c, p.count) == c)
    decreases p.count - c
  {
    if c < p.count {
      assert (2 * c) * p.size == Width(p, k + 1);
      m := DoubledWidth(p, 2 * c, k + 1);
    } else {
      m := k;
    }
  }

  /** The reference hash in closed form, for every input. */
  lemma ReferenceClosedForm(p: Params, b: Bytes, k: nat)
    requires p.Valid() && |Clip(p, b)| <= Width(p, k)
    ensures var d := Clip(p, b);
            Reference(p, b) == if |d| <= p.size then p.hash(d) else NodeValue(p, d, k)
  {
    var d := Clip(p, b);
    var m := SpanIsWidth(p);
    if |d| > p.size {
      RefHashIsNodeValue(p, d, m, k);
    }
  }
}

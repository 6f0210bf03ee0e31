/** From bytes to hash: building the tree, cutting the written bytes into pairs of segments,
    and the agreement of every concurrent run with the reference hash. */
module BmtHasher {
  import opened Basics
  import opened BmtReference
  import opened BmtMachine
  import opened BmtInvariant
  import opened BmtTheorems

  // ---------------------------------------------------------------- the tree

  /** `depth` */
  method Depth(n: nat) returns (d: nat)
    requires n > 0
    ensures d == RootHeight((n - 1) / 2)
  {
    d := 0;
    var l: nat := (n - 1) / 2;
    while l > 0
      invariant d + RootHeight(l) == RootHeight((n - 1) / 2)
      decreases l
    {
      l := l / 2;
      d := d + 1;
    }
  }

  /** `NewNode`, with the root mark that `NewTree` gives to the top node */
  function NewNode(top: bool): Node {
    Node([], [], false, top, 0)
  }

  /** `NewTree`: level by level, doubling the number of nodes */
  method NewTree(segmentCount: nat) returns (depth: nat, nodes: map<Pos, Node>)
    requires segmentCount > 0
    ensures depth == RootHeight((segmentCount - 1) / 2)
    ensures UsedAtMost(depth, nodes, 0)
  {
    depth := Depth(segmentCount);
    nodes := map[Pos(depth, 0) := NewNode(true)];
    var count := 2;
    for d := 1 to depth + 1
      invariant count == Pow2(d) && Built(depth, nodes, depth - d)
    {
      nodes := NewLevel(depth, nodes, depth - d, count);
      count := count * 2;
    }
  }

  /** All nodes above height h are there and new. */
  ghost predicate Built(depth: nat, nodes: map<Pos, Node>, h: int) {
    forall n :: InTree(depth, n) && n.height > h ==> n in nodes && nodes[n] == NewNode(n.height == depth)
  }

  /** The inner loop of `NewTree`: the nodes at one height. */
  method NewLevel(depth: nat, nodes0: map<Pos, Node>, height: nat, count: nat) returns (nodes: map<Pos, Node>)
    requires height < depth && count == Pow2(depth - height) && Built(depth, nodes0, height)
    ensures Built(depth, nodes, height - 1)
  {
    nodes := nodes0;
    for i := 0 to count
      invariant Built(depth, nodes, height)
      invariant forall k: nat :: k < i ==> Pos(height, k) in nodes && nodes[Pos(height, k)] == NewNode(false)
    {
      nodes := nodes[Pos(height, i) := NewNode(false)];
    }
    forall n | InTree(depth, n) && n.height > height - 1 ensures n in nodes && nodes[n] == NewNode(n.height == depth) {
      assert n.height == height ==> n == Pos(height, n.index);
    }
  }

  // ---------------------------------------------------------------- cutting the data

  /** The pairs of segments of d. */
  function Pieces(p: Params, d: Bytes): (s: seq<Bytes>)
    requires p.Valid()
    ensures |s| > 0
    decreases |d|
  {
    if |d| <= p.Section() then [d] else [d[..p.Section()]] + Pieces(p, d[p.Section()..])
  }

  function Join(s: seq<Bytes>): Bytes {
    if s == [] then [] else Join(s[..|s| - 1]) + s[|s| - 1]
  }

  lemma {:induction false} JoinFront(x: Bytes, s: seq<Bytes>)
    ensures Join([x] + s) == x + Join(s)
    decreases |s|
  {
    if s == [] {
      assert [x] + s == [x];
    } else {
      var m := |s| - 1;
      assert ([x] + s)[..m + 1] == [x] + s[..m];
      JoinFront(x, s[..m]);
    }
  }

  /** Cutting is undone by joining. */
  lemma {:induction false} JoinPieces(p: Params, d: Bytes)
    requires p.Valid()
    ensures Join(Pieces(p, d)) == d
    decreases |d|
  {
    if |d| > p.Section() {
      var w := p.Section();
      JoinPieces(p, d[w..]);
      JoinFront(d[..w], Pieces(p, d[w..]));
      assert d == d[..w] + d[w..];
    }
  }

  /** Any list of full pairs, ended by a non-empty last one, is the cut of its join. */
  lemma {:induction false} PiecesUnique(p: Params, s: seq<Bytes>)
    requires p.Valid() && FullPairs(p, s)
    ensures Pieces(p, Join(s)) == s
    decreases |s|
  {
    if |s| == 1 {
      assert Join(s[..0]) == [];
      assert Join(s) == s[0];
    } else {
      var t := s[1..];
      assert s == [s[0]] + t;
      JoinFront(s[0], t);
      PiecesUnique(p, t);
      JoinNonEmpty(t);
      var d := Join(s);
      assert d[..p.Section()] == s[0] && d[p.Section()..] == Join(t);
    }
  }

  lemma JoinNonEmpty(s: seq<Bytes>)
    requires |s| > 0 && |s[|s| - 1]| > 0
    ensures |Join(s)| > 0
  {
  }

  predicate FullPairs(p: Params, s: seq<Bytes>) {
    && |s| > 0
    && (forall j :: 0 <= j < |s| - 1 ==> |s[j]| == p.Section())
    && |s[|s| - 1]| <= p.Section()
    && (|s| > 1 ==> |s[|s| - 1]| > 0)
  }

  lemma {:induction false} PiecesAreFullPairs(p: Params, d: Bytes)
    requires p.Valid()
    ensures FullPairs(p, Pieces(p, d))
    ensures (|Pieces(p, d)| - 1) * p.Section() <= |d|
    ensures d != [] ==> (|Pieces(p, d)| - 1) * p.Section() < |d|
    decreases |d|
  {
    if |d| > p.Section() {
      PiecesAreFullPairs(p, d[p.Section()..]);
      var r := |Pieces(p, d[p.Section()..])|;
      assert r * p.Section() == (r - 1) * p.Section() + p.Section();
    }
  }

  // ---------------------------------------------------------------- the value of the tree is the reference hash

  /** The bytes below node (k, i). */
  function Below(c: Chunk, k: nat, i: nat): Bytes
    requires c.Valid() && i <= Up(c.Cur(), k)
    decreases k
  {
    if k == 0 then c.segs[i]
    else Below(c, k - 1, 2 * i) + (if 2 * i + 1 <= Up(c.Cur(), k - 1) then Below(c, k - 1, 2 * i + 1) else [])
  }

  lemma {:induction false} BelowLength(c: Chunk, k: nat, i: nat)
    requires c.Valid() && c.Cur() > 0 && i <= Up(c.Cur(), k)
    ensures 0 < |Below(c, k, i)| <= Width(c.p, k)
    ensures i < Up(c.Cur(), k) ==> |Below(c, k, i)| == Width(c.p, k)
    decreases k
  {
    if k > 0 {
      BelowLength(c, k - 1, 2 * i);
      if 2 * i + 1 <= Up(c.Cur(), k - 1) {
        BelowLength(c, k - 1, 2 * i + 1);
      }
    }
  }

  /** A node with data in both halves hashes what the halves emit. */
  lemma NodeValueSplit(p: Params, l: Bytes, r: Bytes, k: nat)
    requires p.Valid() && k > 0 && |l| == Width(p, k - 1) && |r| > 0
    ensures NodeValue(p, l + r, k) == p.hash(NodeValue(p, l, k - 1) + NodeValue(p, r, k - 1))
  {
    assert (l + r)[..|l|] == l && (l + r)[|l|..] == r;
  }

  lemma NodeValueLeft(p: Params, l: Bytes, k: nat)
    requires p.Valid() && k > 0 && |l| <= Width(p, k - 1)
    ensures NodeValue(p, l + [], k) == NodeValue(p, l, k - 1)
  {
    assert l + [] == l;
  }

  /** Node (k, i) emits the value of the bytes below it. */
  predicate EmitsBelow(c: Chunk, k: nat, i: nat)
    requires c.Valid() && i <= Up(c.Cur(), k)
  {
    Val(c, k, i) == NodeValue(c.p, Below(c, k, i), k)
  }

  lemma EmitsBoth(c: Chunk, k: nat, i: nat)
    requires c.Valid() && c.Cur() > 0 && k > 0 && i <= Up(c.Cur(), k) && 2 * i + 1 <= Up(c.Cur(), k - 1)
    requires EmitsBelow(c, k - 1, 2 * i) && EmitsBelow(c, k - 1, 2 * i + 1)
    ensures EmitsBelow(c, k, i)
  {
    BelowLength(c, k - 1, 2 * i);
    BelowLength(c, k - 1, 2 * i + 1);
    NodeValueSplit(c.p, Below(c, k - 1, 2 * i), Below(c, k - 1, 2 * i + 1), k);
  }

  lemma EmitsLeft(c: Chunk, k: nat, i: nat)
    requires c.Valid() && c.Cur() > 0 && k > 0 && i <= Up(c.Cur(), k) && 2 * i + 1 > Up(c.Cur(), k - 1)
    requires EmitsBelow(c, k - 1, 2 * i)
    ensures EmitsBelow(c, k, i)
  {
    BelowLength(c, k - 1, 2 * i);
    NodeValueLeft(c.p, Below(c, k - 1, 2 * i), k);
  }

  lemma {:induction false} ValIsNodeValue(c: Chunk, k: nat, i: nat)
    requires c.Valid() && c.Cur() > 0 && i <= Up(c.Cur(), k)
    ensures EmitsBelow(c, k, i)
    decreases k
  {
    if k > 0 {
      ValIsNodeValue(c, k - 1, 2 * i);
      if 2 * i + 1 <= Up(c.Cur(), k - 1) {
        ValIsNodeValue(c, k - 1, 2 * i + 1);
        EmitsBoth(c, k, i);
      } else {
        EmitsLeft(c, k, i);
      }
    }
  }

  /** The first m nodes of height k together. */
  function Level(c: Chunk, k: nat, m: nat): Bytes
    requires c.Valid() && m <= Up(c.Cur(), k) + 1
    decreases m
  {
    if m == 0 then [] else Level(c, k, m - 1) + Below(c, k, m - 1)
  }

  /** Each level of the tree covers the same bytes as the level below it. */
  lemma {:induction false} LevelBelow(c: Chunk, k: nat, m: nat)
    requires c.Valid() && k > 0 && m <= Up(c.Cur(), k) + 1
    ensures 2 * m <= Up(c.Cur(), k - 1) + 1 ==> Level(c, k, m) == Level(c, k - 1, 2 * m)
    ensures 2 * m > Up(c.Cur(), k - 1) + 1 ==>
              0 < m && 2 * m - 1 == Up(c.Cur(), k - 1) + 1 && Level(c, k, m) == Level(c, k - 1, 2 * m - 1)
    decreases m
  {
    if m > 0 {
      LevelBelow(c, k, m - 1);
      LevelStep(c, k, m);
    }
  }

  lemma LevelStep(c: Chunk, k: nat, m: nat)
    requires c.Valid() && k > 0 && 0 < m <= Up(c.Cur(), k) + 1
    requires Level(c, k, m - 1) == Level(c, k - 1, 2 * m - 2)
    ensures 2 * m <= Up(c.Cur(), k - 1) + 1 ==> Level(c, k, m) == Level(c, k - 1, 2 * m)
    ensures 2 * m > Up(c.Cur(), k - 1) + 1 ==> Level(c, k, m) == Level(c, k - 1, 2 * m - 1)
  {
    var a, l := Level(c, k, m - 1), Below(c, k - 1, 2 * m - 2);
    assert Level(c, k - 1, 2 * m - 1) == a + l;
    if 2 * m <= Up(c.Cur(), k - 1) + 1 {
      Associative(a, l, Below(c, k - 1, 2 * m - 1));
    } else {
      assert l + [] == l;
    }
  }

  lemma {:induction false} LevelIsJoin(c: Chunk, m: nat)
    requires c.Valid() && m <= |c.segs|
    ensures Level(c, 0, m) == Join(c.segs[..m])
    decreases m
  {
    if m > 0 {
      LevelIsJoin(c, m - 1);
      assert c.segs[..m][..m - 1] == c.segs[..m - 1];
    }
  }

  lemma {:induction false} LevelIsAll(c: Chunk, k: nat)
    requires c.Valid()
    ensures Level(c, k, Up(c.Cur(), k) + 1) == Join(c.segs)
    decreases k
  {
    if k == 0 {
      LevelIsJoin(c, |c.segs|);
      assert c.segs[..|c.segs|] == c.segs;
    } else {
      LevelBelow(c, k, Up(c.Cur(), k) + 1);
      LevelIsAll(c, k - 1);
    }
  }

  /** The value returned by the concurrent hasher, for any chunk. */
  lemma ResultIsReference(c: Chunk, b: Bytes)
    requires c.Valid() && c.segs == Pieces(c.p, Clip(c.p, b))
    ensures Result(c) == Reference(c.p, b)
  {
    var d := Clip(c.p, b);
    JoinPieces(c.p, d);
    if c.Cur() == 0 {
      assert Join(c.segs[..0]) == [];
      assert c.segs[0] == d;
      ReferenceClosedForm(c.p, b, 0);
    } else {
      var r := RootHeight(c.Cur());
      UpRoot(c.Cur(), r);
      LevelIsAll(c, r);
      assert Level(c, r, 1) == Level(c, r, 0) + Below(c, r, 0);
      assert Below(c, r, 0) == d;
      BelowLength(c, r, 0);
      ValIsNodeValue(c, r, 0);
      PiecesAreFullPairs(c.p, d);
      assert |d| > c.p.size;
      ReferenceClosedForm(c.p, b, r);
    }
  }

  lemma {:induction false} RootHeightMonotone(a: nat, b: nat)
    requires a <= b
    ensures RootHeight(a) <= RootHeight(b)
    decreases b
  {
    if a > 0 { RootHeightMonotone(a / 2, b / 2); }
  }

  /** The chunk that `Write` makes of clipped data fits into the tree that the pool builds. */
  lemma ChunkFits(p: Params, b: Bytes)
    requires p.Valid()
    ensures Chunk(p, RootHeight((p.count - 1) / 2), Pieces(p, Clip(p, b))).Valid()
  {
    var d := Clip(p, b);
    var s := Pieces(p, d);
    PiecesAreFullPairs(p, d);
    LastLeafBound(|s| - 1, p);
    RootHeightMonotone(|s| - 1, (p.count - 1) / 2);
  }

  lemma LastLeafBound(cur: nat, p: Params)
    requires p.Valid() && (cur == 0 || cur * p.Section() < p.Capacity())
    ensures cur <= (p.count - 1) / 2
  {
    if cur > 0 {
      assert p.size * (p.count - 2 * cur) > 0;
    }
  }

  /** The main result: for every input and every schedule, the concurrent hasher on a clean tree
      returns the reference hash. */
  lemma {:induction false} HasherAgreesWithReference(p: Params, b: Bytes, s: State, schedule: seq<Choice>, s': State)
    requires p.Valid()
    requires var c := Chunk(p, RootHeight((p.count - 1) / 2), Pieces(p, Clip(p, b)));
             Start(c, s) && Reaches(c, s, schedule, s') && s'.caller.Returned?
    ensures s'.caller.c == Reference(p, b)
  {
    var c := Chunk(p, RootHeight((p.count - 1) / 2), Pieces(p, Clip(p, b)));
    ReturnsTreeValue(c, s, schedule, s');
    ResultIsReference(c, b);
  }

  // ---------------------------------------------------------------- writing

  /** Bytes that still fit from leaf i on. */
  function Room(p: Params, i: nat): int {
    p.Capacity() - i * p.Section()
  }

  lemma RoomProduct(p: Params, i: nat)
    ensures Room(p, i) == (p.count - 2 * i) * p.size
  {
    assert i * (2 * p.size) == (2 * i) * p.size;
    assert (p.count - 2 * i) * p.size == p.count * p.size - (2 * i) * p.size;
  }

  lemma RoomFacts(p: Params, i: nat)
    requires p.Valid() && i <= (p.count - 1) / 2
    ensures Room(p, i) == Room(p, i + 1) + p.Section()
    ensures i < (p.count - 1) / 2 ==> Room(p, i) > p.Section()
    ensures i == (p.count - 1) / 2 ==> Room(p, i) == if p.count % 2 == 0 then p.Section() else p.size
  {
    RoomProduct(p, i);
    assert (i + 1) * p.Section() == i * p.Section() + p.Section();
    var q := p.count - 2 * i;
    if i < (p.count - 1) / 2 {
      MulAtLeast(3, q, p.size);
    } else {
      assert q == if p.count % 2 == 0 then 2 else 1;
    }
  }

  lemma NeedIsRoom(p: Params, i: nat)
    ensures p.count * p.size - i * 2 * p.size == Room(p, i)
  {
    assert i * 2 * p.size == i * (2 * p.size);
  }

  lemma Associative(a: Bytes, b: Bytes, c: Bytes)
    ensures a + (b + c) == (a + b) + c
  {
  }

  lemma MulAtLeast(k: nat, q: nat, z: nat)
    requires k <= q
    ensures k * z <= q * z
  {
    assert (q - k) * z >= 0;
  }

  lemma {:induction false} RoomShrinks(p: Params, i: nat, j: nat)
    requires p.Valid() && i <= j <= (p.count - 1) / 2
    ensures Room(p, j) <= Room(p, i)
    decreases j - i
  {
    if i < j {
      RoomFacts(p, i);
      RoomShrinks(p, i + 1, j);
    }
  }

  lemma {:induction false} JoinLength(p: Params, s: seq<Bytes>)
    requires forall j :: 0 <= j < |s| ==> |s[j]| == p.Section()
    ensures |Join(s)| == |s| * p.Section()
    decreases |s|
  {
    if s != [] {
      JoinLength(p, s[..|s| - 1]);
      assert |s| * p.Section() == (|s| - 1) * p.Section() + p.Section();
    }
  }

  /** Handing over one pair and reading on loses nothing. */
  lemma NextPair(p: Params, pushed: seq<Bytes>, s: Bytes, data: Bytes, b: Bytes, rest: nat, size: nat)
    requires rest + size <= |b| && Join(pushed) + s == data + b[..rest]
    ensures Join(pushed + [s]) + b[rest..rest + size] == data + b[..rest + size]
    ensures Pairs(p, pushed) && |s| == p.Section() ==> Pairs(p, pushed + [s])
  {
    assert (pushed + [s])[..|pushed|] == pushed;
    assert b[..rest + size] == b[..rest] + b[rest..rest + size];
    Associative(data, b[..rest], b[rest..rest + size]);
  }

  /** A later write into a tree with an odd number of segments that runs over the capacity. */
  predicate Overfills(p: Params, cur: nat, segment: Bytes, b: Bytes)
    requires p.Valid()
  {
    p.count % 2 == 1 && cur < (p.count - 1) / 2 && segment != [] && |segment| + |b| > Room(p, cur)
  }

  /** The smallest case: three one-byte segments, one byte written, three more to come. */
  lemma OverfillsExample(hash: Bytes -> Bytes)
    ensures Overfills(Params(hash, 1, 3), 0, [7], [7, 7, 7])
  {
  }

  class Hasher {
    const p: Params
    var cur: nat
    var segment: Bytes
    /** The pairs handed to `writeSegment`, by leaf. */
    var launched: seq<Bytes>

    ghost predicate Valid()
      reads this
    {
      && p.Valid()
      && |launched| == cur <= (p.count - 1) / 2
      && Pairs(p, launched)
      && |segment| <= p.Section() && |segment| <= Room(p, cur)
      && (cur > 0 ==> |segment| > 0)
    }

    /** Everything written so far. */
    ghost function Data(): Bytes
      reads this
    {
      Join(launched) + segment
    }

    constructor (params: Params)
      requires params.Valid()
      ensures p == params && Valid() && Data() == []
    {
      p, cur, segment, launched := params, 0, [], [];
      new;
      RoomFacts(p, 0);
    }

    /** The data never exceeds the capacity, and the pairs are its cut. */
    lemma DataIsCut()
      requires Valid()
      ensures |Data()| <= p.Capacity()
      ensures Pieces(p, Data()) == launched + [segment]
    {
      JoinLength(p, launched);
      var s := launched + [segment];
      assert s[..|s| - 1] == launched;
      assert Join(s) == Data();
      PiecesUnique(p, s);
    }

    lemma WriteNothing(b: Bytes)
      requires Valid() && b == []
      ensures Data() == Clip(p, Data() + b) && !Overfills(p, cur, segment, b)
    {
      DataIsCut();
      assert Data() + b == Data();
    }

    /** The loop of `Write`: hand full pairs to goroutines while there is more to read and a leaf is left.
        s0 is the pair at the first free leaf, the first `done` bytes of b are in it, and `todo` more are wanted. */
    static method Push(p: Params, b: Bytes, pushed0: seq<Bytes>, s0: Bytes, size0: nat, done: nat, todo: nat,
                       ghost data: Bytes)
        returns (pushed: seq<Bytes>, s: Bytes, rest: nat)
      requires p.Valid() && |pushed0| <= (p.count - 1) / 2 && Pairs(p, pushed0)
      requires done + todo <= |b| && |s0| <= p.Section() && (|pushed0| > 0 ==> |s0| > 0)
      requires todo > 0 ==> |s0| == size0
      requires todo > 0 && |pushed0| < (p.count - 1) / 2 ==> size0 == p.Section()
      requires Join(pushed0) + s0 == data + b[..done]
      ensures |pushed0| <= |pushed| <= (p.count - 1) / 2 && Pairs(p, pushed)
      ensures |s| <= p.Section() && (|pushed| > 0 ==> |s| > 0)
      ensures done <= rest <= done + todo
      ensures rest == done + todo
                || (|pushed| == (p.count - 1) / 2 && |s| == if |pushed| == |pushed0| then size0 else p.Section())
      ensures |pushed| == |pushed0| ==> s == s0 && rest == done
      ensures Join(pushed) + s == data + b[..rest]
    {
      pushed, s, rest := pushed0, s0, done;
      var need: int, size: int := todo, size0;
      while need > 0 && |pushed| < (p.count + 1) / 2 - 1
        invariant done <= rest <= done + todo
        invariant need == done + todo - rest || (need < 0 && rest == done + todo)
        invariant need > 0 ==> |s| == size == if |pushed| == |pushed0| then size0 else p.Section()
        invariant |s| <= p.Section() && (|pushed| > 0 ==> |s| > 0)
        invariant |pushed0| <= |pushed| <= (p.count - 1) / 2 && Pairs(p, pushed)
        invariant |pushed| == |pushed0| ==> s == s0 && rest == done
        invariant Join(pushed) + s == data + b[..rest]
        decreases need
      {
        need := need - size;
        if need < 0 {
          size := size + need;
        }
        NextPair(p, pushed, s, data, b, rest, size);
        pushed, s, rest := pushed + [s], b[rest..rest + size], rest + size;
      }
    }

    /** `Write` appends and clips at the capacity, exactly unless `Overfills`; then it takes too much. */
    method Write(b: Bytes) returns (n: nat)
      requires Valid()
      modifies this
      ensures n == |b|
      ensures !old(Overfills(p, cur, segment, b)) ==> Valid() && Data() == Clip(p, old(Data()) + b)
      ensures old(Overfills(p, cur, segment, b)) ==> |Data()| > p.Capacity()
    {
      n := |b|;
      if |b| == 0 {
        WriteNothing(b);
        return;
      }
      ghost var data := Data();
      RoomFacts(p, cur);
      var need: int := p.count * p.size - cur * 2 * p.size;
      NeedIsRoom(p, cur);
      var size := p.size;
      if need > size {
        size := size * 2;
      }
      if |b| < need {
        need := |b|;
      }
      var rest := size - |segment|;
      if need < rest {
        rest := need;
      }
      var s := segment + b[..rest];
      Associative(Join(launched), segment, b[..rest]);
      var pushed, s', rest' := Push(p, b, launched, s, size, rest, need - rest, data);
      WriteOutcome(p, launched, segment, b, need, rest', pushed, s');
      launched := pushed;
      segment := s';
      cur := |pushed|;
    }
  }

  predicate Pairs(p: Params, s: seq<Bytes>) {
    forall j :: 0 <= j < |s| ==> |s[j]| == p.Section()
  }

  /** What `Write` has achieved when it took `rest` of the `need` bytes it wanted. */
  lemma WriteOutcome(p: Params, pushed: seq<Bytes>, segment: Bytes, b: Bytes, need: nat, rest: nat,
                     pushed': seq<Bytes>, segment': Bytes)
    requires p.Valid() && Pairs(p, pushed) && Pairs(p, pushed') && |pushed| <= |pushed'| <= (p.count - 1) / 2
    requires |segment| <= Room(p, |pushed|) && need == Min(|b|, Room(p, |pushed|)) && rest <= need
    requires |pushed| > 0 ==> |segment| > 0
    requires |segment'| <= p.Section() && Join(pushed') + segment' == Join(pushed) + segment + b[..rest]
    requires |pushed| == |pushed'| ==> |segment'| <= Room(p, |pushed|)
    requires rest == need
             || (|pushed'| == (p.count - 1) / 2
                 && |segment'| == if |pushed| == |pushed'| && Room(p, |pushed|) <= p.size then p.size else p.Section())
    ensures var data' := Join(pushed') + segment';
      if Overfills(p, |pushed|, segment, b) then |data'| > p.Capacity()
      else data' == Clip(p, Join(pushed) + segment + b) && |segment'| <= Room(p, |pushed'|)
  {
    JoinLength(p, pushed);
    JoinLength(p, pushed');
    WriteTotals(p, |pushed|, |segment|, |b|, need, rest, |pushed'|, |segment'|);
    var data := Join(pushed) + segment;
    assert (data + b)[..|data| + rest] == data + b[..rest];
  }

  /** How much `Write` takes, in numbers: from leaf c0 with g bytes in it to leaf c1 with h bytes in it. */
  lemma WriteTotals(p: Params, c0: nat, g: nat, l: nat, total: nat, rest: nat, c1: nat, h: nat)
    requires p.Valid() && c0 <= c1 <= (p.count - 1) / 2
    requires g <= Room(p, c0) && total == Min(l, Room(p, c0)) && rest <= total
    requires c0 > 0 ==> g > 0
    requires h <= p.Section() && c0 * p.Section() + g + rest == c1 * p.Section() + h
    requires c0 == c1 ==> h <= Room(p, c0)
    requires rest == total
             || (c1 == (p.count - 1) / 2
                 && h == if c0 == c1 && Room(p, c0) <= p.size then p.size else p.Section())
    ensures var over := p.count % 2 == 1 && c0 < (p.count - 1) / 2 && g > 0 && g + l > Room(p, c0);
            && (over ==> h > Room(p, c1))
            && (!over ==> g + rest == Min(g + l, Room(p, c0)) && h <= Room(p, c1))
  {
    RoomFacts(p, c0);
    RoomFacts(p, c1);
    RoomShrinks(p, c0, c1);
    assert Room(p, c0) - Room(p, c1) == c1 * p.Section() - c0 * p.Section();
  }
}

/** The concurrent hasher as a step machine.
    One goroutine runs per pair of segments; the caller pushes the full pairs, marks the zig-zag path
    of the last pair (`finalise`), launches the last goroutine, waits for the result and
    releases the tree.  Every store to a node, every toggle and every combine is a step of its own,
    and any enabled step may be taken next. */
module BmtMachine {
  import opened Basics
  import opened BmtReference

  /** A node is addressed by its height (0 for the leaves) and its index on that level. */
  datatype Pos = Pos(height: nat, index: nat) {
    function Parent(): Pos { Pos(height + 1, index / 2) }
    predicate IsLeft() { index % 2 == 0 }
    predicate Initial() { index == 0 }
  }

  /** `state` is the int32 toggle counter. */
  datatype Node = Node(left: Bytes, right: Bytes, unbalanced: bool, root: bool, state: int)

  /** A goroutine.  `Done` remembers the node at which it returned. */
  datatype Thread =
    | Unspawned
    | Hashing(d: nat)
    | Storing(n: Pos, isLeft: bool, i: nat, d: nat, s: Bytes)
    | Toggling(n: Pos, isLeft: bool, i: nat, d: nat, s: Bytes)
    | Combining(n: Pos, isLeft: bool, i: nat, d: nat)
    | Sending(n: Pos, s: Bytes)
    | Done(n: Pos)

  /** The goroutine that calls `Write` and then `Sum`. */
  datatype Caller =
    | Pushing(j: nat)
    | Finalising(n: Pos, isLeft: bool, d: nat)
    | Launching(d: nat)
    | Waiting
    | Releasing(n: Pos, c: Bytes)
    | Returned(c: Bytes)

  datatype State = State(nodes: map<Pos, Node>, threads: seq<Thread>, caller: Caller)

  /** A chunk being hashed: the pairs of segments that `Write` cut it into, and the depth of the tree. */
  datatype Chunk = Chunk(p: Params, depth: nat, segs: seq<Bytes>) {
    function Cur(): int { |segs| - 1 }

    /** What `Write` establishes: all pairs but the last are full, and there is a leaf for each. */
    predicate Valid() {
      && p.Valid()
      && |segs| > 0
      && (forall j :: 0 <= j < Cur() ==> |segs[j]| == p.Section())
      && |segs[Cur()]| <= p.Section()
      && (Cur() > 0 ==> |segs[Cur()]| > 0)
      && RootHeight(Cur()) <= depth
    }
  }

  /** Index of the ancestor of leaf j at height k. */
  function Up(j: nat, k: nat): nat {
    if k == 0 then j else Up(j, k - 1) / 2
  }

  /** How often n can be halved before it is zero; also the loop of `depth`. */
  function RootHeight(n: nat): nat {
    if n == 0 then 0 else 1 + RootHeight(n / 2)
  }

  /** The nodes of a tree of the given depth: Pow2(depth - k) of them at height k. */
  predicate InTree(depth: nat, n: Pos) {
    n.height <= depth && n.index < Pow2(depth - n.height)
  }

  // ---------------------------------------------------------------- toggle

  const INT32_LIMIT: int := 0x8000_0000

  /** atomic.AddInt32(&state, 1) */
  function Increment(state: int): int {
    if state + 1 == INT32_LIMIT then -INT32_LIMIT else state + 1
  }

  /** Go's remainder takes the sign of the dividend. */
  function GoMod2(x: int): int {
    if x >= 0 then x % 2 else -((-x) % 2)
  }

  /** Whether the toggle that leaves the counter at `state` tells its caller to stop. */
  predicate ToggleWaits(state: int) {
    GoMod2(state) == 1
  }

  // ---------------------------------------------------------------- steps

  /** `writeSegment` */
  function Spawn(c: Chunk, j: nat, d: nat): Thread
    requires j < |c.segs|
  {
    if |c.segs[j]| > c.p.size && c.depth > 0 then Hashing(d)
    else Storing(Pos(0, j), true, 2 * j, d, c.segs[j])
  }

  /** `Sum` up to the call of `finalise`. */
  function StartFinalise(c: Chunk): Caller
    requires |c.segs| > 0
  {
    var i := c.Cur();
    if |c.segs[i]| > c.p.size && i > 0 && c.depth > 0 then Finalising(Pos(1, i / 2), i % 2 == 0, 0)
    else Finalising(Pos(0, i), true, 0)
  }

  datatype Choice = CallerMoves | ThreadMoves(j: nat) | Receive(j: nat)

  predicate Enabled(c: Chunk, s: State, a: Choice) {
    match a
    case CallerMoves =>
      !s.caller.Waiting? && !s.caller.Returned?
    case ThreadMoves(j) =>
      && j < |s.threads|
      && (s.threads[j].Hashing? || s.threads[j].Storing? || s.threads[j].Toggling? || s.threads[j].Combining?)
    case Receive(j) =>
      s.caller.Waiting? && j < |s.threads| && s.threads[j].Sending?
  }

  /** All nodes a step may look at exist. */
  ghost predicate WellFormed(c: Chunk, s: State) {
    && |s.threads| == |c.segs| > 0
    && (forall n :: InTree(c.depth, n) ==> n in s.nodes)
    && (s.caller.Pushing? ==> s.caller.j <= c.Cur())
    && (s.caller.Finalising? ==> InTree(c.depth, s.caller.n))
    && (s.caller.Releasing? ==> InTree(c.depth, s.caller.n))
    && (forall j :: 0 <= j < |s.threads| ==> ThreadWellFormed(c, s.threads[j], j))
  }

  predicate ThreadWellFormed(c: Chunk, t: Thread, j: nat) {
    && (t.Storing? || t.Toggling? || t.Combining? ==> InTree(c.depth, t.n))
    && (t.Hashing? ==> InTree(c.depth, Pos(0, j)))
  }

  function CallerStep(c: Chunk, s: State): State
    requires WellFormed(c, s) && Enabled(c, s, CallerMoves)
  {
    match s.caller
    case Pushing(j) =>
      if j < c.Cur() then
        s.(threads := s.threads[j := Spawn(c, j, c.depth)], caller := Pushing(j + 1))
      else
        s.(caller := StartFinalise(c))
    case Finalising(n, isLeft, d) =>
      var v := s.nodes[n].(unbalanced := isLeft, right := []);
      if n.Initial() then
        s.(nodes := s.nodes[n := v.(root := true)], caller := Launching(d))
      else
        s.(nodes := s.nodes[n := v], caller := Finalising(n.Parent(), n.IsLeft(), d + 1))
    case Launching(d) =>
      s.(threads := s.threads[c.Cur() := Spawn(c, c.Cur(), d)], caller := Waiting)
    case Releasing(n, r) =>
      var v := s.nodes[n].(unbalanced := false);
      if n.height < c.depth then
        s.(nodes := s.nodes[n := v.(root := false)], caller := Releasing(n.Parent(), r))
      else
        s.(nodes := s.nodes[n := v], caller := Returned(r))
  }

  /** What `run` computes at a node. */
  function CombineNode(c: Chunk, v: Node, isLeft: bool, i: nat, d: nat): Bytes {
    if !v.unbalanced || !isLeft || (i == 0 && d == 0) then c.p.hash(v.left + v.right) else v.left + v.right
  }

  function ThreadStep(c: Chunk, s: State, j: nat): State
    requires WellFormed(c, s) && Enabled(c, s, ThreadMoves(j))
  {
    match s.threads[j]
    case Hashing(d) =>
      var n := Pos(0, j);
      var v := c.p.hash(c.segs[j]);
      s.(threads := s.threads[j :=
        if s.nodes[n].root then Sending(n, v) else Storing(n.Parent(), j % 2 == 0, j, d, v)])
    case Storing(n, isLeft, i, d, v) =>
      s.(nodes := s.nodes[n := if isLeft then s.nodes[n].(left := v) else s.nodes[n].(right := v)],
         threads := s.threads[j := Toggling(n, isLeft, i, d, v)])
    case Toggling(n, isLeft, i, d, v) =>
      if s.nodes[n].unbalanced then
        s.(threads := s.threads[j := Combining(n, isLeft, i, d)])
      else
        var state := Increment(s.nodes[n].state);
        s.(nodes := s.nodes[n := s.nodes[n].(state := state)],
           threads := s.threads[j := if ToggleWaits(state) then Done(n) else Combining(n, isLeft, i, d)])
    case Combining(n, isLeft, i, d) =>
      var v := CombineNode(c, s.nodes[n], isLeft, i, d);
      s.(threads := s.threads[j :=
        if s.nodes[n].root then Sending(n, v) else Storing(n.Parent(), n.IsLeft(), i + 1, d, v)])
  }

  function ReceiveStep(c: Chunk, s: State, j: nat): State
    requires WellFormed(c, s) && Enabled(c, s, Receive(j))
  {
    s.(threads := s.threads[j := Done(s.threads[j].n.Parent())],
       caller := Releasing(Pos(0, c.Cur()), s.threads[j].s))
  }

  function Step(c: Chunk, s: State, a: Choice): State
    requires WellFormed(c, s) && Enabled(c, s, a)
  {
    match a
    case CallerMoves => CallerStep(c, s)
    case ThreadMoves(j) => ThreadStep(c, s, j)
    case Receive(j) => ReceiveStep(c, s, j)
  }

  /** A tree as the pool hands it out: counters even and not yet wrapped, no node unbalanced,
      only the top node marked root.  Left and right data may be left over from earlier use. */
  ghost predicate Clean(depth: nat, nodes: map<Pos, Node>) {
    forall n :: InTree(depth, n) ==>
      && n in nodes
      && !nodes[n].unbalanced
      && (nodes[n].root <==> n.height == depth)
      && 0 <= nodes[n].state < INT32_LIMIT
      && nodes[n].state % 2 == 0
  }

  ghost predicate Start(c: Chunk, s: State) {
    && c.Valid()
    && Clean(c.depth, s.nodes)
    && s.threads == seq(|c.segs|, _ => Unspawned)
    && s.caller == Pushing(0)
  }
}

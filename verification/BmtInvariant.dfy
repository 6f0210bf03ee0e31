/** The invariant of the concurrent hasher.
    `own` maps every node that has emitted its value to the goroutine that carried the value out. */
module BmtInvariant {
  import opened BmtReference
  import opened BmtMachine

  // ---------------------------------------------------------------- the shape of the tree

  lemma {:induction false} UpMonotone(i: nat, j: nat, k: nat)
    requires i <= j
    ensures Up(i, k) <= Up(j, k)
  {
    if k > 0 { UpMonotone(i, j, k - 1); }
  }

  lemma {:induction false} UpHalf(j: nat, k: nat)
    ensures Up(j / 2, k) == Up(j, k + 1)
  {
    if k > 0 { UpHalf(j, k - 1); }
  }

  lemma {:induction false} UpRoot(j: nat, k: nat)
    ensures Up(j, k) == 0 <==> k >= RootHeight(j)
    decreases j, k
  {
    if k == 0 {
    } else if j == 0 {
      UpRoot(0, k - 1);
    } else {
      UpHalf(j, k - 1);
      UpRoot(j / 2, k - 1);
    }
  }

  lemma {:induction false} UpInTree(depth: nat, j: nat, k: nat)
    requires RootHeight(j) <= depth && k <= depth
    ensures InTree(depth, Pos(k, Up(j, k)))
    decreases depth - k
  {
    if k == depth {
      UpRoot(j, k);
    } else {
      UpInTree(depth, j, k + 1);
    }
  }

  lemma {:induction false} SmallerInTree(depth: nat, i: nat, j: nat, k: nat)
    requires i <= j && RootHeight(j) <= depth && k <= depth
    ensures InTree(depth, Pos(k, Up(i, k)))
  {
    UpInTree(depth, j, k);
    UpMonotone(i, j, k);
  }

  function Root(c: Chunk): Pos
    requires |c.segs| > 0
  {
    Pos(RootHeight(c.Cur()), 0)
  }

  /** Nodes with data below them, up to the root of the smaller tree. */
  predicate Active(c: Chunk, n: Pos)
    requires |c.segs| > 0
  {
    n.height <= RootHeight(c.Cur()) && n.index <= Up(c.Cur(), n.height)
  }

  predicate OnPath(c: Chunk, n: Pos)
    requires |c.segs| > 0
  {
    n.index == Up(c.Cur(), n.height)
  }

  /** Inner nodes with data below both children. */
  predicate Balanced(c: Chunk, n: Pos)
    requires |c.segs| > 0
  {
    n.height > 0 && 2 * n.index + 1 <= Up(c.Cur(), n.height - 1)
  }

  function LeftChild(n: Pos): Pos
    requires n.height > 0
  {
    Pos(n.height - 1, 2 * n.index)
  }

  function RightChild(n: Pos): Pos
    requires n.height > 0
  {
    Pos(n.height - 1, 2 * n.index + 1)
  }

  // ---------------------------------------------------------------- values

  /** What node (k, i) emits. */
  function Val(c: Chunk, k: nat, i: nat): Bytes
    requires c.Valid() && i <= Up(c.Cur(), k)
    decreases k
  {
    if k == 0 then
      if |c.segs[i]| > c.p.size then c.p.hash(c.segs[i]) else c.segs[i]
    else if 2 * i + 1 <= Up(c.Cur(), k - 1) then
      c.p.hash(Val(c, k - 1, 2 * i) + Val(c, k - 1, 2 * i + 1))
    else
      Val(c, k - 1, 2 * i)
  }

  /** The hash of the whole chunk. */
  function Result(c: Chunk): Bytes
    requires c.Valid()
  {
    if c.Cur() == 0 then c.p.hash(c.segs[0])
    else UpRoot(c.Cur(), RootHeight(c.Cur())); Val(c, RootHeight(c.Cur()), 0)
  }

  /** What goroutine j carries when it arrives at height h. */
  function Carried(c: Chunk, j: nat, h: nat): Bytes
    requires c.Valid() && j <= c.Cur()
  {
    if h == 0 then c.segs[j]
    else UpMonotone(j, c.Cur(), h - 1); Val(c, h - 1, Up(j, h - 1))
  }

  // ---------------------------------------------------------------- the invariant

  function Height(t: Thread): nat {
    match t
    case Unspawned => 0
    case Hashing(_) => 0
    case Storing(n, _, _, _, _) => n.height
    case Toggling(n, _, _, _, _) => n.height
    case Combining(n, _, _, _) => n.height
    case Sending(n, _) => n.height + 1
    case Done(n) => n.height
  }

  /** The goroutine has toggled the node it visits (or visited) at height k. */
  predicate Toggled(t: Thread, k: nat) {
    Height(t) > k || (Height(t) == k && (t.Combining? || t.Done?))
  }

  predicate Launched(s: State) {
    s.caller.Waiting? || s.caller.Releasing? || s.caller.Returned?
  }

  predicate Spawned(c: Chunk, s: State, j: nat)
    requires |c.segs| > 0
  {
    match s.caller
    case Pushing(m) => j < m
    case Finalising(_, _, _) => j < c.Cur()
    case Launching(_) => j < c.Cur()
    case _ => true
  }

  /** Height at which `finalise` starts. */
  function FinalStart(c: Chunk): nat
    requires |c.segs| > 0
  {
    if |c.segs[c.Cur()]| > c.p.size && c.Cur() > 0 then 1 else 0
  }

  /** Nodes that `finalise` marks as having only a left half. */
  predicate Lopsided(c: Chunk, n: Pos)
    requires |c.segs| > 0
  {
    OnPath(c, n) && FinalStart(c) <= n.height <= RootHeight(c.Cur()) && !Balanced(c, n)
  }

  /** Whether path nodes at height h currently carry the marks of `finalise`. */
  predicate Marked(s: State, h: nat) {
    match s.caller
    case Pushing(_) => false
    case Finalising(n, _, _) => h < n.height
    case Launching(_) => true
    case Waiting => true
    case Releasing(n, _) => n.height <= h
    case Returned(_) => false
  }

  ghost predicate CallerOk(c: Chunk, s: State)
    requires c.Valid()
  {
    match s.caller
    case Pushing(j) => j <= c.Cur()
    case Finalising(n, isLeft, d) =>
      && OnPath(c, n) && FinalStart(c) <= n.height <= RootHeight(c.Cur())
      && d == n.height - FinalStart(c)
      && (isLeft <==> !Balanced(c, n))
    case Launching(d) => d == RootHeight(c.Cur()) - FinalStart(c)
    case Waiting => true
    case Releasing(n, r) => OnPath(c, n) && n.height <= c.depth && r == Result(c)
    case Returned(r) => r == Result(c)
  }

  ghost predicate FlagsOk(c: Chunk, s: State)
    requires c.Valid()
  {
    forall n :: InTree(c.depth, n) ==>
      && n in s.nodes
      && (s.nodes[n].unbalanced <==> Lopsided(c, n) && Marked(s, n.height))
      && (s.nodes[n].root <==> n.height == c.depth || (n == Root(c) && Marked(s, n.height)))
      && (Lopsided(c, n) && Marked(s, n.height) ==> s.nodes[n].right == [])
  }

  ghost predicate ThreadOk(c: Chunk, s: State, own: map<Pos, nat>, j: nat)
    requires c.Valid() && |s.threads| == |c.segs| && j <= c.Cur()
  {
    var t := s.threads[j];
    && (t.Unspawned? <==> !Spawned(c, s, j))
    && (s.caller.Releasing? || s.caller.Returned? ==> t.Done?)
    && (t.Hashing? ==> |c.segs[j]| > c.p.size && c.depth > 0 && (c.Cur() == 0 <==> j == 0 && t.d == 0))
    && (t.Storing? || t.Toggling? || t.Combining? ==>
          && t.n.height <= RootHeight(c.Cur())
          && t.n.index == Up(j, t.n.height)
          && (t.n.height == 0 ==> t.isLeft && j == c.Cur() && FinalStart(c) == 0)
          && (t.n.height > 0 ==> (t.isLeft <==> Up(j, t.n.height - 1) % 2 == 0))
          && (c.Cur() == 0 <==> t.i == 0 && t.d == 0)
          && t.n !in own)
    && (t.Storing? || t.Toggling? ==> t.s == Carried(c, j, t.n.height))
    && (t.Toggling? ==> t.n in s.nodes && t.s == if t.isLeft then s.nodes[t.n].left else s.nodes[t.n].right)
    && (t.Combining? && !Balanced(c, t.n) ==> t.n in s.nodes && s.nodes[t.n].left == Carried(c, j, t.n.height))
    && (t.Sending? ==> t.n == Root(c) && t.s == Result(c))
    && (t.Done? ==>
          && 0 < t.n.height <= RootHeight(c.Cur()) + 1
          && t.n.index == Up(j, t.n.height)
          && (t.n.height <= RootHeight(c.Cur()) ==> Balanced(c, t.n))
          && (t.n.height > RootHeight(c.Cur()) ==> s.caller.Releasing? || s.caller.Returned?))
  }

  /** The carrier of n came from below n and has left n. */
  ghost predicate EntryOk(c: Chunk, s: State, own: map<Pos, nat>, n: Pos)
    requires c.Valid() && |s.threads| == |c.segs| && n in own
  {
    && Active(c, n) && own[n] <= c.Cur()
    && n.index == Up(own[n], n.height) && n.height < Height(s.threads[own[n]])
    && (OnPath(c, n) ==> Launched(s))
  }

  /** Goroutine j carried out the value of every node below its own height. */
  ghost predicate TrailOk(c: Chunk, t: Thread, own: map<Pos, nat>, j: nat) {
    forall k :: 0 <= k < Height(t) ==> Pos(k, Up(j, k)) in own && own[Pos(k, Up(j, k))] == j
  }

  ghost predicate OwnOk(c: Chunk, s: State, own: map<Pos, nat>)
    requires c.Valid()
  {
    && |s.threads| == |c.segs|
    && (forall n :: n in own ==> EntryOk(c, s, own, n))
    && (forall j :: 0 <= j <= c.Cur() ==> TrailOk(c, s.threads[j], own, j))
  }

  /** Child l of a node at height k has been delivered: stored and toggled. */
  ghost predicate Delivered(s: State, own: map<Pos, nat>, l: Pos, k: nat) {
    l in own && own[l] < |s.threads| && Toggled(s.threads[own[l]], k)
  }

  ghost predicate Stopped(s: State, own: map<Pos, nat>, l: Pos, n: Pos) {
    l in own && own[l] < |s.threads| && s.threads[own[l]] == Done(n)
  }

  function Count(start: int, a: bool, b: bool): int {
    if a && b then Increment(Increment(start)) else if a || b then Increment(start) else start
  }

  ghost predicate BalancedOk(c: Chunk, s: State, start: map<Pos, Node>, own: map<Pos, nat>, n: Pos)
    requires c.Valid() && n.height > 0 && 2 * n.index + 1 <= Up(c.Cur(), n.height - 1)
    requires n in s.nodes && n in start
  {
    var l, r := LeftChild(n), RightChild(n);
    var a, b := Delivered(s, own, l, n.height), Delivered(s, own, r, n.height);
    && s.nodes[n].state == Count(start[n].state, a, b)
    && (a ==> s.nodes[n].left == Val(c, l.height, l.index))
    && (b ==> s.nodes[n].right == Val(c, r.height, r.index))
    && (n in own ==> a && b)
    && (a && !b ==> Stopped(s, own, l, n))
    && (b && !a ==> Stopped(s, own, r, n))
    && (a && b ==> (Stopped(s, own, l, n) <==> !Stopped(s, own, r, n)))
  }

  ghost predicate NodeOk(c: Chunk, s: State, start: map<Pos, Node>, own: map<Pos, nat>, n: Pos)
    requires c.Valid()
    requires n in s.nodes && n in start
  {
    if Active(c, n) && Balanced(c, n) then
      BalancedOk(c, s, start, own, n)
    else
      && s.nodes[n].state == start[n].state
      && (n in own && n.height > 0 ==> LeftChild(n) in own && own[n] == own[LeftChild(n)])
  }

  ghost predicate NodesOk(c: Chunk, s: State, start: map<Pos, Node>, own: map<Pos, nat>)
    requires c.Valid()
  {
    forall n :: InTree(c.depth, n) ==> n in s.nodes && n in start && NodeOk(c, s, start, own, n)
  }

  ghost predicate ThreadsOk(c: Chunk, s: State, own: map<Pos, nat>)
    requires c.Valid()
  {
    |s.threads| == |c.segs| && forall j :: 0 <= j <= c.Cur() ==> ThreadOk(c, s, own, j)
  }

  ghost predicate Inv(c: Chunk, s: State, start: map<Pos, Node>, own: map<Pos, nat>) {
    && c.Valid()
    && Clean(c.depth, start)
    && ThreadsOk(c, s, own)
    && CallerOk(c, s)
    && FlagsOk(c, s)
    && OwnOk(c, s, own)
    && NodesOk(c, s, start, own)
  }

  lemma InvWellFormed(c: Chunk, s: State, start: map<Pos, Node>, own: map<Pos, nat>)
    requires Inv(c, s, start, own)
    ensures WellFormed(c, s)
  {
    forall j | 0 <= j < |s.threads| ensures ThreadWellFormed(c, s.threads[j], j) {
      assert ThreadOk(c, s, own, j);
      SmallerInTree(c.depth, j, c.Cur(), 0);
      if Height(s.threads[j]) <= c.depth {
        SmallerInTree(c.depth, j, c.Cur(), Height(s.threads[j]));
      }
    }
    if s.caller.Finalising? || s.caller.Releasing? {
      UpInTree(c.depth, c.Cur(), s.caller.n.height);
    }
  }

  lemma InvStart(c: Chunk, s: State)
    requires Start(c, s)
    ensures Inv(c, s, s.nodes, map[])
  {
    forall n | InTree(c.depth, n) ensures n in s.nodes && NodeOk(c, s, s.nodes, map[], n) {
    }
  }

  // ---------------------------------------------------------------- caller steps

  lemma CallerStepKeepsInv(c: Chunk, s: State, start: map<Pos, Node>, own: map<Pos, nat>)
    requires Inv(c, s, start, own) && WellFormed(c, s) && Enabled(c, s, CallerMoves)
    ensures Inv(c, CallerStep(c, s), start, own)
  {
    match s.caller
    case Pushing(j) =>
      if j < c.Cur() {
        SpawnKeepsInv(c, s, start, own, j, c.depth, Pushing(j + 1));
      } else {
        StartFinaliseKeepsInv(c, s, start, own);
      }
    case Finalising(_, _, _) => FinaliseKeepsInv(c, s, start, own);
    case Launching(d) => SpawnKeepsInv(c, s, start, own, c.Cur(), d, Waiting);
    case Releasing(_, _) => ReleaseKeepsInv(c, s, start, own);
  }

  /** Nothing that the condition on node n speaks of has changed. */
  ghost predicate SameAt(c: Chunk, s: State, s': State, own: map<Pos, nat>, n: Pos)
    requires |c.segs| > 0 && n in s.nodes && n in s'.nodes
  {
    && s'.nodes[n].state == s.nodes[n].state
    && (Balanced(c, n) ==>
          && SameChild(s, s', own, LeftChild(n), n) && SameChild(s, s', own, RightChild(n), n)
          && (Delivered(s, own, LeftChild(n), n.height) ==> s'.nodes[n].left == s.nodes[n].left)
          && (Delivered(s, own, RightChild(n), n.height) ==> s'.nodes[n].right == s.nodes[n].right))
  }

  ghost predicate SameChild(s: State, s': State, own: map<Pos, nat>, l: Pos, n: Pos) {
    && (Delivered(s', own, l, n.height) <==> Delivered(s, own, l, n.height))
    && (Stopped(s', own, l, n) <==> Stopped(s, own, l, n))
  }

  lemma NodeFrame(c: Chunk, s: State, s': State, start: map<Pos, Node>, own: map<Pos, nat>, n: Pos)
    requires c.Valid() && n in s.nodes && n in s'.nodes && n in start
    requires NodeOk(c, s, start, own, n) && SameAt(c, s, s', own, n)
    ensures NodeOk(c, s', start, own, n)
  {
  }

  /** Node contents and the carriers of emitted values stay the same. */
  lemma NodesFrame(c: Chunk, s: State, s': State, start: map<Pos, Node>, own: map<Pos, nat>)
    requires c.Valid() && NodesOk(c, s, start, own) && |s'.threads| == |s.threads|
    requires forall n :: InTree(c.depth, n) ==>
               KeepsSlot(s, s', n, true) && KeepsSlot(s, s', n, false) && s'.nodes[n].state == s.nodes[n].state
    requires forall m :: m in own && own[m] < |s.threads| ==> s'.threads[own[m]] == s.threads[own[m]]
    ensures NodesOk(c, s', start, own)
  {
    forall n | InTree(c.depth, n) ensures n in s'.nodes && n in start && NodeOk(c, s', start, own, n) {
      assert NodeOk(c, s, start, own, n);
      NodeFrame(c, s, s', start, own, n);
    }
  }

  predicate KeepsSlot(s: State, s': State, n: Pos, isLeft: bool) {
    && n in s.nodes && n in s'.nodes
    && (if isLeft then s'.nodes[n].left == s.nodes[n].left else s'.nodes[n].right == s.nodes[n].right)
  }

  lemma OwnFrame(c: Chunk, s: State, s': State, own: map<Pos, nat>)
    requires c.Valid() && |s.threads| == |s'.threads| == |c.segs|
    requires OwnOk(c, s, own) && (Launched(s) ==> Launched(s'))
    requires forall j :: 0 <= j <= c.Cur() ==> Height(s'.threads[j]) == Height(s.threads[j])
    ensures OwnOk(c, s', own)
  {
    forall n | n in own ensures EntryOk(c, s', own, n) {
      assert EntryOk(c, s, own, n);
    }
    forall j | 0 <= j <= c.Cur() ensures TrailOk(c, s'.threads[j], own, j) {
      assert TrailOk(c, s.threads[j], own, j);
    }
  }

  /** A thread that does not move stays in order when the node it works on keeps what it stored. */
  lemma ThreadFrame(c: Chunk, s: State, s': State, own: map<Pos, nat>, j: nat)
    requires c.Valid() && |s.threads| == |s'.threads| == |c.segs| && j <= c.Cur()
    requires ThreadOk(c, s, own, j) && s'.threads[j] == s.threads[j]
    requires Spawned(c, s', j) <==> Spawned(c, s, j)
    requires s.caller.Releasing? || s.caller.Returned? <==> s'.caller.Releasing? || s'.caller.Returned?
    requires s.threads[j].Toggling? ==> KeepsSlot(s, s', s.threads[j].n, s.threads[j].isLeft)
    requires s.threads[j].Combining? && !Balanced(c, s.threads[j].n) ==> KeepsSlot(s, s', s.threads[j].n, true)
    ensures ThreadOk(c, s', own, j)
  {
  }

  /** The caller spawns goroutine j. */
  lemma SpawnKeepsInv(c: Chunk, s: State, start: map<Pos, Node>, own: map<Pos, nat>, j: nat, d: nat, next: Caller)
    requires Inv(c, s, start, own) && j <= c.Cur()
    requires (s.caller == Pushing(j) && j < c.Cur() && next == Pushing(j + 1) && d == c.depth)
          || (s.caller == Launching(d) && j == c.Cur() && next == Waiting)
    ensures Inv(c, s.(threads := s.threads[j := Spawn(c, j, d)], caller := next), start, own)
  {
    SpawnThreads(c, s, own, j, d, next);
    SpawnOwn(c, s, own, j, d, next);
    SpawnNodes(c, s, start, own, j, d, next);
    SpawnFlags(c, s, j, d, next);
  }

  lemma SpawnFlags(c: Chunk, s: State, j: nat, d: nat, next: Caller)
    requires c.Valid() && CallerOk(c, s) && FlagsOk(c, s) && j <= c.Cur() && |s.threads| == |c.segs|
    requires (s.caller == Pushing(j) && j < c.Cur() && next == Pushing(j + 1))
          || (s.caller == Launching(d) && next == Waiting)
    ensures CallerOk(c, s.(threads := s.threads[j := Spawn(c, j, d)], caller := next))
    ensures FlagsOk(c, s.(threads := s.threads[j := Spawn(c, j, d)], caller := next))
  {
  }

  lemma SpawnOwn(c: Chunk, s: State, own: map<Pos, nat>, j: nat, d: nat, next: Caller)
    requires c.Valid() && OwnOk(c, s, own) && ThreadsOk(c, s, own) && j <= c.Cur()
    requires !Spawned(c, s, j) && !Launched(s)
    ensures OwnOk(c, s.(threads := s.threads[j := Spawn(c, j, d)], caller := next), own)
  {
    assert ThreadOk(c, s, own, j);
    OwnFrame(c, s, s.(threads := s.threads[j := Spawn(c, j, d)], caller := next), own);
  }

  lemma SpawnNodes(c: Chunk, s: State, start: map<Pos, Node>, own: map<Pos, nat>, j: nat, d: nat, next: Caller)
    requires c.Valid() && OwnOk(c, s, own) && ThreadsOk(c, s, own) && NodesOk(c, s, start, own) && j <= c.Cur()
    requires !Spawned(c, s, j)
    ensures NodesOk(c, s.(threads := s.threads[j := Spawn(c, j, d)], caller := next), start, own)
  {
    assert ThreadOk(c, s, own, j);
    forall m | m in own ensures own[m] != j {
      assert EntryOk(c, s, own, m);
    }
    NodesFrame(c, s, s.(threads := s.threads[j := Spawn(c, j, d)], caller := next), start, own);
  }

  lemma SpawnThreads(c: Chunk, s: State, own: map<Pos, nat>, j: nat, d: nat, next: Caller)
    requires c.Valid() && ThreadsOk(c, s, own) && OwnOk(c, s, own) && CallerOk(c, s) && j <= c.Cur()
    requires (s.caller == Pushing(j) && j < c.Cur() && next == Pushing(j + 1) && d == c.depth)
          || (s.caller == Launching(d) && j == c.Cur() && next == Waiting)
    ensures ThreadsOk(c, s.(threads := s.threads[j := Spawn(c, j, d)], caller := next), own)
  {
    var s' := s.(threads := s.threads[j := Spawn(c, j, d)], caller := next);
    assert ThreadOk(c, s, own, j);
    assert Pos(0, j) in own ==> EntryOk(c, s, own, Pos(0, j));
    forall m | 0 <= m <= c.Cur() ensures ThreadOk(c, s', own, m) {
      if m == j { SpawnedThreadOk(c, s', own, j, d); } else { ThreadFrame(c, s, s', own, m); }
    }
  }

  lemma SpawnedThreadOk(c: Chunk, s: State, own: map<Pos, nat>, j: nat, d: nat)
    requires c.Valid() && |s.threads| == |c.segs| && j <= c.Cur()
    requires Spawned(c, s, j) && s.threads[j] == Spawn(c, j, d) && Pos(0, j) !in own
    requires !s.caller.Releasing? && !s.caller.Returned?
    requires (j < c.Cur() && d == c.depth) || (j == c.Cur() && d == RootHeight(j) - FinalStart(c))
    ensures ThreadOk(c, s, own, j)
  {
  }

  lemma StartFinaliseKeepsInv(c: Chunk, s: State, start: map<Pos, Node>, own: map<Pos, nat>)
    requires Inv(c, s, start, own) && s.caller == Pushing(c.Cur())
    ensures Inv(c, s.(caller := StartFinalise(c)), start, own)
  {
    var s' := s.(caller := StartFinalise(c));
    StartFinaliseFlags(c, s);
    OwnFrame(c, s, s', own);
    NodesFrame(c, s, s', start, own);
    StartFinaliseThreads(c, s, own);
  }

  lemma StartFinaliseFlags(c: Chunk, s: State)
    requires c.Valid() && FlagsOk(c, s) && s.caller == Pushing(c.Cur())
    ensures CallerOk(c, s.(caller := StartFinalise(c))) && FlagsOk(c, s.(caller := StartFinalise(c)))
  {
    UpRoot(c.Cur(), 0);
    assert Up(c.Cur(), 1) == Up(c.Cur(), 0) / 2;
  }

  lemma StartFinaliseThreads(c: Chunk, s: State, own: map<Pos, nat>)
    requires c.Valid() && ThreadsOk(c, s, own) && s.caller == Pushing(c.Cur())
    ensures ThreadsOk(c, s.(caller := StartFinalise(c)), own)
  {
    forall m | 0 <= m <= c.Cur() ensures ThreadOk(c, s.(caller := StartFinalise(c)), own, m) {
      ThreadFrame(c, s, s.(caller := StartFinalise(c)), own, m);
    }
  }

  lemma FinaliseKeepsInv(c: Chunk, s: State, start: map<Pos, Node>, own: map<Pos, nat>)
    requires Inv(c, s, start, own) && WellFormed(c, s) && s.caller.Finalising?
    ensures Inv(c, CallerStep(c, s), start, own)
  {
    var s' := CallerStep(c, s);
    FinaliseFlags(c, s);
    OwnFrame(c, s, s', own);
    FinaliseThreads(c, s, own);
    FinaliseNodes(c, s, start, own);
  }

  lemma FinaliseNodes(c: Chunk, s: State, start: map<Pos, Node>, own: map<Pos, nat>)
    requires c.Valid() && WellFormed(c, s) && s.caller.Finalising? && OnPath(c, s.caller.n)
    requires OwnOk(c, s, own) && NodesOk(c, s, start, own)
    ensures NodesOk(c, CallerStep(c, s), start, own)
  {
    var s' := CallerStep(c, s);
    forall m | InTree(c.depth, m) ensures m in s'.nodes && m in start && NodeOk(c, s', start, own, m) {
      assert NodeOk(c, s, start, own, m);
      if m == s.caller.n && Balanced(c, m) {
        assert OnPath(c, RightChild(m));
      }
      NodeFrame(c, s, s', start, own, m);
    }
  }

  lemma FinaliseThreads(c: Chunk, s: State, own: map<Pos, nat>)
    requires c.Valid() && WellFormed(c, s) && s.caller.Finalising?
    requires ThreadsOk(c, s, own) && OwnOk(c, s, own) && OnPath(c, s.caller.n)
    ensures ThreadsOk(c, CallerStep(c, s), own)
  {
    var s' := CallerStep(c, s);
    forall m | 0 <= m <= c.Cur() ensures ThreadOk(c, s', own, m) {
      var t := s.threads[m];
      assert ThreadOk(c, s, own, m);
      if t.Toggling? && t.n == s.caller.n { FinaliseAvoids(c, s, own, m); }
      assert t.Toggling? ==> KeepsSlot(s, s', t.n, t.isLeft);
      assert t.Combining? ==> KeepsSlot(s, s', t.n, true);
      ThreadFrame(c, s, s', own, m);
    }
  }

  lemma FinaliseFlags(c: Chunk, s: State)
    requires c.Valid() && WellFormed(c, s) && s.caller.Finalising?
    requires CallerOk(c, s) && FlagsOk(c, s)
    ensures CallerOk(c, CallerStep(c, s)) && FlagsOk(c, CallerStep(c, s))
  {
    var n := s.caller.n;
    UpRoot(c.Cur(), n.height);
    assert Up(c.Cur(), n.height + 1) == Up(c.Cur(), n.height) / 2;
    forall m | InTree(c.depth, m) && Lopsided(c, m) ensures m.height == n.height ==> m == n {
    }
  }

  /** Before the last goroutine is launched nobody has anything in the right half of a path node. */
  lemma FinaliseAvoids(c: Chunk, s: State, own: map<Pos, nat>, m: nat)
    requires c.Valid() && ThreadsOk(c, s, own) && OwnOk(c, s, own) && m <= c.Cur() && !Launched(s)
    requires s.threads[m].Toggling? && OnPath(c, s.threads[m].n)
    ensures s.threads[m].isLeft
  {
    assert ThreadOk(c, s, own, m);
    var n := s.threads[m].n;
    if n.height > 0 {
      var l := Pos(n.height - 1, Up(m, n.height - 1));
      assert l in own;
      UpMonotone(m, c.Cur(), n.height - 1);
      assert !OnPath(c, l);
    }
  }

  lemma ReleaseKeepsInv(c: Chunk, s: State, start: map<Pos, Node>, own: map<Pos, nat>)
    requires Inv(c, s, start, own) && WellFormed(c, s) && s.caller.Releasing?
    ensures Inv(c, CallerStep(c, s), start, own)
  {
    ReleaseFlags(c, s);
    ReleaseThreads(c, s, own);
    ReleaseOwn(c, s, own);
    ReleaseNodes(c, s, start, own);
  }

  lemma ReleaseThreads(c: Chunk, s: State, own: map<Pos, nat>)
    requires c.Valid() && WellFormed(c, s) && s.caller.Releasing? && ThreadsOk(c, s, own)
    ensures ThreadsOk(c, CallerStep(c, s), own)
  {
    forall m | 0 <= m <= c.Cur() ensures ThreadOk(c, CallerStep(c, s), own, m) {
      assert ThreadOk(c, s, own, m);
      ThreadFrame(c, s, CallerStep(c, s), own, m);
    }
  }

  lemma ReleaseOwn(c: Chunk, s: State, own: map<Pos, nat>)
    requires c.Valid() && WellFormed(c, s) && s.caller.Releasing? && OwnOk(c, s, own)
    ensures OwnOk(c, CallerStep(c, s), own)
  {
    OwnFrame(c, s, CallerStep(c, s), own);
  }

  lemma ReleaseNodes(c: Chunk, s: State, start: map<Pos, Node>, own: map<Pos, nat>)
    requires c.Valid() && WellFormed(c, s) && s.caller.Releasing? && NodesOk(c, s, start, own)
    ensures NodesOk(c, CallerStep(c, s), start, own)
  {
    NodesFrame(c, s, CallerStep(c, s), start, own);
  }

  lemma ReleaseFlags(c: Chunk, s: State)
    requires c.Valid() && WellFormed(c, s) && s.caller.Releasing?
    requires CallerOk(c, s) && FlagsOk(c, s)
    ensures CallerOk(c, CallerStep(c, s)) && FlagsOk(c, CallerStep(c, s))
  {
    var n := s.caller.n;
    UpRoot(c.Cur(), n.height);
    assert Up(c.Cur(), n.height + 1) == Up(c.Cur(), n.height) / 2;
    forall m | InTree(c.depth, m) && Lopsided(c, m) ensures m.height == n.height ==> m == n {
    }
  }
}

/** Every goroutine step keeps the invariant, in whatever order the goroutines run. */
module BmtSteps {
  import opened BmtReference
  import opened BmtMachine
  import opened BmtInvariant

  /** The child of n through which goroutine j came. */
  function Via(j: nat, n: Pos): Pos
    requires n.height > 0
  {
    Pos(n.height - 1, Up(j, n.height - 1))
  }

  /** Goroutine t is between entering and leaving the node n. */
  predicate At(t: Thread, n: Pos) {
    (t.Storing? || t.Toggling? || t.Combining?) && t.n == n
  }

  /** A goroutine that is at a node carries the value of one child. */
  lemma AtNode(c: Chunk, s: State, own: map<Pos, nat>, j: nat, n: Pos)
    requires c.Valid() && |s.threads| == |c.segs| && j <= c.Cur()
    requires ThreadOk(c, s, own, j) && TrailOk(c, s.threads[j], own, j) && At(s.threads[j], n)
    ensures Active(c, n) && InTree(c.depth, n) && n.index == Up(j, n.height) && n !in own
    ensures n.height > 0 ==> Via(j, n) in own && own[Via(j, n)] == j
    ensures n.height > 0 && s.threads[j].isLeft ==> Via(j, n) == LeftChild(n)
    ensures n.height > 0 && !s.threads[j].isLeft ==> Via(j, n) == RightChild(n) && Balanced(c, n)
    ensures n.height == 0 ==> j == c.Cur() && s.threads[j].isLeft && FinalStart(c) == 0
    ensures !s.caller.Releasing? && !s.caller.Returned?
  {
    UpMonotone(j, c.Cur(), n.height);
    SmallerInTree(c.depth, j, c.Cur(), n.height);
    if n.height > 0 {
      UpMonotone(j, c.Cur(), n.height - 1);
    }
  }

  /** A node with data below it that is not balanced lies on the path of the last pair. */
  lemma UnbalancedOnPath(c: Chunk, n: Pos)
    requires c.Valid() && Active(c, n) && !Balanced(c, n)
    requires n.height == 0 ==> n.index == c.Cur() && FinalStart(c) == 0
    ensures OnPath(c, n) && Lopsided(c, n)
    ensures n.height > 0 ==> OnPath(c, LeftChild(n))
  {
    if n.height > 0 {
      assert Up(c.Cur(), n.height) == Up(c.Cur(), n.height - 1) / 2;
    }
  }

  /** At a node that is not balanced the last goroutine has been launched, so the marks are in place. */
  lemma MarkedThere(c: Chunk, s: State, own: map<Pos, nat>, j: nat, n: Pos)
    requires c.Valid() && OwnOk(c, s, own) && CallerOk(c, s) && FlagsOk(c, s)
    requires j <= c.Cur() && ThreadOk(c, s, own, j) && At(s.threads[j], n)
    ensures n in s.nodes
    ensures s.nodes[n].unbalanced <==> !Balanced(c, n)
    ensures !Balanced(c, n) ==> s.threads[j].isLeft && s.caller.Waiting? && s.nodes[n].right == []
  {
    AtNode(c, s, own, j, n);
    if !Balanced(c, n) {
      UnbalancedOnPath(c, n);
      if n.height > 0 { assert EntryOk(c, s, own, LeftChild(n)); }
      assert s.caller.Waiting?;
      assert Marked(s, n.height);
    }
  }

  /** A node emits only after its children. */
  lemma ChildOwned(c: Chunk, s: State, start: map<Pos, Node>, own: map<Pos, nat>, n: Pos)
    requires c.Valid() && n.Parent() in own && Active(c, n.Parent()) && Active(c, n)
    requires n.Parent() in s.nodes && n.Parent() in start && NodeOk(c, s, start, own, n.Parent())
    ensures n in own
  {
    assert n == LeftChild(n.Parent()) || n == RightChild(n.Parent());
  }

  lemma ParentNotOwned(c: Chunk, s: State, start: map<Pos, Node>, own: map<Pos, nat>, n: Pos)
    requires c.Valid() && NodesOk(c, s, start, own) && OwnOk(c, s, own)
    requires Active(c, n) && n !in own
    ensures n.Parent() !in own
  {
    var m := n.Parent();
    if m in own {
      assert EntryOk(c, s, own, m);
      SmallerInTree(c.depth, own[m], c.Cur(), m.height);
      ChildOwned(c, s, start, own, n);
      assert false;
    }
  }

  /** The thread conditions, from the condition on the thread that moves and frames for all others. */
  lemma OtherThreads(c: Chunk, s: State, s': State, own: map<Pos, nat>, own': map<Pos, nat>, j: nat)
    requires c.Valid() && ThreadsOk(c, s, own) && j <= c.Cur() && |s'.threads| == |s.threads|
    requires s'.caller == s.caller
    requires forall m :: 0 <= m <= c.Cur() && m != j ==> Undisturbed(c, s, s', own', m)
    requires ThreadOk(c, s', own', j)
    ensures ThreadsOk(c, s', own')
  {
    forall m | 0 <= m <= c.Cur() ensures ThreadOk(c, s', own', m) {
      if m != j {
        assert ThreadOk(c, s, own, m);
        assert Undisturbed(c, s, s', own', m);
      }
    }
  }

  ghost predicate Undisturbed(c: Chunk, s: State, s': State, own': map<Pos, nat>, m: nat)
    requires |c.segs| > 0
  {
    && m < |s.threads| == |s'.threads| && s'.threads[m] == s.threads[m]
    && (s.threads[m].Toggling? ==> KeepsSlot(s, s', s.threads[m].n, s.threads[m].isLeft))
    && (s.threads[m].Combining? && !Balanced(c, s.threads[m].n) ==> KeepsSlot(s, s', s.threads[m].n, true))
    && (s.threads[m].Storing? || s.threads[m].Toggling? || s.threads[m].Combining? ==> s.threads[m].n !in own')
  }

  // ---------------------------------------------------------------- storing

  lemma StoreKeepsInv(c: Chunk, s: State, start: map<Pos, Node>, own: map<Pos, nat>, j: nat)
    requires Inv(c, s, start, own) && WellFormed(c, s) && j <= c.Cur() && s.threads[j].Storing?
    ensures Inv(c, ThreadStep(c, s, j), start, own)
  {
    OwnFrame(c, s, ThreadStep(c, s, j), own);
    StoreThreads(c, s, own, j);
    StoreFlags(c, s, own, j);
    StoreNodes(c, s, start, own, j);
  }

  lemma StoreFlags(c: Chunk, s: State, own: map<Pos, nat>, j: nat)
    requires c.Valid() && WellFormed(c, s) && j <= c.Cur() && s.threads[j].Storing?
    requires CallerOk(c, s) && FlagsOk(c, s) && ThreadOk(c, s, own, j) && TrailOk(c, s.threads[j], own, j)
    ensures CallerOk(c, ThreadStep(c, s, j)) && FlagsOk(c, ThreadStep(c, s, j))
  {
    AtNode(c, s, own, j, s.threads[j].n);
  }

  lemma StoreThreads(c: Chunk, s: State, own: map<Pos, nat>, j: nat)
    requires c.Valid() && WellFormed(c, s) && j <= c.Cur() && s.threads[j].Storing?
    requires ThreadsOk(c, s, own) && OwnOk(c, s, own)
    ensures ThreadsOk(c, ThreadStep(c, s, j), own)
  {
    var s' := ThreadStep(c, s, j);
    StoredThread(c, s, own, j);
    forall m | 0 <= m <= c.Cur() && m != j ensures Undisturbed(c, s, s', own, m) {
      StoreDisturbsNobody(c, s, own, j, m);
    }
    OtherThreads(c, s, s', own, own, j);
  }

  lemma StoredThread(c: Chunk, s: State, own: map<Pos, nat>, j: nat)
    requires c.Valid() && WellFormed(c, s) && j <= c.Cur() && s.threads[j].Storing? && ThreadOk(c, s, own, j)
    ensures ThreadOk(c, ThreadStep(c, s, j), own, j)
  {
  }

  lemma StoreDisturbsNobody(c: Chunk, s: State, own: map<Pos, nat>, j: nat, m: nat)
    requires c.Valid() && WellFormed(c, s) && j <= c.Cur() && m <= c.Cur() && m != j && s.threads[j].Storing?
    requires ThreadOk(c, s, own, j) && TrailOk(c, s.threads[j], own, j)
    requires ThreadOk(c, s, own, m) && TrailOk(c, s.threads[m], own, m)
    ensures Undisturbed(c, s, ThreadStep(c, s, j), own, m)
  {
    var n := s.threads[j].n;
    if At(s.threads[m], n) {
      AtNode(c, s, own, j, n);
      AtNode(c, s, own, m, n);
    }
  }

  lemma StoreNodes(c: Chunk, s: State, start: map<Pos, Node>, own: map<Pos, nat>, j: nat)
    requires c.Valid() && WellFormed(c, s) && j <= c.Cur() && s.threads[j].Storing?
    requires ThreadsOk(c, s, own) && OwnOk(c, s, own) && NodesOk(c, s, start, own)
    ensures NodesOk(c, ThreadStep(c, s, j), start, own)
  {
    var s' := ThreadStep(c, s, j);
    assert ThreadOk(c, s, own, j) && TrailOk(c, s.threads[j], own, j);
    forall m | InTree(c.depth, m) ensures m in s'.nodes && m in start && NodeOk(c, s', start, own, m) {
      assert NodeOk(c, s, start, own, m);
      StoreSame(c, s, own, j, m);
      NodeFrame(c, s, s', start, own, m);
    }
  }

  lemma StoreSame(c: Chunk, s: State, own: map<Pos, nat>, j: nat, m: Pos)
    requires c.Valid() && WellFormed(c, s) && j <= c.Cur() && s.threads[j].Storing? && m in s.nodes
    requires ThreadOk(c, s, own, j) && TrailOk(c, s.threads[j], own, j)
    ensures SameAt(c, s, ThreadStep(c, s, j), own, m)
  {
    AtNode(c, s, own, j, s.threads[j].n);
  }

  // ---------------------------------------------------------------- toggling

  /** Exactly when two toggles of an even counter stop the first arrival and let the second pass:
      when the int32 counter is not negative, that is, before it has wrapped around. */
  lemma ToggleExactly(state: int)
    requires -INT32_LIMIT <= state < INT32_LIMIT && state % 2 == 0
    ensures state >= 0 <==> ToggleWaits(Increment(state)) && !ToggleWaits(Increment(Increment(state)))
    ensures state < 0 ==> !ToggleWaits(Increment(state))
    ensures Increment(Increment(INT32_LIMIT - 2)) < 0
  {
    if state < 0 {
      assert (-(state + 1)) % 2 == 1;
    }
  }

  lemma ToggleKeepsInv(c: Chunk, s: State, start: map<Pos, Node>, own: map<Pos, nat>, j: nat)
    requires Inv(c, s, start, own) && WellFormed(c, s) && j <= c.Cur() && s.threads[j].Toggling?
    ensures Inv(c, ThreadStep(c, s, j), start, own)
  {
    OwnFrame(c, s, ThreadStep(c, s, j), own);
    ToggleThreads(c, s, own, j);
    ToggleFlags(c, s, j);
    ToggleNodes(c, s, start, own, j);
  }

  lemma ToggleFlags(c: Chunk, s: State, j: nat)
    requires c.Valid() && WellFormed(c, s) && j <= c.Cur() && s.threads[j].Toggling?
    requires CallerOk(c, s) && FlagsOk(c, s)
    ensures CallerOk(c, ThreadStep(c, s, j)) && FlagsOk(c, ThreadStep(c, s, j))
  {
  }

  lemma ToggleThreads(c: Chunk, s: State, own: map<Pos, nat>, j: nat)
    requires c.Valid() && WellFormed(c, s) && j <= c.Cur() && s.threads[j].Toggling?
    requires ThreadsOk(c, s, own) && OwnOk(c, s, own) && CallerOk(c, s) && FlagsOk(c, s)
    ensures ThreadsOk(c, ThreadStep(c, s, j), own)
  {
    var s' := ThreadStep(c, s, j);
    assert ThreadOk(c, s, own, j);
    MarkedThere(c, s, own, j, s.threads[j].n);
    ToggledThread(c, s, own, j);
    forall m | 0 <= m <= c.Cur() && m != j ensures Undisturbed(c, s, s', own, m) {
      ToggleDisturbsNobody(c, s, own, j, m);
    }
    OtherThreads(c, s, s', own, own, j);
  }

  lemma ToggledThread(c: Chunk, s: State, own: map<Pos, nat>, j: nat)
    requires c.Valid() && WellFormed(c, s) && j <= c.Cur() && s.threads[j].Toggling?
    requires ThreadOk(c, s, own, j)
    requires s.nodes[s.threads[j].n].unbalanced <==> !Balanced(c, s.threads[j].n)
    requires !Balanced(c, s.threads[j].n) ==> s.threads[j].isLeft
    requires s.threads[j].n.height == 0 ==> !Balanced(c, s.threads[j].n)
    ensures ThreadOk(c, ThreadStep(c, s, j), own, j)
  {
  }

  lemma ToggleDisturbsNobody(c: Chunk, s: State, own: map<Pos, nat>, j: nat, m: nat)
    requires c.Valid() && WellFormed(c, s) && j <= c.Cur() && m <= c.Cur() && m != j && s.threads[j].Toggling?
    requires ThreadOk(c, s, own, m)
    ensures Undisturbed(c, s, ThreadStep(c, s, j), own, m)
  {
  }

  lemma ToggleNodes(c: Chunk, s: State, start: map<Pos, Node>, own: map<Pos, nat>, j: nat)
    requires c.Valid() && WellFormed(c, s) && j <= c.Cur() && s.threads[j].Toggling? && Clean(c.depth, start)
    requires ThreadsOk(c, s, own) && OwnOk(c, s, own) && CallerOk(c, s) && FlagsOk(c, s) && NodesOk(c, s, start, own)
    ensures NodesOk(c, ThreadStep(c, s, j), start, own)
  {
    var s' := ThreadStep(c, s, j);
    var n := s.threads[j].n;
    assert ThreadOk(c, s, own, j) && TrailOk(c, s.threads[j], own, j);
    MarkedThere(c, s, own, j, n);
    forall m | InTree(c.depth, m) ensures m in s'.nodes && m in start && NodeOk(c, s', start, own, m) {
      assert NodeOk(c, s, start, own, m);
      if m == n && Balanced(c, n) {
        ToggleNode(c, s, start, own, j);
      } else {
        ToggleSame(c, s, own, j, m);
        NodeFrame(c, s, s', start, own, m);
      }
    }
  }

  /** A toggle changes nothing that concerns another node, nor a lopsided one. */
  lemma ToggleSame(c: Chunk, s: State, own: map<Pos, nat>, j: nat, m: Pos)
    requires c.Valid() && WellFormed(c, s) && j <= c.Cur() && s.threads[j].Toggling? && m in s.nodes
    requires OwnOk(c, s, own) && ThreadOk(c, s, own, j)
    requires m == s.threads[j].n ==> s.nodes[m].unbalanced && !Balanced(c, m)
    ensures SameAt(c, s, ThreadStep(c, s, j), own, m)
  {
    if m.height > 0 && m != s.threads[j].n {
      ToggleSameChild(c, s, own, j, m, LeftChild(m));
      ToggleSameChild(c, s, own, j, m, RightChild(m));
    }
  }

  lemma ToggleSameChild(c: Chunk, s: State, own: map<Pos, nat>, j: nat, m: Pos, l: Pos)
    requires c.Valid() && WellFormed(c, s) && j <= c.Cur() && s.threads[j].Toggling? && m in s.nodes
    requires m.height > 0 && l.Parent() == m && m != s.threads[j].n
    requires l in own ==> EntryOk(c, s, own, l)
    requires ThreadOk(c, s, own, j)
    ensures SameChild(s, ThreadStep(c, s, j), own, l, m)
  {
  }

  /** The other half of the toggled node is not affected. */
  lemma ToggleSides(c: Chunk, s: State, own: map<Pos, nat>, j: nat, n: Pos, via: Pos, other: Pos)
    requires c.Valid() && WellFormed(c, s) && j <= c.Cur() && s.threads[j].Toggling? && n == s.threads[j].n
    requires n.height > 0 && via == Via(j, n) && via in own && own[via] == j
    requires other.height == via.height && other.index != via.index
    requires other in own ==> EntryOk(c, s, own, other)
    requires !s.nodes[n].unbalanced
    ensures !Delivered(s, own, via, n.height) && Delivered(ThreadStep(c, s, j), own, via, n.height)
    ensures Stopped(ThreadStep(c, s, j), own, via, n) <==> ToggleWaits(Increment(s.nodes[n].state))
    ensures SameChild(s, ThreadStep(c, s, j), own, other, n)
  {
  }

  lemma ToggleNode(c: Chunk, s: State, start: map<Pos, Node>, own: map<Pos, nat>, j: nat)
    requires c.Valid() && WellFormed(c, s) && j <= c.Cur() && s.threads[j].Toggling? && Clean(c.depth, start)
    requires ThreadOk(c, s, own, j) && TrailOk(c, s.threads[j], own, j)
    requires s.threads[j].n in start && NodeOk(c, s, start, own, s.threads[j].n)
    requires Balanced(c, s.threads[j].n) && !s.nodes[s.threads[j].n].unbalanced
    requires LeftChild(s.threads[j].n) in own ==> EntryOk(c, s, own, LeftChild(s.threads[j].n))
    requires RightChild(s.threads[j].n) in own ==> EntryOk(c, s, own, RightChild(s.threads[j].n))
    ensures NodeOk(c, ThreadStep(c, s, j), start, own, s.threads[j].n)
  {
    var n := s.threads[j].n;
    AtNode(c, s, own, j, n);
    ToggleExactly(start[n].state);
    if s.threads[j].isLeft {
      ToggleSides(c, s, own, j, n, LeftChild(n), RightChild(n));
    } else {
      ToggleSides(c, s, own, j, n, RightChild(n), LeftChild(n));
    }
  }

  // ---------------------------------------------------------------- moving up

  /** A goroutine combines a balanced node only when both halves have been delivered, and alone. */
  lemma BothDelivered(c: Chunk, s: State, start: map<Pos, Node>, own: map<Pos, nat>, j: nat)
    requires c.Valid() && j <= c.Cur() && |s.threads| == |c.segs| && s.threads[j].Combining?
    requires ThreadOk(c, s, own, j) && TrailOk(c, s.threads[j], own, j)
    requires s.threads[j].n in s.nodes && s.threads[j].n in start && NodeOk(c, s, start, own, s.threads[j].n)
    requires Balanced(c, s.threads[j].n)
    ensures var n := s.threads[j].n;
            Delivered(s, own, LeftChild(n), n.height) && Delivered(s, own, RightChild(n), n.height)
  {
    AtNode(c, s, own, j, s.threads[j].n);
  }

  lemma CombinesAlone(c: Chunk, s: State, start: map<Pos, Node>, own: map<Pos, nat>, j: nat, m: nat)
    requires c.Valid() && j <= c.Cur() && m <= c.Cur() && |s.threads| == |c.segs| && s.threads[j].Combining?
    requires ThreadOk(c, s, own, j) && TrailOk(c, s.threads[j], own, j)
    requires ThreadOk(c, s, own, m) && TrailOk(c, s.threads[m], own, m)
    requires s.threads[j].n in s.nodes && s.threads[j].n in start && NodeOk(c, s, start, own, s.threads[j].n)
    requires At(s.threads[m], s.threads[j].n)
    ensures m == j
  {
    AtNode(c, s, own, j, s.threads[j].n);
    AtNode(c, s, own, m, s.threads[j].n);
    if Balanced(c, s.threads[j].n) { BothDelivered(c, s, start, own, j); }
  }

  /** What goroutine j emits from node n is the value of n. */
  lemma {:induction false} Emitted(c: Chunk, s: State, start: map<Pos, Node>, own: map<Pos, nat>, j: nat)
    requires c.Valid() && j <= c.Cur() && OwnOk(c, s, own) && s.threads[j].Combining?
    requires ThreadOk(c, s, own, j) && CallerOk(c, s) && FlagsOk(c, s)
    requires s.threads[j].n in s.nodes && s.threads[j].n in start && NodeOk(c, s, start, own, s.threads[j].n)
    ensures IsValue(c, s.threads[j].n,
              CombineNode(c, s.nodes[s.threads[j].n], s.threads[j].isLeft, s.threads[j].i, s.threads[j].d))
  {
    MarkedThere(c, s, own, j, s.threads[j].n);
    if Balanced(c, s.threads[j].n) {
      EmittedBalanced(c, s, start, own, j);
    } else {
      EmittedLopsided(c, s, own, j);
    }
  }

  predicate IsValue(c: Chunk, n: Pos, v: Bytes)
    requires c.Valid()
  {
    if c.Cur() == 0 then v == Result(c) else n.index <= Up(c.Cur(), n.height) && v == Val(c, n.height, n.index)
  }

  lemma EmittedBalanced(c: Chunk, s: State, start: map<Pos, Node>, own: map<Pos, nat>, j: nat)
    requires c.Valid() && j <= c.Cur() && |s.threads| == |c.segs| && s.threads[j].Combining?
    requires ThreadOk(c, s, own, j) && TrailOk(c, s.threads[j], own, j)
    requires s.threads[j].n in s.nodes && s.threads[j].n in start && NodeOk(c, s, start, own, s.threads[j].n)
    requires Balanced(c, s.threads[j].n) && !s.nodes[s.threads[j].n].unbalanced
    ensures IsValue(c, s.threads[j].n,
              CombineNode(c, s.nodes[s.threads[j].n], s.threads[j].isLeft, s.threads[j].i, s.threads[j].d))
  {
    var n := s.threads[j].n;
    AtNode(c, s, own, j, n);
    BothDelivered(c, s, start, own, j);
    UpRoot(c.Cur(), n.height - 1);
  }

  lemma EmittedLopsided(c: Chunk, s: State, own: map<Pos, nat>, j: nat)
    requires c.Valid() && j <= c.Cur() && |s.threads| == |c.segs| && s.threads[j].Combining?
    requires ThreadOk(c, s, own, j) && TrailOk(c, s.threads[j], own, j) && s.threads[j].n in s.nodes
    requires !Balanced(c, s.threads[j].n) && s.threads[j].isLeft
    requires s.nodes[s.threads[j].n].unbalanced && s.nodes[s.threads[j].n].right == []
    ensures IsValue(c, s.threads[j].n,
              CombineNode(c, s.nodes[s.threads[j].n], s.threads[j].isLeft, s.threads[j].i, s.threads[j].d))
  {
    var n := s.threads[j].n;
    AtNode(c, s, own, j, n);
    assert s.nodes[n].left + s.nodes[n].right == s.nodes[n].left;
    UpRoot(c.Cur(), 0);
  }

  lemma CombineKeepsInv(c: Chunk, s: State, start: map<Pos, Node>, own: map<Pos, nat>, j: nat)
    requires Inv(c, s, start, own) && WellFormed(c, s) && j <= c.Cur() && s.threads[j].Combining?
    ensures Inv(c, ThreadStep(c, s, j), start, own[s.threads[j].n := j])
  {
    assert NodeOk(c, s, start, own, s.threads[j].n);
    CombineOwn(c, s, start, own, j);
    CombineThreads(c, s, start, own, j);
    CombineNodes(c, s, start, own, j);
    CombineFlags(c, s, j);
  }

  lemma CombineFlags(c: Chunk, s: State, j: nat)
    requires c.Valid() && WellFormed(c, s) && j <= c.Cur() && (s.threads[j].Combining? || s.threads[j].Hashing?)
    requires CallerOk(c, s) && FlagsOk(c, s)
    ensures CallerOk(c, ThreadStep(c, s, j)) && FlagsOk(c, ThreadStep(c, s, j))
  {
  }

  lemma AtRoot(c: Chunk, s: State, start: map<Pos, Node>, own: map<Pos, nat>, j: nat)
    requires c.Valid() && j <= c.Cur() && OwnOk(c, s, own) && s.threads[j].Combining?
    requires ThreadOk(c, s, own, j) && CallerOk(c, s) && FlagsOk(c, s)
    requires s.threads[j].n in s.nodes && s.threads[j].n in start && NodeOk(c, s, start, own, s.threads[j].n)
    ensures var n := s.threads[j].n;
            && (s.nodes[n].root <==> n == Root(c))
            && (n != Root(c) ==> n.height < RootHeight(c.Cur()))
            && (OnPath(c, n) ==> Launched(s))
  {
    var n := s.threads[j].n;
    AtNode(c, s, own, j, n);
    UpRoot(c.Cur(), n.height);
    assert n == Root(c) ==> OnPath(c, n);
    if OnPath(c, n) {
      if Balanced(c, n) {
        BothDelivered(c, s, start, own, j);
        RightOnPath(c, n);
        assert EntryOk(c, s, own, RightChild(n));
      } else {
        MarkedThere(c, s, own, j, n);
      }
    }
  }

  lemma RightOnPath(c: Chunk, n: Pos)
    requires c.Valid() && Balanced(c, n) && OnPath(c, n)
    ensures OnPath(c, RightChild(n))
  {
    assert Up(c.Cur(), n.height) == Up(c.Cur(), n.height - 1) / 2;
  }

  /** Goroutine j moves up out of node n. */
  lemma MoveUpOwn(c: Chunk, s: State, s': State, own: map<Pos, nat>, j: nat, n: Pos, t: Thread)
    requires c.Valid() && OwnOk(c, s, own) && j <= c.Cur()
    requires s'.threads == s.threads[j := t] && Height(t) == n.height + 1 && s'.caller == s.caller
    requires Height(s.threads[j]) == n.height && n !in own && Active(c, n) && n.index == Up(j, n.height)
    requires OnPath(c, n) ==> Launched(s)
    ensures OwnOk(c, s', own[n := j])
  {
    var own' := own[n := j];
    forall m | m in own' ensures EntryOk(c, s', own', m) {
      if m != n { assert EntryOk(c, s, own, m); }
    }
    forall m | 0 <= m <= c.Cur() ensures TrailOk(c, s'.threads[m], own', m) {
      assert TrailOk(c, s.threads[m], own, m);
    }
  }

  lemma CombineOwn(c: Chunk, s: State, start: map<Pos, Node>, own: map<Pos, nat>, j: nat)
    requires c.Valid() && WellFormed(c, s) && j <= c.Cur() && s.threads[j].Combining?
    requires ThreadOk(c, s, own, j) && OwnOk(c, s, own) && CallerOk(c, s) && FlagsOk(c, s)
    requires s.threads[j].n in start && NodeOk(c, s, start, own, s.threads[j].n)
    ensures OwnOk(c, ThreadStep(c, s, j), own[s.threads[j].n := j])
  {
    AtNode(c, s, own, j, s.threads[j].n);
    AtRoot(c, s, start, own, j);
    CombineHeight(c, s, j);
    MoveUpOwn(c, s, ThreadStep(c, s, j), own, j, s.threads[j].n, ThreadStep(c, s, j).threads[j]);
  }

  lemma CombineHeight(c: Chunk, s: State, j: nat)
    requires WellFormed(c, s) && j <= c.Cur() && s.threads[j].Combining?
    ensures var s' := ThreadStep(c, s, j);
            && s'.caller == s.caller && s'.threads == s.threads[j := s'.threads[j]]
            && Height(s'.threads[j]) == s.threads[j].n.height + 1
  {
  }

  lemma CombineThreads(c: Chunk, s: State, start: map<Pos, Node>, own: map<Pos, nat>, j: nat)
    requires c.Valid() && WellFormed(c, s) && j <= c.Cur() && s.threads[j].Combining?
    requires ThreadsOk(c, s, own) && OwnOk(c, s, own) && CallerOk(c, s) && FlagsOk(c, s) && NodesOk(c, s, start, own)
    ensures ThreadsOk(c, ThreadStep(c, s, j), own[s.threads[j].n := j])
  {
    var s' := ThreadStep(c, s, j);
    var n := s.threads[j].n;
    assert ThreadOk(c, s, own, j);
    assert NodeOk(c, s, start, own, n);
    var own' := own[n := j];
    CombinedThread(c, s, start, own, j);
    forall m | 0 <= m <= c.Cur() && m != j ensures Undisturbed(c, s, s', own', m) {
      assert ThreadOk(c, s, own, m);
      if At(s.threads[m], n) { CombinesAlone(c, s, start, own, j, m); }
    }
    OtherThreads(c, s, s', own, own', j);
  }

  lemma CombinedThread(c: Chunk, s: State, start: map<Pos, Node>, own: map<Pos, nat>, j: nat)
    requires c.Valid() && WellFormed(c, s) && j <= c.Cur() && s.threads[j].Combining?
    requires ThreadOk(c, s, own, j) && OwnOk(c, s, own) && CallerOk(c, s) && FlagsOk(c, s) && NodesOk(c, s, start, own)
    ensures ThreadOk(c, ThreadStep(c, s, j), own[s.threads[j].n := j], j)
  {
    var n := s.threads[j].n;
    AtNode(c, s, own, j, n);
    AtRoot(c, s, start, own, j);
    Emitted(c, s, start, own, j);
    ParentNotOwned(c, s, start, own, n);
    UpRoot(c.Cur(), 0);
    RisenThread(c, s, own, ThreadStep(c, s, j), own[n := j], j, n,
      CombineNode(c, s.nodes[n], s.threads[j].isLeft, s.threads[j].i, s.threads[j].d));
  }

  /** The thread condition after moving up out of n with value v. */
  lemma RisenThread(c: Chunk, s: State, own: map<Pos, nat>, s': State, own': map<Pos, nat>, j: nat, n: Pos, v: Bytes)
    requires c.Valid() && |s.threads| == |c.segs| == |s'.threads| && j <= c.Cur()
    requires s'.caller == s.caller && Spawned(c, s, j) && !s.caller.Releasing? && !s.caller.Returned?
    requires n.height <= RootHeight(c.Cur()) && n.index == Up(j, n.height) <= Up(c.Cur(), n.height)
    requires n != Root(c) ==> n.height < RootHeight(c.Cur()) && v == Val(c, n.height, n.index)
    requires n == Root(c) ==> v == Result(c)
    requires var t := s'.threads[j];
      if n == Root(c) then t == Sending(n, v)
      else t.Storing? && t.n == n.Parent() && t.isLeft == n.IsLeft() && t.s == v && (t.i > 0 || t.d > 0)
    requires n.Parent() !in own'
    ensures ThreadOk(c, s', own', j)
  {
    if n != Root(c) { UpRoot(c.Cur(), 0); }
  }

  lemma CombineNodes(c: Chunk, s: State, start: map<Pos, Node>, own: map<Pos, nat>, j: nat)
    requires c.Valid() && WellFormed(c, s) && j <= c.Cur() && s.threads[j].Combining?
    requires ThreadOk(c, s, own, j) && OwnOk(c, s, own) && NodesOk(c, s, start, own)
    ensures NodesOk(c, ThreadStep(c, s, j), start, own[s.threads[j].n := j])
  {
    var s' := ThreadStep(c, s, j);
    var n := s.threads[j].n;
    AtNode(c, s, own, j, n);
    assert NodeOk(c, s, start, own, n);
    if Balanced(c, n) { BothDelivered(c, s, start, own, j); }
    MoveUpNodes(c, s, s', start, own, j, n, s'.threads[j]);
  }

  lemma MoveUpNodes(c: Chunk, s: State, s': State, start: map<Pos, Node>, own: map<Pos, nat>, j: nat, n: Pos, t: Thread)
    requires c.Valid() && j <= c.Cur() && OwnOk(c, s, own) && NodesOk(c, s, start, own)
    requires n !in own && Active(c, n) && n.index == Up(j, n.height) && Height(s.threads[j]) == n.height
    requires !s.threads[j].Done?
    requires s'.nodes == s.nodes && s'.threads == s.threads[j := t] && Height(t) == n.height + 1
    requires t.Storing? || t.Sending?
    requires Balanced(c, n) ==> Delivered(s, own, LeftChild(n), n.height) && Delivered(s, own, RightChild(n), n.height)
    requires !Balanced(c, n) && n.height > 0 ==> LeftChild(n) in own && own[LeftChild(n)] == j
    ensures NodesOk(c, s', start, own[n := j])
  {
    forall m | InTree(c.depth, m) ensures m in s'.nodes && m in start && NodeOk(c, s', start, own[n := j], m) {
      assert NodeOk(c, s, start, own, m);
      if m.height > 0 {
        assert LeftChild(m) in own ==> EntryOk(c, s, own, LeftChild(m));
        assert RightChild(m) in own ==> EntryOk(c, s, own, RightChild(m));
      }
      MoveUpPast(c, s, s', start, own, j, n, t, m);
    }
  }

  lemma MoveUpPast(c: Chunk, s: State, s': State, start: map<Pos, Node>, own: map<Pos, nat>, j: nat, n: Pos,
                   t: Thread, m: Pos)
    requires c.Valid() && j <= c.Cur() && |s.threads| == |c.segs|
    requires m in s.nodes && m in start && NodeOk(c, s, start, own, m)
    requires m.height > 0 && LeftChild(m) in own ==> EntryOk(c, s, own, LeftChild(m))
    requires m.height > 0 && RightChild(m) in own ==> EntryOk(c, s, own, RightChild(m))
    requires n !in own && Active(c, n) && n.index == Up(j, n.height) && Height(s.threads[j]) == n.height
    requires !s.threads[j].Done?
    requires s'.nodes == s.nodes && s'.threads == s.threads[j := t] && Height(t) == n.height + 1
    requires t.Storing? || t.Sending?
    requires Balanced(c, n) ==> Delivered(s, own, LeftChild(n), n.height) && Delivered(s, own, RightChild(n), n.height)
    requires !Balanced(c, n) && n.height > 0 ==> LeftChild(n) in own && own[LeftChild(n)] == j
    ensures NodeOk(c, s', start, own[n := j], m)
  {
    if m.height > 0 {
      MoveUpChild(c, s, s', own, j, n, t, m, LeftChild(m));
      MoveUpChild(c, s, s', own, j, n, t, m, RightChild(m));
    }
    MoveUpNode(c, s, s', start, own, j, n, m);
  }

  /** Moving up is not a delivery, and undoes none. */
  lemma MoveUpChild(c: Chunk, s: State, s': State, own: map<Pos, nat>, j: nat, n: Pos, t: Thread, m: Pos, l: Pos)
    requires c.Valid() && j <= c.Cur() && |s.threads| == |c.segs| && l.Parent() == m && n.index == Up(j, n.height)
    requires l in own ==> EntryOk(c, s, own, l)
    requires n !in own && Height(s.threads[j]) == n.height && !s.threads[j].Done?
    requires s'.threads == s.threads[j := t] && Height(t) == n.height + 1 && (t.Storing? || t.Sending?)
    requires m == n && Balanced(c, n) ==> Delivered(s, own, l, n.height)
    requires m == n && !Balanced(c, n) && l == LeftChild(n) ==> l in own && own[l] == j
    ensures (m == n && !Balanced(c, n)) || (Delivered(s', own[n := j], l, m.height) <==> Delivered(s, own, l, m.height))
    ensures Stopped(s', own[n := j], l, m) <==> Stopped(s, own, l, m)
  {
  }

  lemma MoveUpNode(c: Chunk, s: State, s': State, start: map<Pos, Node>, own: map<Pos, nat>, j: nat, n: Pos, m: Pos)
    requires c.Valid() && m in s.nodes && m in start && NodeOk(c, s, start, own, m) && s'.nodes == s.nodes
    requires n !in own && Active(c, n)
    requires Balanced(c, n) ==> Delivered(s, own, LeftChild(n), n.height) && Delivered(s, own, RightChild(n), n.height)
    requires !Balanced(c, n) && n.height > 0 ==> LeftChild(n) in own && own[LeftChild(n)] == j
    requires m.height > 0 && (m != n || Balanced(c, n)) ==>
      && (Delivered(s', own[n := j], LeftChild(m), m.height) <==> Delivered(s, own, LeftChild(m), m.height))
      && (Delivered(s', own[n := j], RightChild(m), m.height) <==> Delivered(s, own, RightChild(m), m.height))
      && (Stopped(s', own[n := j], LeftChild(m), m) <==> Stopped(s, own, LeftChild(m), m))
      && (Stopped(s', own[n := j], RightChild(m), m) <==> Stopped(s, own, RightChild(m), m))
    ensures NodeOk(c, s', start, own[n := j], m)
  {
  }

  // ---------------------------------------------------------------- hashing a pair

  lemma HashKeepsInv(c: Chunk, s: State, start: map<Pos, Node>, own: map<Pos, nat>, j: nat)
    requires Inv(c, s, start, own) && WellFormed(c, s) && j <= c.Cur() && s.threads[j].Hashing?
    ensures Inv(c, ThreadStep(c, s, j), start, own[Pos(0, j) := j])
  {
    HashOwn(c, s, own, j);
    HashThreads(c, s, start, own, j);
    HashNodes(c, s, start, own, j);
    CombineFlags(c, s, j);
  }

  lemma LeafNotOwned(c: Chunk, s: State, own: map<Pos, nat>, j: nat)
    requires c.Valid() && OwnOk(c, s, own) && j <= c.Cur() && Height(s.threads[j]) == 0
    ensures Pos(0, j) !in own && Active(c, Pos(0, j))
  {
    assert Pos(0, j) in own ==> EntryOk(c, s, own, Pos(0, j));
  }

  lemma HashOwn(c: Chunk, s: State, own: map<Pos, nat>, j: nat)
    requires c.Valid() && WellFormed(c, s) && j <= c.Cur() && s.threads[j].Hashing?
    requires OwnOk(c, s, own) && ThreadOk(c, s, own, j)
    ensures OwnOk(c, ThreadStep(c, s, j), own[Pos(0, j) := j])
  {
    var s' := ThreadStep(c, s, j);
    LeafNotOwned(c, s, own, j);
    MoveUpOwn(c, s, s', own, j, Pos(0, j), s'.threads[j]);
  }

  lemma HashNodes(c: Chunk, s: State, start: map<Pos, Node>, own: map<Pos, nat>, j: nat)
    requires c.Valid() && WellFormed(c, s) && j <= c.Cur() && s.threads[j].Hashing?
    requires OwnOk(c, s, own) && NodesOk(c, s, start, own)
    ensures NodesOk(c, ThreadStep(c, s, j), start, own[Pos(0, j) := j])
  {
    var s' := ThreadStep(c, s, j);
    LeafNotOwned(c, s, own, j);
    MoveUpNodes(c, s, s', start, own, j, Pos(0, j), s'.threads[j]);
  }

  lemma HashThreads(c: Chunk, s: State, start: map<Pos, Node>, own: map<Pos, nat>, j: nat)
    requires c.Valid() && WellFormed(c, s) && j <= c.Cur() && s.threads[j].Hashing?
    requires ThreadsOk(c, s, own) && OwnOk(c, s, own) && CallerOk(c, s) && FlagsOk(c, s) && NodesOk(c, s, start, own)
    ensures ThreadsOk(c, ThreadStep(c, s, j), own[Pos(0, j) := j])
  {
    var s' := ThreadStep(c, s, j);
    assert ThreadOk(c, s, own, j);
    var own' := own[Pos(0, j) := j];
    HashedThread(c, s, start, own, j);
    forall m | 0 <= m <= c.Cur() && m != j ensures Undisturbed(c, s, s', own', m) {
      assert ThreadOk(c, s, own, m);
    }
    OtherThreads(c, s, s', own, own', j);
  }

  lemma HashedThread(c: Chunk, s: State, start: map<Pos, Node>, own: map<Pos, nat>, j: nat)
    requires c.Valid() && WellFormed(c, s) && j <= c.Cur() && s.threads[j].Hashing?
    requires ThreadOk(c, s, own, j) && OwnOk(c, s, own) && CallerOk(c, s) && FlagsOk(c, s) && NodesOk(c, s, start, own)
    ensures ThreadOk(c, ThreadStep(c, s, j), own[Pos(0, j) := j], j)
  {
    var n := Pos(0, j);
    LeafNotOwned(c, s, own, j);
    ParentNotOwned(c, s, start, own, n);
    UpRoot(c.Cur(), 0);
    assert s.nodes[n].root <==> n == Root(c);
    RisenThread(c, s, own, ThreadStep(c, s, j), own[n := j], j, n, c.p.hash(c.segs[j]));
  }

  /** All goroutine steps. */
  lemma ThreadStepKeepsInv(c: Chunk, s: State, start: map<Pos, Node>, own: map<Pos, nat>, j: nat)
      returns (own': map<Pos, nat>)
    requires Inv(c, s, start, own) && WellFormed(c, s) && Enabled(c, s, ThreadMoves(j))
    ensures Inv(c, ThreadStep(c, s, j), start, own')
  {
    own' := own;
    match s.threads[j]
    case Hashing(_) =>
      HashKeepsInv(c, s, start, own, j);
      own' := own[Pos(0, j) := j];
    case Storing(_, _, _, _, _) =>
      StoreKeepsInv(c, s, start, own, j);
    case Toggling(_, _, _, _, _) =>
      ToggleKeepsInv(c, s, start, own, j);
    case Combining(n, _, _, _) =>
      CombineKeepsInv(c, s, start, own, j);
      own' := own[n := j];
  }
}

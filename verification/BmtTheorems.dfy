/** What every run of the concurrent hasher achieves: it ends, it returns the value of the tree over
    the pairs of segments, and it leaves the tree as it found it up to even toggle counts. */
module BmtTheorems {
  import opened BmtReference
  import opened BmtMachine
  import opened BmtInvariant
  import opened BmtSteps

  // ---------------------------------------------------------------- receiving the result

  /** Once the root has emitted, every node with data below it has. */
  lemma {:induction false} AllEmitted(c: Chunk, s: State, start: map<Pos, Node>, own: map<Pos, nat>, n: Pos)
    requires c.Valid() && OwnOk(c, s, own) && NodesOk(c, s, start, own)
    requires Root(c) in own && Active(c, n)
    ensures n in own
    decreases RootHeight(c.Cur()) - n.height
  {
    UpRoot(c.Cur(), n.height);
    if n.height < RootHeight(c.Cur()) {
      assert Up(c.Cur(), n.height + 1) == Up(c.Cur(), n.height) / 2;
      AllEmitted(c, s, start, own, n.Parent());
      ActiveInTree(c, n.Parent());
      ChildOwned(c, s, start, own, n);
    }
  }

  /** Once the root has emitted, no goroutine touches the tree any more. */
  lemma AllStopped(c: Chunk, s: State, start: map<Pos, Node>, own: map<Pos, nat>, j: nat)
    requires c.Valid() && ThreadsOk(c, s, own) && OwnOk(c, s, own) && NodesOk(c, s, start, own)
    requires Root(c) in own && j <= c.Cur()
    ensures s.threads[j].Done? || (s.threads[j].Sending? && own[Root(c)] == j)
  {
    assert ThreadOk(c, s, own, j) && TrailOk(c, s.threads[j], own, j);
    var h := Height(s.threads[j]);
    UpMonotone(j, c.Cur(), h);
    UpRoot(j, RootHeight(c.Cur()));
    UpMonotone(j, c.Cur(), RootHeight(c.Cur()));
    UpRoot(c.Cur(), RootHeight(c.Cur()));
    if h <= RootHeight(c.Cur()) {
      AllEmitted(c, s, start, own, Pos(h, Up(j, h)));
      assert EntryOk(c, s, own, Pos(h, Up(j, h)));
    }
  }

  lemma RootEmitted(c: Chunk, s: State, own: map<Pos, nat>, j: nat)
    requires c.Valid() && j <= c.Cur() && |s.threads| == |c.segs| && s.threads[j].Sending?
    requires ThreadOk(c, s, own, j) && TrailOk(c, s.threads[j], own, j)
    ensures Root(c) in own && own[Root(c)] == j
  {
    UpMonotone(j, c.Cur(), RootHeight(c.Cur()));
    UpRoot(c.Cur(), RootHeight(c.Cur()));
  }

  lemma ReceiveThreads(c: Chunk, s: State, start: map<Pos, Node>, own: map<Pos, nat>, j: nat)
    requires c.Valid() && WellFormed(c, s) && Enabled(c, s, Receive(j))
    requires ThreadsOk(c, s, own) && OwnOk(c, s, own) && NodesOk(c, s, start, own)
    ensures ThreadsOk(c, ReceiveStep(c, s, j), own)
  {
    var s' := ReceiveStep(c, s, j);
    assert ThreadOk(c, s, own, j) && TrailOk(c, s.threads[j], own, j);
    RootEmitted(c, s, own, j);
    UpMonotone(j, c.Cur(), RootHeight(c.Cur()) + 1);
    UpRoot(c.Cur(), RootHeight(c.Cur()) + 1);
    forall m | 0 <= m <= c.Cur() ensures ThreadOk(c, s', own, m) {
      assert ThreadOk(c, s, own, m);
      AllStopped(c, s, start, own, m);
    }
  }

  lemma ReceiveNodes(c: Chunk, s: State, start: map<Pos, Node>, own: map<Pos, nat>, j: nat)
    requires c.Valid() && WellFormed(c, s) && Enabled(c, s, Receive(j))
    requires OwnOk(c, s, own) && NodesOk(c, s, start, own) && ThreadOk(c, s, own, j)
    ensures NodesOk(c, ReceiveStep(c, s, j), start, own)
  {
    var s' := ReceiveStep(c, s, j);
    forall n | InTree(c.depth, n) ensures n in s'.nodes && n in start && NodeOk(c, s', start, own, n) {
      assert NodeOk(c, s, start, own, n);
      if Active(c, n) && Balanced(c, n) {
        ReceiveChild(c, s, own, j, n, LeftChild(n));
        ReceiveChild(c, s, own, j, n, RightChild(n));
        NodeFrame(c, s, s', start, own, n);
      }
    }
  }

  lemma ReceiveChild(c: Chunk, s: State, own: map<Pos, nat>, j: nat, n: Pos, l: Pos)
    requires c.Valid() && WellFormed(c, s) && Enabled(c, s, Receive(j)) && ThreadOk(c, s, own, j)
    requires n.height <= RootHeight(c.Cur())
    ensures SameChild(s, ReceiveStep(c, s, j), own, l, n)
  {
  }

  lemma ReceiveFlags(c: Chunk, s: State, own: map<Pos, nat>, j: nat)
    requires c.Valid() && WellFormed(c, s) && Enabled(c, s, Receive(j))
    requires CallerOk(c, s) && FlagsOk(c, s) && ThreadOk(c, s, own, j)
    ensures CallerOk(c, ReceiveStep(c, s, j)) && FlagsOk(c, ReceiveStep(c, s, j))
  {
  }

  lemma ReceiveKeepsInv(c: Chunk, s: State, start: map<Pos, Node>, own: map<Pos, nat>, j: nat)
    requires Inv(c, s, start, own) && WellFormed(c, s) && Enabled(c, s, Receive(j))
    ensures Inv(c, ReceiveStep(c, s, j), start, own)
  {
    assert ThreadOk(c, s, own, j);
    ReceiveThreads(c, s, start, own, j);
    OwnFrame(c, s, ReceiveStep(c, s, j), own);
    ReceiveNodes(c, s, start, own, j);
    ReceiveFlags(c, s, own, j);
  }

  lemma {:induction false} StepKeepsInv(c: Chunk, s: State, start: map<Pos, Node>, own: map<Pos, nat>, a: Choice)
      returns (own': map<Pos, nat>)
    requires Inv(c, s, start, own) && WellFormed(c, s) && Enabled(c, s, a)
    ensures Inv(c, Step(c, s, a), start, own')
  {
    match a
    case CallerMoves => CallerStepKeepsInv(c, s, start, own); own' := own;
    case ThreadMoves(j) => own' := ThreadStepKeepsInv(c, s, start, own, j);
    case Receive(j) => ReceiveKeepsInv(c, s, start, own, j); own' := own;
  }

  // ---------------------------------------------------------------- runs

  /** The schedule leads from s to s'. */
  ghost predicate Reaches(c: Chunk, s: State, schedule: seq<Choice>, s': State)
    decreases |schedule|
  {
    if schedule == [] then s == s'
    else WellFormed(c, s) && Enabled(c, s, schedule[0]) && Reaches(c, Step(c, s, schedule[0]), schedule[1..], s')
  }

  lemma {:induction false} RunKeepsInv(c: Chunk, s: State, schedule: seq<Choice>, s': State, start: map<Pos, Node>,
                                       own: map<Pos, nat>)
      returns (own': map<Pos, nat>)
    requires Inv(c, s, start, own) && Reaches(c, s, schedule, s')
    ensures Inv(c, s', start, own')
    decreases |schedule|
  {
    if schedule == [] {
      own' := own;
    } else {
      var o := StepKeepsInv(c, s, start, own, schedule[0]);
      own' := RunKeepsInv(c, Step(c, s, schedule[0]), schedule[1..], s', start, o);
    }
  }

  // ---------------------------------------------------------------- undisturbed reads

  /** `finalise` never marks a node that a goroutine is combining. */
  lemma NotFinalised(c: Chunk, s: State, start: map<Pos, Node>, own: map<Pos, nat>, j: nat)
    requires Inv(c, s, start, own) && j <= c.Cur() && s.threads[j].Combining? && s.caller.Finalising?
    ensures s.caller.n != s.threads[j].n
  {
    var n := s.threads[j].n;
    assert ThreadOk(c, s, own, j) && TrailOk(c, s.threads[j], own, j);
    AtNode(c, s, own, j, n);
    MarkedThere(c, s, own, j, n);
    BothDelivered(c, s, start, own, j);
    assert EntryOk(c, s, own, RightChild(n));
    if OnPath(c, n) { RightOnPath(c, n); }
  }

  /** Nobody else is at a node that a goroutine is combining. */
  lemma NobodyElse(c: Chunk, s: State, start: map<Pos, Node>, own: map<Pos, nat>, m: nat, j: nat)
    requires Inv(c, s, start, own) && m != j && m <= c.Cur() && j <= c.Cur() && s.threads[j].Combining?
    ensures !At(s.threads[m], s.threads[j].n)
  {
    assert ThreadOk(c, s, own, j) && TrailOk(c, s.threads[j], own, j);
    AtNode(c, s, own, j, s.threads[j].n);
    if At(s.threads[m], s.threads[j].n) {
      assert ThreadOk(c, s, own, m) && TrailOk(c, s.threads[m], own, m);
      CombinesAlone(c, s, start, own, j, m);
    }
  }

  lemma NotReleasing(c: Chunk, s: State, own: map<Pos, nat>, j: nat)
    requires c.Valid() && ThreadsOk(c, s, own) && j <= c.Cur() && !s.threads[j].Done?
    ensures !s.caller.Releasing? && !s.caller.Returned?
  {
    assert ThreadOk(c, s, own, j);
  }

  /** A step changes a node only where its owner is: the caller while marking or releasing, a goroutine while there. */
  lemma ChangesHere(c: Chunk, s: State, a: Choice, n: Pos)
    requires WellFormed(c, s) && Enabled(c, s, a) && n in s.nodes
    requires a.CallerMoves? ==> !s.caller.Releasing? && (s.caller.Finalising? ==> s.caller.n != n)
    requires a.ThreadMoves? ==> !At(s.threads[a.j], n)
    ensures n in Step(c, s, a).nodes && Step(c, s, a).nodes[n] == s.nodes[n]
  {
  }

  /** The goroutine is at some node. */
  predicate Working(t: Thread) {
    t.Storing? || t.Toggling? || t.Combining?
  }

  /** While a goroutine is between entering a node and leaving it, no step of anybody else changes what it reads
      there: whether the node is unbalanced ... */
  lemma ReadsUndisturbed(c: Chunk, s: State, start: map<Pos, Node>, own: map<Pos, nat>, a: Choice, j: nat)
    requires Inv(c, s, start, own) && WellFormed(c, s) && Enabled(c, s, a) && a != ThreadMoves(j)
    requires j <= c.Cur() && Working(s.threads[j])
    ensures var n, s' := s.threads[j].n, Step(c, s, a);
      && |s'.threads| == |s.threads| && s'.threads[j] == s.threads[j] && n in s.nodes && n in s'.nodes
      && s'.nodes[n].unbalanced == s.nodes[n].unbalanced
  {
    var n, s' := s.threads[j].n, Step(c, s, a);
    OthersStay(c, s, own, a, j);
    assert ThreadOk(c, s, own, j);
    MarkedThere(c, s, own, j, n);
    var own' := StepKeepsInv(c, s, start, own, a);
    StillMarked(c, s', start, own', j, n);
  }

  lemma OthersStay(c: Chunk, s: State, own: map<Pos, nat>, a: Choice, j: nat)
    requires c.Valid() && ThreadsOk(c, s, own) && WellFormed(c, s) && Enabled(c, s, a) && a != ThreadMoves(j)
    requires j <= c.Cur() && Working(s.threads[j])
    ensures |Step(c, s, a).threads| == |s.threads| && Step(c, s, a).threads[j] == s.threads[j]
  {
    assert ThreadOk(c, s, own, j);
  }

  lemma StillMarked(c: Chunk, s: State, start: map<Pos, Node>, own: map<Pos, nat>, j: nat, n: Pos)
    requires Inv(c, s, start, own) && j <= c.Cur() && At(s.threads[j], n)
    ensures n in s.nodes && (s.nodes[n].unbalanced <==> !Balanced(c, n))
  {
    assert ThreadOk(c, s, own, j);
    MarkedThere(c, s, own, j, n);
  }

  /** ... and, once it has toggled, anything at all. */
  lemma CombinesUndisturbed(c: Chunk, s: State, start: map<Pos, Node>, own: map<Pos, nat>, a: Choice, j: nat)
    requires Inv(c, s, start, own) && WellFormed(c, s) && Enabled(c, s, a) && a != ThreadMoves(j)
    requires j <= c.Cur() && s.threads[j].Combining? && s.threads[j].n in s.nodes
    ensures var n := s.threads[j].n; n in Step(c, s, a).nodes && Step(c, s, a).nodes[n] == s.nodes[n]
  {
    NotReleasing(c, s, own, j);
    if s.caller.Finalising? { NotFinalised(c, s, start, own, j); }
    if a.ThreadMoves? { NobodyElse(c, s, start, own, a.j, j); }
    ChangesHere(c, s, a, s.threads[j].n);
  }

  /** The same over whole schedules in which the goroutine does not move: it does not matter when during its step it
      reads which field. */
  lemma {:induction false} RunUndisturbed(c: Chunk, s: State, schedule: seq<Choice>, s': State,
                                          start: map<Pos, Node>, own: map<Pos, nat>, j: nat)
    requires Inv(c, s, start, own) && Reaches(c, s, schedule, s') && ThreadMoves(j) !in schedule
    requires j <= c.Cur() && Working(s.threads[j])
    ensures var n := s.threads[j].n;
      && |s'.threads| == |s.threads| && s'.threads[j] == s.threads[j] && n in s.nodes && n in s'.nodes
      && s'.nodes[n].unbalanced == s.nodes[n].unbalanced
      && (s.threads[j].Combining? ==> s'.nodes[n] == s.nodes[n])
    decreases |schedule|
  {
    if schedule == [] {
      StillMarked(c, s, start, own, j, s.threads[j].n);
    } else {
      ReadsUndisturbed(c, s, start, own, schedule[0], j);
      if s.threads[j].Combining? { CombinesUndisturbed(c, s, start, own, schedule[0], j); }
      var own' := StepKeepsInv(c, s, start, own, schedule[0]);
      RunUndisturbed(c, Step(c, s, schedule[0]), schedule[1..], s', start, own', j);
    }
  }

  /** Whatever the schedule, the value returned is the value of the tree. */
  lemma ReturnsTreeValue(c: Chunk, s: State, schedule: seq<Choice>, s': State)
    requires Start(c, s) && Reaches(c, s, schedule, s') && s'.caller.Returned?
    ensures s'.caller.c == Result(c)
  {
    InvStart(c, s);
    var own := RunKeepsInv(c, s, schedule, s', s.nodes, map[]);
  }

  // ---------------------------------------------------------------- the tree afterwards

  /** The tree after a use: no marks are left, and exactly the balanced nodes were toggled, twice each. */
  ghost predicate Restored(c: Chunk, start: map<Pos, Node>, nodes: map<Pos, Node>)
    requires c.Valid()
  {
    forall n :: InTree(c.depth, n) ==>
      && n in start && n in nodes
      && !nodes[n].unbalanced && (nodes[n].root <==> n.height == c.depth)
      && nodes[n].state ==
         if Active(c, n) && Balanced(c, n) then Increment(Increment(start[n].state)) else start[n].state
  }

  /** When all goroutines have stopped, every node with data below it has emitted. */
  lemma {:induction false} StoppedMeansEmitted(c: Chunk, s: State, start: map<Pos, Node>, own: map<Pos, nat>, n: Pos)
    requires c.Valid() && ThreadsOk(c, s, own) && OwnOk(c, s, own) && NodesOk(c, s, start, own)
    requires forall j :: 0 <= j <= c.Cur() ==> s.threads[j].Done?
    requires Active(c, n)
    ensures n in own
    decreases n.height
  {
    if n.height == 0 {
      LeafEmitted(c, s, own, n);
    } else {
      ActiveChildren(c, n);
      StoppedMeansEmitted(c, s, start, own, LeftChild(n));
      if Balanced(c, n) {
        StoppedMeansEmitted(c, s, start, own, RightChild(n));
      }
      InnerEmitted(c, s, start, own, n);
    }
  }

  lemma ActiveChildren(c: Chunk, n: Pos)
    requires c.Valid() && Active(c, n) && n.height > 0
    ensures Active(c, LeftChild(n)) && (Balanced(c, n) ==> Active(c, RightChild(n)))
  {
    assert Up(c.Cur(), n.height) == Up(c.Cur(), n.height - 1) / 2;
  }

  lemma LeafEmitted(c: Chunk, s: State, own: map<Pos, nat>, n: Pos)
    requires c.Valid() && ThreadsOk(c, s, own) && OwnOk(c, s, own) && Active(c, n) && n.height == 0
    requires forall j :: 0 <= j <= c.Cur() ==> s.threads[j].Done?
    ensures n in own
  {
    assert ThreadOk(c, s, own, n.index) && TrailOk(c, s.threads[n.index], own, n.index);
    assert Up(n.index, 0) == n.index;
  }

  lemma InnerEmitted(c: Chunk, s: State, start: map<Pos, Node>, own: map<Pos, nat>, n: Pos)
    requires c.Valid() && ThreadsOk(c, s, own) && OwnOk(c, s, own) && NodesOk(c, s, start, own)
    requires forall j :: 0 <= j <= c.Cur() ==> s.threads[j].Done?
    requires Active(c, n) && n.height > 0 && LeftChild(n) in own && (Balanced(c, n) ==> RightChild(n) in own)
    ensures n in own
  {
    StoppedCarrier(c, s, own, LeftChild(n), n);
    if Balanced(c, n) { StoppedCarrier(c, s, own, RightChild(n), n); }
    ActiveInTree(c, n);
    EmitsAfterChildren(c, s, start, own, n);
  }

  lemma StoppedCarrier(c: Chunk, s: State, own: map<Pos, nat>, l: Pos, n: Pos)
    requires c.Valid() && ThreadsOk(c, s, own) && OwnOk(c, s, own) && l in own && l.Parent() == n && Active(c, n)
    requires forall j :: 0 <= j <= c.Cur() ==> s.threads[j].Done?
    ensures Delivered(s, own, l, n.height)
    ensures n in own || (Stopped(s, own, l, n) && Balanced(c, n))
  {
    assert EntryOk(c, s, own, l);
    assert ThreadOk(c, s, own, own[l]);
    EmittedOrStopped(c, s, own, l, n);
  }

  lemma EmitsAfterChildren(c: Chunk, s: State, start: map<Pos, Node>, own: map<Pos, nat>, n: Pos)
    requires c.Valid() && n.height > 0 && Active(c, n) && n in s.nodes && n in start && NodeOk(c, s, start, own, n)
    requires Delivered(s, own, LeftChild(n), n.height)
    requires n in own || (Stopped(s, own, LeftChild(n), n) && Balanced(c, n))
    requires Balanced(c, n) ==>
               Delivered(s, own, RightChild(n), n.height) && (n in own || Stopped(s, own, RightChild(n), n))
    ensures n in own
  {
  }

  lemma ActiveInTree(c: Chunk, n: Pos)
    requires c.Valid() && Active(c, n)
    ensures InTree(c.depth, n)
  {
    UpInTree(c.depth, c.Cur(), n.height);
  }

  /** A carrier that has stopped left the parent or stopped there. */
  lemma EmittedOrStopped(c: Chunk, s: State, own: map<Pos, nat>, l: Pos, n: Pos)
    requires c.Valid() && OwnOk(c, s, own) && l in own && l.Parent() == n
    requires own[l] <= c.Cur() && ThreadOk(c, s, own, own[l]) && s.threads[own[l]].Done?
    ensures Delivered(s, own, l, n.height)
    ensures n in own || Stopped(s, own, l, n)
  {
    var j := own[l];
    assert EntryOk(c, s, own, l) && TrailOk(c, s.threads[j], own, j);
    assert n.index == Up(j, n.height);
  }

  lemma {:induction false} TreeRestored(c: Chunk, s: State, start: map<Pos, Node>, own: map<Pos, nat>)
    requires Inv(c, s, start, own) && s.caller.Returned?
    ensures Restored(c, start, s.nodes)
  {
    forall j | 0 <= j <= c.Cur() ensures s.threads[j].Done? {
      assert ThreadOk(c, s, own, j);
    }
    forall n | InTree(c.depth, n)
      ensures n in s.nodes && n in start
      ensures Active(c, n) && Balanced(c, n) ==> s.nodes[n].state == Increment(Increment(start[n].state))
    {
      assert NodeOk(c, s, start, own, n);
      if Active(c, n) && Balanced(c, n) {
        StoppedMeansEmitted(c, s, start, own, n);
      }
    }
    TreeRestoredNodes(c, s, start, own);
  }

  lemma TreeRestoredNodes(c: Chunk, s: State, start: map<Pos, Node>, own: map<Pos, nat>)
    requires c.Valid() && s.caller.Returned? && FlagsOk(c, s) && NodesOk(c, s, start, own)
    requires forall n :: InTree(c.depth, n) && Active(c, n) && Balanced(c, n) ==>
               n in start && n in s.nodes && s.nodes[n].state == Increment(Increment(start[n].state))
    ensures Restored(c, start, s.nodes)
  {
  }

  /** The tree has been through at most `uses` chunks. */
  ghost predicate UsedAtMost(depth: nat, nodes: map<Pos, Node>, uses: nat) {
    Clean(depth, nodes) && forall n :: InTree(depth, n) ==> n in nodes && nodes[n].state <= 2 * uses
  }

  /** A tree can be handed out again after every run, 2^30 - 1 times. */
  lemma TreeReusable(c: Chunk, s: State, schedule: seq<Choice>, s': State, uses: nat)
    requires Start(c, s) && Reaches(c, s, schedule, s') && s'.caller.Returned?
    requires UsedAtMost(c.depth, s.nodes, uses) && 2 * (uses + 1) < INT32_LIMIT
    ensures Restored(c, s.nodes, s'.nodes)
    ensures UsedAtMost(c.depth, s'.nodes, uses + 1)
  {
    InvStart(c, s);
    var own := RunKeepsInv(c, s, schedule, s', s.nodes, map[]);
    TreeRestored(c, s', s.nodes, own);
    RestoredIsClean(c, s.nodes, s'.nodes, uses);
  }

  lemma RestoredIsClean(c: Chunk, start: map<Pos, Node>, nodes: map<Pos, Node>, uses: nat)
    requires c.Valid() && Restored(c, start, nodes)
    requires UsedAtMost(c.depth, start, uses) && 2 * (uses + 1) < INT32_LIMIT
    ensures UsedAtMost(c.depth, nodes, uses + 1)
  {
  }

  // ---------------------------------------------------------------- progress and termination

  /** Until the caller has returned some step is enabled: the hasher never deadlocks. */
  lemma Progress(c: Chunk, s: State, start: map<Pos, Node>, own: map<Pos, nat>) returns (a: Choice)
    requires Inv(c, s, start, own) && !s.caller.Returned?
    ensures WellFormed(c, s) && Enabled(c, s, a)
  {
    InvWellFormed(c, s, start, own);
    if !s.caller.Waiting? {
      a := CallerMoves;
    } else if j :| 0 <= j <= c.Cur() && !s.threads[j].Done? {
      assert ThreadOk(c, s, own, j);
      a := if s.threads[j].Sending? then Receive(j) else ThreadMoves(j);
    } else {
      StoppedMeansEmitted(c, s, start, own, Root(c));
      RootCarrier(c, s, own);
      assert false;
    }
  }

  /** The carrier of the final value does not stop before the caller has received it. */
  lemma RootCarrier(c: Chunk, s: State, own: map<Pos, nat>)
    requires c.Valid() && ThreadsOk(c, s, own) && OwnOk(c, s, own) && s.caller.Waiting? && Root(c) in own
    ensures own[Root(c)] <= c.Cur() && s.threads[own[Root(c)]].Sending?
  {
    assert EntryOk(c, s, own, Root(c));
    assert ThreadOk(c, s, own, own[Root(c)]);
  }

  function ThreadMeasure(depth: nat, t: Thread): nat {
    match t
    case Unspawned => 3 * depth + 8
    case Hashing(_) => 3 * depth + 7
    case Storing(n, _, _, _, _) => if n.height <= depth then 3 * (depth - n.height) + 6 else 0
    case Toggling(n, _, _, _, _) => if n.height <= depth then 3 * (depth - n.height) + 5 else 0
    case Combining(n, _, _, _) => if n.height <= depth then 3 * (depth - n.height) + 4 else 0
    case Sending(_, _) => 1
    case Done(_) => 0
  }

  function CallerMeasure(c: Chunk, caller: Caller): nat {
    match caller
    case Pushing(j) => (if j <= c.Cur() then c.Cur() - j else 0) + 2 * c.depth + 9
    case Finalising(n, _, _) => (if n.height <= c.depth then c.depth - n.height else 0) + c.depth + 6
    case Launching(_) => c.depth + 5
    case Waiting => c.depth + 4
    case Releasing(n, _) => (if n.height <= c.depth then c.depth - n.height else 0) + 1
    case Returned(_) => 0
  }

  function Total(depth: nat, ts: seq<Thread>): nat {
    if ts == [] then 0 else Total(depth, ts[..|ts| - 1]) + ThreadMeasure(depth, ts[|ts| - 1])
  }

  lemma {:induction false} TotalUpdate(depth: nat, ts: seq<Thread>, j: nat, t: Thread)
    requires j < |ts|
    ensures Total(depth, ts[j := t]) == Total(depth, ts) - ThreadMeasure(depth, ts[j]) + ThreadMeasure(depth, t)
    decreases |ts|
  {
    var us := ts[j := t];
    var m := |ts| - 1;
    if j == m {
      assert us[..m] == ts[..m];
    } else {
      assert us[..m] == ts[..m][j := t];
      TotalUpdate(depth, ts[..m], j, t);
    }
  }

  function Measure(c: Chunk, s: State): nat {
    Total(c.depth, s.threads) + CallerMeasure(c, s.caller)
  }

  lemma StepDecreases(c: Chunk, s: State, start: map<Pos, Node>, own: map<Pos, nat>, a: Choice)
    requires Inv(c, s, start, own) && WellFormed(c, s) && Enabled(c, s, a)
    ensures Measure(c, Step(c, s, a)) < Measure(c, s)
  {
    match a
    case CallerMoves => CallerDecreases(c, s, own);
    case ThreadMoves(j) => ThreadDecreases(c, s, own, j);
    case Receive(j) => TotalUpdate(c.depth, s.threads, j, ReceiveStep(c, s, j).threads[j]);
  }

  lemma CallerDecreases(c: Chunk, s: State, own: map<Pos, nat>)
    requires c.Valid() && WellFormed(c, s) && Enabled(c, s, CallerMoves) && CallerOk(c, s) && ThreadsOk(c, s, own)
    ensures Measure(c, CallerStep(c, s)) < Measure(c, s)
  {
    var s' := CallerStep(c, s);
    UpRoot(c.Cur(), c.depth);
    if s.caller.Pushing? && s.caller.j < c.Cur() {
      assert ThreadOk(c, s, own, s.caller.j);
      TotalUpdate(c.depth, s.threads, s.caller.j, s'.threads[s.caller.j]);
    } else if s.caller.Launching? {
      assert ThreadOk(c, s, own, c.Cur());
      TotalUpdate(c.depth, s.threads, c.Cur(), s'.threads[c.Cur()]);
    }
  }

  lemma ThreadDecreases(c: Chunk, s: State, own: map<Pos, nat>, j: nat)
    requires c.Valid() && WellFormed(c, s) && Enabled(c, s, ThreadMoves(j)) && ThreadsOk(c, s, own)
    ensures Measure(c, ThreadStep(c, s, j)) < Measure(c, s)
  {
    assert ThreadOk(c, s, own, j);
    ThreadShorter(c, s, j);
    TotalUpdate(c.depth, s.threads, j, ThreadStep(c, s, j).threads[j]);
  }

  lemma ThreadShorter(c: Chunk, s: State, j: nat)
    requires c.Valid() && WellFormed(c, s) && Enabled(c, s, ThreadMoves(j))
    ensures ThreadStep(c, s, j).threads == s.threads[j := ThreadStep(c, s, j).threads[j]]
    ensures ThreadMeasure(c.depth, ThreadStep(c, s, j).threads[j]) < ThreadMeasure(c.depth, s.threads[j])
  {
    assert ThreadWellFormed(c, s.threads[j], j);
  }

  /** Every schedule is finite: its length is bounded by the measure of the state it starts from. */
  lemma {:induction false} RunsAreBounded(c: Chunk, s: State, schedule: seq<Choice>, s': State, start: map<Pos, Node>,
                                          own: map<Pos, nat>)
    requires Inv(c, s, start, own) && Reaches(c, s, schedule, s')
    ensures |schedule| + Measure(c, s') <= Measure(c, s)
    decreases |schedule|
  {
    if schedule != [] {
      StepDecreases(c, s, start, own, schedule[0]);
      var o := StepKeepsInv(c, s, start, own, schedule[0]);
      RunsAreBounded(c, Step(c, s, schedule[0]), schedule[1..], s', start, o);
    }
  }

  /** A run that has not returned can be continued, and only finitely often. */
  lemma EveryRunReturns(c: Chunk, s: State, schedule: seq<Choice>, s': State)
    requires Start(c, s) && Reaches(c, s, schedule, s')
    ensures |schedule| <= Measure(c, s)
    ensures s'.caller.Returned? || (WellFormed(c, s') && exists a :: Enabled(c, s', a))
  {
    InvStart(c, s);
    RunsAreBounded(c, s, schedule, s', s.nodes, map[]);
    var own := RunKeepsInv(c, s, schedule, s', s.nodes, map[]);
    if !s'.caller.Returned? {
      var a := Progress(c, s', s.nodes, own);
    }
  }
}

/** The branch walk of the transaction pool when the head moves: transactions of the abandoned branch
    are put back unless the new branch has them. */
module TxPoolReset {
  import opened Basics
  import opened BlockTree
  import opened HeaderChain
  import opened BlockChain

  const MAX_DEPTH: nat := 64

  /** The chain as the pool sees it. */
  datatype Chain = Chain(headers: Store, bodies: Bodies) {
    function GetBlock(hash: Hash, number: int): Option<Block> {
      if hash in headers && headers[hash].number == number && hash in bodies
      then Some(Block(headers[hash], bodies[hash])) else None
    }
  }

  /** What `reset` does about a change of head. */
  datatype Outcome = Nothing | TooDeep | Unrooted | Reinject(txs: seq<Tx>)

  predicate TooFar(a: nat, b: nat) {
    (if a > b then a - b else b - a) > MAX_DEPTH
  }

  /** Transaction tx lies on the path to h above number c. */
  ghost predicate LiesAbove(ch: Chain, g: Header, h: Hash, c: nat, tx: Tx)
    requires Rooted(ch.headers, g) && h in ch.headers
  {
    !OffBranch(ch.bodies, Path(ch.headers, g, h), c, tx)
  }

  lemma StepDown(ch: Chain, block: Block, path: seq<Hash>)
    requires Linked(ch.headers, path) && Addressed(ch.headers) && ch.bodies.Keys == ch.headers.Keys
    requires block.header.number > 0 && IsBlock(block, ch.headers, ch.bodies, path, block.header.number)
    ensures ch.GetBlock(block.header.parent, block.header.number - 1).Some?
    ensures IsBlock(ch.GetBlock(block.header.parent, block.header.number - 1).value, ch.headers, ch.bodies, path,
              block.header.number - 1)
  {
    assert LinkAt(ch.headers, path, block.header.number) && LinkAt(ch.headers, path, block.header.number - 1);
  }

  /** The first two loops: bring the higher block down to a given number. */
  method Lower(ch: Chain, top: Block, number: nat, ghost path: seq<Hash>)
      returns (x: Option<Block>, txs: seq<Tx>, ghost chain: seq<Block>)
    requires Linked(ch.headers, path) && Addressed(ch.headers) && ch.bodies.Keys == ch.headers.Keys
    requires |path| > 0 && IsBlock(top, ch.headers, ch.bodies, path, |path| - 1)
    ensures x.Some? && x.value.header.number == if number < |path| then number else |path| - 1
    ensures IsBlock(x.value, ch.headers, ch.bodies, path, x.value.header.number)
    ensures IsBranch(chain, ch.headers, ch.bodies, path, x.value.header.number) && txs == TxsOf(chain)
  {
    var y := top;
    txs, chain := [], [];
    while y.header.number > number
      invariant IsBlock(y, ch.headers, ch.bodies, path, y.header.number)
      invariant y.header.number >= number || y.header.number == |path| - 1
      invariant IsBranch(chain, ch.headers, ch.bodies, path, y.header.number) && txs == TxsOf(chain)
      decreases y.header.number
    {
      BranchGrows(chain, ch.headers, ch.bodies, path, y.header.number, y);
      chain := chain + [y];
      txs := txs + y.txs;
      StepDown(ch, y, path);
      x := ch.GetBlock(y.header.parent, y.header.number - 1);
      if x.None? { return; }
      y := x.value;
    }
    x := Some(y);
  }

  /** `reset`, up to the reinjection */
  method Reset(ch: Chain, g: Header, oldHead: Option<Header>, newHead: Header) returns (r: Outcome, ghost c: nat)
    requires Rooted(ch.headers, g) && ch.bodies.Keys == ch.headers.Keys
    requires oldHead.Some? ==> oldHead.value.hash in ch.headers && ch.headers[oldHead.value.hash] == oldHead.value
    requires newHead.hash in ch.headers && ch.headers[newHead.hash] == newHead
    ensures r.Nothing? <==> oldHead.None? || oldHead.value.hash == newHead.parent
    ensures r.TooDeep? <==>
      !r.Nothing? && (oldHead.value.number > newHead.number + 64 || newHead.number > oldHead.value.number + 64)
    ensures !r.Unrooted?
    ensures r.Reinject? ==> HighestCommonNumber(ch, g, oldHead.value.hash, newHead.hash, c)
    ensures r.Reinject? ==> forall tx :: tx in r.txs <==>
              LiesAbove(ch, g, oldHead.value.hash, c, tx) && !LiesAbove(ch, g, newHead.hash, c, tx)
  {
    c := 0;
    if oldHead.None? || oldHead.value.hash == newHead.parent {
      return Nothing, c;
    }
    if TooFar(oldHead.value.number, newHead.number) {
      return TooDeep, c;
    }
    ghost var was, path := Path(ch.headers, g, oldHead.value.hash), Path(ch.headers, g, newHead.hash);
    HeadBlock(ch, g, oldHead.value);
    HeadBlock(ch, g, newHead);
    var rem := ch.GetBlock(oldHead.value.hash, oldHead.value.number);
    var add := ch.GetBlock(newHead.hash, newHead.number);
    var discarded, included;
    ghost var oldChain, newChain;
    rem, discarded, oldChain := Lower(ch, rem.value, add.value.header.number, was);
    if rem.None? { return Unrooted, c; }
    add, included, newChain := Lower(ch, add.value, rem.value.header.number, path);
    if add.None? { return Unrooted, c; }
    var ok;
    ok, discarded, included, c :=
      Converge(ch, rem.value, add.value, discarded, included, oldChain, newChain, was, path);
    if !ok { return Unrooted, c; }
    r := Reinject(TxDifference(discarded, included));
  }

  /** The last loop: walk both blocks down until they are the same. */
  method Converge(ch: Chain, x0: Block, y0: Block, discarded0: seq<Tx>, included0: seq<Tx>,
                  ghost oldChain0: seq<Block>, ghost newChain0: seq<Block>, ghost was: seq<Hash>, ghost path: seq<Hash>)
      returns (ok: bool, discarded: seq<Tx>, included: seq<Tx>, ghost c: nat)
    requires Linked(ch.headers, was) && Linked(ch.headers, path) && Addressed(ch.headers)
    requires ch.bodies.Keys == ch.headers.Keys
    requires x0.header.number == y0.header.number && |was| > 0 && |path| > 0 && was[0] == path[0]
    requires IsBlock(x0, ch.headers, ch.bodies, was, x0.header.number)
    requires IsBlock(y0, ch.headers, ch.bodies, path, x0.header.number)
    requires IsBranch(oldChain0, ch.headers, ch.bodies, was, x0.header.number) && discarded0 == TxsOf(oldChain0)
    requires IsBranch(newChain0, ch.headers, ch.bodies, path, x0.header.number) && included0 == TxsOf(newChain0)
    ensures ok && c <= x0.header.number && was[c] == path[c]
    ensures forall i :: c < i <= x0.header.number ==> was[i] != path[i]
    ensures forall tx :: tx in discarded <==> !OffBranch(ch.bodies, was, c, tx)
    ensures forall tx :: tx in included <==> !OffBranch(ch.bodies, path, c, tx)
  {
    var x, y := x0, y0;
    discarded, included := discarded0, included0;
    ghost var oldChain, newChain := oldChain0, newChain0;
    ok, c := true, 0;
    while x.header.hash != y.header.hash
      invariant ok && x.header.number == y.header.number <= x0.header.number
      invariant IsBlock(x, ch.headers, ch.bodies, was, x.header.number)
      invariant IsBlock(y, ch.headers, ch.bodies, path, x.header.number)
      invariant IsBranch(oldChain, ch.headers, ch.bodies, was, x.header.number) && discarded == TxsOf(oldChain)
      invariant IsBranch(newChain, ch.headers, ch.bodies, path, x.header.number) && included == TxsOf(newChain)
      invariant forall i :: x.header.number < i <= x0.header.number ==> was[i] != path[i]
      decreases x.header.number
    {
      BranchGrows(oldChain, ch.headers, ch.bodies, was, x.header.number, x);
      BranchGrows(newChain, ch.headers, ch.bodies, path, y.header.number, y);
      oldChain, newChain := oldChain + [x], newChain + [y];
      discarded, included := discarded + x.txs, included + y.txs;
      StepDown(ch, x, was);
      StepDown(ch, y, path);
      var p, q := ch.GetBlock(x.header.parent, x.header.number - 1), ch.GetBlock(y.header.parent, y.header.number - 1);
      if p.None? || q.None? { ok := false; return; }
      x, y := p.value, q.value;
    }
    c := x.header.number;
    forall tx ensures tx in discarded <==> !OffBranch(ch.bodies, was, c, tx)
      ensures tx in included <==> !OffBranch(ch.bodies, path, c, tx)
    {
      BranchTxs(oldChain, ch.headers, ch.bodies, was, c, tx);
      BranchTxs(newChain, ch.headers, ch.bodies, path, c, tx);
    }
  }

  /** c is the number of the highest common ancestor. */
  ghost predicate HighestCommonNumber(ch: Chain, g: Header, a: Hash, b: Hash, c: nat)
    requires Rooted(ch.headers, g) && a in ch.headers && b in ch.headers
  {
    var was, path := Path(ch.headers, g, a), Path(ch.headers, g, b);
    && c < |was| && c < |path| && was[c] == path[c]
    && forall i :: c < i < |was| && i < |path| ==> was[i] != path[i]
  }

  lemma HeadBlock(ch: Chain, g: Header, h: Header)
    requires Rooted(ch.headers, g) && ch.bodies.Keys == ch.headers.Keys && h.hash in ch.headers
    requires ch.headers[h.hash] == h
    ensures var path := Path(ch.headers, g, h.hash);
      && Linked(ch.headers, path) && path[0] == g.hash
      && ch.GetBlock(h.hash, h.number).Some?
      && IsBlock(ch.GetBlock(h.hash, h.number).value, ch.headers, ch.bodies, path, |path| - 1)
  {
    PathIsLinked(ch.headers, g, h.hash);
    assert Numbered(ch.headers, Path(ch.headers, g, h.hash), 0);
  }

  /** The same ancestor that `FindCommonAncestor` finds. */
  lemma SameAncestor(ch: Chain, g: Header, a: Hash, b: Hash, c: nat, r: Option<Header>)
    requires Rooted(ch.headers, g) && a in ch.headers && b in ch.headers
    requires HighestCommonNumber(ch, g, a, b, c) && IsAncestorOf(ch.headers, ch.headers[a], ch.headers[b], r)
    ensures r.Some? && r.value.number == c
  {
    CommonAncestorExists(ch.headers, g, a, b, r);
    var was, path := Path(ch.headers, g, a), Path(ch.headers, g, b);
    var n := r.value.number;
    assert was[n] == was[..n + 1][n] && path[n] == path[..n + 1][n];
  }
}

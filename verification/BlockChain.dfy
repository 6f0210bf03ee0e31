/** The block chain: blocks with their transactions, fork choice, reorganisation, and the
    index from transaction to position.  Numbers above the head may keep stale canonical hashes;
    nothing is claimed about them. */
module BlockChain {
  import opened Basics
  import opened BlockTree
  import opened HeaderChain

  /** A transaction, by its hash. */
  type Tx = nat

  datatype Block = Block(header: Header, txs: seq<Tx>)

  /** Positional metadata of a transaction. */
  datatype Entry = Entry(block: Hash, number: nat, index: nat)

  type Bodies = map<Hash, seq<Tx>>

  // ---------------------------------------------------------------- what the indexes should say

  /** Transaction tx is number j of the i-th block of the path. */
  predicate TxAt(bodies: Bodies, path: seq<Hash>, i: nat, j: nat, tx: Tx) {
    i < |path| && path[i] in bodies && j < |bodies[path[i]]| && bodies[path[i]][j] == tx
  }

  /** A transaction occurs at most once along the path. */
  ghost predicate UniqueTxs(bodies: Bodies, path: seq<Hash>) {
    forall i: nat, j: nat, i': nat, j': nat, tx :: TxAt(bodies, path, i, j, tx) && TxAt(bodies, path, i', j', tx) ==>
      i == i' && j == j'
  }

  /** The lookup index has exactly the transactions on the path, each with its true position. */
  ghost predicate LookupIsScan(lookup: map<Tx, Entry>, bodies: Bodies, path: seq<Hash>) {
    && (forall i: nat, j: nat, tx :: TxAt(bodies, path, i, j, tx) ==>
      tx in lookup && lookup[tx] == Entry(path[i], i, j))
    && (forall tx :: tx in lookup ==> TrueEntry(bodies, path, tx, lookup[tx]))
  }

  predicate TrueEntry(bodies: Bodies, path: seq<Hash>, tx: Tx, e: Entry) {
    TxAt(bodies, path, e.number, e.index, tx) && e.block == path[e.number]
  }

  /** Up to the head the canonical index is the path. */
  ghost predicate CanonicalUpTo(canonical: map<nat, Hash>, path: seq<Hash>) {
    forall i :: CanonicalAt(canonical, path, i)
  }

  predicate CanonicalAt(canonical: map<nat, Hash>, path: seq<Hash>, i: nat) {
    i < |path| ==> i in canonical && canonical[i] == path[i]
  }

  /** A linear search for tx: block by block from the head down, each block from its last transaction. */
  function Scan(bodies: Bodies, path: seq<Hash>, tx: Tx): Option<Entry> {
    if path == [] then None
    else
      var n := |path| - 1;
      match if path[n] in bodies then LastIndex(bodies[path[n]], tx) else None
      case Some(j) => Some(Entry(path[n], n, j))
      case None => Scan(bodies, path[..n], tx)
  }

  function LastIndex(txs: seq<Tx>, tx: Tx): (r: Option<nat>)
    ensures r.Some? ==> r.value < |txs| && txs[r.value] == tx
    ensures r.None? ==> tx !in txs
  {
    if txs == [] then None
    else if txs[|txs| - 1] == tx then Some(|txs| - 1)
    else
      assert txs == txs[..|txs| - 1] + [txs[|txs| - 1]];
      LastIndex(txs[..|txs| - 1], tx)
  }

  /** What a scan finds is there, and it misses nothing. */
  lemma {:induction false} ScanFinds(bodies: Bodies, path: seq<Hash>, tx: Tx)
    ensures Scan(bodies, path, tx).Some? ==> TrueEntry(bodies, path, tx, Scan(bodies, path, tx).value)
    ensures Scan(bodies, path, tx).None? ==> forall i: nat, j: nat :: !TxAt(bodies, path, i, j, tx)
    decreases |path|
  {
    if path != [] {
      var n := |path| - 1;
      ScanFinds(bodies, path[..n], tx);
      forall i: nat, j: nat | i < n ensures TxAt(bodies, path, i, j, tx) <==> TxAt(bodies, path[..n], i, j, tx) {
        assert path[..n][i] == path[i];
      }
    }
  }

  /** A correct lookup index agrees with the linear search. */
  lemma LookupAgreesWithScan(lookup: map<Tx, Entry>, bodies: Bodies, path: seq<Hash>, tx: Tx)
    requires LookupIsScan(lookup, bodies, path)
    ensures Scan(bodies, path, tx) == if tx in lookup then Some(lookup[tx]) else None
  {
    ScanFinds(bodies, path, tx);
    if tx in lookup { assert TrueEntry(bodies, path, tx, lookup[tx]); }
  }

  // ---------------------------------------------------------------- branches

  /** The blocks of the path from its end down to number m, exclusive. */
  ghost predicate IsBranch(chain: seq<Block>, s: Store, bodies: Bodies, path: seq<Hash>, m: nat) {
    && m < |path| && |chain| == |path| - 1 - m
    && forall k :: 0 <= k < |chain| ==> IsBlock(chain[k], s, bodies, path, |path| - 1 - k)
  }

  predicate IsBlock(b: Block, s: Store, bodies: Bodies, path: seq<Hash>, i: int) {
    && 0 <= i < |path| && path[i] in s && path[i] in bodies
    && b == Block(s[path[i]], bodies[path[i]]) && b.header.hash == path[i] && b.header.number == i
  }

  /** The transactions of a list of blocks, in order. */
  function TxsOf(chain: seq<Block>): seq<Tx> {
    if chain == [] then [] else TxsOf(chain[..|chain| - 1]) + chain[|chain| - 1].txs
  }

  lemma {:induction false} TxsOfMember(chain: seq<Block>, tx: Tx)
    ensures tx in TxsOf(chain) <==> exists k :: 0 <= k < |chain| && tx in chain[k].txs
    decreases |chain|
  {
    if chain != [] {
      var m := |chain| - 1;
      TxsOfMember(chain[..m], tx);
      if tx in chain[m].txs {
      } else if k :| 0 <= k < |chain| && tx in chain[k].txs {
        assert chain[..m][k] == chain[k];
      }
    }
  }

  /** A transaction is in a branch exactly when it lies on the path above the branch point. */
  lemma BranchTxs(chain: seq<Block>, s: Store, bodies: Bodies, path: seq<Hash>, m: nat, tx: Tx)
    requires IsBranch(chain, s, bodies, path, m)
    ensures tx in TxsOf(chain) <==> exists i: nat, j: nat :: i > m && TxAt(bodies, path, i, j, tx)
  {
    TxsOfMember(chain, tx);
    if tx in TxsOf(chain) {
      var k :| 0 <= k < |chain| && tx in chain[k].txs;
      assert IsBlock(chain[k], s, bodies, path, |path| - 1 - k);
      var j :| 0 <= j < |chain[k].txs| && chain[k].txs[j] == tx;
      assert TxAt(bodies, path, |path| - 1 - k, j, tx);
    }
    if i: nat, j: nat :| i > m && TxAt(bodies, path, i, j, tx) {
      var k := |path| - 1 - i;
      assert IsBlock(chain[k], s, bodies, path, |path| - 1 - k);
    }
  }

  lemma BranchGrows(chain: seq<Block>, s: Store, bodies: Bodies, path: seq<Hash>, m: nat, b: Block)
    requires IsBranch(chain, s, bodies, path, m) && m > 0 && IsBlock(b, s, bodies, path, m)
    ensures IsBranch(chain + [b], s, bodies, path, m - 1)
    ensures TxsOf(chain + [b]) == TxsOf(chain) + b.txs
  {
    assert (chain + [b])[..|chain|] == chain;
  }

  /** The lookup index after a reorganisation: new branch entered, what only the old branch had removed, rest kept. */
  ghost predicate Switched(lookup: map<Tx, Entry>, lookup': map<Tx, Entry>, bodies: Bodies, path: seq<Hash>, c: nat,
                           gone: set<Tx>) {
    && (forall i: nat, j: nat, tx :: i > c && TxAt(bodies, path, i, j, tx) ==>
      tx in lookup' && lookup'[tx] == Entry(path[i], i, j))
    && (forall tx :: OffBranch(bodies, path, c, tx) ==> SwitchedAt(lookup, lookup', gone, tx))
  }

  ghost predicate OffBranch(bodies: Bodies, path: seq<Hash>, c: nat, tx: Tx) {
    forall i: nat, j: nat :: i > c ==> !TxAt(bodies, path, i, j, tx)
  }

  predicate SwitchedAt(lookup: map<Tx, Entry>, lookup': map<Tx, Entry>, gone: set<Tx>, tx: Tx) {
    if tx in lookup && tx !in gone then tx in lookup' && lookup'[tx] == lookup[tx] else tx !in lookup'
  }

  /** After a reorganisation the lookup index is again what a scan of the new chain finds. */
  lemma SwitchedIsScan(lookup: map<Tx, Entry>, lookup': map<Tx, Entry>, bodies: Bodies, was: seq<Hash>,
                       path: seq<Hash>, c: nat, gone: set<Tx>)
    requires LookupIsScan(lookup, bodies, was) && UniqueTxs(bodies, path)
    requires c < |was| && c < |path| && was[..c + 1] == path[..c + 1]
    requires Switched(lookup, lookup', bodies, path, c, gone)
    requires forall tx :: tx in gone <==> OffBranch(bodies, path, c, tx) && !OffBranch(bodies, was, c, tx)
    ensures LookupIsScan(lookup', bodies, path)
  {
    forall i: nat, j: nat, tx | TxAt(bodies, path, i, j, tx)
      ensures tx in lookup' && lookup'[tx] == Entry(path[i], i, j)
    {
      if i <= c {
        CommonTx(bodies, was, path, c, i, j, tx);
        assert OffBranch(bodies, path, c, tx);
        assert TxAt(bodies, was, i, j, tx);
        assert tx in gone ==> !OffBranch(bodies, was, c, tx);
        ScanUnique(lookup, bodies, was, c, i, j, tx);
        assert SwitchedAt(lookup, lookup', gone, tx);
      }
    }
    forall tx | tx in lookup' ensures TrueEntry(bodies, path, tx, lookup'[tx]) {
      if OffBranch(bodies, path, c, tx) {
        assert SwitchedAt(lookup, lookup', gone, tx);
        var e := lookup[tx];
        assert TrueEntry(bodies, was, tx, e);
        assert e.number <= c;
        CommonTx(bodies, path, was, c, e.number, e.index, tx);
      }
    }
  }

  /** Below the fork both paths hold the same transactions. */
  lemma CommonTx(bodies: Bodies, was: seq<Hash>, path: seq<Hash>, c: nat, i: nat, j: nat, tx: Tx)
    requires c < |was| && c < |path| && was[..c + 1] == path[..c + 1] && i <= c
    requires TxAt(bodies, path, i, j, tx)
    ensures TxAt(bodies, was, i, j, tx) && was[i] == path[i]
  {
    assert was[i] == was[..c + 1][i] && path[i] == path[..c + 1][i];
  }

  /** A correct index leaves no room for a second position. */
  lemma ScanUnique(lookup: map<Tx, Entry>, bodies: Bodies, path: seq<Hash>, c: nat, i: nat, j: nat, tx: Tx)
    requires LookupIsScan(lookup, bodies, path) && TxAt(bodies, path, i, j, tx) && i <= c
    ensures OffBranch(bodies, path, c, tx)
  {
  }

  // ---------------------------------------------------------------- entering blocks

  /** The lookup index with the first n transactions of the block entered. */
  function WithEntries(lookup: map<Tx, Entry>, b: Block, n: nat): map<Tx, Entry>
    requires n <= |b.txs|
  {
    if n == 0 then lookup
    else WithEntries(lookup, b, n - 1)[b.txs[n - 1] := Entry(b.header.hash, b.header.number, n - 1)]
  }

  /** The lookup index with a list of blocks entered, in order. */
  function WithBlocks(lookup: map<Tx, Entry>, chain: seq<Block>): map<Tx, Entry> {
    if chain == [] then lookup
    else
      var b := chain[|chain| - 1];
      WithEntries(WithBlocks(lookup, chain[..|chain| - 1]), b, |b.txs|)
  }

  /** The canonical index with a list of blocks entered, in order. */
  function WithNumbers(canonical: map<nat, Hash>, chain: seq<Block>): map<nat, Hash> {
    if chain == [] then canonical
    else
      var b := chain[|chain| - 1];
      WithNumbers(canonical, chain[..|chain| - 1])[b.header.number := b.header.hash]
  }

  lemma {:induction false} WithEntriesHit(lookup: map<Tx, Entry>, b: Block, n: nat, j: nat)
    requires j < n <= |b.txs| && forall k :: j < k < n ==> b.txs[k] != b.txs[j]
    ensures b.txs[j] in WithEntries(lookup, b, n)
    ensures WithEntries(lookup, b, n)[b.txs[j]] == Entry(b.header.hash, b.header.number, j)
    decreases n
  {
    if j < n - 1 { WithEntriesHit(lookup, b, n - 1, j); }
  }

  lemma {:induction false} WithEntriesMiss(lookup: map<Tx, Entry>, b: Block, n: nat, tx: Tx)
    requires n <= |b.txs| && tx !in b.txs[..n]
    ensures tx in WithEntries(lookup, b, n) <==> tx in lookup
    ensures tx in lookup ==> WithEntries(lookup, b, n)[tx] == lookup[tx]
    decreases n
  {
    if n > 0 {
      assert b.txs[..n - 1] <= b.txs[..n];
      assert b.txs[n - 1] in b.txs[..n];
      WithEntriesMiss(lookup, b, n - 1, tx);
    }
  }

  lemma {:induction false} WithEntriesAgain(lookup: map<Tx, Entry>, b: Block, n: nat)
    requires n <= |b.txs|
    requires forall j :: 0 <= j < n ==>
               b.txs[j] in lookup && lookup[b.txs[j]] == Entry(b.header.hash, b.header.number, j)
    ensures WithEntries(lookup, b, n) == lookup
    decreases n
  {
    if n > 0 { WithEntriesAgain(lookup, b, n - 1); }
  }

  lemma BranchShrinks(chain: seq<Block>, s: Store, bodies: Bodies, path: seq<Hash>, m: nat)
    requires IsBranch(chain, s, bodies, path, m) && chain != []
    ensures IsBranch(chain[..|chain| - 1], s, bodies, path, m + 1)
    ensures IsBlock(chain[|chain| - 1], s, bodies, path, m + 1)
  {
    assert IsBlock(chain[|chain| - 1], s, bodies, path, |path| - 1 - (|chain| - 1));
  }

  /** Transactions of the entered branch get their true position ... */
  lemma {:induction false} EnteredOn(lookup: map<Tx, Entry>, chain: seq<Block>, s: Store, bodies: Bodies,
                                     path: seq<Hash>, m: nat, i: nat, j: nat, tx: Tx)
    requires IsBranch(chain, s, bodies, path, m) && UniqueTxs(bodies, path)
    requires i > m && TxAt(bodies, path, i, j, tx)
    ensures tx in WithBlocks(lookup, chain) && WithBlocks(lookup, chain)[tx] == Entry(path[i], i, j)
    decreases |chain|
  {
    BranchShrinks(chain, s, bodies, path, m);
    var b := chain[|chain| - 1];
    var before := WithBlocks(lookup, chain[..|chain| - 1]);
    if i == m + 1 {
      forall k | j < k < |b.txs| ensures b.txs[k] != b.txs[j] {
        if b.txs[k] == tx { assert TxAt(bodies, path, i, k, tx); }
      }
      WithEntriesHit(before, b, |b.txs|, j);
    } else {
      EnteredOn(lookup, chain[..|chain| - 1], s, bodies, path, m + 1, i, j, tx);
      NotInBlock(b, s, bodies, path, m + 1, i, j, tx);
      WithEntriesMiss(before, b, |b.txs|, tx);
    }
  }

  lemma NotInBlock(b: Block, s: Store, bodies: Bodies, path: seq<Hash>, n: nat, i: nat, j: nat, tx: Tx)
    requires IsBlock(b, s, bodies, path, n) && UniqueTxs(bodies, path) && TxAt(bodies, path, i, j, tx) && i != n
    ensures tx !in b.txs[..|b.txs|]
  {
    if tx in b.txs[..|b.txs|] {
      var k :| 0 <= k < |b.txs| && b.txs[k] == tx;
      assert TxAt(bodies, path, n, k, tx);
      assert false;
    }
  }

  /** ... and all others keep what they had. */
  lemma {:induction false} EnteredOff(lookup: map<Tx, Entry>, chain: seq<Block>, s: Store, bodies: Bodies,
                                      path: seq<Hash>, m: nat, tx: Tx)
    requires IsBranch(chain, s, bodies, path, m) && OffBranch(bodies, path, m, tx)
    ensures tx in WithBlocks(lookup, chain) <==> tx in lookup
    ensures tx in lookup ==> WithBlocks(lookup, chain)[tx] == lookup[tx]
    decreases |chain|
  {
    if chain != [] {
      BranchShrinks(chain, s, bodies, path, m);
      var b := chain[|chain| - 1];
      EnteredOff(lookup, chain[..|chain| - 1], s, bodies, path, m + 1, tx);
      assert tx !in b.txs[..|b.txs|] by {
        if tx in b.txs[..|b.txs|] {
          var k :| 0 <= k < |b.txs| && b.txs[k] == tx;
          assert TxAt(bodies, path, m + 1, k, tx);
          assert false;
        }
      }
      WithEntriesMiss(WithBlocks(lookup, chain[..|chain| - 1]), b, |b.txs|, tx);
    }
  }

  /** The canonical index after a branch has been entered. */
  lemma {:induction false} NumbersEntered(canonical: map<nat, Hash>, chain: seq<Block>, s: Store, bodies: Bodies,
                                          path: seq<Hash>, m: nat, i: nat)
    requires IsBranch(chain, s, bodies, path, m)
    ensures m < i < |path| ==> i in WithNumbers(canonical, chain) && WithNumbers(canonical, chain)[i] == path[i]
    ensures i <= m || i >= |path| ==> SameNumber(canonical, WithNumbers(canonical, chain), i)
    decreases |chain|
  {
    if chain != [] {
      BranchShrinks(chain, s, bodies, path, m);
      NumbersEntered(canonical, chain[..|chain| - 1], s, bodies, path, m + 1, i);
    }
  }

  /** `types.TxDifference`: the members of a that are not in b */
  function TxDifference(a: seq<Tx>, b: seq<Tx>): (d: seq<Tx>)
    ensures forall tx :: tx in d <==> tx in a && tx !in b
  {
    if a == [] then []
    else
      var d := TxDifference(a[..|a| - 1], b);
      var x := a[|a| - 1];
      assert a == a[..|a| - 1] + [x];
      if x in b then d else d + [x]
  }

  // ---------------------------------------------------------------- the chain

  datatype Status = Canonical | SideChain | Known | NoAncestor | BadState | InvalidChain

  /** Blocks and total difficulties: every stored block has its parent, its body and its summed difficulty;
      a total difficulty may be left over from a block whose state did not commit. */
  ghost predicate BlocksOk(g: Header, s: Store, bodies: Bodies, tds: map<Hash, Td>) {
    Rooted(s, g) && bodies.Keys == s.Keys && TdsAreWeights(s, g, tds)
  }

  /** The indexes agree with a plain walk of the parent links from the head. */
  ghost predicate HeadOk(g: Header, s: Store, bodies: Bodies, canonical: map<nat, Hash>, lookup: map<Tx, Entry>,
                         head: Block)
    requires Rooted(s, g)
  {
    && IsStored(s, bodies, head)
    && var path := Path(s, g, head.header.hash);
    && CanonicalUpTo(canonical, path)
    && LookupIsScan(lookup, bodies, path)
  }

  predicate IsStored(s: Store, bodies: Bodies, b: Block) {
    && b.header.hash in s && s[b.header.hash] == b.header
    && b.header.hash in bodies && bodies[b.header.hash] == b.txs
  }

  /** What a reorganisation from `was` to `path` does to the two indexes. */
  ghost predicate Reorganised(s: Store, bodies: Bodies, was: seq<Hash>, path: seq<Hash>, c: nat,
                              canonical: map<nat, Hash>, lookup: map<Tx, Entry>,
                              canonical': map<nat, Hash>, lookup': map<Tx, Entry>)
  {
    exists oldChain, newChain ::
      && IsBranch(oldChain, s, bodies, was, c) && IsBranch(newChain, s, bodies, path, c)
      && canonical' == WithNumbers(canonical, newChain)
      && lookup' == WithBlocks(lookup, newChain) - (set tx | tx in TxDifference(TxsOf(oldChain), TxsOf(newChain)))
  }

  /** After a reorganisation both indexes are those of the new path; below the fork nothing has changed. */
  lemma ReorganisedOk(s: Store, bodies: Bodies, was: seq<Hash>, path: seq<Hash>, c: nat,
                      canonical: map<nat, Hash>, lookup: map<Tx, Entry>,
                      canonical': map<nat, Hash>, lookup': map<Tx, Entry>)
    requires CanonicalUpTo(canonical, was) && LookupIsScan(lookup, bodies, was) && UniqueTxs(bodies, path)
    requires c < |was| && c < |path| && was[..c + 1] == path[..c + 1]
    requires Reorganised(s, bodies, was, path, c, canonical, lookup, canonical', lookup')
    ensures CanonicalUpTo(canonical', path) && LookupIsScan(lookup', bodies, path)
    ensures forall i: nat :: i <= c || i >= |path| ==> SameNumber(canonical, canonical', i)
  {
    var oldChain, newChain :|
      && IsBranch(oldChain, s, bodies, was, c) && IsBranch(newChain, s, bodies, path, c)
      && canonical' == WithNumbers(canonical, newChain)
      && lookup' == WithBlocks(lookup, newChain) - (set tx | tx in TxDifference(TxsOf(oldChain), TxsOf(newChain)));
    forall i: nat ensures CanonicalAt(canonical', path, i)
      ensures i <= c || i >= |path| ==> SameNumber(canonical, canonical', i)
    {
      NumbersEntered(canonical, newChain, s, bodies, path, c, i);
      if i <= c {
        assert CanonicalAt(canonical, was, i);
        assert was[i] == was[..c + 1][i] && path[i] == path[..c + 1][i];
      }
    }
    var gone := set tx | tx in TxDifference(TxsOf(oldChain), TxsOf(newChain));
    forall tx ensures tx in gone <==> OffBranch(bodies, path, c, tx) && !OffBranch(bodies, was, c, tx) {
      BranchTxs(oldChain, s, bodies, was, c, tx);
      BranchTxs(newChain, s, bodies, path, c, tx);
    }
    LookupSwitched(lookup, newChain, s, bodies, path, c, gone);
    SwitchedIsScan(lookup, lookup', bodies, was, path, c, gone);
  }

  lemma LookupSwitched(lookup: map<Tx, Entry>, chain: seq<Block>, s: Store, bodies: Bodies, path: seq<Hash>, c: nat,
                       gone: set<Tx>)
    requires IsBranch(chain, s, bodies, path, c) && UniqueTxs(bodies, path)
    requires forall tx :: tx in gone ==> OffBranch(bodies, path, c, tx)
    ensures Switched(lookup, WithBlocks(lookup, chain) - gone, bodies, path, c, gone)
  {
    var lookup' := WithBlocks(lookup, chain) - gone;
    forall i: nat, j: nat, tx | i > c && TxAt(bodies, path, i, j, tx)
      ensures tx in lookup' && lookup'[tx] == Entry(path[i], i, j)
    {
      EnteredOn(lookup, chain, s, bodies, path, c, i, j, tx);
      assert tx in gone ==> OffBranch(bodies, path, c, tx);
    }
    forall tx | OffBranch(bodies, path, c, tx) ensures SwitchedAt(lookup, lookup', gone, tx) {
      EnteredOff(lookup, chain, s, bodies, path, c, tx);
    }
  }

  /** The first n members of the path are in the database. */
  ghost predicate InDatabase(s: Store, path: seq<Hash>, n: nat) {
    n <= |path| && forall i :: 0 <= i < n ==> path[i] in s
  }

  /** The database s, b with one more block, not yet written. */
  ghost predicate WithBlock(s: Store, b: Bodies, block: Block, s': Store, b': Bodies) {
    && block.header.hash !in s && b.Keys == s.Keys
    && s' == s[block.header.hash := block.header] && b' == b[block.header.hash := block.txs]
  }

  class BlockChain {
    const genesis: Header
    // database
    var headers: Store
    var bodies: Bodies
    var tds: map<Hash, Td>
    var canonical: map<nat, Hash>
    var lookup: map<Tx, Entry>
    // memory, with the head of the header chain and the head of fast synchronisation
    var currentBlock: Block
    var headHeader: Header
    var fastBlock: Block

    ghost predicate Valid()
      reads this
    {
      && BlocksOk(genesis, headers, bodies, tds)
      && HeadOk(genesis, headers, bodies, canonical, lookup, currentBlock)
      && HeaviestIn(genesis, headers, currentBlock.header)
    }

    constructor (g: Header)
      requires g.number == 0 && g.hash != ZERO_HASH
      ensures genesis == g && Valid() && headers == map[g.hash := g]
      ensures headHeader == fastBlock.header == currentBlock.header
    {
      genesis := g;
      headers, bodies, tds := map[g.hash := g], map[g.hash := []], map[g.hash := Td(0, g.difficulty)];
      canonical, lookup, currentBlock := map[0 := g.hash], map[], Block(g, []);
      headHeader, fastBlock := g, Block(g, []);
    }

    /** `GetBlock` */
    function GetBlock(hash: Hash, number: int): Option<Block>
      reads this
    {
      if hash in headers && headers[hash].number == number && hash in bodies
      then Some(Block(headers[hash], bodies[hash])) else None
    }

    /** `insert`: the other heads move along only if the block was not already the canonical one of its number. */
    method Insert(block: Block, force: bool)
      modifies this`canonical, this`currentBlock, this`headHeader, this`fastBlock
      ensures canonical == old(canonical)[block.header.number := block.header.hash] && currentBlock == block
      ensures var known := block.header.number in old(canonical)
                           && old(canonical)[block.header.number] == block.header.hash;
        && headHeader == (if force || !known then block.header else old(headHeader))
        && fastBlock == (if force || !known then block else old(fastBlock))
    {
      var updateHeads := Changes(canonical, block);
      canonical := canonical[block.header.number := block.header.hash];
      currentBlock := block;
      if updateHeads || force {
        headHeader := block.header;
        fastBlock := block;
      }
    }

    /** `WriteTxLookupEntries` */
    method WriteTxLookupEntries(block: Block)
      modifies this`lookup
      ensures lookup == WithEntries(old(lookup), block, |block.txs|)
    {
      for i := 0 to |block.txs|
        invariant lookup == WithEntries(old(lookup), block, i)
      {
        lookup := lookup[block.txs[i] := Entry(block.header.hash, block.header.number, i)];
      }
    }

    /** The parent of a block on a path whose lower part is in the database is found there. */
    lemma ParentFound(block: Block, s: Store, b: Bodies, path: seq<Hash>, newBlock: Block)
      requires WithBlock(headers, bodies, newBlock, s, b) && Linked(s, path) && Addressed(s)
      requires block.header.number > 0 && IsBlock(block, s, b, path, block.header.number)
      requires InDatabase(headers, path, block.header.number)
      ensures GetBlock(block.header.parent, block.header.number - 1).Some?
      ensures IsBlock(GetBlock(block.header.parent, block.header.number - 1).value, s, b, path, block.header.number - 1)
    {
      assert LinkAt(s, path, block.header.number) && LinkAt(s, path, block.header.number - 1);
    }

    /** The first loops of `reorg`: walk the higher branch down to a given number, collecting it. */
    method Lower(top: Block, number: nat, ghost newBlock: Block, ghost s: Store, ghost b: Bodies, ghost path: seq<Hash>)
        returns (x: Option<Block>, chain: seq<Block>, txs: seq<Tx>)
      requires WithBlock(headers, bodies, newBlock, s, b) && Linked(s, path) && Addressed(s)
      requires |path| > 0 && number < |path| && IsBlock(top, s, b, path, |path| - 1)
      requires InDatabase(headers, path, |path| - 1)
      ensures x.Some? && IsBlock(x.value, s, b, path, number)
      ensures IsBranch(chain, s, b, path, number) && txs == TxsOf(chain)
    {
      var y := top;
      chain, txs := [], [];
      while y.header.number != number
        invariant number <= y.header.number < |path| && IsBlock(y, s, b, path, y.header.number)
        invariant IsBranch(chain, s, b, path, y.header.number) && txs == TxsOf(chain)
        decreases y.header.number
      {
        BranchGrows(chain, s, b, path, y.header.number, y);
        chain := chain + [y];
        txs := txs + y.txs;
        ParentFound(y, s, b, path, newBlock);
        x := GetBlock(y.header.parent, y.header.number - 1);
        if x.None? { return; }
        y := x.value;
      }
      x := Some(y);
    }

    /** The main loop of `reorg`: walk both branches down until they meet, collecting them. */
    method WalkDown(x0: Block, y0: Block, oldChain0: seq<Block>, newChain0: seq<Block>, deletedTxs0: seq<Tx>,
                ghost newBlock: Block, ghost s: Store, ghost b: Bodies, ghost was: seq<Hash>, ghost path: seq<Hash>)
        returns (common: Option<Block>, oldChain: seq<Block>, newChain: seq<Block>, deletedTxs: seq<Tx>)
      requires WithBlock(headers, bodies, newBlock, s, b) && Linked(s, was) && Linked(s, path) && Addressed(s)
      requires x0.header.number == y0.header.number
      requires IsBlock(x0, s, b, was, x0.header.number) && IsBlock(y0, s, b, path, x0.header.number)
      requires was[0] == path[0]
      requires InDatabase(headers, was, x0.header.number) && InDatabase(headers, path, x0.header.number)
      requires IsBranch(oldChain0, s, b, was, x0.header.number) && deletedTxs0 == TxsOf(oldChain0)
      requires IsBranch(newChain0, s, b, path, x0.header.number)
      ensures common.Some? && common.value.header.number <= x0.header.number && deletedTxs == TxsOf(oldChain)
      ensures IsBlock(common.value, s, b, was, common.value.header.number)
      ensures IsBlock(common.value, s, b, path, common.value.header.number)
      ensures IsBranch(oldChain, s, b, was, common.value.header.number)
      ensures IsBranch(newChain, s, b, path, common.value.header.number)
      ensures forall i :: common.value.header.number < i <= x0.header.number ==> was[i] != path[i]
    {
      var x, y := x0, y0;
      oldChain, newChain, deletedTxs := oldChain0, newChain0, deletedTxs0;
      while x.header.hash != y.header.hash
        invariant x.header.number == y.header.number <= x0.header.number
        invariant IsBlock(x, s, b, was, x.header.number) && IsBlock(y, s, b, path, x.header.number)
        invariant IsBranch(oldChain, s, b, was, x.header.number) && deletedTxs == TxsOf(oldChain)
        invariant IsBranch(newChain, s, b, path, x.header.number)
        invariant forall i :: x.header.number < i <= x0.header.number ==> was[i] != path[i]
        decreases x.header.number
      {
        BranchGrows(oldChain, s, b, was, x.header.number, x);
        BranchGrows(newChain, s, b, path, y.header.number, y);
        oldChain, newChain := oldChain + [x], newChain + [y];
        deletedTxs := deletedTxs + x.txs;
        ParentFound(x, s, b, was, newBlock);
        ParentFound(y, s, b, path, newBlock);
        common := GetBlock(x.header.parent, x.header.number - 1);
        var other := GetBlock(y.header.parent, y.header.number - 1);
        if common.None? || other.None? { return; }
        x, y := common.value, other.value;
      }
      common := Some(x);
    }

    /** The walk of `reorg` to the common ancestor. */
    method FindFork(oldBlock: Block, newBlock: Block, ghost s: Store, ghost b: Bodies, ghost was: seq<Hash>,
                    ghost path: seq<Hash>)
        returns (common: Option<Block>, oldChain: seq<Block>, newChain: seq<Block>, deletedTxs: seq<Tx>)
      requires WithBlock(headers, bodies, newBlock, s, b) && Linked(s, was) && Linked(s, path) && Addressed(s)
      requires |was| > 0 && |path| > 0 && was[0] == path[0]
      requires IsBlock(oldBlock, s, b, was, |was| - 1) && IsBlock(newBlock, s, b, path, |path| - 1)
      requires InDatabase(headers, was, |was|) && InDatabase(headers, path, |path| - 1)
      ensures common.Some? && deletedTxs == TxsOf(oldChain)
      ensures IsBlock(common.value, s, b, was, common.value.header.number)
      ensures IsBlock(common.value, s, b, path, common.value.header.number)
      ensures IsBranch(oldChain, s, b, was, common.value.header.number)
      ensures IsBranch(newChain, s, b, path, common.value.header.number)
      ensures forall i :: common.value.header.number < i < |was| && i < |path| ==> was[i] != path[i]
    {
      var x, y := Some(oldBlock), Some(newBlock);
      oldChain, newChain, deletedTxs := [], [], [];
      if oldBlock.header.number > newBlock.header.number {
        x, oldChain, deletedTxs := Lower(oldBlock, newBlock.header.number, newBlock, s, b, was);
      } else {
        var addedTxs;
        y, newChain, addedTxs := Lower(newBlock, oldBlock.header.number, newBlock, s, b, path);
      }
      common := None;
      if x.Some? && y.Some? {
        common, oldChain, newChain, deletedTxs :=
          WalkDown(x.value, y.value, oldChain, newChain, deletedTxs, newBlock, s, b, was, path);
      }
    }

    /** The rest of `reorg`: enter the new branch from its end downwards, then drop what only the old branch had. */
    method SwitchTo(newChain: seq<Block>, deletedTxs: seq<Tx>)
      modifies this`canonical, this`lookup, this`currentBlock, this`headHeader, this`fastBlock
      ensures canonical == WithNumbers(old(canonical), newChain)
      ensures HeadsMoved(Mover(old(canonical), newChain), old(headHeader), old(fastBlock), headHeader, fastBlock)
      ensures lookup == WithBlocks(old(lookup), newChain) - (set tx | tx in TxDifference(deletedTxs, TxsOf(newChain)))
    {
      var addedTxs := [];
      ghost var header, fast := headHeader, fastBlock;
      for k := 0 to |newChain|
        invariant canonical == WithNumbers(old(canonical), newChain[..k])
        invariant HeadsMoved(Mover(old(canonical), newChain[..k]), header, fast, headHeader, fastBlock)
        invariant lookup == WithBlocks(old(lookup), newChain[..k])
        invariant addedTxs == TxsOf(newChain[..k])
      {
        assert newChain[..k + 1][..k] == newChain[..k];
        Insert(newChain[k], false);
        WriteTxLookupEntries(newChain[k]);
        addedTxs := addedTxs + newChain[k].txs;
      }
      assert newChain[..|newChain|] == newChain;
      var diff := TxDifference(deletedTxs, addedTxs);
      ghost var entered := lookup;
      for k := 0 to |diff|
        invariant lookup == entered - (set tx | tx in diff[..k]) && canonical == WithNumbers(old(canonical), newChain)
        invariant HeadsMoved(Mover(old(canonical), newChain), header, fast, headHeader, fastBlock)
      {
        assert diff[..k + 1] == diff[..k] + [diff[k]];
        lookup := lookup - {diff[k]};
      }
      assert diff[..|diff|] == diff;
    }

    /** `reorg` */
    method Reorg(oldBlock: Block, newBlock: Block, ghost s: Store, ghost b: Bodies, ghost was: seq<Hash>,
                 ghost path: seq<Hash>)
        returns (ok: bool, ghost c: nat)
      requires WithBlock(headers, bodies, newBlock, s, b) && Linked(s, was) && Linked(s, path) && Addressed(s)
      requires |was| > 0 && |path| > 0 && was[0] == path[0]
      requires IsBlock(oldBlock, s, b, was, |was| - 1) && IsBlock(newBlock, s, b, path, |path| - 1)
      requires InDatabase(headers, was, |was|) && InDatabase(headers, path, |path| - 1)
      modifies this`canonical, this`lookup, this`currentBlock, this`headHeader, this`fastBlock
      ensures ok && Fork(was, path, c)
      ensures c + 1 < |path| && Unlike(old(canonical), path, c + 1) ==>
                HeadsAt(headHeader, fastBlock, s, b, path, c + 1)
      ensures Reorganised(s, b, was, path, c, old(canonical), old(lookup), canonical, lookup)
    {
      var common, oldChain, newChain, deletedTxs := FindFork(oldBlock, newBlock, s, b, was, path);
      ok, c := common.Some?, common.value.header.number;
      if ok {
        if c + 1 < |path| && Unlike(canonical, path, c + 1) { LowestMoves(canonical, newChain, s, b, path, c); }
        SwitchTo(newChain, deletedTxs);
      }
    }

    /** `GetTxLookupEntry` and `GetTransaction` */
    method GetTransaction(tx: Tx) returns (r: Option<Entry>)
      requires Valid()
      ensures r == Scan(bodies, Path(headers, genesis, currentBlock.header.hash), tx)
    {
      LookupAgreesWithScan(lookup, bodies, Path(headers, genesis, currentBlock.header.hash), tx);
      if tx !in lookup {
        return None;
      }
      var e := lookup[tx];
      assert TrueEntry(bodies, Path(headers, genesis, currentBlock.header.hash), tx, e);
      if e.block !in bodies || |bodies[e.block]| <= e.index {
        return None;
      }
      return Some(e);
    }

    /** `WriteBlockAndState`; `commits` says whether the state commits to the root in the header.  A parent may have
        nothing but a total difficulty, left over from a failed commit.  Then a block that would be the new head is
        refused, and one that would not be is stored without its parent. */
    method WriteBlockAndState(block: Block, commits: bool) returns (status: Status, ghost c: nat)
      requires Valid() && block.header.hash != ZERO_HASH
      requires block.header.parent in tds ==> block.header.number == tds[block.header.parent].number + 1
      requires block.header.parent in headers && block.header.hash !in headers ==>
        UniqueTxs(bodies[block.header.hash := block.txs],
          Path(headers, genesis, block.header.parent) + [block.header.hash])
      modifies this
      ensures Valid() <==> !(status == SideChain && block.header.parent !in old(headers))
      ensures status == NoAncestor <==> block.header.parent !in old(tds)
      ensures status == Known <==> block.header.parent in old(tds) && block.header.hash in old(headers)
      ensures status in {NoAncestor, Known} ==> unchanged(this)
      ensures status !in {NoAncestor, Known} ==> tds == old(tds)[block.header.hash := TdBehind(old(tds), block.header)]
      ensures status == BadState <==> status !in {NoAncestor, Known} && !commits
      ensures status in {BadState, InvalidChain} ==> unchanged(`headers, `bodies, `canonical, `lookup, `currentBlock)
      ensures status in {Canonical, InvalidChain} ==> (status == Canonical <==> block.header.parent in old(headers))
      ensures status in {Canonical, InvalidChain} ==>
        TdBehind(old(tds), block.header).total >= old(tds)[old(currentBlock).header.hash].total
      ensures status == SideChain ==>
                TdBehind(old(tds), block.header).total <= old(tds)[old(currentBlock).header.hash].total
      ensures status in {Canonical, SideChain} ==> WithBlock(old(headers), old(bodies), block, headers, bodies)
      ensures status == SideChain ==> unchanged(`canonical, `lookup, `currentBlock)
      ensures status == Canonical ==> currentBlock == block
      ensures status == Canonical ==>
                forall i: nat :: i > block.header.number ==> SameNumber(old(canonical), canonical, i)
      ensures status != Canonical ==> unchanged(`headHeader, `fastBlock)
      ensures status == Canonical ==>
        HeadsAfter(genesis, headers, bodies, old(canonical), old(currentBlock), block, c, headHeader, fastBlock)
    {
      var hash := block.header.hash;
      c := 0;
      if block.header.parent !in tds {
        return NoAncestor, c;
      }
      if hash in bodies && hash in headers {
        return Known, c;
      }
      var externTd := block.header.difficulty + tds[block.header.parent].total;
      assert TdOk(headers, genesis, tds, block.header.parent);
      if !commits {
        TdLeftOver(genesis, headers, tds, hash, Td(block.header.number, externTd));
        tds := tds[hash := Td(block.header.number, externTd)];
        return BadState, c;
      }
      if block.header.parent in headers {
        status, c := AddBlock(block, externTd);
      } else {
        status := AddOrphan(block, externTd);
      }
    }

    /** The same where the parent is not stored. */
    method AddOrphan(block: Block, externTd: nat) returns (status: Status)
      requires Valid() && block.header.hash !in headers && block.header.parent !in headers && block.header.number > 0
      modifies this
      ensures tds == old(tds)[block.header.hash := Td(block.header.number, externTd)]
      ensures (status == InvalidChain || status == SideChain) && unchanged(`headHeader, `fastBlock)
      ensures status == InvalidChain ==>
        Valid() && unchanged(`headers, `bodies, `canonical, `lookup, `currentBlock)
        && externTd >= old(tds)[currentBlock.header.hash].total
      ensures status == SideChain ==>
        !Valid() && unchanged(`canonical, `lookup, `currentBlock)
          && WithBlock(old(headers), old(bodies), block, headers, bodies)
        && externTd <= old(tds)[currentBlock.header.hash].total
    {
      var hash := block.header.hash;
      var localTd := tds[currentBlock.header.hash].total;
      TdLeftOver(genesis, headers, tds, hash, Td(block.header.number, externTd));
      tds := tds[hash := Td(block.header.number, externTd)];
      var coin: bool := *;
      if externTd > localTd || (externTd == localTd && coin) {
        var ok := ReorgOrphan(block);
        return if ok then Canonical else InvalidChain;
      }
      headers, bodies := headers[hash := block.header], bodies[hash := block.txs];
      assert !HasParent(headers, hash);
      return SideChain;
    }

    /** `reorg` to a block whose parent is not stored: the walk ends at its first step down from that block. */
    method ReorgOrphan(newBlock: Block) returns (ok: bool)
      requires Valid() && newBlock.header.hash !in headers && newBlock.header.parent !in headers
      requires newBlock.header.number > 0
      ensures !ok
    {
      var x, y := Some(currentBlock), Some(newBlock);
      if currentBlock.header.number > newBlock.header.number {
        ghost var was := Path(headers, genesis, currentBlock.header.hash);
        ghost var s := headers[newBlock.header.hash := newBlock.header];
        ghost var b := bodies[newBlock.header.hash := newBlock.txs];
        StoredPath(genesis, headers, bodies, s, b, currentBlock, newBlock);
        var oldChain, deletedTxs;
        x, oldChain, deletedTxs := Lower(currentBlock, newBlock.header.number, newBlock, s, b, was);
        assert LinkAt(headers, was, newBlock.header.number);
      } else if newBlock.header.number > currentBlock.header.number {
        y := GetBlock(newBlock.header.parent, newBlock.header.number - 1);
      }
      if x.None? || y.None? {
        return false;
      }
      ok := x.value.header.hash == y.value.header.hash;
      if !ok {
        x := GetBlock(x.value.header.parent, x.value.header.number - 1);
        y := GetBlock(y.value.header.parent, y.value.header.number - 1);
        ok := x.Some? && y.Some?;
      }
    }

    /** The part of `WriteBlockAndState` after the state has committed: fork choice, and writing the block. */
    method AddBlock(block: Block, externTd: nat) returns (status: Status, ghost c: nat)
      requires Valid() && block.header.hash != ZERO_HASH && block.header.hash !in headers
      requires block.header.parent in headers && block.header.number == headers[block.header.parent].number + 1
      requires externTd == block.header.difficulty + tds[block.header.parent].total
      requires UniqueTxs(bodies[block.header.hash := block.txs],
                 Path(headers, genesis, block.header.parent) + [block.header.hash])
      modifies this
      ensures Valid() && status in {Canonical, SideChain}
      ensures tds == old(tds)[block.header.hash := Td(block.header.number, externTd)]
      ensures status == Canonical ==> externTd >= old(tds)[old(currentBlock).header.hash].total
      ensures status == SideChain ==> externTd <= old(tds)[old(currentBlock).header.hash].total
      ensures WithBlock(old(headers), old(bodies), block, headers, bodies)
      ensures status == SideChain ==> unchanged(`canonical, `lookup, `currentBlock)
      ensures status == Canonical ==> currentBlock == block
      ensures status == Canonical ==>
                forall i: nat :: i > block.header.number ==> SameNumber(old(canonical), canonical, i)
      ensures status == SideChain ==> unchanged(`headHeader, `fastBlock)
      ensures status == Canonical ==>
        HeadsAfter(genesis, headers, bodies, old(canonical), old(currentBlock), block, c, headHeader, fastBlock)
    {
      var hash := block.header.hash;
      var localTd := tds[currentBlock.header.hash].total;
      var s, b := headers[hash := block.header], bodies[hash := block.txs];
      BlockAdded(genesis, headers, bodies, tds, canonical, lookup, currentBlock, block, externTd);
      tds := tds[hash := Td(block.header.number, externTd)];
      var coin: bool := *;
      if externTd > localTd || (externTd == localTd && coin) {
        c := Promote(block, s, b);
        status := Canonical;
      } else {
        headers, bodies := s, b;
        status, c := SideChain, 0;
      }
    }

    /** The block becomes the head, and is written. */
    method Promote(block: Block, s: Store, b: Bodies) returns (ghost c: nat)
      requires WithBlock(headers, bodies, block, s, b) && Rooted(s, genesis)
      requires HeadOk(genesis, s, b, canonical, lookup, currentBlock)
      requires IsStored(headers, bodies, currentBlock) && block.header.number > 0
      requires InDatabase(headers, Path(s, genesis, currentBlock.header.hash),
                 |Path(s, genesis, currentBlock.header.hash)|)
      requires UniqueTxs(b, Path(s, genesis, block.header.hash))
      modifies this
      ensures headers == s && bodies == b && tds == old(tds) && currentBlock == block
      ensures HeadOk(genesis, s, b, canonical, lookup, block)
      ensures forall i: nat :: i > block.header.number ==> SameNumber(old(canonical), canonical, i)
      ensures HeadsAfter(genesis, s, b, old(canonical), old(currentBlock), block, c, headHeader, fastBlock)
    {
      c := MakeHead(block, s, b);
      headers, bodies := s, b;
      ghost var before := canonical;
      Insert(block, false);
      forall i: nat | i > block.header.number ensures SameNumber(old(canonical), canonical, i) {
        assert SameNumber(old(canonical), before, i);
      }
    }

    /** The canonical branch of `WriteBlockAndState`: reorganise unless the parent is the head, then enter the block. */
    method MakeHead(block: Block, ghost s: Store, ghost b: Bodies) returns (ghost c: nat)
      requires WithBlock(headers, bodies, block, s, b) && Rooted(s, genesis)
      requires HeadOk(genesis, s, b, canonical, lookup, currentBlock)
      requires IsStored(headers, bodies, currentBlock) && block.header.number > 0
      requires InDatabase(headers, Path(s, genesis, currentBlock.header.hash),
                 |Path(s, genesis, currentBlock.header.hash)|)
      requires UniqueTxs(b, Path(s, genesis, block.header.hash))
      modifies this`canonical, this`lookup, this`currentBlock, this`headHeader, this`fastBlock
      ensures HeadOk(genesis, s, b, canonical[block.header.number := block.header.hash], lookup, block)
      ensures forall i: nat :: i > block.header.number ==> SameNumber(old(canonical), canonical, i)
      ensures Fork(Path(s, genesis, old(currentBlock).header.hash), Path(s, genesis, block.header.hash), c)
      ensures block.header.parent == old(currentBlock).header.hash ==>
        unchanged(`canonical, `headHeader, `fastBlock) && c == old(currentBlock).header.number
      ensures block.header.parent != old(currentBlock).header.hash ==> !Changes(canonical, block)
      ensures c < old(currentBlock).header.number ==>
                HeadsAt(headHeader, fastBlock, s, b, Path(s, genesis, block.header.hash), c + 1)
    {
      if block.header.parent != currentBlock.header.hash {
        c := Switch(block, s, b);
        assert canonical[block.header.number := block.header.hash] == canonical;
      } else {
        ExtendedFork(genesis, s, currentBlock.header, block.header);
        Extended(genesis, s, b, canonical, lookup, currentBlock, block);
        WriteTxLookupEntries(block);
        c := currentBlock.header.number;
      }
    }

    /** The reorganisation that makes the block the head. */
    method Switch(block: Block, ghost s: Store, ghost b: Bodies) returns (ghost c: nat)
      requires WithBlock(headers, bodies, block, s, b) && Rooted(s, genesis)
      requires HeadOk(genesis, s, b, canonical, lookup, currentBlock)
      requires IsStored(headers, bodies, currentBlock) && block.header.number > 0
      requires InDatabase(headers, Path(s, genesis, currentBlock.header.hash),
                 |Path(s, genesis, currentBlock.header.hash)|)
      requires UniqueTxs(b, Path(s, genesis, block.header.hash))
      modifies this`canonical, this`lookup, this`currentBlock, this`headHeader, this`fastBlock
      ensures HeadOk(genesis, s, b, canonical, lookup, block) && !Changes(canonical, block)
      ensures forall i: nat :: i > block.header.number ==> SameNumber(old(canonical), canonical, i)
      ensures Fork(Path(s, genesis, old(currentBlock).header.hash), Path(s, genesis, block.header.hash), c)
      ensures c < old(currentBlock).header.number ==>
                HeadsAt(headHeader, fastBlock, s, b, Path(s, genesis, block.header.hash), c + 1)
    {
      ghost var was, path := Path(s, genesis, currentBlock.header.hash), Path(s, genesis, block.header.hash);
      ForkFacts(genesis, headers, bodies, s, b, currentBlock, block);
      var ok;
      ok, c := Reorg(currentBlock, block, s, b, was, path);
      PathsAgree(s, genesis, old(currentBlock).header.hash, block.header.hash, c);
      NewAtFork(headers, block.header.hash, was, path, c, old(canonical));
      ReorganisedOk(s, b, was, path, c, old(canonical), old(lookup), canonical, lookup);
      EnterAgain(s, b, genesis, canonical, lookup, block);
      WriteTxLookupEntries(block);
    }
  }

  /** Where two paths part: c is the last number they share. */
  ghost predicate Fork(was: seq<Hash>, path: seq<Hash>, c: nat) {
    && c < |was| && c < |path| && was[c] == path[c]
    && forall i :: c < i < |was| && i < |path| ==> was[i] != path[i]
  }

  /** Entering the block changes the canonical index. */
  predicate Changes(canonical: map<nat, Hash>, b: Block) {
    b.header.number !in canonical || canonical[b.header.number] != b.header.hash
  }

  predicate Unlike(canonical: map<nat, Hash>, path: seq<Hash>, i: nat)
    requires i < |path|
  {
    i !in canonical || canonical[i] != path[i]
  }

  /** The last block of the list whose entry changes the index, when they are entered in order. */
  function Mover(canonical: map<nat, Hash>, chain: seq<Block>): Option<Block> {
    if chain == [] then None
    else
      var front, last := chain[..|chain| - 1], chain[|chain| - 1];
      if Changes(WithNumbers(canonical, front), last) then Some(last) else Mover(canonical, front)
  }

  /** Both other heads are the block that moved them last, or are where they were. */
  predicate HeadsMoved(m: Option<Block>, header: Header, fast: Block, header': Header, fast': Block) {
    header' == (if m.Some? then m.value.header else header) && fast' == if m.Some? then m.value else fast
  }

  /** Where a new head leaves the other heads: with it when it extends the old head, but with the lowest block of its
      branch after a reorganisation that drops a block. */
  ghost predicate HeadsAfter(g: Header, s: Store, bodies: Bodies, canonical: map<nat, Hash>, was: Block, block: Block,
                             c: nat, header: Header, fast: Block)
    requires Rooted(s, g) && was.header.hash in s && block.header.hash in s
  {
    && Fork(Path(s, g, was.header.hash), Path(s, g, block.header.hash), c)
    && (c < was.header.number ==> HeadsAt(header, fast, s, bodies, Path(s, g, block.header.hash), c + 1))
    && (block.header.parent == was.header.hash && Changes(canonical, block) ==> header == block.header && fast == block)
  }

  /** Both other heads are block i of the path. */
  predicate HeadsAt(header: Header, fast: Block, s: Store, bodies: Bodies, path: seq<Hash>, i: nat) {
    IsBlock(fast, s, bodies, path, i) && header == fast.header
  }

  /** A branch is entered from its end downwards, so its lowest block moves the other heads last. */
  lemma LowestMoves(canonical: map<nat, Hash>, chain: seq<Block>, s: Store, bodies: Bodies, path: seq<Hash>, c: nat)
    requires IsBranch(chain, s, bodies, path, c) && c + 1 < |path| && Unlike(canonical, path, c + 1)
    ensures Mover(canonical, chain).Some? && IsBlock(Mover(canonical, chain).value, s, bodies, path, c + 1)
  {
    var front, last := chain[..|chain| - 1], chain[|chain| - 1];
    assert IsBlock(last, s, bodies, path, c + 1);
    BranchShrinks(chain, s, bodies, path, c);
    NumbersEntered(canonical, front, s, bodies, path, c + 1, c + 1);
  }

  /** After a reorganisation that drops a block the other heads are with the new head exactly if its branch is that
      one block. */
  lemma HeadsFollowExactly(g: Header, s: Store, bodies: Bodies, canonical: map<nat, Hash>, was: Block, block: Block,
                           c: nat, header: Header, fast: Block)
    requires Rooted(s, g) && was.header.hash in s && IsStored(s, bodies, block) && c < was.header.number
    requires HeadsAfter(g, s, bodies, canonical, was, block, c, header, fast)
    ensures header == block.header <==> block.header.number == c + 1
    ensures fast == block <==> block.header.number == c + 1
    ensures header.number == c + 1 <= block.header.number
  {
    PathIsLinked(s, g, block.header.hash);
    assert LinkAt(s, Path(s, g, block.header.hash), block.header.number);
  }

  /** A branch of blocks 4 and 5 replaces block 2: entering 5 and then 4 leaves the other heads at 4. */
  lemma HeadsLagExample()
    ensures Mover(map[0 := 1, 1 := 2], [Block(Header(5, 4, 2, 1), []), Block(Header(4, 1, 1, 1), [])])
            == Some(Block(Header(4, 1, 1, 1), []))
  {
    var front := [Block(Header(5, 4, 2, 1), [])];
    assert (front + [Block(Header(4, 1, 1, 1), [])])[..1] == front && front[..0] == [];
    assert WithNumbers(map[0 := 1, 1 := 2], front) == map[0 := 1, 1 := 2, 2 := 5];
  }

  /** The new block is above the fork, and the old branch has something else there. */
  lemma NewAtFork(headers: Store, h: Hash, was: seq<Hash>, path: seq<Hash>, c: nat, canonical: map<nat, Hash>)
    requires Fork(was, path, c) && path[|path| - 1] == h && h !in headers && InDatabase(headers, was, |was|)
    requires CanonicalUpTo(canonical, was)
    ensures c + 1 < |path| && (c + 1 < |was| ==> Unlike(canonical, path, c + 1))
  {
    assert CanonicalAt(canonical, was, c + 1);
  }

  lemma ExtendedFork(g: Header, s: Store, head: Header, h: Header)
    requires Rooted(s, g) && head.hash in s && s[head.hash] == head && h.hash in s && s[h.hash] == h
    requires h.parent == head.hash && h.number > 0
    ensures Fork(Path(s, g, head.hash), Path(s, g, h.hash), head.number)
  {
    assert HasParent(s, h.hash);
    assert Path(s, g, h.hash) == Path(s, g, head.hash) + [h.hash];
  }

  predicate SameNumber(canonical: map<nat, Hash>, canonical': map<nat, Hash>, i: nat) {
    (i in canonical' <==> i in canonical) && (i in canonical ==> canonical'[i] == canonical[i])
  }

  /** The total difficulty of a block behind one that has a total difficulty. */
  function TdBehind(tds: map<Hash, Td>, h: Header): Td
    requires h.parent in tds
  {
    Td(h.number, h.difficulty + tds[h.parent].total)
  }

  /** A stored path stays one when a block is added. */
  lemma StoredPath(g: Header, headers: Store, bodies: Bodies, s: Store, b: Bodies, head: Block, block: Block)
    requires WithBlock(headers, bodies, block, s, b) && Rooted(headers, g) && IsStored(headers, bodies, head)
    ensures var was := Path(headers, g, head.header.hash);
      && Linked(headers, was) && Linked(s, was) && Addressed(s)
      && IsBlock(head, s, b, was, |was| - 1) && InDatabase(headers, was, |was| - 1)
  {
    var was := Path(headers, g, head.header.hash);
    PathIsLinked(headers, g, head.header.hash);
    forall i: nat ensures LinkAt(s, was, i) {
      assert LinkAt(headers, was, i);
    }
    forall i | 0 <= i < |was| - 1 ensures was[i] in headers {
      assert LinkAt(headers, was, i);
    }
  }

  /** A total difficulty written for a block that is not stored disturbs nothing. */
  lemma TdLeftOver(g: Header, s: Store, tds: map<Hash, Td>, h: Hash, td: Td)
    requires Rooted(s, g) && TdsAreWeights(s, g, tds) && h !in s
    ensures TdsAreWeights(s, g, tds[h := td])
  {
    var tds' := tds[h := td];
    forall x ensures TdOk(s, g, tds', x) {
      assert TdOk(s, g, tds, x);
    }
  }

  /** Storing a block leaves the head in order; the heavier of the two is heaviest. */
  lemma BlockAdded(g: Header, s: Store, b: Bodies, tds: map<Hash, Td>, canonical: map<nat, Hash>,
                   lookup: map<Tx, Entry>, head: Block, block: Block, td: nat)
    requires BlocksOk(g, s, b, tds) && HeadOk(g, s, b, canonical, lookup, head) && HeaviestIn(g, s, head.header)
    requires block.header.hash != ZERO_HASH && block.header.hash !in s
    requires block.header.parent in s && block.header.number == s[block.header.parent].number + 1
    requires td == block.header.difficulty + tds[block.header.parent].total
    ensures var s', b' := s[block.header.hash := block.header], b[block.header.hash := block.txs];
      && BlocksOk(g, s', b', tds[block.header.hash := Td(block.header.number, td)])
      && HeadOk(g, s', b', canonical, lookup, head)
      && Path(s', g, block.header.hash) == Path(s, g, block.header.parent) + [block.header.hash]
      && InDatabase(s, Path(s', g, head.header.hash), |Path(s', g, head.header.hash)|)
      && (td <= tds[head.header.hash].total ==> HeaviestIn(g, s', head.header))
      && (td >= tds[head.header.hash].total ==> HeaviestIn(g, s', block.header))
  {
    var s' := s[block.header.hash := block.header];
    WeightsAfterAdd(s, g, tds, block.header, td);
    PathGrows(s, s', g, head.header.hash);
    WeightGrows(s, s', g, head.header.hash);
    assert TdOk(s, g, tds, head.header.hash);
    HeaviestAfterAdd(g, s, head.header, block.header);
    RootedAdd(s, g, block.header);
    var was := Path(s, g, head.header.hash);
    forall i | 0 <= i < |was| ensures was[i] in s { assert Numbered(s, was, i); }
    ScanFrame(lookup, b, was, block.header.hash, block.txs);
  }

  /** A body stored elsewhere does not change what a scan finds. */
  lemma ScanFrame(lookup: map<Tx, Entry>, b: Bodies, path: seq<Hash>, h: Hash, txs: seq<Tx>)
    requires LookupIsScan(lookup, b, path) && h !in path
    ensures LookupIsScan(lookup, b[h := txs], path)
  {
    var b' := b[h := txs];
    forall i: nat, j: nat, tx ensures TxAt(b', path, i, j, tx) <==> TxAt(b, path, i, j, tx) {
    }
    forall tx | tx in lookup ensures TrueEntry(b', path, tx, lookup[tx]) {
      assert TrueEntry(b, path, tx, lookup[tx]);
    }
  }

  /** The two chains of a reorganisation: linked, from one genesis, and stored except for the new block. */
  lemma ForkFacts(g: Header, headers: Store, bodies: Bodies, s: Store, b: Bodies, head: Block, block: Block)
    requires WithBlock(headers, bodies, block, s, b) && Rooted(s, g) && IsStored(s, b, head)
    ensures var was, path := Path(s, g, head.header.hash), Path(s, g, block.header.hash);
      && Linked(s, was) && Linked(s, path) && was[0] == path[0]
      && IsBlock(head, s, b, was, |was| - 1) && IsBlock(block, s, b, path, |path| - 1)
      && InDatabase(headers, path, |path| - 1)
  {
    var was, path := Path(s, g, head.header.hash), Path(s, g, block.header.hash);
    PathIsLinked(s, g, head.header.hash);
    PathIsLinked(s, g, block.header.hash);
    assert Numbered(s, was, 0) && Numbered(s, path, 0);
    forall i | 0 <= i < |path| - 1 ensures path[i] in headers {
      assert Numbered(s, path, i);
    }
  }

  /** Entering a block a second time changes nothing. */
  lemma EnterAgain(s: Store, b: Bodies, g: Header, canonical: map<nat, Hash>, lookup: map<Tx, Entry>, block: Block)
    requires Rooted(s, g) && HeadOk(g, s, b, canonical, lookup, block)
    ensures WithEntries(lookup, block, |block.txs|) == lookup
    ensures canonical[block.header.number := block.header.hash] == canonical
  {
    var path := Path(s, g, block.header.hash);
    assert CanonicalAt(canonical, path, block.header.number);
    forall j | 0 <= j < |block.txs|
      ensures block.txs[j] in lookup && lookup[block.txs[j]] == Entry(block.header.hash, block.header.number, j)
    {
      assert TxAt(b, path, block.header.number, j, block.txs[j]);
    }
    WithEntriesAgain(lookup, block, |block.txs|);
  }

  /** Extending the head by one block. */
  lemma Extended(g: Header, s: Store, b: Bodies, canonical: map<nat, Hash>, lookup: map<Tx, Entry>, head: Block,
                 block: Block)
    requires Rooted(s, g) && HeadOk(g, s, b, canonical, lookup, head) && IsStored(s, b, block)
    requires block.header.number > 0 && block.header.parent == head.header.hash
    requires UniqueTxs(b, Path(s, g, block.header.hash))
    ensures HeadOk(g, s, b, canonical[block.header.number := block.header.hash],
              WithEntries(lookup, block, |block.txs|), block)
  {
    var was, path := Path(s, g, head.header.hash), Path(s, g, block.header.hash);
    assert HasParent(s, block.header.hash);
    assert path == was + [block.header.hash];
    var c := |was| - 1;
    var canonical' := canonical[block.header.number := block.header.hash];
    var lookup' := WithEntries(lookup, block, |block.txs|);
    OneBlock(s, b, was, path, canonical, lookup, block);
    ReorganisedOk(s, b, was, path, c, canonical, lookup, canonical', lookup');
  }

  /** Extending is the reorganisation that drops nothing and adds one block. */
  lemma OneBlock(s: Store, b: Bodies, was: seq<Hash>, path: seq<Hash>, canonical: map<nat, Hash>,
                 lookup: map<Tx, Entry>, block: Block)
    requires was != [] && path == was + [block.header.hash] && IsBlock(block, s, b, path, |was|)
    ensures Reorganised(s, b, was, path, |was| - 1, canonical, lookup,
                        canonical[block.header.number := block.header.hash], WithEntries(lookup, block, |block.txs|))
  {
    var oldChain: seq<Block>, newChain := [], [block];
    assert newChain[..0] == [];
    assert TxDifference(TxsOf(oldChain), TxsOf(newChain)) == [];
    assert IsBranch(oldChain, s, b, was, |was| - 1) && IsBranch(newChain, s, b, path, |was| - 1);
    assert WithNumbers(canonical, newChain) == canonical[block.header.number := block.header.hash];
    var gone := set tx | tx in TxDifference(TxsOf(oldChain), TxsOf(newChain));
    assert WithBlocks(lookup, newChain) - gone == WithEntries(lookup, block, |block.txs|);
  }
}

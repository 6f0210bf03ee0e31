/** The header chain: total difficulties, the number-to-hash index of the canonical chain, the current
    header, and least-recently-used caches in front of the database.  A cache may forget anything at any time. */
module HeaderChain {
  import opened Basics
  import opened BlockTree

  /** A total difficulty record, stored under number and hash. */
  datatype Td = Td(number: nat, total: nat)

  datatype WriteStatus = Canon | Side | UnknownAncestor

  /** Adding to a cache of limited size: the new entry is there, old ones may have been evicted. */
  method RememberHeader(cache: Store, h: Header, ghost db: Store) returns (c: Store)
    requires Coherent(cache, db) && h.hash in db && db[h.hash] == h
    ensures h.hash in c && c[h.hash] == h && Coherent(c, db)
  {
    var kept: set<Hash> := *;
    c := map x | x in cache && x in kept :: cache[x];
    c := c[h.hash := h];
    forall x ensures HeaderAgrees(c, db, x) { assert HeaderAgrees(cache, db, x); }
  }

  method RememberTd(cache: map<Hash, Td>, h: Hash, td: Td, ghost db: map<Hash, Td>) returns (c: map<Hash, Td>)
    requires TdsCoherent(cache, db) && h in db && db[h] == td
    ensures h in c && c[h] == td && TdsCoherent(c, db)
  {
    var kept: set<Hash> := *;
    c := map x | x in cache && x in kept :: cache[x];
    c := c[h := td];
    forall x ensures TdAgrees(c, db, x) { assert TdAgrees(cache, db, x); }
  }

  /** Cached entries agree with the database. */
  ghost predicate Coherent(cache: Store, db: Store) {
    forall x :: HeaderAgrees(cache, db, x)
  }

  predicate HeaderAgrees(cache: Store, db: Store, x: Hash) {
    x in cache ==> x in db && cache[x] == db[x]
  }

  ghost predicate TdsCoherent(cache: map<Hash, Td>, db: map<Hash, Td>) {
    forall x :: TdAgrees(cache, db, x)
  }

  predicate TdAgrees(cache: map<Hash, Td>, db: map<Hash, Td>, x: Hash) {
    x in cache ==> x in db && cache[x] == db[x]
  }

  /** The number-to-hash index holds the path, and nothing else. */
  ghost predicate Indexes(canonical: map<nat, Hash>, path: seq<Hash>) {
    forall i :: IndexedAt(canonical, path, i)
  }

  predicate IndexedAt(canonical: map<nat, Hash>, path: seq<Hash>, i: nat) {
    if i < |path| then i in canonical && canonical[i] == path[i] else i !in canonical
  }

  /** The path consists of stored headers, each the parent of the next, from number zero on. */
  ghost predicate Linked(s: Store, path: seq<Hash>) {
    forall i :: LinkAt(s, path, i)
  }

  predicate LinkAt(s: Store, path: seq<Hash>, i: nat) {
    i < |path| ==> path[i] in s && s[path[i]].number == i && (0 < i ==> s[path[i]].parent == path[i - 1])
  }

  /** Where the two agree they agree on everything before. */
  ghost predicate Coalesce(p: seq<Hash>, q: seq<Hash>) {
    && (|p| > 0 && |q| > 0 ==> p[0] == q[0])
    && (forall i :: AgreeBelow(p, q, i))
  }

  ghost predicate AgreeBelow(p: seq<Hash>, q: seq<Hash>, i: nat) {
    i < |p| && i < |q| && p[i] == q[i] ==> forall j :: 0 <= j <= i ==> p[j] == q[j]
  }

  lemma CoalescePrefix(p: seq<Hash>, q: seq<Hash>, n: nat)
    requires Coalesce(p, q) && n < |q|
    ensures Coalesce(p, q[..n + 1])
  {
    var r := q[..n + 1];
    forall i: nat ensures AgreeBelow(p, r, i) {
      assert AgreeBelow(p, q, i);
    }
  }

  lemma PathIsLinked(s: Store, g: Header, h: Hash)
    requires Rooted(s, g) && h in s
    ensures Linked(s, Path(s, g, h))
  {
    var path := Path(s, g, h);
    forall i: nat ensures LinkAt(s, path, i) {
      assert Numbered(s, path, i);
      if 0 < i < |path| { PathLinked(s, g, h, i); }
    }
  }

  lemma PathsCoalesce(s: Store, g: Header, a: Hash, b: Hash)
    requires Rooted(s, g) && a in s && b in s
    ensures Coalesce(Path(s, g, a), Path(s, g, b))
  {
    var p, q := Path(s, g, a), Path(s, g, b);
    assert Numbered(s, p, 0) && Numbered(s, q, 0);
    forall i: nat ensures AgreeBelow(p, q, i) {
      if i < |p| && i < |q| && p[i] == q[i] {
        PathsAgree(s, g, a, b, i);
        forall j | 0 <= j <= i ensures p[j] == q[j] {
          assert p[j] == p[..i + 1][j] && q[j] == q[..i + 1][j];
        }
      }
    }
  }

  /** An index is that of one head only. */
  lemma OneHead(g: Header, s: Store, canonical: map<nat, Hash>, a: Hash, b: Hash)
    requires Rooted(s, g) && a in s && b in s && Indexes(canonical, Path(s, g, a))
    ensures Indexes(canonical, Path(s, g, b)) <==> a == b
  {
    var p, q := Path(s, g, a), Path(s, g, b);
    if Indexes(canonical, q) {
      assert IndexedAt(canonical, p, |p| - 1) && IndexedAt(canonical, q, |p| - 1);
      assert IndexedAt(canonical, p, |q| - 1) && IndexedAt(canonical, q, |q| - 1);
    }
  }

  /** Every total difficulty is the sum of the difficulties down to the genesis. */
  ghost predicate TdsAreWeights(s: Store, g: Header, tds: map<Hash, Td>)
    requires Rooted(s, g)
  {
    && s.Keys <= tds.Keys
    && forall h :: TdOk(s, g, tds, h)
  }

  predicate TdOk(s: Store, g: Header, tds: map<Hash, Td>, h: Hash)
    requires Rooted(s, g)
  {
    h in s && h in tds ==> tds[h] == Td(s[h].number, Weight(s, g, h))
  }

  /** The database agrees with a plain walk of the parent links from the head. */
  ghost predicate ChainOk(g: Header, s: Store, tds: map<Hash, Td>, canonical: map<nat, Hash>, head: Header) {
    && Rooted(s, g)
    && TdsAreWeights(s, g, tds) && tds.Keys == s.Keys
    && head.hash in s && s[head.hash] == head
    && Indexes(canonical, Path(s, g, head.hash))
  }

  /** No stored header is heavier than the head. */
  ghost predicate HeaviestIn(g: Header, s: Store, head: Header)
    requires Rooted(s, g) && head.hash in s
  {
    forall h :: NotHeavier(s, g, h, head.hash)
  }

  predicate NotHeavier(s: Store, g: Header, h: Hash, head: Hash)
    requires Rooted(s, g) && head in s
  {
    h in s ==> Weight(s, g, h) <= Weight(s, g, head)
  }

  class HeaderChain {
    const genesis: Header
    // database
    var headers: Store
    var tds: map<Hash, Td>
    var canonical: map<nat, Hash>
    var headHeaderHash: Hash
    // memory
    var currentHeader: Header
    var currentHeaderHash: Hash
    var headerCache: map<Hash, Header>
    var tdCache: map<Hash, Td>
    var numberCache: map<Hash, Header>

    ghost predicate CachesCoherent()
      reads this
    {
      Coherent(headerCache, headers) && TdsCoherent(tdCache, tds) && Coherent(numberCache, headers)
    }

    ghost predicate Valid()
      reads this
    {
      && ChainOk(genesis, headers, tds, canonical, currentHeader)
      && currentHeaderHash == currentHeader.hash == headHeaderHash
      && CachesCoherent()
    }

    /** No stored header is heavier than the current one. */
    ghost predicate Heaviest()
      requires Valid()
      reads this
    {
      HeaviestIn(genesis, headers, currentHeader)
    }

    constructor (g: Header)
      requires g.number == 0 && g.hash != ZERO_HASH
      ensures genesis == g && Valid() && Heaviest() && headers == map[g.hash := g]
    {
      genesis := g;
      headers, tds, canonical := map[g.hash := g], map[g.hash := Td(0, g.difficulty)], map[0 := g.hash];
      headHeaderHash, currentHeader, currentHeaderHash := g.hash, g, g.hash;
      headerCache, tdCache, numberCache := map[], map[], map[];
    }

    /** `NewHeaderChain` on a database left by a header chain whose head was `last`.  It resumes at the head block
        instead, so that all is in order exactly if that is the same. */
    constructor Resume(hs: Store, ts: map<Hash, Td>, index: map<nat, Hash>, headHeader: Hash, headBlock: Hash,
                       ghost g: Header, ghost last: Header)
      requires ChainOk(g, hs, ts, index, last) && headHeader == last.hash
      ensures genesis == g && headers == hs && tds == ts && canonical == index && headHeaderHash == headHeader
      ensures currentHeader == if headBlock in hs then hs[headBlock] else g
      ensures ChainOk(g, headers, tds, canonical, currentHeader) <==> currentHeader == last
      ensures Valid() <==> currentHeader == last
    {
      assert IndexedAt(index, Path(hs, g, last.hash), 0) && Numbered(hs, Path(hs, g, last.hash), 0);
      genesis := hs[index[0]];
      headers, tds, canonical, headHeaderHash := hs, ts, index, headHeader;
      var current := if headBlock in hs then hs[headBlock] else hs[index[0]];
      currentHeader, currentHeaderHash := current, current.hash;
      headerCache, tdCache, numberCache := map[], map[], map[];
      new;
      OneHead(g, hs, index, last.hash, current.hash);
    }

    /** `GetTd`: a cached value is returned whatever number is asked for. */
    method GetTd(hash: Hash, number: int) returns (r: Option<nat>)
      requires TdsCoherent(tdCache, tds)
      modifies this`tdCache
      ensures TdsCoherent(tdCache, tds)
      ensures r.Some? ==> hash in tds && r.value == tds[hash].total && hash in tdCache
      ensures r.Some? <==> hash in old(tdCache) || (hash in tds && tds[hash].number == number)
    {
      assert TdAgrees(tdCache, tds, hash);
      if hash in tdCache {
        return Some(tdCache[hash].total);
      }
      if hash in tds && tds[hash].number == number {
        tdCache := RememberTd(tdCache, hash, tds[hash], tds);
        return Some(tds[hash].total);
      }
      return None;
    }

    /** `GetHeader`.  The cache agrees with db, an earlier state of the header table. */
    method GetHeader(hash: Hash, number: int, ghost db: Store) returns (r: Option<Header>)
      requires Addressed(headers) && Coherent(headerCache, db)
      requires hash in headers ==> hash in db && headers[hash] == db[hash]
      modifies this`headerCache
      ensures Coherent(headerCache, db)
      ensures r.Some? ==> hash in db && r.value == db[hash] && hash in headerCache
      ensures r.Some? <==> hash in old(headerCache) || (hash in headers && headers[hash].number == number)
    {
      assert HeaderAgrees(headerCache, db, hash);
      if hash in headerCache {
        return Some(headerCache[hash]);
      }
      if hash in headers && headers[hash].number == number {
        headerCache := RememberHeader(headerCache, headers[hash], db);
        return Some(headers[hash]);
      }
      return None;
    }

    /** `HasHeader` */
    method HasHeader(hash: Hash, number: nat) returns (r: bool)
      requires CachesCoherent()
      ensures r ==> hash in headers
      ensures hash in headers && headers[hash].number == number ==> r
    {
      assert HeaderAgrees(numberCache, headers, hash) && HeaderAgrees(headerCache, headers, hash);
      r := hash in numberCache || hash in headerCache || (hash in headers && headers[hash].number == number);
    }

    /** `GetHeaderByNumber` */
    method GetHeaderByNumber(number: nat) returns (r: Option<Header>)
      requires Valid()
      modifies this`headerCache
      ensures Valid()
      ensures r == if number > currentHeader.number then None
                   else Some(headers[Nth(headers, genesis, currentHeaderHash, number)])
    {
      assert IndexedAt(canonical, Path(headers, genesis, currentHeaderHash), number);
      if number !in canonical {
        return None;
      }
      assert Nth(headers, genesis, currentHeaderHash, number) == canonical[number];
      r := GetHeader(canonical[number], number, headers);
    }

    /** Canonical numbers above a new head are dropped, up to the first free one. */
    method DropAbove(number: nat, ghost path: seq<Hash>)
      requires Indexes(canonical, path)
      modifies this`canonical
      ensures Indexes(canonical, if number + 1 < |path| then path[..number + 1] else path)
    {
      var i := number + 1;
      while i in canonical
        invariant i > number
        invariant forall k: nat :: !(number < k < i) ==> IndexedAt(canonical, path, k)
        invariant forall k: nat :: number < k < i ==> k !in canonical && k < |path|
        decreases |path| - i
      {
        assert IndexedAt(canonical, path, i);
        ghost var before := canonical;
        canonical := canonical - {i};
        assert forall k: nat :: k != i ==> (IndexedAt(canonical, path, k) <==> IndexedAt(before, path, k));
        i := i + 1;
      }
      assert IndexedAt(canonical, path, i);
      ghost var kept := if number + 1 < |path| then path[..number + 1] else path;
      forall k: nat ensures IndexedAt(canonical, kept, k) {
        assert !(number < k < i) ==> IndexedAt(canonical, path, k);
      }
    }

    /** Stale canonical numbers below a new head are overwritten, down to the first one that is right. */
    method Overwrite(head: Hash, number: nat, ghost path: seq<Hash>, ghost oldPath: seq<Hash>)
      requires Addressed(headers) && Coherent(headerCache, headers) && Indexes(canonical, oldPath)
      requires Linked(headers, path) && |path| == number + 1 && path[number] == head
      requires 0 < |oldPath| <= number + 2 && Coalesce(path, oldPath)
      modifies this`canonical, this`headerCache
      ensures Coherent(headerCache, headers)
      ensures forall i: nat :: i != number + 1 ==> IndexedAt(canonical, path, i)
    {
      var headHash, headNumber: nat := head, number;
      assert LinkAt(headers, path, number);
      var r := GetHeader(headHash, headNumber, headers);
      var headHeader := r.value;
      forall i: nat | number < i && i != number + 1 ensures IndexedAt(canonical, path, i) {
        assert IndexedAt(canonical, oldPath, i);
      }
      while headNumber !in canonical || canonical[headNumber] != headHash
        invariant headNumber <= number && path[headNumber] == headHash
        invariant headHash in headers && headHeader == headers[headHash]
        invariant Coherent(headerCache, headers)
        invariant forall i: nat :: headNumber < i && i != number + 1 ==> IndexedAt(canonical, path, i)
        invariant forall i: nat :: i <= headNumber ==> IndexedAt(canonical, oldPath, i)
        decreases headNumber
      {
        assert IndexedAt(canonical, oldPath, headNumber) && LinkAt(headers, path, headNumber);
        ghost var before := canonical;
        canonical := canonical[headNumber := headHash];
        assert forall i: nat :: i != headNumber ==> (IndexedAt(canonical, path, i) <==> IndexedAt(before, path, i));
        assert forall i: nat :: i != headNumber ==>
          (IndexedAt(canonical, oldPath, i) <==> IndexedAt(before, oldPath, i));
        assert LinkAt(headers, path, headNumber - 1);
        headHash := headHeader.parent;
        headNumber := headHeader.number - 1;
        r := GetHeader(headHash, headNumber, headers);
        headHeader := r.value;
      }
      assert AgreeBelow(path, oldPath, headNumber);
      assert IndexedAt(canonical, oldPath, headNumber);
      forall i: nat | i != number + 1 ensures IndexedAt(canonical, path, i) {
        assert i <= headNumber ==> IndexedAt(canonical, oldPath, i);
      }
    }

    /** The canonical chain is re-routed to another stored header. */
    method Reroute(header: Header)
      requires ChainOk(genesis, headers, tds, canonical, currentHeader) && Coherent(headerCache, headers)
      requires header.hash in headers && headers[header.hash] == header && header.number > 0
      modifies this`canonical, this`headerCache, this`headHeaderHash, this`currentHeader, this`currentHeaderHash
      ensures ChainOk(genesis, headers, tds, canonical, header) && Coherent(headerCache, headers)
      ensures currentHeader == header && currentHeaderHash == headHeaderHash == header.hash
    {
      ghost var path, oldPath := HeadPaths(headers, genesis, header, currentHeader);
      DropAbove(header.number, oldPath);
      ghost var kept := oldPath;
      if header.number + 1 < |oldPath| {
        CoalescePrefix(path, oldPath, header.number);
        kept := oldPath[..header.number + 1];
      }
      Overwrite(header.parent, header.number - 1, path, kept);
      ghost var before := canonical;
      canonical := canonical[header.number := header.hash];
      HeadIndexed(before, path, header.hash);
      headHeaderHash := header.hash;
      currentHeaderHash, currentHeader := header.hash, header;
    }

    /** `WriteTd` and the database part of `WriteHeader` */
    method StoreHeader(header: Header, td: nat)
      requires CachesCoherent() && Consistent(headers, header)
      requires header.hash in tds ==> tds[header.hash] == Td(header.number, td)
      modifies this`tds, this`tdCache, this`headers
      ensures CachesCoherent()
      ensures headers == old(headers)[header.hash := header] && tds == old(tds)[header.hash := Td(header.number, td)]
    {
      ghost var tds0, headers0 := tds, headers;
      tds := tds[header.hash := Td(header.number, td)];
      forall x ensures TdAgrees(tdCache, tds, x) { assert TdAgrees(tdCache, tds0, x); }
      tdCache := RememberTd(tdCache, header.hash, Td(header.number, td), tds);
      headers := headers[header.hash := header];
      forall x ensures HeaderAgrees(headerCache, headers, x) && HeaderAgrees(numberCache, headers, x) {
        assert HeaderAgrees(headerCache, headers0, x) && HeaderAgrees(numberCache, headers0, x);
      }
    }

    method CacheHeader(header: Header)
      requires CachesCoherent() && header.hash in headers && headers[header.hash] == header
      modifies this`headerCache, this`numberCache
      ensures CachesCoherent()
    {
      headerCache := RememberHeader(headerCache, header, headers);
      numberCache := RememberHeader(numberCache, header, headers);
    }

    /** `WriteHeader` */
    method WriteHeader(header: Header) returns (status: WriteStatus)
      requires Valid() && header.hash != ZERO_HASH && Consistent(headers, header)
      requires header.parent in headers ==> header.number == headers[header.parent].number + 1
      modifies this
      ensures Valid() && (old(Heaviest()) ==> Heaviest())
      ensures status == UnknownAncestor <==> header.parent !in old(headers)
      ensures status == UnknownAncestor ==> unchanged(`headers, `canonical, `currentHeader, `tds)
      ensures status != UnknownAncestor ==> headers == old(headers)[header.hash := header]
      ensures status != UnknownAncestor ==> header.hash in tds && old(currentHeaderHash) in tds
      ensures status == Canon ==> currentHeader == header && tds[header.hash].total >= tds[old(currentHeaderHash)].total
      ensures status == Side ==>
                unchanged(`currentHeader, `canonical) && tds[header.hash].total <= tds[old(currentHeaderHash)].total
    {
      var hash, number: int := header.hash, header.number;
      assert TdOk(headers, genesis, tds, header.parent) && TdOk(headers, genesis, tds, currentHeaderHash);
      var ptd := GetTd(header.parent, number - 1);
      if ptd.None? {
        return UnknownAncestor;
      }
      var local := GetTd(currentHeaderHash, currentHeader.number);
      var localTd := local.value;
      var externTd := header.difficulty + ptd.value;
      AddedAside(genesis, headers, tds, canonical, currentHeader, header, externTd);
      StoreHeader(header, externTd);
      status := Choose(header, externTd, localTd);
    }

    /** The fork choice of `WriteHeader`. */
    method Choose(header: Header, externTd: nat, localTd: nat) returns (status: WriteStatus)
      requires Valid() && header.hash in headers && headers[header.hash] == header && header.number > 0
      modifies this`canonical, this`headerCache, this`numberCache
      modifies this`headHeaderHash, this`currentHeader, this`currentHeaderHash
      ensures Valid() && status != UnknownAncestor
      ensures status == Canon ==> currentHeader == header && externTd >= localTd
      ensures status == Side ==> unchanged(`currentHeader, `canonical) && externTd <= localTd
    {
      var coin: bool := *;
      if externTd > localTd || (externTd == localTd && coin) {
        Reroute(header);
        status := Canon;
      } else {
        status := Side;
      }
      CacheHeader(header);
    }

    /** One header of `InsertHeaderChain`, with `WriteHeader` as the callback: known ones are skipped. */
    method InsertNext(chain: seq<Header>, i: nat, ghost start: Store) returns (ok: bool)
      requires Valid() && i < |chain| && Inserting(start, headers, chain, i)
      modifies this
      ensures Valid() && (old(Heaviest()) ==> Heaviest())
      ensures Inserting(start, headers, chain, if ok then i + 1 else i)
      ensures ok <==> chain[i].hash in old(headers) || chain[i].parent in old(headers)
    {
      NextInsertable(start, headers, chain, i);
      var known := HasHeader(chain[i].hash, chain[i].number);
      if known {
        return true;
      }
      InsertedOne(start, headers, chain, i);
      var status := WriteHeader(chain[i]);
      return status != UnknownAncestor;
    }

    /** `InsertHeaderChain`; shutting down may interrupt it anywhere.  The index is that of the failing header.  Only
        the first header can fail, for want of its parent: the others follow one that is stored. */
    method InsertHeaderChain(chain: seq<Header>) returns (at: nat, ok: bool, ghost done: nat, interrupted: bool)
      requires Valid() && |chain| > 0 && Insertable(headers, chain)
      requires chain[0].parent in headers ==> chain[0].number == headers[chain[0].parent].number + 1
      modifies this
      ensures Valid() && (old(Heaviest()) ==> Heaviest())
      ensures done <= |chain| && (ok <==> done == |chain|) && at == if ok then 0 else done
      ensures headers.Keys == old(headers).Keys + Hashes(chain[..done]) && Insertable(headers, chain)
      ensures Grown(old(headers), headers)
      ensures interrupted ==> !ok
      ensures !interrupted ==> (ok <==> chain[0].hash in old(headers) || chain[0].parent in old(headers))
      ensures !ok && !interrupted ==> done == 0
    {
      ghost var start, heavy := headers, Heaviest();
      for i := 0 to |chain|
        invariant Valid() && (heavy ==> Heaviest()) && Inserting(start, headers, chain, i)
        invariant i == 0 ==> headers == start
        invariant i > 0 ==> chain[0].hash in start || chain[0].parent in start
      {
        interrupted := *;
        if interrupted {
          return i, false, i, true;
        }
        if i > 0 { BehindStored(start, headers, chain, i); }
        ok := InsertNext(chain, i, start);
        if !ok {
          return i, false, i, false;
        }
      }
      return 0, true, |chain|, false;
    }

    /** `SetHead`, the part that removes headers and total difficulties, from the head downwards. */
    method RemoveAbove(head: nat, ghost db: Store, ghost tds0: map<Hash, Td>, ghost path: seq<Hash>)
      requires Rooted(db, genesis) && headers == db && tds == tds0 && Coherent(headerCache, db)
      requires currentHeader.hash in db && db[currentHeader.hash] == currentHeader
      requires path == Path(db, genesis, currentHeader.hash)
      modifies this`headers, this`tds, this`currentHeader, this`headerCache
      ensures headers == db - Above(path, head) && tds == tds0 - Above(path, head)
      ensures path[Cut(path, head)] in db && currentHeader == db[path[Cut(path, head)]]
    {
      while currentHeader.number > head
        invariant currentHeader.number < |path| && path[currentHeader.number] == currentHeader.hash
        invariant currentHeader.hash in db && db[currentHeader.hash] == currentHeader
        invariant headers == db - Above(path, currentHeader.number) && tds == tds0 - Above(path, currentHeader.number)
        invariant Coherent(headerCache, db)
        invariant currentHeader.number >= head || currentHeader.number == |path| - 1
        decreases currentHeader.number
      {
        var hash, num := currentHeader.hash, currentHeader.number;
        AboveStep(db, genesis, path, num);
        headers := headers - {hash};
        tds := tds - {hash};
        var r := GetHeader(currentHeader.parent, num - 1, db);
        currentHeader := r.value;
      }
    }

    /** `SetHead`, the part that rolls back the canonical numbering. */
    method RollBack(height: nat, head: nat, ghost path: seq<Hash>)
      requires Indexes(canonical, path) && height == |path| - 1
      modifies this`canonical
      ensures Indexes(canonical, path[..Cut(path, head) + 1])
    {
      var i := height;
      assert forall k: nat :: IndexedAt(canonical, path, k) && k > i ==> k !in canonical;
      while i > head
        invariant i <= height && (i >= head || i == height)
        invariant forall k: nat :: k <= i ==> IndexedAt(canonical, path, k)
        invariant forall k: nat :: k > i ==> k !in canonical
        decreases i
      {
        ghost var before := canonical;
        canonical := canonical - {i};
        assert forall k: nat :: k != i ==> (IndexedAt(canonical, path, k) <==> IndexedAt(before, path, k));
        i := i - 1;
      }
      ghost var kept := path[..Cut(path, head) + 1];
      forall k: nat ensures IndexedAt(canonical, kept, k) {
        assert k <= i ==> IndexedAt(canonical, path, k);
      }
    }

    /** `SetHead` */
    method SetHead(head: nat)
      requires Valid()
      modifies this
      ensures Rewound(genesis, old(headers), old(tds), old(currentHeader), head, headers, tds, canonical, currentHeader)
      ensures currentHeaderHash == headHeaderHash == currentHeader.hash
      ensures headerCache == map[] && tdCache == map[] && numberCache == map[]
      ensures Valid() <==> !Orphans(old(headers), Above(Path(old(headers), genesis, old(currentHeaderHash)), head))
    {
      ghost var path := Path(headers, genesis, currentHeaderHash);
      var height := currentHeader.number;
      RemoveAbove(head, headers, tds, path);
      RollBack(height, head, path);
      headerCache, tdCache, numberCache := map[], map[], map[];
      currentHeaderHash := currentHeader.hash;
      headHeaderHash := currentHeaderHash;
      Truncated(genesis, old(headers), old(tds), old(canonical), old(currentHeader), head, canonical);
    }
  }

  /** Number of the last path member that stays. */
  function Cut(path: seq<Hash>, head: nat): nat
    requires path != []
  {
    if head < |path| - 1 then head else |path| - 1
  }

  /** The database after rewinding to number `head`: exactly the path above it is gone, with its numbers. */
  ghost predicate Rewound(g: Header, s: Store, tds: map<Hash, Td>, oldHead: Header, head: nat,
                          s': Store, tds': map<Hash, Td>, canonical': map<nat, Hash>, newHead: Header)
    requires Rooted(s, g) && oldHead.hash in s
  {
    var path := Path(s, g, oldHead.hash);
    && s' == s - Above(path, head) && tds' == tds - Above(path, head)
    && Indexes(canonical', path[..Cut(path, head) + 1])
    && path[Cut(path, head)] in s' && newHead == s'[path[Cut(path, head)]]
  }

  /** In numbers: exactly the headers of the old path above `head` are gone, the new head is the one at `head`, or the
      old one if that is lower, and exactly the numbers up to it are canonical. */
  lemma RewoundExactly(g: Header, s: Store, tds: map<Hash, Td>, oldHead: Header, head: nat,
                       s': Store, tds': map<Hash, Td>, canonical': map<nat, Hash>, newHead: Header)
    requires Rooted(s, g) && oldHead.hash in s && s[oldHead.hash] == oldHead
    requires Rewound(g, s, tds, oldHead, head, s', tds', canonical', newHead)
    ensures var path := Path(s, g, oldHead.hash);
      forall x :: x in s' <==> x in s && !(x in path && s[x].number > head)
    ensures newHead.number == if head < oldHead.number then head else oldHead.number
    ensures forall i: nat :: i in canonical' <==> i <= newHead.number
  {
    var path := Path(s, g, oldHead.hash);
    PathIsLinked(s, g, oldHead.hash);
    forall i: nat | i < |path| ensures path[i] in s && s[path[i]].number == i {
      assert LinkAt(s, path, i);
    }
    forall i: nat ensures i in canonical' <==> i <= newHead.number {
      assert IndexedAt(canonical', path[..Cut(path, head) + 1], i);
    }
  }

  /** The hashes on the path above number n. */
  function Above(path: seq<Hash>, n: nat): set<Hash> {
    set i | n < i < |path| :: path[i]
  }

  /** A header that stays although its parent is removed. */
  ghost predicate Orphans(s: Store, removed: set<Hash>) {
    exists x :: Orphan(s, removed, x)
  }

  predicate Orphan(s: Store, removed: set<Hash>, x: Hash) {
    x in s && x !in removed && s[x].number > 0 && s[x].parent in removed
  }

  /** A fork below the new head is enough: rewinding the chain 1, 2, 3 to its genesis leaves header 4 without its
      parent 2. */
  lemma OrphansExample()
    ensures var g, h, last, side := Header(1, 0, 0, 1), Header(2, 1, 1, 1), Header(3, 2, 2, 2), Header(4, 2, 2, 1);
      var s := map[1 := g, 2 := h, 3 := last, 4 := side];
      var tds := map[1 := Td(0, 1), 2 := Td(1, 2), 3 := Td(2, 4), 4 := Td(2, 3)];
      && ChainOk(g, s, tds, map[0 := 1, 1 := 2, 2 := 3], last)
      && Path(s, g, 3) == [1, 2, 3] && Orphan(s, Above(Path(s, g, 3), 0), 4)
  {
    var g, h, last, side := Header(1, 0, 0, 1), Header(2, 1, 1, 1), Header(3, 2, 2, 2), Header(4, 2, 2, 1);
    var s := map[1 := g, 2 := h, 3 := last, 4 := side];
    assert Rooted(s, g);
    assert Path(s, g, 1) == [1] && Weight(s, g, 1) == 1;
    assert Path(s, g, 2) == [1, 2] && Weight(s, g, 2) == 2;
    assert Path(s, g, 3) == [1, 2, 3] && Weight(s, g, 3) == 4 && Weight(s, g, 4) == 3;
    assert [1, 2, 3][1] in Above([1, 2, 3], 0);
  }

  /** Going one number down removes one more header, whose parent stays. */
  lemma AboveStep(s: Store, g: Header, path: seq<Hash>, n: nat)
    requires Rooted(s, g) && path != [] && path[|path| - 1] in s && path == Path(s, g, path[|path| - 1])
    requires 0 < n < |path|
    ensures Above(path, n - 1) == Above(path, n) + {path[n]}
    ensures path[n] in s && s[path[n]].parent == path[n - 1] && path[n - 1] in s && s[path[n - 1]].number == n - 1
    ensures path[n - 1] !in Above(path, n - 1)
  {
    PathIsLinked(s, g, path[|path| - 1]);
    assert LinkAt(s, path, n) && LinkAt(s, path, n - 1);
    forall i | n <= i < |path| ensures path[i] != path[n - 1] {
      assert LinkAt(s, path, i);
    }
  }

  /** After removing the path above `head`: the chain is in order exactly if no header lost its parent. */
  lemma Truncated(g: Header, s: Store, tds: map<Hash, Td>, canonical: map<nat, Hash>, last: Header, head: nat,
                  canonical': map<nat, Hash>)
    requires ChainOk(g, s, tds, canonical, last)
    requires Indexes(canonical', Path(s, g, last.hash)[..Cut(Path(s, g, last.hash), head) + 1])
    ensures var path := Path(s, g, last.hash);
      var n := Cut(path, head);
      && path[n] in s && path[n] !in Above(path, head)
      && (ChainOk(g, s - Above(path, head), tds - Above(path, head), canonical', s[path[n]]) <==>
        !Orphans(s, Above(path, head)))
  {
    var path := Path(s, g, last.hash);
    var n := Cut(path, head);
    assert Numbered(s, path, n);
    forall i | head < i < |path| ensures path[i] != path[n] { assert Numbered(s, path, i); }
    if Orphans(s, Above(path, head)) {
      var x :| Orphan(s, Above(path, head), x);
      assert !HasParent(s - Above(path, head), x);
    } else {
      TruncatedRooted(g, s, path, head);
      TruncatedOk(g, s, tds, last.hash, path, head, canonical');
    }
  }

  lemma TruncatedOk(g: Header, s: Store, tds: map<Hash, Td>, last: Hash, path: seq<Hash>, head: nat,
                    canonical': map<nat, Hash>)
    requires Rooted(s, g) && TdsAreWeights(s, g, tds) && tds.Keys == s.Keys && last in s && path == Path(s, g, last)
    requires Rooted(s - Above(path, head), g)
    requires Indexes(canonical', path[..Cut(path, head) + 1])
    requires path[Cut(path, head)] in s && path[Cut(path, head)] !in Above(path, head)
    ensures ChainOk(g, s - Above(path, head), tds - Above(path, head), canonical', s[path[Cut(path, head)]])
  {
    var s', tds', n := s - Above(path, head), tds - Above(path, head), Cut(path, head);
    PathGrows(s', s, g, path[n]);
    PathPrefix(s, g, last, n);
    forall x ensures TdOk(s', g, tds', x) {
      assert TdOk(s, g, tds, x);
      if x in s' { WeightGrows(s', s, g, x); }
    }
  }

  lemma TruncatedRooted(g: Header, s: Store, path: seq<Hash>, n: nat)
    requires Rooted(s, g) && !Orphans(s, Above(path, n)) && forall i: nat :: Numbered(s, path, i)
    ensures Rooted(s - Above(path, n), g)
  {
    var removed := Above(path, n);
    var s' := s - removed;
    assert g.hash !in removed by {
      forall i | n < i < |path| ensures path[i] != g.hash { assert Numbered(s, path, i); }
    }
    forall x ensures HasParent(s', x) {
      assert HasParent(s, x) && !Orphan(s, removed, x);
    }
  }

  /** A linked batch of headers that collide with nothing. */
  ghost predicate Insertable(s: Store, chain: seq<Header>) {
    && (forall i :: 0 <= i < |chain| ==> InsertableAt(s, chain, i))
    && (forall i, j :: 0 <= i < |chain| && 0 <= j < |chain| && chain[i].hash == chain[j].hash ==> chain[i] == chain[j])
  }

  predicate InsertableAt(s: Store, chain: seq<Header>, i: nat)
    requires i < |chain|
  {
    && chain[i].hash != ZERO_HASH && (chain[i].hash in s ==> s[chain[i].hash] == chain[i])
    && (i > 0 ==> chain[i].parent == chain[i - 1].hash && chain[i].number == chain[i - 1].number + 1)
  }

  ghost predicate Grown(s: Store, s': Store) {
    forall x :: x in s ==> x in s' && s'[x] == s[x]
  }

  function Hashes(chain: seq<Header>): set<Hash> {
    set i | 0 <= i < |chain| :: chain[i].hash
  }

  /** The next header of the batch can be written. */
  /** The first i headers of the chain are stored. */
  ghost predicate Inserting(start: Store, s: Store, chain: seq<Header>, i: nat)
    requires i <= |chain|
  {
    && Insertable(s, chain) && s.Keys == start.Keys + Hashes(chain[..i]) && Grown(start, s)
    && (i == 0 && chain != [] ==> chain[0].parent in s ==> chain[0].number == s[chain[0].parent].number + 1)
  }

  lemma NextInsertable(start: Store, s: Store, chain: seq<Header>, i: nat)
    requires i < |chain| && Inserting(start, s, chain, i)
    ensures chain[i].hash != ZERO_HASH && Consistent(s, chain[i])
    ensures chain[i].parent in s ==> chain[i].number == s[chain[i].parent].number + 1
    ensures chain[i].hash in s ==> Inserting(start, s, chain, i + 1)
  {
    assert InsertableAt(s, chain, i);
    assert Hashes(chain[..i + 1]) == Hashes(chain[..i]) + {chain[i].hash};
    if i > 0 {
      assert InsertableAt(s, chain, i - 1);
      assert chain[..i][i - 1].hash in Hashes(chain[..i]);
    }
  }

  lemma BehindStored(start: Store, s: Store, chain: seq<Header>, i: nat)
    requires 0 < i < |chain| && Inserting(start, s, chain, i)
    ensures chain[i].parent in s
  {
    assert InsertableAt(s, chain, i);
    assert chain[..i][i - 1].hash in Hashes(chain[..i]);
  }

  lemma InsertedOne(start: Store, s: Store, chain: seq<Header>, i: nat)
    requires i < |chain| && Inserting(start, s, chain, i)
    ensures Inserting(start, s[chain[i].hash := chain[i]], chain, i + 1)
  {
    var s' := s[chain[i].hash := chain[i]];
    forall j | 0 <= j < |chain| ensures InsertableAt(s', chain, j) {
      assert InsertableAt(s, chain, j);
    }
    assert InsertableAt(s, chain, i);
    assert Hashes(chain[..i + 1]) == Hashes(chain[..i]) + {chain[i].hash};
  }

  /** A header added below a stored parent leaves the chain in order; the heavier of it and the head is heaviest. */
  lemma AddedAside(g: Header, s: Store, tds: map<Hash, Td>, canonical: map<nat, Hash>, head: Header, h: Header, td: nat)
    requires ChainOk(g, s, tds, canonical, head) && h.hash != ZERO_HASH && Consistent(s, h)
    requires h.parent in s && h.number == s[h.parent].number + 1
    requires td == h.difficulty + tds[h.parent].total
    ensures ChainOk(g, s[h.hash := h], tds[h.hash := Td(h.number, td)], canonical, head)
    ensures h.hash in tds ==> tds[h.hash] == Td(h.number, td)
    ensures HeaviestIn(g, s, head) && td <= tds[head.hash].total ==> HeaviestIn(g, s[h.hash := h], head)
    ensures HeaviestIn(g, s, head) && td >= tds[head.hash].total ==> HeaviestIn(g, s[h.hash := h], h)
  {
    var s' := s[h.hash := h];
    WeightsAfterAdd(s, g, tds, h, td);
    PathGrows(s, s', g, head.hash);
    WeightGrows(s, s', g, head.hash);
    assert TdOk(s, g, tds, head.hash) && TdOk(s, g, tds, h.hash);
    if h.hash in s { WeightGrows(s, s', g, h.hash); }
    if HeaviestIn(g, s, head) { HeaviestAfterAdd(g, s, head, h); }
  }

  /** The heavier of the old head and the new header is heaviest. */
  lemma HeaviestAfterAdd(g: Header, s: Store, head: Header, h: Header)
    requires Rooted(s, g) && h.hash != ZERO_HASH && Consistent(s, h) && head.hash in s
    requires h.parent in s && h.number == s[h.parent].number + 1
    requires HeaviestIn(g, s, head)
    ensures Rooted(s[h.hash := h], g)
    ensures var s' := s[h.hash := h];
      && (Weight(s', g, h.hash) <= Weight(s', g, head.hash) ==> HeaviestIn(g, s', head))
      && (Weight(s', g, h.hash) >= Weight(s', g, head.hash) ==> HeaviestIn(g, s', h))
  {
    RootedAdd(s, g, h);
    var s' := s[h.hash := h];
    WeightGrows(s, s', g, head.hash);
    forall x ensures x in s && x in s' ==> Weight(s', g, x) <= Weight(s', g, head.hash) {
      assert NotHeavier(s, g, x, head.hash);
      if x in s { WeightGrows(s, s', g, x); }
    }
  }

  /** What adding a header below a stored parent does to the total difficulties. */
  lemma WeightsAfterAdd(s: Store, g: Header, tds: map<Hash, Td>, h: Header, td: nat)
    requires Rooted(s, g) && TdsAreWeights(s, g, tds) && h.hash != ZERO_HASH && Consistent(s, h)
    requires h.parent in s && h.number == s[h.parent].number + 1
    requires td == h.difficulty + tds[h.parent].total
    ensures Rooted(s[h.hash := h], g) && TdsAreWeights(s[h.hash := h], g, tds[h.hash := Td(h.number, td)])
    ensures Weight(s[h.hash := h], g, h.hash) == td
  {
    RootedAdd(s, g, h);
    var s', tds' := s[h.hash := h], tds[h.hash := Td(h.number, td)];
    assert TdOk(s, g, tds, h.parent);
    WeightGrows(s, s', g, h.parent);
    forall x ensures TdOk(s', g, tds', x) {
      assert TdOk(s, g, tds, x);
      if x in s { WeightGrows(s, s', g, x); }
    }
  }

  lemma HeadIndexed(canonical: map<nat, Hash>, path: seq<Hash>, h: Hash)
    requires forall i: nat :: i != |path| ==> IndexedAt(canonical, path, i)
    ensures Indexes(canonical[|path| := h], path + [h])
  {
    var c, p := canonical[|path| := h], path + [h];
    forall i: nat ensures IndexedAt(c, p, i) {
      assert i != |path| ==> IndexedAt(canonical, path, i);
    }
  }

  /** The paths to a new head's parent and to the old head. */
  lemma HeadPaths(s: Store, g: Header, h: Header, head: Header) returns (path: seq<Hash>, oldPath: seq<Hash>)
    requires Rooted(s, g) && h.hash in s && s[h.hash] == h && h.number > 0 && head.hash in s
    ensures oldPath == Path(s, g, head.hash) && Path(s, g, h.hash) == path + [h.hash]
    ensures Linked(s, path) && Coalesce(path, oldPath)
    ensures |path| == h.number && path[h.number - 1] == h.parent && |oldPath| > 0
  {
    assert HasParent(s, h.hash);
    path, oldPath := Path(s, g, h.parent), Path(s, g, head.hash);
    PathIsLinked(s, g, h.parent);
    PathsCoalesce(s, g, h.parent, head.hash);
  }
}

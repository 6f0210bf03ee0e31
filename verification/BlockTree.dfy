/** Headers linked by parent hashes, and the walks along those links.
    Hashes are opaque numbers, zero being the empty hash; a header stands for its own hash.
    The header table is keyed by hash and number, so a lookup with the wrong number finds nothing. */
module BlockTree {
  import opened Basics

  type Hash = nat

  const ZERO_HASH: Hash := 0

  datatype Header = Header(hash: Hash, parent: Hash, number: nat, difficulty: nat)

  type Store = map<Hash, Header>

  /** `GetHeader` on the database */
  function Lookup(s: Store, h: Hash, n: nat): Option<Header> {
    if h in s && s[h].number == n then Some(s[h]) else None
  }

  /** The parent of a header; a header number zero has none, its number minus one being no header's number. */
  function Parent(s: Store, h: Header): Option<Header> {
    if h.number == 0 then None else Lookup(s, h.parent, h.number - 1)
  }

  /** Stored under its own hash; no two headers share a hash. */
  ghost predicate Addressed(s: Store) {
    forall h :: h in s ==> s[h].hash == h
  }

  /** A header that does not collide with a stored one. */
  ghost predicate Consistent(s: Store, h: Header) {
    h.hash in s ==> s[h.hash] == h
  }

  // ---------------------------------------------------------------- walking down, in any store

  /** The ancestor of h with number n, if the links reach that far. */
  function Ancestor(s: Store, h: Header, n: nat): Option<Header>
    decreases h.number
  {
    if h.number == n then Some(h)
    else if h.number < n then None
    else match Parent(s, h)
      case None => None
      case Some(p) => Ancestor(s, p, n)
  }

  lemma {:induction false} AncestorNumber(s: Store, h: Header, n: nat)
    requires Ancestor(s, h, n).Some?
    ensures Ancestor(s, h, n).value.number == n <= h.number
    decreases h.number
  {
    if h.number != n { AncestorNumber(s, Parent(s, h).value, n); }
  }

  lemma {:induction false} AncestorTransitive(s: Store, h: Header, n: nat, m: nat)
    requires m <= n && Ancestor(s, h, n).Some?
    ensures Ancestor(s, h, m) == Ancestor(s, Ancestor(s, h, n).value, m)
    decreases h.number
  {
    if h.number != n {
      AncestorNumber(s, h, n);
      AncestorTransitive(s, Parent(s, h).value, n, m);
    }
  }

  /** Both links of a and b lead to the same header number n. */
  predicate Meet(s: Store, a: Header, b: Header, n: nat) {
    Ancestor(s, a, n).Some? && Ancestor(s, a, n) == Ancestor(s, b, n)
  }

  /** c is the highest common ancestor of a and b. */
  ghost predicate HighestCommon(s: Store, a: Header, b: Header, c: Header) {
    && Ancestor(s, a, c.number) == Some(c) == Ancestor(s, b, c.number)
    && forall n :: n > c.number ==> !Meet(s, a, b, n)
  }

  /** What a walk has to find: the highest common ancestor, or nothing when there is no common ancestor. */
  ghost predicate IsAncestorOf(s: Store, a: Header, b: Header, r: Option<Header>) {
    match r
    case Some(c) => HighestCommon(s, a, b, c)
    case None => forall n :: !Meet(s, a, b, n)
  }

  /** There is at most one right answer. */
  lemma HighestCommonUnique(s: Store, a: Header, b: Header, c: Header, d: Header)
    requires HighestCommon(s, a, b, c) && HighestCommon(s, a, b, d)
    ensures c == d
  {
    assert Meet(s, a, b, c.number) && Meet(s, a, b, d.number);
  }

  /** Two headers with different hashes at one number meet where their parents do. */
  lemma MeetParents(s: Store, a: Header, b: Header, n: nat)
    requires a.number == b.number && a != b
    ensures Meet(s, a, b, n) <==>
              Parent(s, a).Some? && Parent(s, b).Some? && Meet(s, Parent(s, a).value, Parent(s, b).value, n)
  {
    match Parent(s, a)
    case None =>
    case Some(p) =>
      if Ancestor(s, p, n).Some? { AncestorNumber(s, p, n); }
  }

  /** One step further down. */
  lemma AncestorStep(s: Store, h: Header, a: Header)
    requires Ancestor(s, h, a.number) == Some(a) && Parent(s, a).Some?
    ensures Ancestor(s, h, a.number - 1) == Parent(s, a)
  {
    AncestorTransitive(s, h, a.number, a.number - 1);
  }

  /** A higher header meets another where its parent does. */
  lemma MeetHigher(s: Store, a: Header, b: Header, n: nat)
    requires a.number > b.number
    ensures Meet(s, a, b, n) <==> Parent(s, a).Some? && Meet(s, Parent(s, a).value, b, n)
    ensures Meet(s, b, a, n) <==> Parent(s, a).Some? && Meet(s, b, Parent(s, a).value, n)
  {
    if Ancestor(s, b, n).Some? { AncestorNumber(s, b, n); }
  }

  /** `FindCommonAncestor` */
  method FindCommonAncestor(s: Store, a0: Header, b0: Header) returns (r: Option<Header>)
    requires Addressed(s) && Consistent(s, a0) && Consistent(s, b0)
    requires a0.hash == b0.hash ==> a0 == b0
    ensures IsAncestorOf(s, a0, b0, r)
  {
    var a, b := a0, b0;
    while a.number > b.number
      invariant Consistent(s, a) && (a.hash == b.hash ==> a == b)
      invariant Ancestor(s, a0, a.number) == Some(a)
      invariant forall n :: Meet(s, a0, b0, n) <==> Meet(s, a, b, n)
      decreases a.number
    {
      forall n ensures Meet(s, a, b, n) <==> Parent(s, a).Some? && Meet(s, Parent(s, a).value, b, n) {
        MeetHigher(s, a, b, n);
      }
      var p := Parent(s, a);
      if p.None? { return None; }
      AncestorStep(s, a0, a);
      a := p.value;
    }
    while a.number < b.number
      invariant Consistent(s, a) && Consistent(s, b) && (a.hash == b.hash ==> a == b)
      invariant a.number <= b.number && Ancestor(s, a0, a.number) == Some(a) && Ancestor(s, b0, b.number) == Some(b)
      invariant forall n :: Meet(s, a0, b0, n) <==> Meet(s, a, b, n)
      decreases b.number
    {
      forall n ensures Meet(s, a, b, n) <==> Parent(s, b).Some? && Meet(s, a, Parent(s, b).value, n) {
        MeetHigher(s, b, a, n);
      }
      var p := Parent(s, b);
      if p.None? { return None; }
      AncestorStep(s, b0, b);
      b := p.value;
    }
    while a.hash != b.hash
      invariant Consistent(s, a) && Consistent(s, b) && (a.hash == b.hash ==> a == b)
      invariant a.number == b.number && Ancestor(s, a0, a.number) == Some(a) && Ancestor(s, b0, b.number) == Some(b)
      invariant forall n :: Meet(s, a0, b0, n) <==> Meet(s, a, b, n)
      decreases a.number
    {
      forall n
        ensures Meet(s, a, b, n) <==>
                Parent(s, a).Some? && Parent(s, b).Some? && Meet(s, Parent(s, a).value, Parent(s, b).value, n)
      {
        MeetParents(s, a, b, n);
      }
      var p := Parent(s, a);
      if p.None? { return None; }
      AncestorStep(s, a0, a);
      a := p.value;
      p := Parent(s, b);
      if p.None? { return None; }
      AncestorStep(s, b0, b);
      b := p.value;
    }
    return Some(a);
  }

  // ---------------------------------------------------------------- closed trees

  /** Every stored header other than the genesis has its parent stored, one number below. */
  ghost predicate Rooted(s: Store, g: Header) {
    && Addressed(s)
    && g.hash in s && s[g.hash] == g && g.number == 0
    && ZERO_HASH !in s
    && (forall h :: h in s && s[h].number == 0 ==> h == g.hash)
    && (forall h :: HasParent(s, h))
  }

  /** If h is stored and not a genesis, its parent is stored one number below. */
  predicate HasParent(s: Store, h: Hash) {
    h in s && s[h].number > 0 ==> s[h].parent in s && s[s[h].parent].number + 1 == s[h].number
  }

  /** Entry i of the path is a stored header with number i. */
  predicate Numbered(s: Store, p: seq<Hash>, i: nat) {
    i < |p| ==> p[i] in s && s[p[i]].number == i
  }

  /** The hashes from the genesis to h. */
  function Path(s: Store, g: Header, h: Hash): (p: seq<Hash>)
    requires Rooted(s, g) && h in s
    ensures |p| == s[h].number + 1 && p[|p| - 1] == h
    ensures forall i :: Numbered(s, p, i)
    decreases s[h].number
  {
    assert HasParent(s, h);
    if s[h].number == 0 then [h]
    else
      var q := Path(s, g, s[h].parent);
      assert forall i :: Numbered(s, q, i) ==> Numbered(s, q + [h], i);
      q + [h]
  }

  /** The member of the path to h that has number i. */
  function Nth(s: Store, g: Header, h: Hash, i: nat): (x: Hash)
    requires Rooted(s, g) && h in s && i <= s[h].number
    ensures x in s && s[x].number == i && x == Path(s, g, h)[i]
  {
    assert Numbered(s, Path(s, g, h), i);
    Path(s, g, h)[i]
  }

  /** A path begins with the paths of its members. */
  lemma {:induction false} PathPrefix(s: Store, g: Header, h: Hash, i: nat)
    requires Rooted(s, g) && h in s && i <= s[h].number
    ensures Path(s, g, Nth(s, g, h, i)) == Path(s, g, h)[..i + 1]
    decreases s[h].number
  {
    assert HasParent(s, h);
    if i < s[h].number {
      var q := Path(s, g, s[h].parent);
      PathPrefix(s, g, s[h].parent, i);
      assert Path(s, g, h)[..i + 1] == q[..i + 1];
    } else {
      assert Path(s, g, h)[..i + 1] == Path(s, g, h);
    }
  }

  /** Members of a path are linked. */
  lemma PathLinked(s: Store, g: Header, h: Hash, i: nat)
    requires Rooted(s, g) && h in s && 0 < i <= s[h].number
    ensures s[Nth(s, g, h, i)].parent == Path(s, g, h)[i - 1]
  {
    PathPrefix(s, g, h, i);
    var x := Nth(s, g, h, i);
    assert HasParent(s, x);
    assert Path(s, g, x)[i - 1] == Path(s, g, s[x].parent)[i - 1];
  }

  /** Two paths that agree somewhere agree from there down to the genesis. */
  lemma PathsAgree(s: Store, g: Header, a: Hash, b: Hash, i: nat)
    requires Rooted(s, g) && a in s && b in s && i <= s[a].number && i <= s[b].number
    requires Path(s, g, a)[i] == Path(s, g, b)[i]
    ensures Path(s, g, a)[..i + 1] == Path(s, g, b)[..i + 1]
  {
    PathPrefix(s, g, a, i);
    PathPrefix(s, g, b, i);
  }

  /** Adding headers leaves existing paths alone. */
  lemma {:induction false} PathGrows(s: Store, s': Store, g: Header, h: Hash)
    requires Rooted(s, g) && Rooted(s', g) && h in s
    requires forall x :: x in s ==> x in s' && s'[x] == s[x]
    ensures Path(s', g, h) == Path(s, g, h)
    decreases s[h].number
  {
    assert HasParent(s, h);
    if s[h].number > 0 { PathGrows(s, s', g, s[h].parent); }
  }

  /** Adding a header whose parent is stored keeps the tree rooted. */
  lemma RootedAdd(s: Store, g: Header, h: Header)
    requires Rooted(s, g) && h.hash != ZERO_HASH && Consistent(s, h)
    requires h.parent in s && h.number == s[h.parent].number + 1
    ensures Rooted(s[h.hash := h], g)
    ensures Path(s[h.hash := h], g, h.hash) == Path(s, g, h.parent) + [h.hash]
  {
    var s' := s[h.hash := h];
    forall x ensures HasParent(s', x) {
      assert HasParent(s, x);
    }
    PathGrows(s, s', g, h.parent);
  }

  /** In a rooted tree walking down the links is reading the path. */
  lemma {:induction false} AncestorOnPath(s: Store, g: Header, h: Hash, n: nat)
    requires Rooted(s, g) && h in s && n <= s[h].number
    ensures Ancestor(s, s[h], n) == Some(s[Nth(s, g, h, n)])
    decreases s[h].number
  {
    assert HasParent(s, h);
    if n < s[h].number { AncestorOnPath(s, g, s[h].parent, n); }
  }

  /** In a rooted tree any two headers have a highest common ancestor: their paths agree up to it and nowhere above. */
  lemma CommonAncestorExists(s: Store, g: Header, a: Hash, b: Hash, r: Option<Header>)
    requires Rooted(s, g) && a in s && b in s && IsAncestorOf(s, s[a], s[b], r)
    ensures r.Some? && r.value.number <= s[a].number && r.value.number <= s[b].number
    ensures Path(s, g, a)[..r.value.number + 1] == Path(s, g, b)[..r.value.number + 1]
    ensures forall i :: r.value.number < i <= s[a].number && i <= s[b].number ==> Path(s, g, a)[i] != Path(s, g, b)[i]
  {
    MeetOnPaths(s, g, a, b, 0);
    assert Meet(s, s[a], s[b], 0);
    var n := r.value.number;
    AncestorNumber(s, s[a], n);
    AncestorNumber(s, s[b], n);
    MeetOnPaths(s, g, a, b, n);
    PathsAgree(s, g, a, b, n);
    forall i | n < i <= s[a].number && i <= s[b].number ensures Path(s, g, a)[i] != Path(s, g, b)[i] {
      MeetOnPaths(s, g, a, b, i);
      assert !Meet(s, s[a], s[b], i);
    }
  }

  lemma MeetOnPaths(s: Store, g: Header, a: Hash, b: Hash, i: nat)
    requires Rooted(s, g) && a in s && b in s && i <= s[a].number && i <= s[b].number
    ensures Meet(s, s[a], s[b], i) <==> Path(s, g, a)[i] == Path(s, g, b)[i]
    ensures i == 0 ==> Meet(s, s[a], s[b], i)
  {
    AncestorOnPath(s, g, a, i);
    AncestorOnPath(s, g, b, i);
  }

  /** Sum of difficulties along the path. */
  function Weight(s: Store, g: Header, h: Hash): nat
    requires Rooted(s, g) && h in s
    decreases s[h].number
  {
    assert HasParent(s, h);
    s[h].difficulty + if s[h].number == 0 then 0 else Weight(s, g, s[h].parent)
  }

  lemma {:induction false} WeightGrows(s: Store, s': Store, g: Header, h: Hash)
    requires Rooted(s, g) && Rooted(s', g) && h in s
    requires forall x :: x in s ==> x in s' && s'[x] == s[x]
    ensures Weight(s', g, h) == Weight(s, g, h)
    decreases s[h].number
  {
    assert HasParent(s, h);
    if s[h].number > 0 { WeightGrows(s, s', g, s[h].parent); }
  }
}

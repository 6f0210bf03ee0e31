/** `txList`: the transactions of one account, with upper bounds on cost and gas that let `Filter` skip work. */
module TxList {
  import opened Basics
  import opened TxSortedMap

  // ---------------------------------------------------------------- price bump

  function ToInt64(x: int): (r: int)
    requires -0x8000_0000_0000_0000 <= x < 0x1_8000_0000_0000_0000
    ensures -0x8000_0000_0000_0000 <= r < 0x8000_0000_0000_0000
  {
    if x >= 0x8000_0000_0000_0000 then x - 0x1_0000_0000_0000_0000 else x
  }

  /** 100 + int64(priceBump), in 64-bit arithmetic */
  function Percent(priceBump: Nonce): int {
    ToInt64(100 + ToInt64(priceBump))
  }

  lemma PercentExactly(priceBump: Nonce)
    ensures Percent(priceBump) == 100 + priceBump <==> priceBump < 0x8000_0000_0000_0000 - 100
  {
  }

  /** The integer threshold of `Add` admits exactly the prices above the given percentage. */
  lemma ThresholdExactly(price: nat, percent: int, offer: nat)
    ensures price * percent / 100 >= offer <==> price * percent >= 100 * offer
  {
    var x := price * percent;
    assert x == 100 * (x / 100) + x % 100;
  }

  // ---------------------------------------------------------------- what a full scan would do

  function Over(costLimit: int, gasLimit: int): Tx -> bool {
    (t: Tx) => t.cost > costLimit || t.gas > gasLimit
  }

  function Past(nonce: Nonce): Tx -> bool {
    (t: Tx) => t.nonce > nonce
  }

  /** Some transaction before n is over a limit. */
  ghost predicate Broken(m: Contents, costLimit: int, gasLimit: int, n: Nonce) {
    exists k :: k in m && k < n && Over(costLimit, gasLimit)(m[k])
  }

  /** What becomes non-executable: within the limits, but behind one that is not. */
  ghost function Invalid(m: Contents, strict: bool, costLimit: int, gasLimit: int): Contents {
    map n | n in m && strict && !Over(costLimit, gasLimit)(m[n]) && Broken(m, costLimit, gasLimit, n) :: m[n]
  }

  ghost function Kept(m: Contents, strict: bool, costLimit: int, gasLimit: int): Contents {
    map n | n in m && !Over(costLimit, gasLimit)(m[n]) && !(strict && Broken(m, costLimit, gasLimit, n)) :: m[n]
  }

  /** Removed, invalidated and kept transactions partition the contents. */
  lemma Partition(m: Contents, strict: bool, c: int, g: int)
    ensures Picked(m, Over(c, g)).Keys !! Invalid(m, strict, c, g).Keys !! Kept(m, strict, c, g).Keys
    ensures Picked(m, Over(c, g)) + Invalid(m, strict, c, g) + Kept(m, strict, c, g) == m
  {
  }

  /** No gaps between nonces. */
  ghost predicate Contiguous(m: Contents) {
    forall a, b, c :: a in m && b in m && a <= c <= b ==> c in m
  }

  lemma KeptContiguous(m: Contents, c: int, g: int)
    requires Contiguous(m)
    ensures Contiguous(Kept(m, true, c, g))
  {
    var r := Kept(m, true, c, g);
    forall x: Nonce, y: Nonce, z: Nonce | x in r && y in r && x <= z <= y ensures z in r {
      assert z == y || !Over(c, g)(m[z]) || Broken(m, c, g, y);
    }
  }

  /** Cutting a tail off the nonce order. */
  lemma FrontBefore(m: Contents, rest: Contents, tail: seq<Tx>, k: Nonce, n: Nonce)
    requires Nonced(m) && Part(rest, m) && InOrder(rest) + tail == InOrder(m)
    requires k in rest && n in m && n !in rest
    ensures k <= n
  {
    InOrderLists(m);
    InOrderLists(rest);
    ListsHas(InOrder(rest), rest, k);
    ListsHas(InOrder(m), m, n);
    var i :| 0 <= i < |InOrder(rest)| && InOrder(rest)[i] == rest[k];
    var j :| 0 <= j < |InOrder(m)| && InOrder(m)[j] == m[n];
    if j < |InOrder(rest)| {
      ListsOnly(InOrder(rest), rest, InOrder(rest)[j]);
      assert false;
    }
    assert TxKey(InOrder(m)[i]) <= TxKey(InOrder(m)[j]);
  }

  lemma {:induction false} FrontContiguous(m: Contents, rest: Contents, tail: seq<Tx>)
    requires Nonced(m) && Part(rest, m) && InOrder(rest) + tail == InOrder(m) && Contiguous(m)
    ensures Contiguous(rest)
  {
    forall a, b, c | a in rest && b in rest && a <= c <= b ensures c in rest {
      if c !in rest { FrontBefore(m, rest, tail, b, c); }
    }
  }

  // ---------------------------------------------------------------- the list

  /** The caps are upper bounds. */
  ghost predicate Capped(m: Contents, costcap: int, gascap: int) {
    forall n :: n in m ==> m[n].cost <= costcap && m[n].gas <= gascap
  }

  lemma ListsNothing(m: Contents)
    requires m == map[]
    ensures Lists([], m)
  {
    forall t: Tx ensures Once([], m, t) {
    }
  }

  /** While the caps are within the limits, a scan would find nothing. */
  lemma NothingOver(m: Contents, strict: bool, c: int, g: int, costcap: int, gascap: int)
    requires Capped(m, costcap, gascap) && costcap <= c && gascap <= g
    ensures Kept(m, strict, c, g) == m && Lists([], Picked(m, Over(c, g))) && Lists([], Invalid(m, strict, c, g))
  {
    assert forall n :: !Broken(m, c, g, n);
    ListsNothing(Picked(m, Over(c, g)));
    ListsNothing(Invalid(m, strict, c, g));
  }

  lemma NothingBroken(m: Contents, strict: bool, c: int, g: int, removed: seq<Tx>)
    requires Nonced(m) && Lists(removed, Picked(m, Over(c, g))) && (strict ==> removed == [])
    ensures Spared(m, Over(c, g)) == Kept(m, strict, c, g) && Lists([], Invalid(m, strict, c, g))
  {
    if strict {
      forall n ensures !Broken(m, c, g, n) {
        if Broken(m, c, g, n) {
          var k :| k in m && k < n && Over(c, g)(m[k]);
          ListsHas(removed, Picked(m, Over(c, g)), k);
          assert false;
        }
      }
    }
    ListsNothing(Invalid(m, strict, c, g));
  }

  /** Everything behind the lowest removed nonce, and nothing else, is broken. */
  lemma BrokenAbove(m: Contents, c: int, g: int, removed: seq<Tx>, lowest: Nonce)
    requires Nonced(m) && Lists(removed, Picked(m, Over(c, g)))
    requires forall i :: 0 <= i < |removed| ==> lowest <= removed[i].nonce
    requires exists i :: 0 <= i < |removed| && removed[i].nonce == lowest
    ensures var s := Spared(m, Over(c, g));
      && Picked(s, Past(lowest)) == Invalid(m, true, c, g)
      && Spared(s, Past(lowest)) == Kept(m, true, c, g)
  {
    var i :| 0 <= i < |removed| && removed[i].nonce == lowest;
    ListsOnly(removed, Picked(m, Over(c, g)), removed[i]);
    forall n: Nonce ensures Broken(m, c, g, n) <==> lowest < n {
      if Broken(m, c, g, n) {
        var k :| k in m && k < n && Over(c, g)(m[k]);
        ListsHas(removed, Picked(m, Over(c, g)), k);
      }
    }
  }

  /** In terms of cost and gas: what is kept is within the limits and, if strict, has nothing over them before it; what
      is removed is over one of them; what is invalidated is within them but, if strict, behind a removed one. */
  lemma ScanExactly(m: Contents, strict: bool, c: int, g: int, n: Nonce)
    ensures n in Kept(m, strict, c, g) <==>
      && n in m && m[n].cost <= c && m[n].gas <= g
      && (strict ==> forall k :: k in m && k < n ==> m[k].cost <= c && m[k].gas <= g)
    ensures n in Picked(m, Over(c, g)) <==> n in m && (m[n].cost > c || m[n].gas > g)
    ensures n in Invalid(m, strict, c, g) <==>
      && n in m && strict && m[n].cost <= c && m[n].gas <= g
      && exists k :: k in m && k < n && (m[k].cost > c || m[k].gas > g)
  {
    forall k | k in m && k < n ensures Over(c, g)(m[k]) <==> m[k].cost > c || m[k].gas > g {
    }
  }

  class List {
    const strict: bool
    const txs: SortedMap
    var costcap: int
    var gascap: int

    ghost predicate Valid()
      reads this, txs
    {
      txs.Valid() && Capped(txs.items, costcap, gascap)
    }

    constructor (s: bool)
      ensures Valid() && strict == s && txs.items == map[] && fresh(txs)
    {
      strict, costcap, gascap := s, 0, 0;
      txs := new SortedMap();
    }

    method Overlaps(t: Tx) returns (r: bool)
      requires Valid()
      ensures r == (t.nonce in txs.items)
    {
      var o := txs.Get(t.nonce);
      r := o.Some?;
    }

    /** A nonce in use is taken over only for a price above the given percentage of the old one. */
    method Add(t: Tx, priceBump: Nonce) returns (ok: bool, replaced: Option<Tx>)
      requires Valid()
      modifies this, txs
      ensures Valid()
      ensures ok <==> t.nonce !in old(txs.items) || old(txs.items)[t.nonce].price * Percent(priceBump) < 100 * t.price
      ensures txs.items == if ok then old(txs.items)[t.nonce := t] else old(txs.items)
      ensures replaced == if ok && t.nonce in old(txs.items) then Some(old(txs.items)[t.nonce]) else None
      ensures costcap == if ok && old(costcap) < t.cost then t.cost else old(costcap)
      ensures gascap == if ok && old(gascap) < t.gas then t.gas else old(gascap)
    {
      replaced := txs.Get(t.nonce);
      if replaced.Some? {
        var threshold := replaced.value.price * Percent(priceBump) / 100;
        ThresholdExactly(replaced.value.price, Percent(priceBump), t.price);
        if threshold >= t.price {
          return false, None;
        }
      }
      txs.Put(t);
      if costcap < t.cost {
        costcap := t.cost;
      }
      if gascap < t.gas {
        gascap := t.gas;
      }
      ok := true;
    }

    method Forward(threshold: Nonce) returns (removed: seq<Tx>)
      requires Valid()
      modifies txs
      ensures Valid() && removed + InOrder(txs.items) == InOrder(old(txs.items))
      ensures forall n :: n in txs.items <==> n in old(txs.items) && n >= threshold
      ensures forall n :: n in txs.items ==> txs.items[n] == old(txs.items)[n]
      ensures old(Contiguous(txs.items)) ==> Contiguous(txs.items)
    {
      removed := txs.Forward(threshold);
    }

    static method Lowest(removed: seq<Tx>) returns (lowest: Nonce)
      ensures forall i :: 0 <= i < |removed| ==> lowest <= removed[i].nonce
      ensures removed != [] ==> exists i :: 0 <= i < |removed| && removed[i].nonce == lowest
    {
      lowest := 0xFFFF_FFFF_FFFF_FFFF;
      for k := 0 to |removed|
        invariant forall i :: 0 <= i < k ==> lowest <= removed[i].nonce
        invariant lowest < 0xFFFF_FFFF_FFFF_FFFF ==> exists i :: 0 <= i < k && removed[i].nonce == lowest
      {
        if lowest > removed[k].nonce {
          lowest := removed[k].nonce;
        }
      }
      assert removed != [] ==> lowest <= removed[0].nonce;
    }

    /** Removes what a scan without the caps would remove. */
    method Filter(costLimit: int, gasLimit: int) returns (removed: seq<Tx>, invalids: seq<Tx>)
      requires Valid()
      modifies this, txs
      ensures Valid() && txs.items == Kept(old(txs.items), strict, costLimit, gasLimit)
      ensures Lists(removed, Picked(old(txs.items), Over(costLimit, gasLimit)))
      ensures Lists(invalids, Invalid(old(txs.items), strict, costLimit, gasLimit))
      ensures (costcap, gascap) == if old(costcap) <= costLimit && old(gascap) <= gasLimit
                                   then (old(costcap), old(gascap)) else (costLimit, gasLimit)
      ensures strict && old(Contiguous(txs.items)) ==> Contiguous(txs.items)
    {
      ghost var m := txs.items;
      removed, invalids := [], [];
      if costcap <= costLimit && gascap <= gasLimit {
        NothingOver(m, strict, costLimit, gasLimit, costcap, gascap);
        return;
      }
      costcap, gascap := costLimit, gasLimit;
      removed := txs.Filter(Over(costLimit, gasLimit));
      if strict && |removed| > 0 {
        var lowest := Lowest(removed);
        BrokenAbove(m, costLimit, gasLimit, removed, lowest);
        invalids := txs.Filter(Past(lowest));
      } else {
        NothingBroken(m, strict, costLimit, gasLimit, removed);
      }
      if strict && Contiguous(m) { KeptContiguous(m, costLimit, gasLimit); }
    }

    method Cap(threshold: nat) returns (drops: seq<Tx>)
      requires Valid()
      modifies txs
      ensures Valid() && InOrder(txs.items) + Reversed(drops) == InOrder(old(txs.items))
      ensures |txs.items| == (if |old(txs.items)| < threshold then |old(txs.items)| else threshold)
      ensures old(Contiguous(txs.items)) ==> Contiguous(txs.items)
    {
      ghost var m := txs.items;
      drops := txs.Cap(threshold);
      if Contiguous(m) { FrontContiguous(m, txs.items, Reversed(drops)); }
    }

    /** Removes the nonce and, in a strict list, everything behind it. */
    method Remove(t: Tx) returns (found: bool, invalids: seq<Tx>)
      requires Valid()
      modifies txs
      ensures Valid() && found == (t.nonce in old(txs.items))
      ensures var rest := old(txs.items) - {t.nonce};
        && txs.items == (if found && strict then Spared(rest, Past(t.nonce)) else rest)
        && Lists(invalids, if found && strict then Picked(rest, Past(t.nonce)) else map[])
        && (found && strict ==> forall n :: n in txs.items <==> n in old(txs.items) && n < t.nonce)
      ensures strict && old(Contiguous(txs.items)) ==> Contiguous(txs.items)
    {
      invalids := [];
      ListsNothing(map[]);
      found := txs.Remove(t.nonce);
      if found && strict {
        invalids := txs.Filter(Past(t.nonce));
      }
    }

    method Ready(start: Nonce) returns (ready: seq<Tx>)
      requires Valid()
      modifies txs
      ensures Valid() && ready + InOrder(txs.items) == InOrder(old(txs.items))
      ensures ready == [] <==> forall n :: n in old(txs.items) ==> n > start
      ensures forall i :: 0 <= i < |ready| ==> ready[i].nonce == ready[0].nonce + i
      ensures ready != [] ==> ready[|ready| - 1].nonce + 1 !in txs.items
    {
      ready := txs.Ready(start);
    }
  }
}

/** `txSortedMap`: transactions by nonce, with a heap of the nonces and a cached sorted slice. */
module TxSortedMap {
  import opened Basics
  import Heap

  type Nonce = n: nat | n < 0x1_0000_0000_0000_0000

  datatype Tx = Tx(hash: nat, from: nat, nonce: Nonce, price: nat, cost: nat, gas: nat)

  type Contents = map<Nonce, Tx>

  function NonceKey(n: Nonce): int { n }

  function TxKey(t: Tx): int { t.nonce }

  // ---------------------------------------------------------------- the plain map, in nonce order

  /** Every transaction is stored under its own nonce. */
  ghost predicate Nonced(m: Contents) {
    forall n :: n in m ==> m[n].nonce == n
  }

  ghost predicate IsLargest(s: set<Nonce>, n: Nonce) {
    n in s && forall k :: k in s ==> k <= n
  }

  lemma {:induction false} LargestExists(s: set<Nonce>)
    requires s != {}
    ensures exists n :: IsLargest(s, n)
  {
    var x :| x in s;
    if s == {x} {
      assert IsLargest(s, x);
    } else {
      LargestExists(s - {x});
      var y :| IsLargest(s - {x}, y);
      assert forall k :: k in s ==> k == x || k in s - {x};
      assert IsLargest(s, if x < y then y else x);
    }
  }

  /** The contents in the order of their nonces. */
  ghost function InOrder(m: Contents): seq<Tx>
    decreases |m.Keys|
  {
    if m.Keys == {} then []
    else
      LargestExists(m.Keys);
      var n :| IsLargest(m.Keys, n);
      assert (m - {n}).Keys == m.Keys - {n};
      InOrder(m - {n}) + [m[n]]
  }

  lemma TakeLast(m: Contents, n: Nonce)
    requires IsLargest(m.Keys, n)
    ensures InOrder(m) == InOrder(m - {n}) + [m[n]]
  {
    assert forall k :: IsLargest(m.Keys, k) ==> k == n;
  }

  lemma {:induction false} TakeFirst(m: Contents, n: Nonce)
    requires n in m && forall k :: k in m ==> n <= k
    ensures InOrder(m) == [m[n]] + InOrder(m - {n})
    decreases |m.Keys|
  {
    LargestExists(m.Keys);
    var x :| IsLargest(m.Keys, x);
    TakeLast(m, x);
    if x == n {
      assert (m - {n}).Keys == {};
      assert InOrder(m - {n}) == [];
    } else {
      assert (m - {x}).Keys == m.Keys - {x};
      TakeFirst(m - {x}, n);
      TakeLast(m - {n}, x);
      assert m - {x} - {n} == m - {n} - {x};
    }
  }

  predicate In(m: Contents, t: Tx) {
    t.nonce in m && m[t.nonce] == t
  }

  predicate Once(s: seq<Tx>, m: Contents, t: Tx) {
    multiset(s)[t] == if In(m, t) then 1 else 0
  }

  /** s holds exactly the transactions of m, each once, in some order. */
  ghost predicate Lists(s: seq<Tx>, m: Contents) {
    forall t: Tx :: Once(s, m, t)
  }

  lemma ListsHas(s: seq<Tx>, m: Contents, n: Nonce)
    requires Nonced(m) && Lists(s, m) && n in m
    ensures m[n] in s
  {
    assert Once(s, m, m[n]);
    assert m[n] in multiset(s);
  }

  lemma ListsOnly(s: seq<Tx>, m: Contents, t: Tx)
    requires Lists(s, m) && t in s
    ensures In(m, t)
  {
    assert Once(s, m, t);
    assert t in multiset(s);
  }

  lemma ListsOneMore(s: seq<Tx>, m: Contents, n: Nonce)
    requires Nonced(m) && n in m && Lists(s, m - {n})
    ensures Lists(s + [m[n]], m)
  {
    forall t: Tx ensures Once(s + [m[n]], m, t) {
      assert Once(s, m - {n}, t);
    }
  }

  lemma {:induction false} InOrderLists(m: Contents)
    requires Nonced(m)
    ensures Lists(InOrder(m), m) && Heap.Sorted(InOrder(m), TxKey) && |InOrder(m)| == |m.Keys|
    decreases |m.Keys|
  {
    if m.Keys != {} {
      LargestExists(m.Keys);
      var n :| IsLargest(m.Keys, n);
      TakeLast(m, n);
      assert (m - {n}).Keys == m.Keys - {n};
      InOrderLists(m - {n});
      ListsOneMore(InOrder(m - {n}), m, n);
      var s := InOrder(m - {n});
      forall i | 0 <= i < |s| ensures s[i].nonce <= n {
        assert Once(s, m - {n}, s[i]);
        assert s[i] in multiset(s);
      }
    }
  }

  /** Sorting any listing gives the nonce order. */
  lemma {:induction false} SortedIsInOrder(s: seq<Tx>, m: Contents)
    requires Nonced(m) && Lists(s, m) && Heap.Sorted(s, TxKey)
    ensures s == InOrder(m)
    decreases |s|
  {
    if s == [] {
      if m.Keys != {} {
        var n :| n in m;
        ListsHas(s, m, n);
        assert false;
      }
    } else {
      var k := |s| - 1;
      var t := s[k];
      assert s == s[..k] + [t];
      assert Once(s, m, t) && t in multiset(s);
      forall n | n in m ensures n <= t.nonce {
        ListsHas(s, m, n);
      }
      TakeLast(m, t.nonce);
      forall x: Tx ensures Once(s[..k], m - {t.nonce}, x) {
        assert Once(s, m, x);
      }
      SortedIsInOrder(s[..k], m - {t.nonce});
    }
  }

  // ---------------------------------------------------------------- index and cache

  /** A heap of exactly the keys, each once. */
  ghost predicate Indexes(index: seq<Nonce>, m: Contents) {
    Heap.IsHeap(index, NonceKey) && multiset(index) == multiset(m.Keys)
  }

  ghost predicate Coherent(m: Contents, index: seq<Nonce>, cache: Option<seq<Tx>>) {
    && Nonced(m) && Indexes(index, m)
    && (cache.Some? ==> cache.value == InOrder(m))
  }

  lemma RootIsFirst(index: seq<Nonce>, m: Contents)
    requires Indexes(index, m)
    ensures index == [] <==> m.Keys == {}
    ensures index != [] ==> index[0] in m && forall k :: k in m ==> index[0] <= k
  {
    if m.Keys != {} {
      var k :| k in m.Keys;
      assert k in multiset(m.Keys);
    }
    if index != [] {
      assert index[0] in multiset(index);
      forall k | k in m ensures index[0] <= k {
        assert k in multiset(index);
        var i :| 0 <= i < |index| && index[i] == k;
        Heap.RootIsLeast(index, NonceKey, i);
      }
    }
  }

  lemma KeysWithout(m: Contents, n: Nonce)
    requires n in m
    ensures multiset((m - {n}).Keys) == multiset(m.Keys) - multiset{n}
  {
    assert (m - {n}).Keys == m.Keys - {n};
  }

  /** The transactions of m for which f holds. */
  function Picked(m: Contents, f: Tx -> bool): Contents {
    map n | n in m && f(m[n]) :: m[n]
  }

  /** The transactions of m for which f does not hold. */
  function Spared(m: Contents, f: Tx -> bool): Contents {
    map n | n in m && !f(m[n]) :: m[n]
  }

  /** The transactions of m with a nonce from the threshold on. */
  function From(m: Contents, threshold: int): Contents {
    map n | n in m && n >= threshold :: m[n]
  }

  function Reversed(s: seq<Tx>): seq<Tx> {
    if s == [] then [] else Reversed(s[1..]) + [s[0]]
  }

  lemma {:induction false} ReversedAppend(s: seq<Tx>, t: Tx)
    ensures Reversed(s + [t]) == [t] + Reversed(s)
  {
    if s != [] {
      assert (s + [t])[1..] == s[1..] + [t];
      ReversedAppend(s[1..], t);
    }
  }

  /** rest is part of m. */
  ghost predicate Part(rest: Contents, m: Contents) {
    Nonced(rest) && forall n :: n in rest ==> n in m && rest[n] == m[n]
  }

  /** `removed` was taken off the front of m, and `rest` is left. */
  ghost predicate Popped(m: Contents, removed: seq<Tx>, rest: Contents) {
    && Part(rest, m)
    && removed + InOrder(rest) == InOrder(m)
  }

  /** Nothing from the threshold on is gone. */
  ghost predicate Above(m: Contents, rest: Contents, threshold: int) {
    forall n :: n in m && n >= threshold ==> n in rest
  }

  lemma PopStep(m: Contents, removed: seq<Tx>, rest: Contents, index: seq<Nonce>)
    requires Popped(m, removed, rest) && Indexes(index, rest) && index != []
    ensures index[0] in rest && Popped(m, removed + [rest[index[0]]], rest - {index[0]})
    ensures multiset((rest - {index[0]}).Keys) == multiset(index) - multiset{index[0]}
  {
    RootIsFirst(index, rest);
    TakeFirst(rest, index[0]);
    KeysWithout(rest, index[0]);
  }

  lemma ForwardEnds(m: Contents, removed: seq<Tx>, rest: Contents, index: seq<Nonce>, threshold: int)
    requires Popped(m, removed, rest) && Indexes(index, rest) && Above(m, rest, threshold)
    requires Nonced(m) && (index != [] ==> index[0] >= threshold)
    ensures rest == From(m, threshold)
  {
    RootIsFirst(index, rest);
  }

  /** Of m, the transactions in `todo` are still to be looked at. */
  ghost predicate Filtering(m: Contents, f: Tx -> bool, todo: set<Nonce>, rest: Contents, removed: seq<Tx>) {
    && todo <= rest.Keys && Part(rest, m)
    && (forall n :: n in m && n !in todo ==> (n in rest <==> !f(m[n])))
    && Lists(removed, m - rest.Keys)
  }

  lemma FilterBegins(m: Contents, f: Tx -> bool)
    requires Nonced(m)
    ensures Filtering(m, f, m.Keys, m, [])
  {
    assert m - m.Keys == map[];
    forall t: Tx ensures Once([], m - m.Keys, t) {
    }
  }

  lemma FilterStep(m: Contents, f: Tx -> bool, todo: set<Nonce>, rest: Contents, removed: seq<Tx>, n: Nonce)
    requires Nonced(m) && Filtering(m, f, todo, rest, removed) && n in todo
    ensures rest[n] == m[n]
    ensures !f(m[n]) ==> Filtering(m, f, todo - {n}, rest, removed)
    ensures f(m[n]) ==> Filtering(m, f, todo - {n}, rest - {n}, removed + [m[n]])
  {
    if f(m[n]) {
      var gone := m - (rest - {n}).Keys;
      assert gone - {n} == m - rest.Keys;
      ListsOneMore(removed, gone, n);
    }
  }

  lemma FilterEnds(m: Contents, f: Tx -> bool, rest: Contents, removed: seq<Tx>)
    requires Nonced(m) && Filtering(m, f, {}, rest, removed)
    ensures Nonced(rest) && rest == Spared(m, f) && Lists(removed, Picked(m, f))
    ensures removed == [] ==> rest == m
  {
    assert m - rest.Keys == Picked(m, f);
    if removed == [] && rest != m {
      var n :| n in m && n !in rest;
      ListsHas(removed, m - rest.Keys, n);
      assert false;
    }
  }

  lemma IndexSize(index: seq<Nonce>, m: Contents)
    requires multiset(index) == multiset(m.Keys)
    ensures |index| == |m|
  {
    assert |multiset(index)| == |index|;
    assert |multiset(m.Keys)| == |m.Keys|;
  }

  /** From m, the entries of the sorted index from `size` on have been dropped, last first. */
  ghost predicate Capping(m: Contents, sorted: seq<Nonce>, size: nat, rest: Contents, drops: seq<Tx>) {
    && size <= |sorted| && multiset(sorted[..size]) == multiset(rest.Keys)
    && Part(rest, m)
    && InOrder(rest) + Reversed(drops) == InOrder(m)
  }

  lemma LastIsLargest(sorted: seq<Nonce>, size: nat, s: set<Nonce>)
    requires 0 < size <= |sorted| && Heap.Sorted(sorted, NonceKey) && multiset(sorted[..size]) == multiset(s)
    ensures IsLargest(s, sorted[size - 1])
    ensures multiset(sorted[..size - 1]) == multiset(s) - multiset{sorted[size - 1]}
  {
    var n := sorted[size - 1];
    assert sorted[..size] == sorted[..size - 1] + [n];
    assert n in multiset(sorted[..size]);
    forall k | k in s ensures k <= n {
      assert k in multiset(sorted[..size]);
      var i :| 0 <= i < size && sorted[..size][i] == k;
      assert NonceKey(sorted[i]) <= NonceKey(n);
    }
  }

  lemma CapStep(m: Contents, sorted: seq<Nonce>, size: nat, rest: Contents, drops: seq<Tx>)
    requires Capping(m, sorted, size, rest, drops) && size > 0 && Heap.Sorted(sorted, NonceKey)
    ensures sorted[size - 1] in rest
    ensures Capping(m, sorted, size - 1, rest - {sorted[size - 1]}, drops + [rest[sorted[size - 1]]])
  {
    var n := sorted[size - 1];
    LastIsLargest(sorted, size, rest.Keys);
    TakeLast(rest, n);
    KeysWithout(rest, n);
    ReversedAppend(drops, rest[n]);
    assert InOrder(rest - {n}) + ([rest[n]] + Reversed(drops)) == InOrder(rest) + Reversed(drops);
  }

  lemma {:induction false} ReversedSize(s: seq<Tx>)
    ensures |Reversed(s)| == |s|
  {
    if s != [] { ReversedSize(s[1..]); }
  }

  lemma CapEnds(m: Contents, sorted: seq<Nonce>, size: nat, rest: Contents, drops: seq<Tx>)
    requires Capping(m, sorted, size, rest, drops)
    ensures |InOrder(m)| - |drops| >= 0 && InOrder(rest) == InOrder(m)[..|InOrder(m)| - |drops|]
    ensures |rest| == size
  {
    ReversedSize(drops);
    IndexSize(sorted[..size], rest);
  }

  /** Addition of one, in 64 bits. */
  function After(n: Nonce): Nonce {
    if n == 0xFFFF_FFFF_FFFF_FFFF then 0 else n + 1
  }

  /** Successive nonces, all before those in `rest`; `next` is the nonce after the last. */
  ghost predicate Run(ready: seq<Tx>, rest: Contents, next: Nonce) {
    && (forall i :: 0 <= i < |ready| ==> ready[i].nonce == ready[0].nonce + i)
    && (ready != [] ==>
         var last := ready[|ready| - 1].nonce;
         next == After(last) && forall n :: n in rest ==> n > last)
  }

  lemma RunStep(ready: seq<Tx>, rest: Contents, index: seq<Nonce>, next: Nonce)
    requires Indexes(index, rest) && Nonced(rest) && index != [] && index[0] == next && Run(ready, rest, next)
    ensures next in rest && Run(ready + [rest[next]], rest - {next}, After(next))
  {
    RootIsFirst(index, rest);
  }

  lemma RunEnds(ready: seq<Tx>, rest: Contents, index: seq<Nonce>, next: Nonce)
    requires Indexes(index, rest) && Run(ready, rest, next) && ready != [] && (index == [] || index[0] != next)
    ensures ready[|ready| - 1].nonce + 1 !in rest
  {
    RootIsFirst(index, rest);
  }

  lemma SortGivesOrder(s: seq<Tx>, m: Contents)
    requires Nonced(m) && Lists(s, m)
    ensures Heap.Sort(s, TxKey) == InOrder(m)
  {
    var r := Heap.Sort(s, TxKey);
    forall t: Tx ensures Once(r, m, t) {
      assert Once(s, m, t);
    }
    SortedIsInOrder(r, m);
  }

  class SortedMap {
    var items: Contents
    var index: seq<Nonce>
    var cache: Option<seq<Tx>>

    ghost predicate Valid()
      reads this
    {
      Coherent(items, index, cache)
    }

    constructor ()
      ensures Valid() && items == map[]
    {
      items, index, cache := map[], [], None;
    }

    method Get(nonce: Nonce) returns (t: Option<Tx>)
      ensures t == if nonce in items then Some(items[nonce]) else None
    {
      if nonce in items {
        t := Some(items[nonce]);
      } else {
        t := None;
      }
    }

    method Put(t: Tx)
      requires Valid()
      modifies this
      ensures Valid() && items == old(items)[t.nonce := t]
    {
      if t.nonce !in items {
        index := Heap.Push(index, NonceKey, t.nonce);
        assert items[t.nonce := t].Keys == items.Keys + {t.nonce};
      } else {
        assert items[t.nonce := t].Keys == items.Keys;
      }
      items, cache := items[t.nonce := t], None;
    }

    /** The transaction at the root of the heap leaves. */
    method TakeRoot(ghost m: Contents, ghost removed: seq<Tx>) returns (t: Tx)
      requires Indexes(index, items) && Popped(m, removed, items) && index != []
      modifies this`items, this`index
      ensures Indexes(index, items) && Popped(m, removed + [t], items) && |index| == old(|index|) - 1
      ensures t.nonce == old(index[0]) && In(old(items), t) && items == old(items) - {t.nonce}
    {
      PopStep(m, removed, items, index);
      var nonce;
      nonce, index := Heap.Pop(index, NonceKey);
      t := items[nonce];
      items := items - {nonce};
    }

    /** All below the threshold leave, in nonce order. */
    method Forward(threshold: Nonce) returns (removed: seq<Tx>)
      requires Valid()
      modifies this
      ensures Valid() && removed + InOrder(items) == InOrder(old(items))
      ensures items == From(old(items), threshold)
      ensures forall n :: n in items <==> n in old(items) && n >= threshold
    {
      removed := [];
      while |index| > 0 && index[0] < threshold
        invariant Indexes(index, items) && cache == old(cache)
        invariant Popped(old(items), removed, items) && Above(old(items), items, threshold)
        decreases |index|
      {
        var t := TakeRoot(old(items), removed);
        removed := removed + [t];
      }
      ForwardEnds(old(items), removed, items, index, threshold);
      if cache.Some? {
        cache := Some(cache.value[|removed|..]);
      }
    }

    /** Nonces in the order in which the map happens to be iterated. */
    static method Keys(m: Contents) returns (s: seq<Nonce>)
      ensures multiset(s) == multiset(m.Keys)
    {
      s := [];
      var todo := m.Keys;
      while todo != {}
        invariant todo <= m.Keys && multiset(s) == multiset(m.Keys - todo)
      {
        var n :| n in todo;
        assert m.Keys - (todo - {n}) == (m.Keys - todo) + {n};
        todo := todo - {n};
        s := s + [n];
      }
      assert m.Keys - todo == m.Keys;
    }

    method Filter(filter: Tx -> bool) returns (removed: seq<Tx>)
      requires Valid()
      modifies this
      ensures Valid() && items == Spared(old(items), filter)
      ensures Lists(removed, Picked(old(items), filter))
    {
      removed := [];
      ghost var m := items;
      var todo := items.Keys;
      FilterBegins(m, filter);
      while todo != {}
        invariant Filtering(m, filter, todo, items, removed) && index == old(index) && cache == old(cache)
      {
        var n :| n in todo;
        FilterStep(m, filter, todo, items, removed, n);
        todo := todo - {n};
        if filter(items[n]) {
          removed := removed + [items[n]];
          items := items - {n};
        }
      }
      FilterEnds(m, filter, items, removed);
      if |removed| > 0 {
        index := Keys(items);
        index := Heap.Init(index, NonceKey);
        cache := None;
      }
    }

    /** The loop of `Cap` */
    static method DropFrom(m: Contents, sorted: seq<Nonce>, threshold: nat) returns (rest: Contents, drops: seq<Tx>)
      requires Nonced(m) && threshold <= |sorted| && Heap.Sorted(sorted, NonceKey)
      requires multiset(sorted) == multiset(m.Keys)
      ensures Part(rest, m) && |rest| == threshold && multiset(sorted[..threshold]) == multiset(rest.Keys)
      ensures InOrder(rest) + Reversed(drops) == InOrder(m)
      ensures |drops| <= |InOrder(m)| && InOrder(rest) == InOrder(m)[..|InOrder(m)| - |drops|]
    {
      rest, drops := m, [];
      assert sorted[..|sorted|] == sorted;
      var size: nat := |sorted|;
      while size > threshold
        invariant threshold <= size <= |sorted|
        invariant Capping(m, sorted, size, rest, drops)
      {
        CapStep(m, sorted, size, rest, drops);
        drops := drops + [rest[sorted[size - 1]]];
        rest := rest - {sorted[size - 1]};
        size := size - 1;
      }
      CapEnds(m, sorted, threshold, rest, drops);
    }

    /** The highest nonces beyond the threshold leave, highest first. */
    method Cap(threshold: nat) returns (drops: seq<Tx>)
      requires Valid()
      modifies this
      ensures Valid() && InOrder(items) + Reversed(drops) == InOrder(old(items))
      ensures |items| == (if |old(items)| < threshold then |old(items)| else threshold)
      ensures forall n :: n in items ==> n in old(items) && items[n] == old(items)[n]
    {
      drops := [];
      IndexSize(index, items);
      if |items| <= threshold {
        return;
      }
      index := Heap.Sort(index, NonceKey);
      items, drops := DropFrom(items, index, threshold);
      index := Heap.Init(index[..threshold], NonceKey);
      if cache.Some? {
        cache := Some(cache.value[..|cache.value| - |drops|]);
      }
    }

    static method Find(index: seq<Nonce>, nonce: Nonce) returns (i: nat)
      requires nonce in index
      ensures i < |index| && index[i] == nonce
    {
      i := 0;
      while index[i] != nonce
        invariant i < |index| && nonce !in index[..i]
        decreases |index| - i
      {
        i := i + 1;
      }
    }

    method Remove(nonce: Nonce) returns (found: bool)
      requires Valid()
      modifies this
      ensures Valid() && items == old(items) - {nonce} && found == (nonce in old(items))
    {
      found := nonce in items;
      if found {
        assert nonce in multiset(index);
        var i := Find(index, nonce);
        KeysWithout(items, nonce);
        var n;
        n, index := Heap.Remove(index, NonceKey, i);
        items, cache := items - {nonce}, None;
      } else {
        assert items - {nonce} == items;
      }
    }

    /** The run of successive nonces at the front leaves, if it starts no later than `start`. */
    method Ready(start: Nonce) returns (ready: seq<Tx>)
      requires Valid()
      modifies this
      ensures Valid() && ready + InOrder(items) == InOrder(old(items))
      ensures ready == [] <==> forall n :: n in old(items) ==> n > start
      ensures ready == [] ==> items == old(items)
      ensures forall i :: 0 <= i < |ready| ==> ready[i].nonce == ready[0].nonce + i
      ensures ready != [] ==> ready[|ready| - 1].nonce + 1 !in items
      ensures forall n :: n in items ==> n in old(items) && items[n] == old(items)[n]
    {
      RootIsFirst(index, items);
      ready := [];
      if |index| == 0 || index[0] > start {
        return;
      }
      ghost var m := items;
      var next := index[0];
      while |index| > 0 && index[0] == next
        invariant Indexes(index, items) && Popped(m, ready, items) && Run(ready, items, next)
        invariant ready == [] ==> |index| > 0 && index[0] == next
        decreases |index|
      {
        RunStep(ready, items, index, next);
        var t := TakeRoot(m, ready);
        ready := ready + [t];
        next := After(next);
      }
      RunEnds(ready, items, index, next);
      cache := None;
    }

    method Flatten() returns (txs: seq<Tx>)
      requires Valid()
      modifies this`cache
      ensures Valid() && txs == InOrder(items)
    {
      if cache.None? {
        txs := [];
        var todo := items.Keys;
        while todo != {}
          invariant todo <= items.Keys && Lists(txs, items - todo)
        {
          var n :| n in todo;
          assert (items - (todo - {n})) - {n} == items - todo;
          ListsOneMore(txs, items - (todo - {n}), n);
          todo := todo - {n};
          txs := txs + [items[n]];
        }
        assert items - {} == items;
        SortGivesOrder(txs, items);
        txs := Heap.Sort(txs, TxKey);
        cache := Some(txs);
      } else {
        txs := cache.value;
      }
    }
  }
}

/** `txPricedList`: a price heap over the pool's transactions whose stale entries are only dropped when met. */
module TxPricedList {
  import Heap
  import TxSortedMap

  type Tx = TxSortedMap.Tx

  type Pool = map<nat, Tx>

  function PriceKey(t: Tx): int { t.price }

  /** The pool stores transactions by hash. */
  ghost predicate Keyed(all: Pool) {
    forall h :: h in all ==> all[h].hash == h
  }

  /** What the code tests: the pool has an entry under this hash. */
  predicate Live(all: Pool, t: Tx) {
    t.hash in all
  }

  /** An entry with the hash of a pooled transaction is that transaction. */
  ghost predicate Agrees(items: multiset<Tx>, all: Pool) {
    forall t :: t in items && Live(all, t) ==> all[t.hash] == t
  }

  /** Every pooled transaction is in the heap. */
  ghost predicate Covers(items: multiset<Tx>, all: Pool) {
    forall h :: h in all ==> all[h] in items
  }

  ghost predicate Tracks(items: multiset<Tx>, all: Pool) {
    Keyed(all) && Agrees(items, all) && Covers(items, all)
  }

  ghost predicate NoneLive(all: Pool, gone: multiset<Tx>) {
    forall t :: t in gone ==> !Live(all, t)
  }

  /** Only stale entries may be lost: what the pool still has stays covered by heap and result together. */
  lemma StillCovered(before: multiset<Tx>, items: multiset<Tx>, drop: multiset<Tx>, gone: multiset<Tx>, all: Pool)
    requires Tracks(before, all) && before == items + drop + gone && NoneLive(all, gone)
    ensures Tracks(items + drop, all)
  {
  }

  /** Once the pool has let go of what was returned, the heap tracks it again. */
  lemma TracksAfterRemoval(items: multiset<Tx>, drop: multiset<Tx>, all: Pool, rest: Pool)
    requires Tracks(items + drop, all)
    requires forall h :: h in rest <==> h in all && all[h] !in drop
    requires forall h :: h in rest ==> rest[h] == all[h]
    ensures Tracks(items, rest)
  {
  }

  lemma LeastOf(items: seq<Tx>, t: Tx)
    requires Heap.IsHeap(items, PriceKey) && t in multiset(items)
    ensures items != [] && items[0].price <= t.price
  {
    var i :| 0 <= i < |items| && items[i] == t;
    Heap.RootIsLeast(items, PriceKey, i);
  }

  /** A scan of the pool: it is not empty and nothing in it is cheaper. */
  ghost predicate NothingCheaper(all: Pool, price: nat) {
    all.Keys != {} && forall h :: h in all ==> price <= all[h].price
  }

  class PricedList {
    /** The pool's own map, changed by the pool. */
    var all: Pool
    var items: seq<Tx>
    var stales: int

    ghost predicate Valid()
      reads this
    {
      Heap.IsHeap(items, PriceKey) && Tracks(multiset(items), all)
    }

    constructor ()
      ensures Valid() && all == map[]
    {
      all, items, stales := map[], [], 0;
    }

    /** For a transaction the pool has just taken in. */
    method Put(t: Tx)
      requires Heap.IsHeap(items, PriceKey) && Tracks(multiset(items), all - {t.hash})
      requires t.hash in all ==> all[t.hash] == t
      requires forall u :: u in items && u.hash == t.hash ==> u == t
      modifies this`items
      ensures Valid() && multiset(items) == old(multiset(items)) + multiset{t}
    {
      PutTracks(multiset(items), all, t);
      items := Heap.Push(items, PriceKey, t);
    }

    static method Values(all: Pool) returns (s: seq<Tx>)
      requires Keyed(all)
      ensures multiset(s) == multiset(all.Values)
    {
      s := [];
      var todo := all.Keys;
      while todo != {}
        invariant todo <= all.Keys && multiset(s) == multiset((all - todo).Values)
      {
        var h :| h in todo;
        OneMoreValue(all, todo, h);
        todo := todo - {h};
        s := s + [all[h]];
      }
      assert all - {} == all;
    }

    /** For a transaction that has left the pool. */
    method Removed()
      requires Valid()
      modifies this`items, this`stales
      ensures Valid()
      ensures if old(stales) + 1 <= |old(items)| / 4 then items == old(items) && stales == old(stales) + 1
              else multiset(items) == multiset(all.Values) && stales == 0
    {
      stales := stales + 1;
      if stales <= |items| / 4 {
        return;
      }
      stales := 0;
      items := Values(all);
      items := Heap.Init(items, PriceKey);
    }

    /** Stale entries at the root leave. */
    method DropStale() returns (ghost gone: multiset<Tx>)
      requires Valid()
      modifies this`items, this`stales
      ensures Valid() && old(multiset(items)) == multiset(items) + gone && NoneLive(all, gone)
      ensures items != [] ==> Live(all, items[0])
      ensures stales == old(stales) - |gone|
    {
      gone := multiset{};
      while |items| > 0 && !Live(all, items[0])
        invariant Valid() && old(multiset(items)) == multiset(items) + gone && NoneLive(all, gone)
        invariant stales == old(stales) - |gone|
        decreases |items|
      {
        StaleStep(old(multiset(items)), multiset(items), gone, all, items[0]);
        stales := stales - 1;
        var x;
        x, items := Heap.Pop(items, PriceKey);
        gone := gone + multiset{x};
      }
    }

    /** Agrees with a scan of the pool. */
    method Underpriced(t: Tx, local: set<nat>) returns (r: bool, ghost gone: multiset<Tx>)
      requires Valid()
      modifies this`items, this`stales
      ensures Valid() && old(multiset(items)) == multiset(items) + gone && NoneLive(all, gone)
      ensures stales == old(stales) - |gone|
      ensures r <==> t.from !in local && NothingCheaper(all, t.price)
    {
      gone := multiset{};
      if t.from in local {
        return false, gone;
      }
      gone := DropStale();
      if |items| == 0 {
        return false, gone;
      }
      ScanOfRoot(items, all, t.price);
      r := items[0].price >= t.price;
    }

    static method PushAll(h: seq<Tx>, save: seq<Tx>) returns (r: seq<Tx>)
      requires Heap.IsHeap(h, PriceKey)
      ensures Heap.IsHeap(r, PriceKey) && multiset(r) == multiset(h) + multiset(save)
    {
      r := h;
      for i := 0 to |save|
        invariant Heap.IsHeap(r, PriceKey) && multiset(r) == multiset(h) + multiset(save[..i])
      {
        assert save[..i + 1] == save[..i] + [save[i]];
        r := Heap.Push(r, PriceKey, save[i]);
      }
      assert save[..|save|] == save;
    }

    /** The loop of `Cap` */
    static method TakeUnder(all: Pool, threshold: nat, local: set<nat>, items0: seq<Tx>)
        returns (items: seq<Tx>, drop: seq<Tx>, save: seq<Tx>, stale: nat, ghost gone: multiset<Tx>)
      requires Heap.IsHeap(items0, PriceKey)
      ensures Heap.IsHeap(items, PriceKey) && AllDear(multiset(items), threshold) && stale == |gone|
      ensures Capping(multiset(items0), items, drop, save, gone, all, threshold, local)
    {
      items, drop, save, stale, gone := items0, [], [], 0, multiset{};
      ghost var before := multiset(items0);
      while |items| > 0
        invariant Heap.IsHeap(items, PriceKey) && stale == |gone|
        invariant Capping(before, items, drop, save, gone, all, threshold, local)
        decreases |items|
      {
        var t, rest := Heap.Pop(items, PriceKey);
        CapStep(before, items, rest, drop, save, gone, all, threshold, local);
        if !Live(all, t) {
          stale := stale + 1;
          gone := gone + multiset{t};
        } else if t.price >= threshold {
          DearRoot(items, rest, threshold);
          save := save + [t];
          items := rest;
          break;
        } else if t.from in local {
          save := save + [t];
        } else {
          drop := drop + [t];
        }
        items := rest;
      }
    }

    /** All remote transactions under the threshold leave. */
    method Cap(threshold: nat, local: set<nat>) returns (drop: seq<Tx>, ghost gone: multiset<Tx>)
      requires Valid()
      modifies this`items, this`stales
      ensures Heap.IsHeap(items, PriceKey) && Tracks(multiset(items) + multiset(drop), all)
      ensures old(multiset(items)) == multiset(items) + multiset(drop) + gone && NoneLive(all, gone)
      ensures stales == old(stales) - |gone|
      ensures forall t :: t in multiset(drop) <==> Pooled(all, t) && t.price < threshold && t.from !in local
      ensures forall t :: t in multiset(items) && t.hash in all ==> t.price >= threshold || t.from in local
    {
      var save, stale;
      items, drop, save, stale, gone := TakeUnder(all, threshold, local, items);
      stales := stales - stale;
      CapEnds(old(multiset(items)), items, drop, save, gone, all, threshold, local);
      items := PushAll(items, save);
    }

    /** The loop of `Discard` */
    static method TakeCheapest(all: Pool, count: int, local: set<nat>, items0: seq<Tx>)
        returns (items: seq<Tx>, drop: seq<Tx>, save: seq<Tx>, stale: nat, ghost gone: multiset<Tx>)
      requires Heap.IsHeap(items0, PriceKey)
      ensures Heap.IsHeap(items, PriceKey) && stale == |gone|
      ensures Discarding(multiset(items0), items, drop, save, gone, all, local)
      ensures |drop| <= Max(count, 0) && (|drop| < count ==> items == [])
    {
      items, drop, save, stale, gone := items0, [], [], 0, multiset{};
      ghost var before := multiset(items0);
      var left := count;
      while |items| > 0 && left > 0
        invariant Heap.IsHeap(items, PriceKey) && stale == |gone| && left == count - |drop| && |drop| <= Max(count, 0)
        invariant Discarding(before, items, drop, save, gone, all, local)
        decreases |items|
      {
        var t, rest := Heap.Pop(items, PriceKey);
        DearRoot(items, rest, t.price);
        DiscardStep(before, items, rest, drop, save, gone, all, local);
        if !Live(all, t) {
          stale := stale + 1;
          gone := gone + multiset{t};
        } else if t.from in local {
          save := save + [t];
        } else {
          drop := drop + [t];
          left := left - 1;
        }
        items := rest;
      }
    }

    /** The cheapest `count` remote transactions leave, or all there are. */
    method Discard(count: int, local: set<nat>) returns (drop: seq<Tx>, ghost gone: multiset<Tx>)
      requires Valid()
      modifies this`items, this`stales
      ensures Heap.IsHeap(items, PriceKey) && Tracks(multiset(items) + multiset(drop), all)
      ensures old(multiset(items)) == multiset(items) + multiset(drop) + gone && NoneLive(all, gone)
      ensures stales == old(stales) - |gone|
      ensures forall t :: t in multiset(drop) ==> Pooled(all, t) && t.from !in local
      ensures forall t, u :: t in multiset(drop) && u in multiset(items) && Live(all, u) && u.from !in local ==>
                t.price <= u.price
      ensures |drop| <= Max(count, 0)
      ensures |drop| < count ==> forall u :: u in multiset(items) && Live(all, u) ==> u.from in local
    {
      var save, stale;
      items, drop, save, stale, gone := TakeCheapest(all, count, local, items);
      stales := stales - stale;
      DiscardEnds(old(multiset(items)), items, drop, save, gone, all, local);
      items := PushAll(items, save);
    }
  }

  function Max(a: int, b: int): int { if a < b then b else a }

  /** While the heap is taken apart into dropped, saved and stale entries. */
  ghost predicate Apart(before: multiset<Tx>, items: seq<Tx>, drop: seq<Tx>, save: seq<Tx>, gone: multiset<Tx>,
                        all: Pool) {
    before == multiset(items) + multiset(drop) + multiset(save) + gone && NoneLive(all, gone)
  }

  ghost predicate Discarding(before: multiset<Tx>, items: seq<Tx>, drop: seq<Tx>, save: seq<Tx>, gone: multiset<Tx>,
                             all: Pool, local: set<nat>) {
    && Apart(before, items, drop, save, gone, all)
    && (forall t :: t in drop ==> Live(all, t) && t.from !in local && AllDear(multiset(items), t.price))
    && (forall t :: t in save ==> Live(all, t) && t.from in local)
  }

  lemma DiscardStep(before: multiset<Tx>, items: seq<Tx>, rest: seq<Tx>, drop: seq<Tx>, save: seq<Tx>,
                    gone: multiset<Tx>, all: Pool, local: set<nat>)
    requires Discarding(before, items, drop, save, gone, all, local)
    requires items != [] && multiset(rest) == multiset(items) - multiset{items[0]}
    requires AllDear(multiset(items), items[0].price)
    ensures var t := items[0];
      if !Live(all, t) then Discarding(before, rest, drop, save, gone + multiset{t}, all, local)
      else if t.from in local then Discarding(before, rest, drop, save + [t], gone, all, local)
      else Discarding(before, rest, drop + [t], save, gone, all, local)
  {
    var t := items[0];
    Moved(before, items, rest, drop, save, gone, all);
    forall d | d in drop + [t] ensures AllDear(multiset(rest), d.price) {
      assert AllDear(multiset(items), d.price);
    }
  }

  lemma DiscardEnds(before: multiset<Tx>, items: seq<Tx>, drop: seq<Tx>, save: seq<Tx>, gone: multiset<Tx>,
                    all: Pool, local: set<nat>)
    requires Tracks(before, all) && Discarding(before, items, drop, save, gone, all, local)
    ensures var kept := multiset(items) + multiset(save);
      && Tracks(kept + multiset(drop), all) && before == kept + multiset(drop) + gone
      && (forall t :: t in multiset(drop) ==> Pooled(all, t))
      && (forall t, u :: t in multiset(drop) && u in kept && Live(all, u) && u.from !in local ==> t.price <= u.price)
      && (items == [] ==> forall u :: u in kept && Live(all, u) ==> u.from in local)
  {
    var kept := multiset(items) + multiset(save);
    StillCovered(before, kept, multiset(drop), gone, all);
    forall t | t in multiset(drop) ensures Pooled(all, t) {
      assert t in before && t in drop;
    }
    forall t, u | t in multiset(drop) && u in kept && Live(all, u) && u.from !in local ensures t.price <= u.price {
      assert t in drop && AllDear(multiset(items), t.price);
      assert u in multiset(save) ==> u in save;
    }
  }

  ghost predicate AllDear(items: multiset<Tx>, threshold: nat) {
    forall t :: t in items ==> t.price >= threshold
  }

  lemma DearRoot(items: seq<Tx>, rest: seq<Tx>, threshold: nat)
    requires Heap.IsHeap(items, PriceKey) && items != [] && multiset(rest) == multiset(items) - multiset{items[0]}
    requires items[0].price >= threshold
    ensures AllDear(multiset(items), threshold) && AllDear(multiset(rest), threshold)
  {
    forall t | t in multiset(items) ensures items[0].price <= t.price {
      LeastOf(items, t);
    }
  }

  lemma CapEnds(before: multiset<Tx>, items: seq<Tx>, drop: seq<Tx>, save: seq<Tx>, gone: multiset<Tx>,
                all: Pool, threshold: nat, local: set<nat>)
    requires Tracks(before, all) && AllDear(multiset(items), threshold)
    requires Capping(before, items, drop, save, gone, all, threshold, local)
    ensures var kept := multiset(items) + multiset(save);
      && Tracks(kept + multiset(drop), all) && before == kept + multiset(drop) + gone
      && (forall t :: t in multiset(drop) <==> Pooled(all, t) && Cheap(t, threshold, local))
      && (forall t :: t in kept && Live(all, t) ==> !Cheap(t, threshold, local))
  {
    var kept := multiset(items) + multiset(save);
    StillCovered(before, kept, multiset(drop), gone, all);
    forall t | Pooled(all, t) && Cheap(t, threshold, local) ensures t in multiset(drop) {
      assert all[t.hash] in before;
      assert t in multiset(save) ==> t in save;
    }
    forall t | t in multiset(drop) ensures Pooled(all, t) && Cheap(t, threshold, local) {
      assert t in before && t in drop;
    }
    forall t | t in kept && Live(all, t) ensures !Cheap(t, threshold, local) {
      assert t in multiset(save) ==> t in save;
    }
  }

  /** A transaction of the pool. */
  predicate Pooled(all: Pool, t: Tx) {
    t.hash in all && all[t.hash] == t
  }

  predicate Cheap(t: Tx, threshold: nat, local: set<nat>) {
    t.price < threshold && t.from !in local
  }

  ghost predicate Capping(before: multiset<Tx>, items: seq<Tx>, drop: seq<Tx>, save: seq<Tx>, gone: multiset<Tx>,
                          all: Pool, threshold: nat, local: set<nat>) {
    && Apart(before, items, drop, save, gone, all)
    && (forall t :: t in drop ==> Live(all, t) && Cheap(t, threshold, local))
    && (forall t :: t in save ==> Live(all, t) && !Cheap(t, threshold, local))
  }

  lemma CapStep(before: multiset<Tx>, items: seq<Tx>, rest: seq<Tx>, drop: seq<Tx>, save: seq<Tx>, gone: multiset<Tx>,
                all: Pool, threshold: nat, local: set<nat>)
    requires Capping(before, items, drop, save, gone, all, threshold, local)
    requires items != [] && multiset(rest) == multiset(items) - multiset{items[0]}
    ensures var t := items[0];
      if !Live(all, t) then Capping(before, rest, drop, save, gone + multiset{t}, all, threshold, local)
      else if !Cheap(t, threshold, local) then Capping(before, rest, drop, save + [t], gone, all, threshold, local)
      else Capping(before, rest, drop + [t], save, gone, all, threshold, local)
  {
    Moved(before, items, rest, drop, save, gone, all);
  }

  /** The root goes from the heap to one of the other three places. */
  lemma Moved(before: multiset<Tx>, items: seq<Tx>, rest: seq<Tx>, drop: seq<Tx>, save: seq<Tx>, gone: multiset<Tx>,
              all: Pool)
    requires Apart(before, items, drop, save, gone, all)
    requires items != [] && multiset(rest) == multiset(items) - multiset{items[0]}
    ensures var t := items[0];
      && Apart(before, rest, drop + [t], save, gone, all) && Apart(before, rest, drop, save + [t], gone, all)
      && (!Live(all, t) ==> Apart(before, rest, drop, save, gone + multiset{t}, all))
  {
    var t := items[0];
    assert t in multiset(items);
    assert multiset(items) == multiset(rest) + multiset{t};
    assert multiset(drop + [t]) == multiset(drop) + multiset{t};
    assert multiset(save + [t]) == multiset(save) + multiset{t};
  }

  lemma PutTracks(items: multiset<Tx>, all: Pool, t: Tx)
    requires Tracks(items, all - {t.hash}) && (t.hash in all ==> all[t.hash] == t)
    requires forall u :: u in items && u.hash == t.hash ==> u == t
    ensures Tracks(items + multiset{t}, all)
  {
    forall h | h in all ensures all[h].hash == h && all[h] in items + multiset{t} {
      assert h != t.hash ==> h in all - {t.hash};
    }
    forall u | u in items + multiset{t} && Live(all, u) ensures all[u.hash] == u {
      assert u.hash != t.hash ==> Live(all - {t.hash}, u);
    }
  }

  lemma StaleStep(before: multiset<Tx>, items: multiset<Tx>, gone: multiset<Tx>, all: Pool, t: Tx)
    requires Tracks(items, all) && t in items && !Live(all, t) && before == items + gone && NoneLive(all, gone)
    ensures Tracks(items - multiset{t}, all) && before == items - multiset{t} + (gone + multiset{t})
    ensures NoneLive(all, gone + multiset{t})
  {
    forall h | h in all ensures all[h] in items - multiset{t} {
      assert all[h] != t;
    }
  }

  lemma OneMoreValue(all: Pool, todo: set<nat>, h: nat)
    requires Keyed(all) && todo <= all.Keys && h in todo
    ensures multiset((all - (todo - {h})).Values) == multiset((all - todo).Values) + multiset{all[h]}
  {
    var a, b := all - todo, all - (todo - {h});
    assert b.Values == a.Values + {all[h]} by {
      forall t | t in b.Values ensures t in a.Values + {all[h]} {
        var k :| k in b && b[k] == t;
        assert k == h || (k in a && a[k] == t);
      }
      forall t | t in a.Values ensures t in b.Values {
        var k :| k in a && a[k] == t;
        assert k in b && b[k] == t;
      }
      assert h in b && b[h] == all[h];
    }
    assert all[h] !in a.Values;
  }

  lemma ScanOfRoot(items: seq<Tx>, all: Pool, price: nat)
    requires Heap.IsHeap(items, PriceKey) && Tracks(multiset(items), all) && items != [] && Live(all, items[0])
    ensures items[0].price >= price <==> NothingCheaper(all, price)
  {
    assert items[0] in multiset(items);
    forall h | h in all ensures items[0].price <= all[h].price {
      LeastOf(items, all[h]);
    }
  }
}

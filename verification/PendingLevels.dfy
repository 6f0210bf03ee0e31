/** Levels of the pending part of the transaction pool: what a fair eviction has to reach. */
module PendingLevels {
  import opened Basics

  type Addr = nat
  type Tx = nat

  /** Per account, the pending transactions in nonce order. */
  type Pending = map<Addr, seq<Tx>>

  // ---------------------------------------------------------------- levels

  /** Every account that is not local cut back to at most l transactions, the first ones by nonce. */
  function Leveled(p: Pending, locals: set<Addr>, l: nat): (q: Pending)
    ensures q.Keys == p.Keys
  {
    map a | a in p :: if a in locals then p[a] else p[a][..Min(|p[a]|, l)]
  }

  function Members(order: seq<Addr>): set<Addr> {
    if order == [] then {} else Members(order[..|order| - 1]) + {order[|order| - 1]}
  }

  predicate Distinct(order: seq<Addr>) {
    order == [] || (Distinct(order[..|order| - 1]) && order[|order| - 1] !in Members(order[..|order| - 1]))
  }

  /** An enumeration of the accounts, each once. */
  predicate Enumerates(order: seq<Addr>, p: Pending) {
    Distinct(order) && Members(order) == p.Keys
  }

  lemma {:induction false} DistinctAt(order: seq<Addr>, i: nat)
    requires Distinct(order) && i < |order|
    ensures order[i] !in Members(order[..i]) && Members(order[..i + 1]) == Members(order[..i]) + {order[i]}
    ensures order[i] in Members(order)
    decreases |order|
  {
    var m := |order| - 1;
    if i < m {
      DistinctAt(order[..m], i);
      assert order[..m][..i] == order[..i] && order[..m][..i + 1] == order[..i + 1];
    } else {
      assert order[..i + 1] == order;
      assert order[..i + 1][..i] == order[..i];
    }
  }

  lemma DistinctAppend(order: seq<Addr>, a: Addr)
    requires Distinct(order) && a !in Members(order)
    ensures Distinct(order + [a]) && Members(order + [a]) == Members(order) + {a}
  {
    assert (order + [a])[..|order|] == order;
  }

  lemma {:induction false} MembersConcat(a: seq<Addr>, b: seq<Addr>)
    ensures Members(a + b) == Members(a) + Members(b)
    decreases |b|
  {
    if b == [] {
      assert a + b == a;
    } else {
      assert (a + b)[..|a + b| - 1] == a + b[..|b| - 1];
      MembersConcat(a, b[..|b| - 1]);
    }
  }

  lemma {:induction false} DistinctFront(a: seq<Addr>, b: seq<Addr>)
    requires Distinct(a + b)
    ensures Distinct(a)
    decreases |b|
  {
    if b == [] {
      assert a + b == a;
    } else {
      assert (a + b)[..|a + b| - 1] == a + b[..|b| - 1];
      DistinctFront(a, b[..|b| - 1]);
    }
  }

  lemma {:induction false} MembersHas(order: seq<Addr>, i: nat)
    requires i < |order|
    ensures order[i] in Members(order)
    decreases |order|
  {
    if i < |order| - 1 { MembersHas(order[..|order| - 1], i); }
  }

  lemma {:induction false} MembersAt(order: seq<Addr>, a: Addr) returns (i: nat)
    requires a in Members(order)
    ensures i < |order| && order[i] == a
    decreases |order|
  {
    i := |order| - 1;
    if order[i] != a { i := MembersAt(order[..i], a); }
  }

  /** Number of transactions of the accounts in the list. */
  function Total(order: seq<Addr>, p: Pending): nat {
    if order == [] then 0
    else
      var a := order[|order| - 1];
      Total(order[..|order| - 1], p) + if a in p then |p[a]| else 0
  }

  lemma {:induction false} TotalSame(order: seq<Addr>, p: Pending, a: Addr, s: seq<Tx>)
    requires a !in Members(order)
    ensures Total(order, p[a := s]) == Total(order, p)
    decreases |order|
  {
    if order != [] { TotalSame(order[..|order| - 1], p, a, s); }
  }

  /** Replacing the list of one account. */
  lemma {:induction false} TotalUpdate(order: seq<Addr>, p: Pending, a: Addr, s: seq<Tx>)
    requires Distinct(order) && a in Members(order) && a in p
    ensures Total(order, p[a := s]) == Total(order, p) - |p[a]| + |s|
    decreases |order|
  {
    var m := |order| - 1;
    if order[m] == a {
      TotalSame(order[..m], p, a, s);
    } else {
      TotalUpdate(order[..m], p, a, s);
    }
  }

  /** The transactions cut off when p is cut back to q. */
  function Dropped(p: Pending, q: Pending): set<Tx> {
    set a, i | a in p && a in q && |q[a]| <= i < |p[a]| :: p[a][i]
  }

  // ---------------------------------------------------------------- the right level

  /** How many transactions are left at a level. */
  function LevelTotal(order: seq<Addr>, p: Pending, locals: set<Addr>, l: nat): nat {
    if order == [] then 0
    else
      var a := order[|order| - 1];
      LevelTotal(order[..|order| - 1], p, locals, l)
      + if a !in p then 0 else if a in locals then |p[a]| else Min(|p[a]|, l)
  }

  lemma {:induction false} TotalLeveled(order: seq<Addr>, p: Pending, locals: set<Addr>, l: nat)
    ensures Total(order, Leveled(p, locals, l)) == LevelTotal(order, p, locals, l)
    decreases |order|
  {
    if order != [] { TotalLeveled(order[..|order| - 1], p, locals, l); }
  }

  /** A cut to the level cuts nothing. */
  ghost predicate Uncut(p: Pending, locals: set<Addr>, l: nat) {
    forall a :: a in p && a !in locals ==> |p[a]| <= l
  }

  lemma UncutIsSame(p: Pending, locals: set<Addr>, l: nat)
    ensures Uncut(p, locals, l) <==> Leveled(p, locals, l) == p
  {
    if Uncut(p, locals, l) {
      forall a | a in p ensures Leveled(p, locals, l)[a] == p[a] {
      }
    } else {
      var a :| a in p && a !in locals && |p[a]| > l;
      assert |Leveled(p, locals, l)[a]| != |p[a]|;
    }
  }

  /** l is a level the eviction may end at: not below the account limit, low enough or at the limit,
      and not lower than needed. */
  ghost predicate FairLevel(order: seq<Addr>, p: Pending, locals: set<Addr>, globalSlots: nat, accountSlots: nat,
                            l: nat) {
    && l >= accountSlots
    && (LevelTotal(order, p, locals, l) <= globalSlots || l == accountSlots)
    && (LevelTotal(order, p, locals, l + 1) > globalSlots || Uncut(p, locals, l))
  }

  lemma {:induction false} LevelTotalMonotone(order: seq<Addr>, p: Pending, locals: set<Addr>, l: nat, m: nat)
    requires l <= m
    ensures LevelTotal(order, p, locals, l) <= LevelTotal(order, p, locals, m)
    decreases |order|
  {
    if order != [] { LevelTotalMonotone(order[..|order| - 1], p, locals, l, m); }
  }

  /** The outcome of a fair eviction is unique. */
  lemma FairUnique(order: seq<Addr>, p: Pending, locals: set<Addr>, globalSlots: nat, accountSlots: nat, l: nat, m: nat)
    requires FairLevel(order, p, locals, globalSlots, accountSlots, l)
    requires FairLevel(order, p, locals, globalSlots, accountSlots, m)
    ensures Leveled(p, locals, l) == Leveled(p, locals, m)
  {
    if l < m {
      LowerFair(order, p, locals, globalSlots, accountSlots, l, m);
    } else if m < l {
      LowerFair(order, p, locals, globalSlots, accountSlots, m, l);
    }
    UncutIsSame(p, locals, l);
    UncutIsSame(p, locals, m);
  }

  /** Of two fair levels the lower one cuts nothing. */
  lemma LowerFair(order: seq<Addr>, p: Pending, locals: set<Addr>, globalSlots: nat, accountSlots: nat, l: nat, m: nat)
    requires FairLevel(order, p, locals, globalSlots, accountSlots, l)
    requires FairLevel(order, p, locals, globalSlots, accountSlots, m) && l < m
    ensures Uncut(p, locals, l) && Uncut(p, locals, m)
  {
    LevelTotalMonotone(order, p, locals, l + 1, m);
  }

  /** What fairness means for each account and for the total. */
  lemma EvictionBounds(order: seq<Addr>, p: Pending, locals: set<Addr>, globalSlots: nat, accountSlots: nat, l: nat)
    requires FairLevel(order, p, locals, globalSlots, accountSlots, l)
    ensures var q := Leveled(p, locals, l);
      && (forall a :: a in p && a in locals ==> q[a] == p[a])
      && (forall a :: a in p && a !in locals ==>
        |q[a]| == Min(|p[a]|, l) && |q[a]| >= Min(|p[a]|, accountSlots) && q[a] <= p[a])
      && (Total(order, q) <= globalSlots || forall a :: a in p && a !in locals ==> |q[a]| <= accountSlots)
      && (Total(order, p) <= globalSlots ==> q == p)
  {
    TotalLeveled(order, p, locals, l);
    UncutIsSame(p, locals, l);
    if Total(order, p) <= globalSlots {
      LevelTotalBound(order, p, locals, l + 1);
    }
  }

  lemma {:induction false} LevelTotalBound(order: seq<Addr>, p: Pending, locals: set<Addr>, l: nat)
    ensures LevelTotal(order, p, locals, l) <= Total(order, p)
    decreases |order|
  {
    if order != [] { LevelTotalBound(order[..|order| - 1], p, locals, l); }
  }

  /** The leveled map, account by account. */
  ghost predicate IsCut(p: Pending, locals: set<Addr>, level: nat, pending: Pending) {
    pending.Keys == p.Keys && forall a :: CutAt(p, locals, level, pending, a)
  }

  predicate CutAt(p: Pending, locals: set<Addr>, level: nat, pending: Pending, a: Addr) {
    a in p && a in pending ==> pending[a] == if a in locals then p[a] else p[a][..Min(|p[a]|, level)]
  }

  lemma CutIsLeveled(p: Pending, locals: set<Addr>, level: nat, pending: Pending)
    ensures IsCut(p, locals, level, pending) <==> pending == Leveled(p, locals, level)
  {
    if IsCut(p, locals, level, pending) {
      forall a | a in p ensures pending[a] == Leveled(p, locals, level)[a] {
        assert CutAt(p, locals, level, pending, a);
      }
    }
  }

  lemma {:induction false} UncutTotal(order: seq<Addr>, p: Pending, locals: set<Addr>, l: nat)
    requires Uncut(p, locals, l)
    ensures LevelTotal(order, p, locals, l) == Total(order, p)
    decreases |order|
  {
    if order != [] { UncutTotal(order[..|order| - 1], p, locals, l); }
  }

  lemma UncutIsCut(p: Pending, locals: set<Addr>, l: nat)
    requires Uncut(p, locals, l)
    ensures IsCut(p, locals, l, p)
  {
    forall a: Addr ensures CutAt(p, locals, l, p, a) {
    }
  }

  /** A level above the total cuts nothing. */
  lemma NothingCut(order: seq<Addr>, p: Pending, locals: set<Addr>, level: nat)
    requires Enumerates(order, p) && level >= Total(order, p)
    ensures Uncut(p, locals, level) && IsCut(p, locals, level, p)
    ensures LevelTotal(order, p, locals, level) == Total(order, p)
    ensures forall a :: a in p ==> |p[a]| <= level
  {
    forall a | a in p ensures |p[a]| <= level {
      OneOfTotal(order, p, a);
    }
    UncutIsCut(p, locals, level);
    UncutTotal(order, p, locals, level);
  }

  lemma {:induction false} OneOfTotal(order: seq<Addr>, p: Pending, a: Addr)
    requires a in Members(order) && a in p
    ensures |p[a]| <= Total(order, p)
    decreases |order|
  {
    if order[|order| - 1] != a { OneOfTotal(order[..|order| - 1], p, a); }
  }

  /** The accounts in `done` have at least `level` transactions, the other non-local ones at most `threshold`. */
  ghost predicate Offending(p: Pending, locals: set<Addr>, done: set<Addr>, level: nat, threshold: nat) {
    && (forall a :: a in done ==> a in p && a !in locals && |p[a]| >= level)
    && (forall a :: a in p && a !in locals && a !in done ==> |p[a]| <= threshold)
  }

  lemma DroppedOne(p: Pending, q: Pending, a: Addr)
    requires a in p && a in q && 0 < |q[a]| <= |p[a]| && q[a] == p[a][..|q[a]|]
    ensures Dropped(p, q[a := q[a][..|q[a]| - 1]]) == Dropped(p, q) + {q[a][|q[a]| - 1]}
  {
    var n := |q[a]| - 1;
    var q' := q[a := q[a][..n]];
    forall x | x in Dropped(p, q') ensures x in Dropped(p, q) + {q[a][n]} {
      var b, i :| b in p && b in q' && |q'[b]| <= i < |p[b]| && x == p[b][i];
      if b == a && i == n {
        assert x == q[a][n];
      } else {
        assert |q[b]| <= i;
      }
    }
    forall x | x in Dropped(p, q) + {q[a][n]} ensures x in Dropped(p, q') {
      if x == q[a][n] {
        assert |q'[a]| <= n < |p[a]| && p[a][n] == x;
      } else {
        var b, i :| b in p && b in q && |q[b]| <= i < |p[b]| && x == p[b][i];
        assert |q'[b]| <= i;
      }
    }
  }
}

/** The gas of a block: `Process`, `ApplyTransaction` and the receipts read back by `SetReceiptsData`. */
module StateProcessor {
  import opened Basics
  import opened StateTransition

  /** A transaction as a message, and what the virtual machine makes of it; `signed` if the sender can be recovered. */
  datatype Tx = Tx(signed: bool, msg: Message, evm: (World, nat) -> Outcome)

  datatype Failure = BadSignature | Rejected(error: Error)

  datatype Receipt = Receipt(cumulative: int, gasUsed: int, failed: bool)

  /** Each receipt's own gas is what its cumulative gas adds to the one before. */
  ghost predicate Chained(rs: seq<Receipt>) {
    forall i: nat :: Own(rs, i)
  }

  predicate Own(rs: seq<Receipt>, i: nat) {
    i < |rs| ==> rs[i].gasUsed == rs[i].cumulative - Before(rs, i)
  }

  function Before(rs: seq<Receipt>, i: int): int
    requires 0 <= i <= |rs|
  {
    if i == 0 then 0 else rs[i - 1].cumulative
  }

  ghost predicate AllFair(txs: seq<Tx>) {
    forall i :: 0 <= i < |txs| ==> Fair(txs[i].evm)
  }

  ghost predicate AllOrdinary(p: Params, txs: seq<Tx>) {
    forall i :: 0 <= i < |txs| ==> Ordinary(p, txs[i].msg)
  }

  ghost predicate AllKeepSolvent(txs: seq<Tx>) {
    forall i :: 0 <= i < |txs| ==> KeepsSolvent(txs[i].evm)
  }

  /** Why a transaction makes the block invalid, if it does. */
  function Failing(p: Params, w: World, tx: Tx, pool: int): Option<Failure> {
    var v := Verdict(p, tx.msg, w, pool);
    if !tx.signed then Some(BadSignature)
    else if v.Err? then Some(Failure.Rejected(v.error))
    else if tx.evm(Entered(tx.msg, w), Given(p, tx.msg)).short then Some(Failure.Rejected(InsufficientBalance))
    else None
  }

  /** A transaction takes the state from w to w', with the receipt saying how much gas it took. */
  ghost predicate Transits(p: Params, coinbase: Addr, w: World, tx: Tx, w': World, r: Receipt) {
    exists u: Used :: Passes(p, tx.msg, coinbase, tx.evm, w, w', u) && r.gasUsed == u.gas && r.failed == u.failed
  }

  /** One transaction.  `lost` is gas that neither counts as used nor comes back; ordinary messages lose none. */
  method ApplyTransaction(p: Params, coinbase: Addr, gp: GasPool, world: World, tx: Tx, usedGas: nat)
      returns (receipt: Option<Receipt>, error: Option<Failure>, world': World, usedGas': nat, ghost lost: nat)
    requires Fair(tx.evm)
    modifies gp
    ensures receipt.Some? <==> error.None?
    ensures error == Failing(p, world, tx, old(gp.gas))
    ensures Solvent(world.balances) && KeepsSolvent(tx.evm) ==> Solvent(world'.balances)
    ensures error.Some? && tx.signed ==>
              (world', gp.gas) == StateTransition.Rejected(p, tx.msg, world, old(gp.gas), tx.evm)
    ensures !tx.signed ==> world' == world && gp.gas == old(gp.gas)
    ensures receipt.Some? ==>
      && Transits(p, coinbase, world, tx, world', receipt.value)
      && usedGas' == usedGas + receipt.value.gasUsed == receipt.value.cumulative
      && 0 <= receipt.value.gasUsed && gp.gas + usedGas' + lost == old(gp.gas) + usedGas
      && receipt.value.gasUsed + lost <= tx.msg.gasLimit <= old(gp.gas)
      && Total(world'.balances) == Total(world.balances) - lost * tx.msg.gasPrice
      && (Ordinary(p, tx.msg) ==> lost == 0 && receipt.value.gasUsed > 0)
  {
    receipt, error, world', usedGas', lost := None, None, world, usedGas, 0;
    if !tx.signed {
      error := Some(BadSignature);
      return;
    }
    AcceptedExactly(p, tx.msg, world, gp.gas);
    var st := new Transition(tx.msg, gp, coinbase, world);
    var r, vm := st.TransitionDb(p, tx.evm);
    world' := st.state;
    if r.Err? {
      error := Some(Failure.Rejected(r.error));
      return;
    }
    usedGas' := usedGas + r.value.gas;
    lost := Lost(tx.msg, r.value);
    receipt := Some(Receipt(usedGas', r.value.gas, r.value.failed));
  }

  /** Receipts that add up to `total`. */
  ghost predicate Booked(rs: seq<Receipt>, total: nat, ordinary: bool) {
    && Chained(rs) && total == Before(rs, |rs|)
    && forall i :: 0 <= i < |rs| ==> rs[i].gasUsed >= (if ordinary then 1 else 0)
  }

  lemma BookOne(rs: seq<Receipt>, total: nat, ordinary: bool, r: Receipt)
    requires Booked(rs, total, ordinary) && r.gasUsed >= (if ordinary then 1 else 0)
    requires r.cumulative == total + r.gasUsed
    ensures Booked(rs + [r], r.cumulative, ordinary)
  {
    var out := rs + [r];
    forall i: nat ensures Own(out, i) {
      assert Own(rs, i);
    }
  }

  /** The transactions take the state from one to the next, each from where the one before left it. */
  ghost predicate Steps(p: Params, coinbase: Addr, states: seq<World>, txs: seq<Tx>, rs: seq<Receipt>) {
    && |states| == |rs| + 1 && |rs| <= |txs|
    && forall i: nat :: StepAt(p, coinbase, states, txs, rs, i)
  }

  ghost predicate StepAt(p: Params, coinbase: Addr, states: seq<World>, txs: seq<Tx>, rs: seq<Receipt>, i: nat) {
    i < |rs| && i < |txs| && i + 1 < |states| ==> Transits(p, coinbase, states[i], txs[i], states[i + 1], rs[i])
  }

  lemma StepsMore(p: Params, coinbase: Addr, states: seq<World>, txs: seq<Tx>, rs: seq<Receipt>, w: World, r: Receipt)
    requires Steps(p, coinbase, states, txs, rs) && |rs| < |txs|
    requires Transits(p, coinbase, states[|rs|], txs[|rs|], w, r)
    ensures Steps(p, coinbase, states + [w], txs, rs + [r])
  {
    forall i: nat ensures StepAt(p, coinbase, states + [w], txs, rs + [r], i) {
      assert StepAt(p, coinbase, states, txs, rs, i);
    }
  }

  /** What holds between transactions: the gas is accounted for, and the balances are. */
  ghost predicate Midway(p: Params, coinbase: Addr, gasLimit: nat, txs: seq<Tx>, rs: seq<Receipt>, states: seq<World>,
                         used: nat, pool: int, lost: nat, burnt: int) {
    && Steps(p, coinbase, states, txs, rs) && Booked(rs, used, AllOrdinary(p, txs))
    && pool >= 0 && pool + used + lost == gasLimit && burnt >= 0
    && Total(states[|rs|].balances) + burnt == Total(states[0].balances)
    && (AllOrdinary(p, txs) ==> lost == 0 && burnt == 0)
    && (Solvent(states[0].balances) && AllKeepSolvent(txs) ==> Solvent(states[|rs|].balances))
  }

  lemma MidwayMore(p: Params, coinbase: Addr, gasLimit: nat, txs: seq<Tx>, rs: seq<Receipt>, states: seq<World>,
                   used: nat, pool: int, lost: nat, burnt: int, w: World, r: Receipt, pool': int, more: nat)
    requires Midway(p, coinbase, gasLimit, txs, rs, states, used, pool, lost, burnt) && |rs| < |txs|
    requires Transits(p, coinbase, states[|rs|], txs[|rs|], w, r)
    requires r.cumulative == used + r.gasUsed && pool' >= 0 && pool' + r.cumulative + more == pool + used
    requires Total(w.balances) == Total(states[|rs|].balances) - more * txs[|rs|].msg.gasPrice
    requires Ordinary(p, txs[|rs|].msg) ==> more == 0 && r.gasUsed > 0
    requires Solvent(states[|rs|].balances) && KeepsSolvent(txs[|rs|].evm) ==> Solvent(w.balances)
    ensures Midway(p, coinbase, gasLimit, txs, rs + [r], states + [w], r.cumulative, pool', lost + more,
              burnt + more * txs[|rs|].msg.gasPrice)
  {
    StepsMore(p, coinbase, states, txs, rs, w, r);
    BookOne(rs, used, AllOrdinary(p, txs), r);
    NotNegative(more, txs[|rs|].msg.gasPrice);
  }

  /** One round of the loop of `Process` */
  method Next(p: Params, coinbase: Addr, gasLimit: nat, gp: GasPool, world: World, txs: seq<Tx>, i: nat, used: nat,
              ghost rs: seq<Receipt>, ghost states: seq<World>, ghost lost: nat, ghost burnt: int)
      returns (receipt: Option<Receipt>, error: Option<Failure>, world': World, used': nat, ghost more: nat)
    requires AllFair(txs) && i < |txs| && |rs| == i && |states| == i + 1 && world == states[i]
    requires Midway(p, coinbase, gasLimit, txs, rs, states, used, gp.gas, lost, burnt)
    modifies gp
    ensures error == Failing(p, world, txs[i], old(gp.gas)) && (receipt.Some? <==> error.None?)
    ensures receipt.Some? ==>
      Midway(p, coinbase, gasLimit, txs, rs + [receipt.value], states + [world'], used', gp.gas, lost + more,
        burnt + more * txs[i].msg.gasPrice)
    ensures Solvent(states[0].balances) && AllKeepSolvent(txs) ==> Solvent(world'.balances)
  {
    ghost var pool := gp.gas;
    receipt, error, world', used', more := ApplyTransaction(p, coinbase, gp, world, txs[i], used);
    if receipt.Some? {
      MidwayMore(p, coinbase, gasLimit, txs, rs, states, used, pool, lost, burnt, world', receipt.value, gp.gas, more);
    }
  }

  /** A block.  Each transaction works on the state that the one before left.  Used gas and remaining pool make up the
      limit, and no money appears or disappears.  The first transaction that fails makes the block invalid. */
  method Process(p: Params, coinbase: Addr, gasLimit: nat, world: World, txs: seq<Tx>)
      returns (receipts: seq<Receipt>, totalUsedGas: nat, world': World, error: Option<Failure>, gp: GasPool,
               ghost done: seq<Receipt>, ghost states: seq<World>, ghost used: nat, ghost pool: int, ghost lost: nat,
               ghost burnt: int)
    requires AllFair(txs)
    ensures fresh(gp) && |states| == |done| + 1 && states[0] == world
    ensures Midway(p, coinbase, gasLimit, txs, done, states, used, pool, lost, burnt)
    ensures error.None? ==>
      receipts == done && |done| == |txs| && world' == states[|txs|] && totalUsedGas == used && gp.gas == pool
    ensures error.Some? ==>
      && receipts == [] && totalUsedGas == 0 && |done| < |txs|
      && error == Failing(p, states[|done|], txs[|done|], pool)
    ensures Solvent(world.balances) && AllKeepSolvent(txs) ==> Solvent(world'.balances)
  {
    receipts, totalUsedGas, world', error, lost, burnt := [], 0, world, None, 0, 0;
    states := [world];
    gp := new GasPool();
    gp.AddGas(gasLimit);
    for i := 0 to |txs|
      invariant |receipts| == i && |states| == i + 1 && error.None? && states[0] == world && world' == states[i]
      invariant Midway(p, coinbase, gasLimit, txs, receipts, states, totalUsedGas, gp.gas, lost, burnt)
    {
      var receipt;
      ghost var more;
      done, used, pool := receipts, totalUsedGas, gp.gas;
      receipt, error, world', totalUsedGas, more :=
        Next(p, coinbase, gasLimit, gp, world', txs, i, totalUsedGas, receipts, states, lost, burnt);
      if receipt.None? {
        receipts, totalUsedGas := [], 0;
        return;
      }
      receipts, states := receipts + [receipt.value], states + [world'];
      lost, burnt := lost + more, burnt + more * txs[i].msg.gasPrice;
    }
    done, used, pool := receipts, totalUsedGas, gp.gas;
  }

  // ---------------------------------------------------------------- accounts over a block

  /** The virtual machine leaves the nonce and the balance of the account alone. */
  ghost predicate Untouched(tx: Tx, a: Addr) {
    forall w: World, g: nat ::
      var v := tx.evm(w, g).world; Nonce(v, a) == Nonce(w, a) && Balance(v.balances, a) == Balance(w.balances, a)
  }

  /** How many of the first n transactions are calls by the account. */
  function Calls(txs: seq<Tx>, a: Addr, n: nat): nat
    requires n <= |txs|
  {
    if n == 0 then 0
    else Calls(txs, a, n - 1) + if txs[n - 1].msg.from == a && !txs[n - 1].msg.creation then 1 else 0
  }

  /** What the account pays for the gas of its own among the first n transactions. */
  function Spent(txs: seq<Tx>, rs: seq<Receipt>, a: Addr, n: nat): int
    requires n <= |txs| && n <= |rs|
  {
    if n == 0 then 0
    else Spent(txs, rs, a, n - 1) + if txs[n - 1].msg.from == a then rs[n - 1].gasUsed * txs[n - 1].msg.gasPrice else 0
  }

  /** The price of all the gas the first n transactions use. */
  function Fees(txs: seq<Tx>, rs: seq<Receipt>, n: nat): int
    requires n <= |txs| && n <= |rs|
  {
    if n == 0 then 0 else Fees(txs, rs, n - 1) + rs[n - 1].gasUsed * txs[n - 1].msg.gasPrice
  }

  lemma OneAccount(p: Params, coinbase: Addr, w: World, tx: Tx, w': World, r: Receipt, a: Addr)
    requires Transits(p, coinbase, w, tx, w', r) && Ordinary(p, tx.msg) && Untouched(tx, a)
    ensures Nonce(w', a) == Nonce(w, a) + if tx.msg.from == a && !tx.msg.creation then 1 else 0
    ensures Balance(w'.balances, a) == Balance(w.balances, a)
            - (if tx.msg.from == a then r.gasUsed * tx.msg.gasPrice else 0)
            + (if a == coinbase then r.gasUsed * tx.msg.gasPrice else 0)
  {
    var u :| Passes(p, tx.msg, coinbase, tx.evm, w, w', u) && r.gasUsed == u.gas && r.failed == u.failed;
    EnteredExactly(tx.msg, w, a);
    Distribute(tx.msg.gasLimit - r.gasUsed, r.gasUsed, tx.msg.gasPrice);
  }

  /** Over a block of ordinary transactions: where the virtual machine itself leaves an account alone, its nonce grows
      by one for each of its calls, it pays for the gas of its own transactions, and the coinbase gains the price of
      all gas used. */
  lemma {:induction false} AccountsExactly(p: Params, coinbase: Addr, states: seq<World>, txs: seq<Tx>,
                                           rs: seq<Receipt>, a: Addr, n: nat)
    requires Steps(p, coinbase, states, txs, rs) && n <= |rs|
    requires AllOrdinary(p, txs) && forall i :: 0 <= i < |txs| ==> Untouched(txs[i], a)
    ensures Nonce(states[n], a) == Nonce(states[0], a) + Calls(txs, a, n)
    ensures Balance(states[n].balances, a) == Balance(states[0].balances, a) - Spent(txs, rs, a, n)
            + if a == coinbase then Fees(txs, rs, n) else 0
    decreases n
  {
    if n > 0 {
      AccountsExactly(p, coinbase, states, txs, rs, a, n - 1);
      assert StepAt(p, coinbase, states, txs, rs, n - 1);
      OneAccount(p, coinbase, states[n - 1], txs[n - 1], states[n], rs[n - 1], a);
    }
  }

  /** Cumulative gas never decreases, nor exceeds the last. */
  lemma {:induction false} CumulativeGrows(rs: seq<Receipt>, i: nat, j: nat)
    requires Chained(rs) && i <= j <= |rs| && forall k :: 0 <= k < |rs| ==> rs[k].gasUsed >= 0
    ensures 0 <= Before(rs, i) <= Before(rs, j)
    decreases j
  {
    assert j > 0 ==> Own(rs, j - 1);
    if i < j {
      CumulativeGrows(rs, i, j - 1);
    } else if i > 0 {
      CumulativeGrows(rs, i - 1, j - 1);
    }
  }

  /** `SetReceiptsData`, which keeps the cumulative gas and recomputes each receipt's own. */
  method SetReceiptsData(rs: seq<Receipt>) returns (out: seq<Receipt>)
    ensures |out| == |rs| && Chained(out)
    ensures forall i :: 0 <= i < |rs| ==> out[i].cumulative == rs[i].cumulative && out[i].failed == rs[i].failed
  {
    out := rs;
    for j := 0 to |rs|
      invariant |out| == |rs|
      invariant forall i :: 0 <= i < |rs| ==> out[i].cumulative == rs[i].cumulative && out[i].failed == rs[i].failed
      invariant forall i: nat :: i < j ==> Own(out, i)
    {
      ghost var was := out;
      if j == 0 {
        out := out[j := out[j].(gasUsed := out[j].cumulative)];
      } else {
        out := out[j := out[j].(gasUsed := out[j].cumulative - out[j - 1].cumulative)];
      }
      forall i: nat | i <= j ensures Own(out, i) {
        assert i < j ==> Own(was, i);
      }
    }
  }

  /** So it gives back the receipts of `Process`, whatever was stored as their own gas. */
  lemma Recovered(rs: seq<Receipt>, out: seq<Receipt>)
    requires Chained(rs) && Chained(out) && |out| == |rs|
    requires forall i :: 0 <= i < |rs| ==> out[i].cumulative == rs[i].cumulative && out[i].failed == rs[i].failed
    ensures out == rs
  {
    forall i | 0 <= i < |rs| ensures out[i] == rs[i] {
      assert Own(out, i) && Own(rs, i);
    }
  }
}

/** Gas and balances over one message and over a block. */
module StateTransition {
  import opened Basics

  type Addr = nat

  /** Balances of all accounts; one that does not exist has nothing. */
  type Balances = map<Addr, int>

  const MAX_UINT64: nat := 0xFFFF_FFFF_FFFF_FFFF

  datatype World = World(balances: Balances, nonces: map<Addr, nat>, refund: nat)

  datatype Message = Message(from: Addr, creation: bool, gasLimit: nat, gasPrice: nat, nonce: nat, checkNonce: bool,
                             data: seq<bv8>, system: nat)

  datatype Error =
    NonceTooHigh | NonceTooLow | OutOfGas | InsufficientBalanceForGas | GasLimitReached | InsufficientBalance

  datatype Result<T> = Ok(value: T) | Err(error: Error)

  /** What the virtual machine did with the gas it was given. */
  datatype Outcome = Outcome(world: World, left: nat, failed: bool, short: bool)

  /** Gas prices of the protocol, which the message pays before anything runs. */
  datatype Params = Params(txGas: nat, creationGas: nat, zeroGas: nat, nonZeroGas: nat, pangu: bool)

  // ---------------------------------------------------------------- balances

  function Balance(b: Balances, a: Addr): int {
    if a in b then b[a] else 0
  }

  function Credit(b: Balances, a: Addr, x: int): Balances {
    b[a := Balance(b, a) + x]
  }

  ghost function Sum(b: Balances, s: set<Addr>): int
    requires s <= b.Keys
    decreases |s|
  {
    if s == {} then 0 else var a :| a in s; b[a] + Sum(b, s - {a})
  }

  ghost function Total(b: Balances): int {
    Sum(b, b.Keys)
  }

  lemma {:induction false} SumPick(b: Balances, s: set<Addr>, a: Addr)
    requires s <= b.Keys && a in s
    ensures Sum(b, s) == b[a] + Sum(b, s - {a})
    decreases |s|
  {
    var c :| c in s && Sum(b, s) == b[c] + Sum(b, s - {c});
    if c != a {
      SumPick(b, s - {c}, a);
      SumPick(b, s - {a}, c);
      assert s - {c} - {a} == s - {a} - {c};
    }
  }

  lemma {:induction false} SumSame(b: Balances, c: Balances, s: set<Addr>)
    requires s <= b.Keys && s <= c.Keys && forall a :: a in s ==> b[a] == c[a]
    ensures Sum(b, s) == Sum(c, s)
    decreases |s|
  {
    if s != {} {
      var a :| a in s;
      SumPick(b, s, a);
      SumPick(c, s, a);
      SumSame(b, c, s - {a});
    }
  }

  /** A credit changes the total by its amount. */
  lemma CreditTotal(b: Balances, a: Addr, x: int)
    ensures Total(Credit(b, a, x)) == Total(b) + x
  {
    var c := Credit(b, a, x);
    assert c.Keys == b.Keys + {a};
    SumPick(c, c.Keys, a);
    assert c.Keys - {a} == b.Keys - {a};
    SumSame(b, c, b.Keys - {a});
    if a in b {
      SumPick(b, b.Keys, a);
    } else {
      assert b.Keys - {a} == b.Keys;
    }
  }

  // ---------------------------------------------------------------- intrinsic gas

  function NonZero(data: seq<bv8>): (n: nat)
    ensures n <= |data|
  {
    if data == [] then 0 else NonZero(data[..|data| - 1]) + if data[|data| - 1] != 0 then 1 else 0
  }

  function Intrinsic(p: Params, data: seq<bv8>, creation: bool): (g: nat)
  {
    var n := NonZero(data);
    (if creation && p.pangu then p.creationGas else p.txGas) + n * p.nonZeroGas + (|data| - n) * p.zeroGas
  }

  method CountNonZero(data: seq<bv8>) returns (nz: nat)
    ensures nz == NonZero(data)
  {
    nz := 0;
    for i := 0 to |data|
      invariant nz == NonZero(data[..i])
    {
      assert data[..i + 1][..i] == data[..i];
      if data[i] != 0 {
        nz := nz + 1;
      }
    }
    assert data[..|data|] == data;
  }

  method IntrinsicGas(p: Params, data: seq<bv8>, creation: bool) returns (igas: nat)
    ensures igas == Intrinsic(p, data, creation)
  {
    igas := if creation && p.pangu then p.creationGas else p.txGas;
    if |data| > 0 {
      var nz := CountNonZero(data);
      igas := igas + nz * p.nonZeroGas;
      igas := igas + (|data| - nz) * p.zeroGas;
    }
  }

  /** Each further zero byte costs its price, each other byte the other price, on top of the base price. */
  lemma ByteAdds(p: Params, data: seq<bv8>, b: bv8, creation: bool)
    ensures Intrinsic(p, data + [b], creation) ==
            Intrinsic(p, data, creation) + if b == 0 then p.zeroGas else p.nonZeroGas
    ensures Intrinsic(p, [], creation) == if creation && p.pangu then p.creationGas else p.txGas
  {
    var n := NonZero(data);
    assert (data + [b])[..|data|] == data;
    assert (n + 1) * p.nonZeroGas == n * p.nonZeroGas + p.nonZeroGas;
    assert (|data| + 1 - n) * p.zeroGas == (|data| - n) * p.zeroGas + p.zeroGas;
  }

  // ---------------------------------------------------------------- the block's gas

  class GasPool {
    var gas: int

    constructor ()
      ensures gas == 0
    {
      gas := 0;
    }

    method AddGas(amount: int)
      modifies this
      ensures gas == old(gas) + amount
    {
      gas := gas + amount;
    }

    method SubGas(amount: int) returns (r: Result<()>)
      modifies this
      ensures r == if old(gas) >= amount then Ok(()) else Err(GasLimitReached)
      ensures gas == if r.Ok? then old(gas) - amount else old(gas)
    {
      if gas < amount {
        return Err(GasLimitReached);
      }
      gas := gas - amount;
      return Ok(());
    }
  }

  // ---------------------------------------------------------------- one message

  /** The virtual machine hands back at most the gas it was given and moves money only between accounts. */
  ghost predicate Fair(evm: (World, nat) -> Outcome) {
    forall w, g :: evm(w, g).left <= g && Total(evm(w, g).world.balances) == Total(w.balances)
  }

  /** No account owes anything. */
  ghost predicate Solvent(b: Balances) {
    forall a: Addr :: Balance(b, a) >= 0
  }

  /** The virtual machine overdraws no account. */
  ghost predicate KeepsSolvent(evm: (World, nat) -> Outcome) {
    forall w: World, g: nat :: Solvent(w.balances) ==> Solvent(evm(w, g).world.balances)
  }

  class Transition {
    const msg: Message
    const gp: GasPool
    const coinbase: Addr
    var gasRemaining: nat
    var initialGas: nat
    var state: World

    constructor (m: Message, g: GasPool, c: Addr, w: World)
      ensures msg == m && gp == g && coinbase == c && gasRemaining == 0 && initialGas == 0 && state == w
    {
      msg, gp, coinbase, gasRemaining, initialGas, state := m, g, c, 0, 0, w;
    }

    method UseGas(amount: nat) returns (r: Result<()>)
      modifies this`gasRemaining
      ensures r == if old(gasRemaining) >= amount then Ok(()) else Err(OutOfGas)
      ensures gasRemaining == if r.Ok? then old(gasRemaining) - amount else old(gasRemaining)
    {
      if gasRemaining < amount {
        return Err(OutOfGas);
      }
      gasRemaining := gasRemaining - amount;
      return Ok(());
    }

    function GasUsed(): nat
      reads this
    {
      if initialGas > gasRemaining then initialGas - gasRemaining else 0
    }

    method BuyGas() returns (r: Result<()>)
      requires gasRemaining == 0
      modifies this, gp
      ensures r == BuyVerdict(msg, old(state), old(gp.gas))
      ensures r.Ok? <==>
        && msg.gasLimit <= MAX_UINT64 && msg.gasLimit <= old(gp.gas)
        && msg.gasLimit * msg.gasPrice <= Balance(old(state).balances, msg.from)
      ensures r.Err? ==> gasRemaining == 0 && initialGas == old(initialGas)
      ensures r.Err? ==> gp.gas == old(gp.gas) && state == old(state)
      ensures r.Ok? ==> gasRemaining == initialGas == msg.gasLimit && gp.gas == old(gp.gas) - msg.gasLimit
      ensures r.Ok? ==> state == Paid(msg, old(state))
    {
      var mgas := msg.gasLimit;
      if mgas > MAX_UINT64 {
        return Err(OutOfGas);
      }
      var mgval := mgas * msg.gasPrice;
      if Balance(state.balances, msg.from) < mgval {
        return Err(InsufficientBalanceForGas);
      }
      r := gp.SubGas(mgas);
      if r.Ok? {
        gasRemaining := gasRemaining + mgas;
        initialGas := mgas;
        state := state.(balances := Credit(state.balances, msg.from, -mgval));
      }
    }

    method PreCheck() returns (r: Result<()>)
      requires gasRemaining == 0
      modifies this, gp
      ensures r == PreVerdict(msg, old(state), old(gp.gas))
      ensures r.Ok? ==> gasRemaining == initialGas == msg.gasLimit && gp.gas == old(gp.gas) - msg.gasLimit
      ensures r.Ok? ==> state == Paid(msg, old(state))
      ensures r.Err? ==> gp.gas == old(gp.gas) && state == old(state)
    {
      if msg.checkNonce {
        var nonce := Nonce(state, msg.from);
        if nonce < msg.nonce {
          return Err(NonceTooHigh);
        } else if nonce > msg.nonce {
          return Err(NonceTooLow);
        }
      }
      r := BuyGas();
    }

    /** Returns what is left, and at most half of what was used, to the sender and to the block. */
    method RefundGas()
      requires gasRemaining <= initialGas
      modifies this, gp
      ensures initialGas == old(initialGas) && state.refund == old(state.refund) && state.nonces == old(state.nonces)
      ensures gasRemaining == old(gasRemaining) + Min((initialGas - old(gasRemaining)) / 2, state.refund)
      ensures old(gasRemaining) == initialGas ==> gasRemaining == initialGas && gp.gas == old(gp.gas)
      ensures old(gasRemaining) < initialGas ==> gasRemaining < initialGas && gp.gas == old(gp.gas) + gasRemaining
      ensures forall a :: Balance(state.balances, a) == Balance(old(state).balances, a) +
                if a == msg.from && gasRemaining < initialGas then gasRemaining * msg.gasPrice else 0
      ensures Total(state.balances) == Total(old(state).balances) +
                if gasRemaining < initialGas then gasRemaining * msg.gasPrice else 0
    {
      var remaining := gasRemaining * msg.gasPrice;
      if initialGas > gasRemaining {
        CreditTotal(state.balances, msg.from, remaining);
        state := state.(balances := Credit(state.balances, msg.from, remaining));
      }
      var uhalf := GasUsed() / 2;
      var refund := Min(uhalf, state.refund);
      gasRemaining := gasRemaining + refund;
      CreditTotal(state.balances, msg.from, refund * msg.gasPrice);
      state := state.(balances := Credit(state.balances, msg.from, refund * msg.gasPrice));
      if initialGas > gasRemaining {
        gp.AddGas(gasRemaining);
      }
      Distribute(old(gasRemaining), refund, msg.gasPrice);
    }

    /** The purchase of the gas, and the payment for being sent. */
    method Enter(p: Params) returns (r: Result<()>)
      requires gasRemaining == 0
      modifies this, gp
      ensures r == Verdict(p, msg, old(state), old(gp.gas))
      ensures PreVerdict(msg, old(state), old(gp.gas)).Err? ==> state == old(state) && gp.gas == old(gp.gas)
      ensures PreVerdict(msg, old(state), old(gp.gas)).Ok? ==>
        state == Paid(msg, old(state)) && gp.gas == old(gp.gas) - msg.gasLimit
      ensures r.Ok? ==> gasRemaining == Given(p, msg) && initialGas == msg.gasLimit
      ensures r.Ok? && msg.system == 0 ==> msg.gasLimit >= Intrinsic(p, msg.data, msg.creation)
    {
      r := PreCheck();
      if r.Err? {
        return r;
      }
      var igas := IntrinsicGas(p, msg.data, msg.creation);
      if igas > MAX_UINT64 {
        return Err(OutOfGas);
      }
      if msg.system == 0 {
        r := UseGas(igas);
      }
    }

    /** From the purchase of the gas to the end of the virtual machine's work. */
    method Run(p: Params, evm: (World, nat) -> Outcome) returns (r: Result<bool>)
      requires gasRemaining == 0 && Fair(evm)
      modifies this, gp
      ensures var vm := evm(Entered(msg, old(state)), Given(p, msg));
        && (var v := Verdict(p, msg, old(state), old(gp.gas));
            r == if v.Err? then Err(v.error) else if vm.short then Err(InsufficientBalance) else Ok(vm.failed))
        && (r.Ok? ==> gasRemaining == Remaining(msg, vm) && initialGas == msg.gasLimit && state == vm.world)
      ensures r.Err? ==> (state, gp.gas) == Rejected(p, msg, old(state), old(gp.gas), evm)
      ensures r.Ok? ==> gp.gas == old(gp.gas) - msg.gasLimit
      ensures r.Ok? ==> gasRemaining <= Given(p, msg)
      ensures r.Ok? && msg.system == 0 ==> msg.gasLimit >= Intrinsic(p, msg.data, msg.creation)
      ensures r.Ok? ==> Total(state.balances) == Total(old(state).balances) - msg.gasLimit * msg.gasPrice
    {
      CreditTotal(state.balances, msg.from, -(msg.gasLimit * msg.gasPrice));
      var c := Enter(p);
      if c.Err? {
        return Err(c.error);
      }
      var out;
      if msg.creation {
        out := evm(state, gasRemaining);
        if msg.system == 0 {
          gasRemaining := out.left;
        }
      } else {
        state := state.(nonces := state.nonces[msg.from := Nonce(state, msg.from) + 1]);
        out := evm(state, gasRemaining);
        gasRemaining := out.left;
      }
      state := out.world;
      if out.short {
        return Err(InsufficientBalance);
      }
      r := Ok(out.failed);
    }

    /** The refund, and the fee to the coinbase. */
    method Settle(failed: bool) returns (u: Used)
      requires gasRemaining <= initialGas == msg.gasLimit
      modifies this, gp
      ensures u == Bill(msg.gasLimit - old(gasRemaining), old(state).refund, failed)
      ensures gp.gas == old(gp.gas) + msg.gasLimit - Charged(msg, u) && state.nonces == old(state).nonces
      ensures Total(state.balances) ==
                Total(old(state).balances) + msg.gasLimit * msg.gasPrice - Lost(msg, u) * msg.gasPrice
      ensures Settled(msg, coinbase, u, old(state).balances, state.balances)
    {
      var required := GasUsed();
      RefundGas();
      CreditTotal(state.balances, coinbase, GasUsed() * msg.gasPrice);
      state := state.(balances := Credit(state.balances, coinbase, GasUsed() * msg.gasPrice));
      Distribute(msg.gasLimit - gasRemaining, gasRemaining, msg.gasPrice);
      u := Used(required, GasUsed(), failed);
    }

    /** A whole message: `vm` is what the virtual machine made of it.  Payment, return, refund and fee add up to
        nothing, and the block is charged exactly the gas used, unless none was used at all. */
    method TransitionDb(p: Params, evm: (World, nat) -> Outcome) returns (r: Result<Used>, ghost vm: Outcome)
      requires gasRemaining == 0 && Fair(evm)
      modifies this, gp
      ensures vm == evm(Entered(msg, old(state)), Given(p, msg))
      ensures Solvent(old(state).balances) && KeepsSolvent(evm) ==> Solvent(state.balances)
      ensures var v := Verdict(p, msg, old(state), old(gp.gas));
              if v.Err? then r == Err(v.error) else if vm.short then r == Err(InsufficientBalance) else r.Ok?
      ensures r.Err? ==> (state, gp.gas) == Rejected(p, msg, old(state), old(gp.gas), evm)
      ensures r.Err? ==>
        var taken := if Buys(msg, old(state), old(gp.gas)) then msg.gasLimit else 0;
        gp.gas == old(gp.gas) - taken && Total(state.balances) == Total(old(state).balances) - taken * msg.gasPrice
      ensures r.Ok? ==>
        && Passes(p, msg, coinbase, evm, old(state), state, r.value)
        && (msg.system == 0 ==> r.value.required >= Intrinsic(p, msg.data, msg.creation))
        && gp.gas == old(gp.gas) - (if r.value.required > 0 then r.value.gas else msg.gasLimit)
        && Total(state.balances) == Total(old(state).balances) - Lost(msg, r.value) * msg.gasPrice
    {
      vm := evm(Entered(msg, state), Given(p, msg));
      CreditTotal(state.balances, msg.from, -(msg.gasLimit * msg.gasPrice));
      ghost var before := state;
      var c := Run(p, evm);
      AcceptedExactly(p, msg, before, old(gp.gas));
      if c.Err? {
        RejectedSolvent(p, msg, before, old(gp.gas), evm);
        return Err(c.error), vm;
      }
      EnteredSolvent(msg, before);
      var u := Settle(c.value);
      SettledSolvent(msg, coinbase, u, vm.world.balances, state.balances);
      r := Ok(u);
    }
  }

  /** Gas used before and after the refund. */
  datatype Used = Used(required: nat, gas: nat, failed: bool)

  /** What the virtual machine is given to work on. */
  function Entered(msg: Message, w: World): World {
    var paid := Paid(msg, w);
    if msg.creation then paid else paid.(nonces := paid.nonces[msg.from := Nonce(paid, msg.from) + 1])
  }

  function Given(p: Params, msg: Message): nat {
    var i := Intrinsic(p, msg.data, msg.creation);
    if msg.system == 0 then (if msg.gasLimit >= i then msg.gasLimit - i else 0) else msg.gasLimit
  }

  /** Whether the message gets as far as the virtual machine. */
  function Verdict(p: Params, msg: Message, w: World, pool: int): Result<()> {
    var i := Intrinsic(p, msg.data, msg.creation);
    var pre := PreVerdict(msg, w, pool);
    if pre.Err? then pre
    else if i > MAX_UINT64 || (msg.system == 0 && msg.gasLimit < i) then Err(OutOfGas)
    else Ok(())
  }

  function Remaining(msg: Message, vm: Outcome): nat {
    if msg.creation && msg.system > 0 then msg.gasLimit else vm.left
  }

  /** The refund is at most half of what was used. */
  function Bill(required: nat, refund: nat, failed: bool): (u: Used)
    ensures u.gas <= u.required <= 2 * u.gas
  {
    Used(required, required - Min(required / 2, refund), failed)
  }

  /** What the block pays: the gas used, except that a message that used none never returns its gas. */
  function Charged(msg: Message, u: Used): int {
    if u.required > 0 then u.gas else msg.gasLimit
  }

  function Lost(msg: Message, u: Used): int {
    if u.required > 0 then 0 else msg.gasLimit
  }

  /** The sender gets back the price of the gas not used, and the coinbase gets the price of the gas used. */
  ghost predicate Settled(msg: Message, coinbase: Addr, u: Used, b: Balances, b': Balances) {
    forall a: Addr :: Balance(b', a) == Balance(b, a)
      + (if a == msg.from && u.required > 0 then (msg.gasLimit - u.gas) * msg.gasPrice else 0)
      + (if a == coinbase then u.gas * msg.gasPrice else 0)
  }

  /** A message takes the state from w to w': its nonce is right, the sender can pay, the virtual machine runs on what
      is left then, and what it leaves is settled. */
  ghost predicate Passes(p: Params, msg: Message, coinbase: Addr, evm: (World, nat) -> Outcome, w: World, w': World,
                         u: Used) {
    var vm := evm(Entered(msg, w), Given(p, msg));
    && (msg.checkNonce ==> Nonce(w, msg.from) == msg.nonce)
    && msg.gasLimit * msg.gasPrice <= Balance(w.balances, msg.from)
    && (msg.system == 0 ==> Intrinsic(p, msg.data, msg.creation) <= msg.gasLimit)
    && vm.left <= Given(p, msg) && !vm.short
    && u.required == msg.gasLimit - (if msg.creation && msg.system > 0 then msg.gasLimit else vm.left)
    && u.gas == u.required - Min(u.required / 2, vm.world.refund) && u.failed == vm.failed
    && w'.nonces == vm.world.nonces && Settled(msg, coinbase, u, vm.world.balances, w'.balances)
  }

  lemma SettledSolvent(msg: Message, coinbase: Addr, u: Used, b: Balances, b': Balances)
    requires Settled(msg, coinbase, u, b, b') && u.gas <= msg.gasLimit
    ensures Solvent(b) ==> Solvent(b')
  {
    if Solvent(b) {
      forall a: Addr ensures Balance(b', a) >= 0 {
        assert Balance(b, a) >= 0;
        NotNegative(msg.gasLimit - u.gas, msg.gasPrice);
        NotNegative(u.gas, msg.gasPrice);
      }
    }
  }

  lemma NotNegative(a: nat, b: nat)
    ensures a * b >= 0
  {
  }

  /** The nonce is the sender's, or is not checked, and sender and block can pay. */
  predicate Buys(msg: Message, w: World, pool: int) {
    && (msg.checkNonce ==> Nonce(w, msg.from) == msg.nonce)
    && msg.gasLimit <= MAX_UINT64 && msg.gasLimit <= pool
    && msg.gasLimit * msg.gasPrice <= Balance(w.balances, msg.from)
  }

  /** That is exactly when the gas is bought.  The message gets to the virtual machine exactly if the gas also pays for
      being sent. */
  lemma AcceptedExactly(p: Params, msg: Message, w: World, pool: int)
    ensures PreVerdict(msg, w, pool).Ok? <==> Buys(msg, w, pool)
    ensures var i := Intrinsic(p, msg.data, msg.creation);
      Verdict(p, msg, w, pool).Ok? <==> Buys(msg, w, pool) && i <= MAX_UINT64 && (msg.system == 0 ==> i <= msg.gasLimit)
    ensures PreVerdict(msg, w, pool) == Err(NonceTooHigh) <==> msg.checkNonce && Nonce(w, msg.from) < msg.nonce
    ensures PreVerdict(msg, w, pool) == Err(NonceTooLow) <==> msg.checkNonce && Nonce(w, msg.from) > msg.nonce
  {
  }

  /** What the virtual machine finds: the price paid, and the nonce of a caller one higher. */
  lemma EnteredExactly(msg: Message, w: World, a: Addr)
    ensures Balance(Entered(msg, w).balances, a) ==
            Balance(w.balances, a) - if a == msg.from then msg.gasLimit * msg.gasPrice else 0
    ensures Nonce(Entered(msg, w), a) == Nonce(w, a) + if a == msg.from && !msg.creation then 1 else 0
    ensures Entered(msg, w).refund == w.refund
  {
  }

  /** Gas given and gas paid for being sent make up the gas bought; system messages pay nothing for that. */
  lemma GivenExactly(p: Params, msg: Message, w: World, pool: int)
    requires Verdict(p, msg, w, pool).Ok?
    ensures Given(p, msg) + (if msg.system == 0 then Intrinsic(p, msg.data, msg.creation) else 0) == msg.gasLimit
  {
  }

  lemma EnteredSolvent(msg: Message, w: World)
    requires msg.gasLimit * msg.gasPrice <= Balance(w.balances, msg.from)
    ensures Solvent(w.balances) ==> Solvent(Entered(msg, w).balances) && Solvent(Paid(msg, w).balances)
  {
    if Solvent(w.balances) {
      forall a: Addr ensures Balance(Paid(msg, w).balances, a) >= 0 {
        assert Balance(w.balances, a) >= 0;
      }
    }
  }

  lemma RejectedSolvent(p: Params, msg: Message, w: World, pool: int, evm: (World, nat) -> Outcome)
    ensures Solvent(w.balances) && KeepsSolvent(evm) ==> Solvent(Rejected(p, msg, w, pool, evm).0.balances)
  {
    AcceptedExactly(p, msg, w, pool);
    if PreVerdict(msg, w, pool).Ok? { EnteredSolvent(msg, w); }
  }

  /** What a rejected message leaves behind: once the gas is bought nothing is undone. */
  function Rejected(p: Params, msg: Message, w: World, pool: int, evm: (World, nat) -> Outcome): (World, int) {
    if PreVerdict(msg, w, pool).Err? then (w, pool)
    else if Verdict(p, msg, w, pool).Err? then (Paid(msg, w), pool - msg.gasLimit)
    else (evm(Entered(msg, w), Given(p, msg)).world, pool - msg.gasLimit)
  }

  /** The message ends with some of the gas it bought neither used nor given back. */
  predicate Loses(msg: Message, vm: Outcome) {
    && !vm.short && vm.left <= msg.gasLimit
    && Lost(msg, Bill(msg.gasLimit - Remaining(msg, vm), vm.world.refund, vm.failed)) != 0
  }

  lemma LostExactly(msg: Message, vm: Outcome)
    requires !vm.short && vm.left <= msg.gasLimit
    ensures Loses(msg, vm) <==> msg.gasLimit > 0 && (vm.left == msg.gasLimit || (msg.creation && msg.system > 0))
  {
  }

  /** Whatever the virtual machine does, nothing is lost: exactly for messages that buy no gas and for ordinary ones. */
  lemma NeverLosesExactly(p: Params, msg: Message)
    requires msg.system == 0 ==> msg.gasLimit >= Intrinsic(p, msg.data, msg.creation)
    ensures (forall vm: Outcome :: vm.left <= Given(p, msg) ==> !Loses(msg, vm)) <==>
              msg.gasLimit == 0 || Ordinary(p, msg)
  {
    if msg.gasLimit > 0 && !Ordinary(p, msg) {
      var vm := Outcome(World(map[], map[], 0), Given(p, msg), false, false);
      assert vm.left <= Given(p, msg) && Loses(msg, vm);
    }
  }

  /** The creation of a system contract loses all the gas it bought, whatever the virtual machine does. */
  lemma SystemCreationLoses(msg: Message, vm: Outcome)
    requires msg.creation && msg.system > 0
    ensures Lost(msg, Bill(msg.gasLimit - Remaining(msg, vm), vm.world.refund, vm.failed)) == msg.gasLimit
  {
  }

  /** Messages other than system messages pay for being sent. */
  predicate Ordinary(p: Params, msg: Message) {
    msg.system == 0 && Intrinsic(p, msg.data, msg.creation) > 0
  }

  function Nonce(w: World, a: Addr): nat {
    if a in w.nonces then w.nonces[a] else 0
  }

  lemma Distribute(a: int, b: int, p: int)
    ensures (a + b) * p == a * p + b * p
  {
  }

  function Paid(msg: Message, w: World): World {
    w.(balances := Credit(w.balances, msg.from, -(msg.gasLimit * msg.gasPrice)))
  }

  function PreVerdict(msg: Message, w: World, pool: int): Result<()> {
    if msg.checkNonce && Nonce(w, msg.from) < msg.nonce then Err(NonceTooHigh)
    else if msg.checkNonce && Nonce(w, msg.from) > msg.nonce then Err(NonceTooLow)
    else BuyVerdict(msg, w, pool)
  }

  function BuyVerdict(msg: Message, w: World, pool: int): Result<()> {
    if msg.gasLimit > MAX_UINT64 then Err(OutOfGas)
    else if Balance(w.balances, msg.from) < msg.gasLimit * msg.gasPrice then Err(InsufficientBalanceForGas)
    else if pool < msg.gasLimit then Err(GasLimitReached)
    else Ok(())
  }
}

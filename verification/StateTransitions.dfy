/**
 Gas and fee accounting: buying gas before a message runs, refunding what is left, and paying the
 fees, with the base fee routed to the fee recorder and with fees shared by two payers.
 */
module StateTransitions {
  import opened Transactions

  const MAX_UINT64: nat := 0xffff_ffff_ffff_ffff
  const FEE_RECODER: Address := 0xffff_ffff_ffff_ffff_ffff_ffff_ffff_ffff_ffff_ffff

  // ---------------------------------------------------------------- balances

  type Balances = map<Address, int>

  function Balance(b: Balances, a: Address): int {
    if a in b then b[a] else 0
  }

  /** Adds `v`, which may be negative, to an account. */
  function Credit(b: Balances, a: Address, v: int): Balances {
    b[a := Balance(b, a) + v]
  }

  ghost function Supply(b: Balances): int {
    if b == map[] then 0
    else
      var a :| a in b;
      b[a] + Supply(b - {a})
  }

  lemma {:induction false} SupplyWithout(b: Balances, k: Address)
    requires k in b
    ensures Supply(b) == b[k] + Supply(b - {k})
    decreases |b|
  {
    var a :| a in b && Supply(b) == b[a] + Supply(b - {a});
    if a != k {
      SupplyWithout(b - {a}, k);
      SupplyWithout(b - {k}, a);
      assert b - {a} - {k} == b - {k} - {a};
    }
  }

  lemma SupplyCredit(b: Balances, a: Address, v: int)
    ensures Supply(Credit(b, a, v)) == Supply(b) + v
  {
    SupplyWithout(Credit(b, a, v), a);
    assert Credit(b, a, v) - {a} == b - {a};
    if a in b {
      SupplyWithout(b, a);
    } else {
      assert b - {a} == b;
    }
  }

  // ---------------------------------------------------------------- the gas pool

  class GasPool {
    var gas: nat

    constructor ()
      ensures gas == 0
    {
      gas := 0;
    }

    /** Adding panics exactly if the sum does not fit into 64 bits. */
    method AddGas(amount: nat) returns (panicked: bool)
      requires gas <= MAX_UINT64 && amount <= MAX_UINT64
      modifies this
      ensures panicked <==> old(gas) + amount > MAX_UINT64
      ensures gas == if panicked then old(gas) else old(gas) + amount
    {
      if gas > MAX_UINT64 - amount {
        return true;
      }
      gas := gas + amount;
      return false;
    }

    method SubGas(amount: nat) returns (ok: bool)
      modifies this
      ensures ok <==> amount <= old(gas)
      ensures gas == if ok then old(gas) - amount else old(gas)
    {
      if gas < amount {
        return false;
      }
      gas := gas - amount;
      return true;
    }
  }

  // ---------------------------------------------------------------- intrinsic gas

  function NonZero(data: seq<nat>): (n: nat)
    ensures n <= |data|
  {
    if data == [] then 0 else NonZero(data[..|data| - 1]) + if data[|data| - 1] != 0 then 1 else 0
  }

  function BaseGas(creation: bool, homestead: bool): nat {
    if creation && homestead then 53000 else 21000
  }

  /** A sum as 64 bits hold it. */
  function Wrap(n: nat): nat {
    n % (MAX_UINT64 + 1)
  }

  /** A multiple of the width makes no difference. */
  lemma WrapUnique(n: nat, q: nat, r: nat)
    requires n == q * (MAX_UINT64 + 1) + r && r <= MAX_UINT64
    ensures Wrap(n) == r
  {
    var m := MAX_UINT64 + 1;
    assert n == n / m * m + n % m;
    assert (n / m - q) * m == r - n % m;
  }

  lemma WrapAdd(a: nat, b: nat)
    ensures Wrap(Wrap(a) + b) == Wrap(a + b)
  {
    var m := MAX_UINT64 + 1;
    var c := Wrap(a) + b;
    assert a == a / m * m + Wrap(a) && c == c / m * m + Wrap(c) && Wrap(c) <= MAX_UINT64;
    hide Wrap;
    assert (a / m + c / m) * m == a / m * m + c / m * m;
    WrapUnique(a + b, a / m + c / m, Wrap(c));
  }

  /** What the data costs, before any limit on the width of numbers. */
  function DataGas(data: seq<nat>, istanbul: bool): nat {
    NonZero(data) * (if istanbul then 16 else 68) + (|data| - NonZero(data)) * 4
  }

  /** What one more byte of data costs: 4 if it is zero, else 68, or 16 since Istanbul (EIP-2028). */
  lemma OneByteMore(data: seq<nat>, x: nat, istanbul: bool)
    ensures DataGas([], istanbul) == 0
    ensures DataGas(data + [x], istanbul) - DataGas(data, istanbul) == if x == 0 then 4 else if istanbul then 16 else 68
  {
    assert (data + [x])[..|data|] == data;
  }

  /** Adds the gas for the data, and fails exactly if the sum does not fit into 64 bits. */
  method AddDataGas(base: nat, data: seq<nat>, istanbul: bool) returns (gas: Option<nat>)
    requires base <= MAX_UINT64
    ensures gas == if base + DataGas(data, istanbul) > MAX_UINT64 then None else Some(base + DataGas(data, istanbul))
  {
    var nz := CountNonZero(data);
    var nonZeroGas := if istanbul then 16 else 68;
    if (MAX_UINT64 - base) / nonZeroGas < nz {
      return None;
    }
    var g := base + nz * nonZeroGas;
    var z := |data| - nz;
    if (MAX_UINT64 - g) / 4 < z {
      return None;
    }
    return Some(g + z * 4);
  }

  method CountNonZero(data: seq<nat>) returns (nz: nat)
    ensures nz == NonZero(data)
  {
    nz := 0;
    for i := 0 to |data|
      invariant nz == NonZero(data[..i])
    {
      assert data[..i + 1][..i] == data[..i];
      if data[i] != 0 {
        nz := nz + 1;
      }
    }
    assert data[..|data|] == data;
  }

  /**
   Fails exactly if the gas for the data does not fit into 64 bits. The gas for the access list is added
   without a check, so the result is exact as long as the whole sum fits, and wraps around otherwise.
   */
  method IntrinsicGas(data: seq<nat>, addresses: nat, keys: nat, creation: bool, homestead: bool, istanbul: bool)
    returns (gas: Option<nat>)
    ensures gas.None? <==> BaseGas(creation, homestead) + DataGas(data, istanbul) > MAX_UINT64
    ensures gas.Some? ==>
              gas.value == Wrap(BaseGas(creation, homestead) + DataGas(data, istanbul) + addresses * 2400 + keys * 1900)
  {
    hide DataGas, Wrap, BaseGas;
    BaseFits(creation, homestead);
    var base := if creation && homestead then 53000 else 21000;
    gas := Some(base);
    if |data| > 0 {
      gas := AddDataGas(base, data, istanbul);
      if gas.None? {
        return;
      }
    } else {
      NoDataGas(istanbul);
    }
    var g := Wrap(gas.value + addresses * 2400);
    WrapAdd(gas.value + addresses * 2400, keys * 1900);
    gas := Some(Wrap(g + keys * 1900));
  }

  lemma BaseFits(creation: bool, homestead: bool)
    ensures BaseGas(creation, homestead) == if creation && homestead then 53000 else 21000
  {
  }

  lemma NoDataGas(istanbul: bool)
    ensures DataGas([], istanbul) == 0
  {
  }

  // ---------------------------------------------------------------- messages

  datatype Message = Message(
    from: Address, creation: bool, nonce: nat, gas: nat, gasPrice: nat, feeCap: nat, tipCap: nat, value: nat,
    data: seq<nat>, addresses: nat, keys: nat)

  /** The rules of the block a message runs in. After London a block has a base fee. */
  datatype Env = Env(homestead: bool, istanbul: bool, london: bool, congress: bool, baseFee: nat, coinbase: Address)

  /** What the state says about the sender, and whether it may create contracts. */
  datatype Sender = Sender(nonce: nat, isEoa: bool, mayCreate: bool)

  /** The meta data found in a message: who else pays which share of the fees, in hundredths of a percent. */
  datatype Meta = NotMeta | BadMeta | Meta(payer: Address, feePercent: nat, payload: seq<nat>)

  datatype TxError =
    | NonceTooHigh | NonceTooLow | NonceMax | SenderNoEoa | FeeCapVeryHigh | TipVeryHigh | TipAboveFeeCap | FeeCapTooLow
    | InvalidMeta | InsufficientFunds | GasLimitReached | GasUintOverflow | IntrinsicGasTooLow | InsufficientForTransfer
    | UnauthorizedDeveloper

  /** What running the message leaves: the gas not used, the refund counter, and the balances. */
  datatype Outcome = Outcome(gasLeft: nat, refund: nat, balances: Balances)

  /** The EVM, given balances and gas. It never returns more gas than it was given. */
  type Evm = (Balances, nat) -> Outcome

  const BIG10000: nat := 10000
  const TWO_256: nat := 0x1_0000000000000000_0000000000000000_0000000000000000_0000000000000000

  function Min(a: int, b: int): int {
    if a < b then a else b
  }

  /** The price a transaction pays per gas, as its message is built: the Specification section of EIP-1559. */
  function EffectivePrice(gasPrice: nat, feeCap: nat, tipCap: nat, london: bool, baseFee: nat): nat {
    if london then Min(tipCap + baseFee, feeCap) else gasPrice
  }

  /** The part of the price that is not the base fee. */
  function Tip(m: Message, env: Env): int {
    if env.london then Min(m.tipCap, m.feeCap - env.baseFee) else m.gasPrice
  }

  /** The message carries the effective price of its block. */
  predicate Priced(m: Message, env: Env) {
    env.london ==> m.gasPrice == EffectivePrice(m.gasPrice, m.feeCap, m.tipCap, true, env.baseFee)
  }

  /** The checks before any gas is bought. */
  function PreCheck(m: Message, env: Env, s: Sender, meta: Meta): (e: Option<TxError>)
    ensures e.None? <==>
              && s.nonce == m.nonce != MAX_UINT64 && s.isEoa
              && (env.london ==> m.tipCap <= m.feeCap < TWO_256 && env.baseFee <= m.feeCap)
              && !meta.BadMeta? && (meta.Meta? ==> meta.feePercent <= BIG10000)
    ensures e == Some(NonceTooHigh) <==> m.nonce > s.nonce
    ensures e == Some(NonceTooLow) <==> m.nonce < s.nonce
    ensures e == Some(TipAboveFeeCap) ==> m.tipCap > m.feeCap
    ensures e == Some(FeeCapTooLow) ==> m.feeCap < env.baseFee
  {
    if s.nonce < m.nonce then Some(NonceTooHigh)
    else if s.nonce > m.nonce then Some(NonceTooLow)
    else if s.nonce == MAX_UINT64 then Some(NonceMax)
    else if !s.isEoa then Some(SenderNoEoa)
    else if env.london && m.feeCap >= TWO_256 then Some(FeeCapVeryHigh)
    else if env.london && m.tipCap >= TWO_256 then Some(TipVeryHigh)
    else if env.london && m.feeCap < m.tipCap then Some(TipAboveFeeCap)
    else if env.london && m.feeCap < env.baseFee then Some(FeeCapTooLow)
    else if meta.BadMeta? || (meta.Meta? && meta.feePercent > BIG10000) then Some(InvalidMeta)
    else None
  }

  // ---------------------------------------------------------------- who pays what

  function Cost(gas: nat, price: nat): nat {
    gas * price
  }

  /** The part of `v` a share of `percent` hundredths of a percent comes to, rounded down. */
  function Share(v: nat, percent: nat): nat {
    v * percent / BIG10000
  }

  /** Rounding both shares down loses at most one. */
  lemma SharesAddUp(v: nat, percent: nat)
    requires percent <= BIG10000
    ensures v - 1 <= Share(v, percent) + Share(v, BIG10000 - percent) <= v
  {
    var a, b := v * percent, v * (BIG10000 - percent);
    assert a + b == v * BIG10000;
  }

  lemma ShareMonotone(v: nat, w: nat, percent: nat)
    requires v <= w
    ensures Share(v, percent) <= Share(w, percent)
  {
    assert v * percent <= w * percent;
  }

  /** Takes `v` (or gives it, if `sign` is 1) from whoever pays the fees of the message. */
  function Charge(b: Balances, m: Message, meta: Meta, v: nat, sign: int): Balances {
    if meta.Meta? && meta.feePercent <= BIG10000 then
      Credit(Credit(b, meta.payer, sign * Share(v, meta.feePercent)), m.from,
             sign * Share(v, BIG10000 - meta.feePercent))
    else Credit(b, m.from, sign * v)
  }

  /** What account `x` pays for `gas`, in numbers: the whole price, or its shares in hundredths of a percent. */
  function PaysFor(m: Message, meta: Meta, gas: nat, x: Address): int {
    if meta.Meta? then
      (if x == meta.payer then gas * m.gasPrice * meta.feePercent / 10000 else 0)
      + (if x == m.from && meta.feePercent <= 10000 then gas * m.gasPrice * (10000 - meta.feePercent) / 10000 else 0)
    else if x == m.from then gas * m.gasPrice
    else 0
  }

  lemma SharesAre(m: Message, meta: Meta, gas: nat)
    requires meta.Meta? ==> meta.feePercent <= 10000
    ensures Cost(gas, m.gasPrice) == gas * m.gasPrice
    ensures meta.Meta? ==>
              && Share(Cost(gas, m.gasPrice), meta.feePercent) == gas * m.gasPrice * meta.feePercent / 10000
              && Share(Cost(gas, m.gasPrice), BIG10000 - meta.feePercent)
                 == gas * m.gasPrice * (10000 - meta.feePercent) / 10000
  {
  }

  /** Every account has paid for `gas` what it owes, and nobody anything else. */
  ghost predicate Paid(m: Message, meta: Meta, gas: nat, before: Balances, after: Balances) {
    (meta.Meta? ==> meta.feePercent <= 10000) ==>
      forall x :: Balance(after, x) == Balance(before, x) - PaysFor(m, meta, gas, x)
  }

  /** Charging the price of some gas takes from each account what it owes, and giving it back is the reverse. */
  lemma ChargeMeans(b: Balances, m: Message, meta: Meta, gas: nat)
    ensures Paid(m, meta, gas, b, Charge(b, m, meta, Cost(gas, m.gasPrice), -1))
    ensures Paid(m, meta, gas, Charge(b, m, meta, Cost(gas, m.gasPrice), 1), b)
  {
    if meta.Meta? ==> meta.feePercent <= 10000 {
      SharesAre(m, meta, gas);
      hide Cost, Share;
    }
  }

  /** What `Charge` moves in all. */
  function Charged(meta: Meta, v: nat): nat {
    if meta.Meta? && meta.feePercent <= BIG10000 then
      Share(v, meta.feePercent) + Share(v, BIG10000 - meta.feePercent)
    else v
  }

  lemma SupplyCharge(b: Balances, m: Message, meta: Meta, v: nat, sign: int)
    requires sign == 1 || sign == -1
    ensures Supply(Charge(b, m, meta, v, sign)) == Supply(b) + sign * Charged(meta, v)
  {
    hide Supply, Credit, Share;
    if meta.Meta? && meta.feePercent <= BIG10000 {
      var x, y := Share(v, meta.feePercent), Share(v, BIG10000 - meta.feePercent);
      SupplyCredit(b, meta.payer, sign * x);
      SupplyCredit(Credit(b, meta.payer, sign * x), m.from, sign * y);
    } else {
      SupplyCredit(b, m.from, sign * v);
    }
  }

  function Collector(env: Env): Address {
    if env.congress then FEE_RECODER else env.coinbase
  }

  /** What the collector is paid for `used` gas: after London under Congress the base fee too. */
  function Fee(m: Message, env: Env, used: nat): int {
    used * Tip(m, env) + if env.congress && env.london then used * env.baseFee else 0
  }

  /** Under Congress after London the collector is paid the whole price of the gas used. */
  lemma WholePrice(m: Message, env: Env, used: nat)
    requires Priced(m, env) && env.congress && env.london && env.baseFee <= m.feeCap
    ensures m.gasPrice == env.baseFee + Tip(m, env) && Fee(m, env, used) == used * m.gasPrice
  {
    assert used * (env.baseFee + Tip(m, env)) == used * env.baseFee + used * Tip(m, env);
  }

  // ---------------------------------------------------------------- the transition

  /** The refund: what the state says, but no more than a quotient of the gas used. */
  function Refund(usedBefore: nat, quotient: nat, counter: nat): (r: nat)
    requires quotient > 0
    ensures r <= counter && r * quotient <= usedBefore
    ensures r == counter || r == usedBefore / quotient
  {
    if usedBefore / quotient > counter then counter else usedBefore / quotient
  }

  function Quotient(env: Env): nat {
    if env.london then 5 else 2
  }

  /** A payer has what is asked of it before the gas is bought. A meta transaction is not asked for the value. */
  predicate CanPay(b: Balances, m: Message, meta: Meta) {
    if meta.Meta? && meta.feePercent <= BIG10000 then
      && Balance(b, meta.payer) >= Share(Cost(m.gas, m.gasPrice), meta.feePercent)
      && Balance(b, m.from) >= Share(Cost(m.gas, m.gasPrice), BIG10000 - meta.feePercent)
    else Balance(b, m.from) >= Cost(m.gas, m.feeCap) + m.value
  }

  /** The bytes the message really carries. */
  function Data(m: Message, meta: Meta): seq<nat> {
    if meta.Meta? then meta.payload else m.data
  }

  /** The intrinsic gas of a message, in 64 bits. */
  function Intrinsic(m: Message, env: Env, meta: Meta): nat {
    Wrap(BaseGas(m.creation, env.homestead) + DataGas(Data(m, meta), env.istanbul) + m.addresses * 2400 + m.keys * 1900)
  }

  /** Why a message is refused, if it is. */
  function Refused(m: Message, env: Env, meta: Meta, s: Sender, b: Balances, poolGas: nat): Option<TxError> {
    var e := PreCheck(m, env, s, meta);
    if e.Some? then e
    else if !CanPay(b, m, meta) then Some(InsufficientFunds)
    else if poolGas < m.gas then Some(GasLimitReached)
    else if BaseGas(m.creation, env.homestead) + DataGas(Data(m, meta), env.istanbul) > MAX_UINT64 then
      Some(GasUintOverflow)
    else if m.gas < Intrinsic(m, env, meta) then Some(IntrinsicGasTooLow)
    else if m.value > 0 && Balance(Charge(b, m, meta, Cost(m.gas, m.gasPrice), -1), m.from) < m.value then
      Some(InsufficientForTransfer)
    else if m.creation && !s.mayCreate then Some(UnauthorizedDeveloper)
    else None
  }

  /** An ordinary message that can pay for its gas can also pay its value: the last check on funds is for meta
      transactions. */
  lemma OrdinaryNeverShort(m: Message, env: Env, s: Sender, b: Balances, poolGas: nat)
    requires m.gasPrice <= m.feeCap
    ensures Refused(m, env, NotMeta, s, b, poolGas) != Some(InsufficientForTransfer)
  {
    hide PreCheck, Intrinsic, DataGas;
    assert Cost(m.gas, m.gasPrice) <= Cost(m.gas, m.feeCap);
    PreCheckKinds(m, env, s, NotMeta);
  }

  lemma PreCheckKinds(m: Message, env: Env, s: Sender, meta: Meta)
    ensures PreCheck(m, env, s, meta) != Some(InsufficientForTransfer)
  {
  }

  class StateTransition {
    const gp: GasPool
    const msg: Message
    const env: Env
    const meta: Meta
    var gas: nat
    var initialGas: nat
    var balances: Balances

    constructor (gp: GasPool, msg: Message, env: Env, meta: Meta, balances: Balances)
      ensures this.gp == gp && this.msg == msg && this.env == env && this.meta == meta
      ensures gas == initialGas == 0 && this.balances == balances
    {
      this.gp, this.msg, this.env, this.meta, this.balances := gp, msg, env, meta, balances;
      gas, initialGas := 0, 0;
    }

    method BuyGas() returns (err: Option<TxError>)
      requires gas == 0
      modifies this, gp
      ensures err == if !CanPay(old(balances), msg, meta) then Some(InsufficientFunds)
                     else if old(gp.gas) < msg.gas then Some(GasLimitReached) else None
      ensures err == Some(InsufficientFunds) <==>
                if meta.Meta? && meta.feePercent <= 10000 then
                  || Balance(old(balances), meta.payer) < msg.gas * msg.gasPrice * meta.feePercent / 10000
                  || Balance(old(balances), msg.from) < msg.gas * msg.gasPrice * (10000 - meta.feePercent) / 10000
                else Balance(old(balances), msg.from) < msg.gas * msg.feeCap + msg.value
      ensures err.Some? ==> gp.gas == old(gp.gas) && balances == old(balances)
      ensures err.None? ==>
                && gas == initialGas == msg.gas && gp.gas == old(gp.gas) - msg.gas
                && balances == Charge(old(balances), msg, meta, Cost(msg.gas, msg.gasPrice), -1)
      ensures err.None? ==> Paid(msg, meta, msg.gas, old(balances), balances)
    {
      hide Charge, Paid;
      if !CanPay(balances, msg, meta) {
        return Some(InsufficientFunds);
      }
      var ok := gp.SubGas(msg.gas);
      if !ok {
        return Some(GasLimitReached);
      }
      gas := gas + msg.gas;
      initialGas := msg.gas;
      balances := Charge(balances, msg, meta, Cost(msg.gas, msg.gasPrice), -1);
      ChargeMeans(old(balances), msg, meta, msg.gas);
      return None;
    }

    /** Gives back the gas that is left, with the capped refund, to the payers and to the pool; the pool has room for
        it. */
    method RefundGas(quotient: nat, counter: nat)
      requires quotient > 0 && gas <= initialGas && gp.gas + initialGas <= MAX_UINT64
      modifies this`gas, this`balances, gp
      ensures gas == old(gas) + Refund(initialGas - old(gas), quotient, counter) && gas <= initialGas
      ensures gp.gas == old(gp.gas) + gas
      ensures balances == Charge(old(balances), msg, meta, Cost(gas, msg.gasPrice), 1)
      ensures Paid(msg, meta, gas, balances, old(balances))
    {
      hide Charge, Paid;
      RefundFits(initialGas - gas, quotient, counter);
      gas := gas + Refund(initialGas - gas, quotient, counter);
      balances := Charge(balances, msg, meta, Cost(gas, msg.gasPrice), 1);
      ChargeMeans(old(balances), msg, meta, gas);
      var panicked := gp.AddGas(gas);
      assert !panicked;
    }

    /** Pays the fees for the gas used. */
    method PayFees()
      requires gas <= initialGas
      modifies this`balances
      ensures balances == Credit(old(balances), Collector(env), Fee(msg, env, initialGas - gas))
      ensures forall x :: Balance(balances, x) - Balance(old(balances), x) ==
                          if x == (if env.congress then FEE_RECODER else env.coinbase)
                          then Fee(msg, env, initialGas - gas) else 0
    {
      var used, effectiveTip: int := initialGas - gas, msg.gasPrice;
      if env.london {
        effectiveTip := Min(msg.tipCap, msg.feeCap - env.baseFee);
      }
      var b := Credit(balances, if env.congress then FEE_RECODER else env.coinbase, used * effectiveTip);
      if env.congress && env.london && env.baseFee > 0 {
        b := Credit(b, FEE_RECODER, used * env.baseFee);
      }
      balances := b;
    }

    /** The checks and payments before the EVM runs. */
    method Prepare(sender: Sender) returns (err: Option<TxError>)
      requires gas == 0
      modifies this, gp
      ensures err == Refused(msg, env, meta, sender, old(balances), old(gp.gas))
      ensures gp.gas <= old(gp.gas)
      ensures err.None? ==>
                && initialGas == msg.gas && Intrinsic(msg, env, meta) <= msg.gas
                && gas == msg.gas - Intrinsic(msg, env, meta)
                && gp.gas == old(gp.gas) - msg.gas
                && balances == Charge(old(balances), msg, meta, Cost(msg.gas, msg.gasPrice), -1)
    {
      hide PreCheck, CanPay, Charge, DataGas, Cost, Balance, BaseGas;
      err := PreCheck(msg, env, sender, meta);
      if err.Some? {
        return;
      }
      err := BuyGas();
      if err.Some? {
        return;
      }
      var data := if meta.Meta? then meta.payload else msg.data;
      var intrinsic := IntrinsicGas(data, msg.addresses, msg.keys, msg.creation, env.homestead, env.istanbul);
      if intrinsic.None? {
        return Some(GasUintOverflow);
      }
      if gas < intrinsic.value {
        return Some(IntrinsicGasTooLow);
      }
      gas := gas - intrinsic.value;
      if msg.value > 0 && Balance(balances, msg.from) < msg.value {
        return Some(InsufficientForTransfer);
      }
      if msg.creation && !sender.mayCreate {
        return Some(UnauthorizedDeveloper);
      }
    }

    /**
     Runs the message: buys gas, takes the intrinsic gas, runs the EVM, refunds, and pays the fees.
     `bought` are the balances the EVM was given and `ran` is what it left.
     */
    method TransitionDb(sender: Sender, evm: Evm)
      returns (err: Option<TxError>, used: nat, ghost bought: Balances, ghost ran: Outcome)
      requires gas == 0 && gp.gas <= MAX_UINT64
      requires forall b, g :: evm(b, g).gasLeft <= g
      modifies this, gp
      ensures err == Refused(msg, env, meta, sender, old(balances), old(gp.gas))
      ensures gp.gas <= old(gp.gas)
      ensures err.None? ==>
                && Completed(msg, env, meta, old(balances), bought, ran, used, balances)
                && Intrinsic(msg, env, meta) <= msg.gas && ran == evm(bought, msg.gas - Intrinsic(msg, env, meta))
                && gp.gas + used == old(gp.gas)
    {
      hide Refused, Charge, Refund, Fee, Cost, Intrinsic;
      used, bought, ran := 0, balances, Outcome(0, 0, balances);
      err := Prepare(sender);
      if err.Some? {
        return;
      }
      bought := balances;
      var out := evm(balances, gas);
      ran := out;
      gas, balances := out.gasLeft, out.balances;
      RefundGas(if env.london then 5 else 2, out.refund);
      PayFees();
      used := initialGas - gas;
    }
  }

  lemma RefundFits(usedBefore: nat, quotient: nat, counter: nat)
    requires quotient > 0
    ensures Refund(usedBefore, quotient, counter) <= usedBefore
  {
    hide Refund;
    var r := Refund(usedBefore, quotient, counter);
    AtLeast(r, quotient);
  }

  lemma AtLeast(r: nat, quotient: nat)
    requires quotient > 0
    ensures r <= r * quotient
  {
    assert r * quotient == r + r * (quotient - 1);
  }

  /** A completed message: who was charged before it ran, and who was refunded and paid after. */
  ghost predicate Completed(m: Message, env: Env, meta: Meta, b0: Balances, bought: Balances, ran: Outcome, used: nat,
                            b: Balances)
  {
    && used <= m.gas && ran.gasLeft <= m.gas
    && bought == Charge(b0, m, meta, Cost(m.gas, m.gasPrice), -1)
    && used == m.gas - ran.gasLeft - Refund(m.gas - ran.gasLeft, Quotient(env), ran.refund)
    && b == Credit(Charge(ran.balances, m, meta, Cost(m.gas - used, m.gasPrice), 1), Collector(env), Fee(m, env, used))
  }

  // ---------------------------------------------------------------- fees are conserved

  /** The supply changes by what the EVM does and by the difference between what is charged and what is given back and
      paid. */
  lemma SupplyChange(m: Message, env: Env, meta: Meta, b0: Balances, bought: Balances, ran: Outcome, used: nat,
                     b: Balances)
    requires Completed(m, env, meta, b0, bought, ran, used, b)
    ensures Supply(b) - Supply(b0) == Supply(ran.balances) - Supply(bought)
                                      - Charged(meta, Cost(m.gas, m.gasPrice))
                                      + Charged(meta, Cost(m.gas - used, m.gasPrice)) + Fee(m, env, used)
  {
    hide Supply, Charge, Credit, Refund, Fee, Charged, Cost;
    SupplyCharge(b0, m, meta, Cost(m.gas, m.gasPrice), -1);
    SupplyCharge(ran.balances, m, meta, Cost(m.gas - used, m.gasPrice), 1);
    SupplyCredit(Charge(ran.balances, m, meta, Cost(m.gas - used, m.gasPrice), 1), Collector(env), Fee(m, env, used));
  }

  lemma CostSplits(gas: nat, used: nat, price: nat)
    requires used <= gas
    ensures Cost(gas, price) == used * price + Cost(gas - used, price) && Cost(gas - used, price) <= Cost(gas, price)
  {
    assert (used + (gas - used)) * price == used * price + (gas - used) * price;
  }

  /** Under Congress after London no fee is lost: a conserving EVM leaves the supply as it was, and a meta transaction
      within 1 of it. */
  lemma FeesConserved(m: Message, env: Env, meta: Meta, b0: Balances, bought: Balances, ran: Outcome, used: nat,
                      b: Balances)
    requires Completed(m, env, meta, b0, bought, ran, used, b) && Priced(m, env)
    requires env.congress && env.london && env.baseFee <= m.feeCap && Supply(ran.balances) == Supply(bought)
    ensures if meta.Meta? then -1 <= Supply(b) - Supply(b0) <= 1 else Supply(b) == Supply(b0)
  {
    hide Supply, Completed, Share, Priced, Fee, Tip, Cost;
    SupplyChange(m, env, meta, b0, bought, ran, used, b);
    Used(m, env, meta, b0, bought, ran, used, b);
    WholePrice(m, env, used);
    CostSplits(m.gas, used, m.gasPrice);
    if meta.Meta? && meta.feePercent <= BIG10000 {
      SharesAddUp(Cost(m.gas, m.gasPrice), meta.feePercent);
      SharesAddUp(Cost(m.gas - used, m.gasPrice), meta.feePercent);
    }
  }

  lemma Used(m: Message, env: Env, meta: Meta, b0: Balances, bought: Balances, ran: Outcome, used: nat, b: Balances)
    requires Completed(m, env, meta, b0, bought, ran, used, b)
    ensures used <= m.gas
  {
  }

  /** Without Congress the base fee is burnt: the supply falls by it. */
  lemma BaseFeeBurnt(m: Message, env: Env, b0: Balances, bought: Balances, ran: Outcome, used: nat, b: Balances)
    requires Completed(m, env, NotMeta, b0, bought, ran, used, b) && Priced(m, env)
    requires !env.congress && env.london && env.baseFee <= m.feeCap && Supply(ran.balances) == Supply(bought)
    ensures Supply(b) == Supply(b0) - used * env.baseFee
  {
    hide Supply, Completed, Priced, Tip, Cost;
    SupplyChange(m, env, NotMeta, b0, bought, ran, used, b);
    Used(m, env, NotMeta, b0, bought, ran, used, b);
    SameTip(m, env);
    WholePrice(m, env.(congress := true), used);
    CostSplits(m.gas, used, m.gasPrice);
  }

  lemma SameTip(m: Message, env: Env)
    ensures Tip(m, env.(congress := true)) == Tip(m, env) && Priced(m, env.(congress := true)) == Priced(m, env)
  {
  }

  /** What the transition takes from the sender for gas is exactly what the fee recorder gains. */
  lemma SenderPaysRecorder(m: Message, env: Env, b0: Balances, bought: Balances, ran: Outcome, used: nat, b: Balances)
    requires Completed(m, env, NotMeta, b0, bought, ran, used, b) && Priced(m, env)
    requires env.congress && env.london && env.baseFee <= m.feeCap && m.from != FEE_RECODER
    ensures var debit := (Balance(b0, m.from) - Balance(bought, m.from)) - (Balance(b, m.from) - Balance(ran.balances,
                                                                                                         m.from));
            debit == used * m.gasPrice == Balance(b, FEE_RECODER) - Balance(ran.balances, FEE_RECODER)
  {
    hide Refund, Fee, Priced, Tip, Cost;
    WholePrice(m, env, used);
    CostSplits(m.gas, used, m.gasPrice);
  }

  /**
   Who pays: the fee payer of a meta transaction the share it names and the sender the rest, each rounded down, and
   the sender alone the whole price otherwise. What is given back is split in the same way.
   */
  lemma PayersPay(m: Message, env: Env, meta: Meta, b0: Balances, bought: Balances, ran: Outcome, used: nat,
                  b: Balances, x: Address)
    requires Completed(m, env, meta, b0, bought, ran, used, b) && (meta.Meta? ==> meta.feePercent <= 10000)
    ensures Balance(b0, x) - Balance(bought, x) == PaysFor(m, meta, m.gas, x)
    ensures x != Collector(env) ==> Balance(b, x) - Balance(ran.balances, x) == PaysFor(m, meta, m.gas - used, x)
  {
    hide Refund, Fee, Collector, Charge, PaysFor;
    ChargeMeans(b0, m, meta, m.gas);
    ChargeMeans(ran.balances, m, meta, m.gas - used);
  }

  /** The refund is at most a fifth of the gas consumed since London, and half of it before (EIP-3529). */
  lemma RefundCapped(m: Message, env: Env, meta: Meta, b0: Balances, bought: Balances, ran: Outcome, used: nat,
                     b: Balances)
    requires Completed(m, env, meta, b0, bought, ran, used, b)
    ensures var consumed := m.gas - ran.gasLeft;
            var cap := if env.london then consumed / 5 else consumed / 2;
            used == consumed - if ran.refund < cap then ran.refund else cap
  {
    hide Charge, Fee;
  }

  /**
   Buying gas overdraws nobody: an account that was not negative is not negative afterwards, except that the two
   shares of a meta transaction are compared with the balance one by one. If its fee payer is the sender, it is not
   overdrawn if and only if the balance covers both.
   */
  lemma NoOverdraft(m: Message, env: Env, meta: Meta, s: Sender, b: Balances, poolGas: nat, x: Address)
    requires Refused(m, env, meta, s, b, poolGas).None? && Balance(b, x) >= 0 && (env.london ==> Priced(m, env))
    requires !env.london ==> m.gasPrice <= m.feeCap
    ensures var after := Balance(Charge(b, m, meta, Cost(m.gas, m.gasPrice), -1), x);
            if meta.Meta? && meta.payer == m.from == x then
              after >= 0 <==> Balance(b, x) >= PaysFor(m, meta, m.gas, x)
            else after >= 0
  {
    hide Intrinsic, DataGas, BaseGas;
    PassedPreCheck(m, env, meta, s, b, poolGas);
    SharesAre(m, meta, m.gas);
    CostGrows(m);
    hide Cost, Share, PreCheck;
  }

  /** A sender who names itself as the payer of one half can pay each half but not both. */
  lemma OverdraftExample() returns (m: Message, env: Env, meta: Meta, s: Sender, b: Balances)
    ensures Refused(m, env, meta, s, b, 30000).None? && Balance(b, m.from) == 10500
    ensures Balance(Charge(b, m, meta, Cost(m.gas, m.gasPrice), -1), m.from) == -10500
  {
    m := Message(1, false, 0, 21000, 1, 1, 1, 0, [], 0, 0);
    env, meta := Env(true, true, false, false, 0, 2), Meta(1, 5000, []);
    s, b := Sender(0, true, true), map[1 := 10500];
    assert Intrinsic(m, env, meta) == 21000;
  }

  lemma PassedPreCheck(m: Message, env: Env, meta: Meta, s: Sender, b: Balances, poolGas: nat)
    requires Refused(m, env, meta, s, b, poolGas).None? && (env.london ==> Priced(m, env))
    ensures !meta.BadMeta? && (meta.Meta? ==> meta.feePercent <= 10000) && CanPay(b, m, meta)
    ensures env.london ==> m.gasPrice <= m.feeCap
  {
    hide Intrinsic, DataGas, BaseGas, Charge, CanPay;
  }

  lemma CostGrows(m: Message)
    ensures m.gasPrice <= m.feeCap ==> Cost(m.gas, m.gasPrice) <= Cost(m.gas, m.feeCap)
  {
    if m.gasPrice <= m.feeCap {
      assert m.gas * m.gasPrice <= m.gas * m.feeCap;
    }
  }

  /** The shares of what is given back are no larger than those of what was paid. */
  lemma SharesShrink(m: Message, percent: nat, used: nat)
    requires percent <= BIG10000 && used <= m.gas
    ensures Share(Cost(m.gas - used, m.gasPrice), percent) <= Share(Cost(m.gas, m.gasPrice), percent)
    ensures Share(Cost(m.gas - used, m.gasPrice), BIG10000 - percent)
            <= Share(Cost(m.gas, m.gasPrice), BIG10000 - percent)
  {
    hide Share, Cost;
    CostSplits(m.gas, used, m.gasPrice);
    ShareMonotone(Cost(m.gas - used, m.gasPrice), Cost(m.gas, m.gasPrice), percent);
    ShareMonotone(Cost(m.gas - used, m.gasPrice), Cost(m.gas, m.gasPrice), BIG10000 - percent);
  }

  /** Nobody but the collector is given back more than they paid, neither payer of a meta transaction included. */
  lemma RefundWithinPrepaid(m: Message, env: Env, meta: Meta, b0: Balances, bought: Balances, ran: Outcome, used: nat,
                            b: Balances, x: Address)
    requires Completed(m, env, meta, b0, bought, ran, used, b) && x != Collector(env)
    ensures 0 <= Balance(b, x) - Balance(ran.balances, x) <= Balance(b0, x) - Balance(bought, x)
  {
    hide Share, Cost, Refund, Fee, Collector;
    CostSplits(m.gas, used, m.gasPrice);
    if meta.Meta? && meta.feePercent <= BIG10000 {
      SharesShrink(m, meta.feePercent, used);
    }
  }
}

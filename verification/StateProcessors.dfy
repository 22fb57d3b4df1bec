/** Processing a block: its transactions share one gas pool, and their fees leave the supply as it was. */
module StateProcessors {
  import opened Transactions
  import opened StateTransitions

  /** A transaction of a block, with what the engine and the state say about it when its turn comes. */
  datatype BlockTx = BlockTx(msg: Message, meta: Meta, sender: Sender, system: bool, accepted: bool, evm: Evm)

  datatype Receipt = Receipt(gasUsed: nat, cumulative: nat)

  /** The EVM returns no more gas than it was given. */
  ghost predicate Frugal(txs: seq<BlockTx>) {
    forall i, b, g :: 0 <= i < |txs| ==> txs[i].evm(b, g).gasLeft <= g
  }

  /** The EVM neither creates nor destroys balance, and every message carries its effective price. */
  ghost predicate Conserving(txs: seq<BlockTx>, env: Env) {
    forall i :: 0 <= i < |txs| ==> Priced(txs[i].msg, env) && ConservingEvm(txs[i].evm)
  }

  ghost predicate ConservingEvm(evm: Evm) {
    forall b, g :: Supply(evm(b, g).balances) == Supply(b)
  }

  function MetaCount(txs: seq<BlockTx>): nat {
    if txs == [] then 0 else MetaCount(txs[..|txs| - 1]) + if txs[|txs| - 1].meta.Meta? then 1 else 0
  }

  /** The number of transactions that are not system transactions. */
  function Ordinary(txs: seq<BlockTx>): nat {
    if txs == [] then 0 else Ordinary(txs[..|txs| - 1]) + if txs[|txs| - 1].system then 0 else 1
  }

  function GasSum(rs: seq<Receipt>): nat {
    if rs == [] then 0 else GasSum(rs[..|rs| - 1]) + rs[|rs| - 1].gasUsed
  }

  /** Each receipt's cumulative gas is the sum up to it, and together with what the pool then held it is the limit. */
  ghost predicate Accounted(rs: seq<Receipt>, pools: seq<nat>, limit: nat) {
    && |pools| == |rs|
    && forall i :: 0 <= i < |rs| ==> rs[i].cumulative == GasSum(rs[..i + 1]) && pools[i] + rs[i].cumulative == limit
  }

  lemma AccountOne(rs: seq<Receipt>, pools: seq<nat>, limit: nat, used: nat, pool: nat)
    requires Accounted(rs, pools, limit) && pool + GasSum(rs) + used == limit
    ensures Accounted(rs + [Receipt(used, GasSum(rs) + used)], pools + [pool], limit)
    ensures GasSum(rs + [Receipt(used, GasSum(rs) + used)]) == GasSum(rs) + used
  {
    var rs' := rs + [Receipt(used, GasSum(rs) + used)];
    assert rs'[..|rs|] == rs && rs'[..|rs| + 1] == rs';
    forall i | 0 <= i < |rs'| ensures rs'[i].cumulative == GasSum(rs'[..i + 1]) {
      if i < |rs| {
        assert rs'[..i + 1] == rs[..i + 1];
      }
    }
  }

  /** What a transaction that is not refused does to the balances. */
  ghost predicate Applies(tx: BlockTx, env: Env, b0: Balances, used: nat, b: Balances) {
    var bought := Charge(b0, tx.msg, tx.meta, Cost(tx.msg.gas, tx.msg.gasPrice), -1);
    && Intrinsic(tx.msg, env, tx.meta) <= tx.msg.gas
    && Completed(tx.msg, env, tx.meta, b0, bought, tx.evm(bought, tx.msg.gas - Intrinsic(tx.msg, env, tx.meta)), used,
                 b)
  }

  /** The balances and the gas of the pool before and after each transaction. */
  datatype Point = Point(balances: Balances, gas: nat)

  /** A transaction takes the block from one point to the next: a system transaction changes nothing here. */
  ghost predicate Moves(tx: BlockTx, env: Env, p: Point, q: Point) {
    && tx.accepted
    && if tx.system then p == q
       else Refused(tx.msg, env, tx.meta, tx.sender, p.balances, p.gas).None? && q.gas <= p.gas
            && Applies(tx, env, p.balances, p.gas - q.gas, q.balances)
  }

  /** The first transactions of the block, as many as there are points after the first. */
  ghost predicate Traced(txs: seq<BlockTx>, env: Env, trace: seq<Point>) {
    1 <= |trace| <= |txs| + 1 && forall i :: 0 < i < |trace| ==> Moves(txs[i - 1], env, trace[i - 1], trace[i])
  }

  /** The block stops at the next transaction: the engine does not accept it, or its message is refused. */
  ghost predicate StopsThere(txs: seq<BlockTx>, env: Env, trace: seq<Point>) {
    && 1 <= |trace| <= |txs|
    && var tx, p := txs[|trace| - 1], trace[|trace| - 1];
       !tx.accepted || (!tx.system && Refused(tx.msg, env, tx.meta, tx.sender, p.balances, p.gas).Some?)
  }

  lemma TraceOne(txs: seq<BlockTx>, env: Env, trace: seq<Point>, q: Point)
    requires Traced(txs, env, trace) && |trace| <= |txs| && Moves(txs[|trace| - 1], env, trace[|trace| - 1], q)
    ensures Traced(txs, env, trace + [q])
  {
    hide Moves;
  }

  /** One transaction: its gas goes from the pool to the running total, and its fees are conserved. */
  method ApplyTransaction(gp: GasPool, tx: BlockTx, env: Env, b0: Balances)
    returns (err: Option<TxError>, used: nat, b: Balances)
    requires gp.gas <= MAX_UINT64 && (forall b, g :: tx.evm(b, g).gasLeft <= g)
    modifies gp
    ensures gp.gas <= old(gp.gas) && (err.None? ==> gp.gas + used == old(gp.gas))
    ensures err == Refused(tx.msg, env, tx.meta, tx.sender, b0, old(gp.gas))
    ensures err.None? ==> used <= tx.msg.gas && Applies(tx, env, b0, used, b)
    ensures err.None? && env.congress && env.london && Priced(tx.msg, env) && ConservingEvm(tx.evm) ==>
              var drift := Supply(b) - Supply(b0);
              if tx.meta.Meta? then -1 <= drift <= 1 else drift == 0
  {
    hide Supply, Completed, Priced, PreCheck, Refused, Intrinsic, Applies;
    var st := new StateTransition(gp, tx.msg, env, tx.meta, b0);
    ghost var bought, ran;
    err, used, bought, ran := st.TransitionDb(tx.sender, tx.evm);
    b := st.balances;
    if err.None? {
      Used(tx.msg, env, tx.meta, b0, bought, ran, used, b);
      AppliesAs(tx, env, b0, bought, ran, used, b);
      if env.congress && env.london && Priced(tx.msg, env) && ConservingEvm(tx.evm) {
        NotRefused(tx.msg, env, tx.meta, tx.sender, b0, old(gp.gas));
        FeesConserved(tx.msg, env, tx.meta, b0, bought, ran, used, b);
      }
    }
  }

  lemma AppliesAs(tx: BlockTx, env: Env, b0: Balances, bought: Balances, ran: Outcome, used: nat, b: Balances)
    requires Completed(tx.msg, env, tx.meta, b0, bought, ran, used, b) && Intrinsic(tx.msg, env, tx.meta) <= tx.msg.gas
    requires ran == tx.evm(bought, tx.msg.gas - Intrinsic(tx.msg, env, tx.meta))
    ensures Applies(tx, env, b0, used, b)
  {
    hide Intrinsic, Charge, Refund, Fee;
  }

  lemma NotRefused(m: Message, env: Env, meta: Meta, s: Sender, b: Balances, poolGas: nat)
    requires Refused(m, env, meta, s, b, poolGas).None? && env.london
    ensures env.baseFee <= m.feeCap
  {
    hide Intrinsic, DataGas, CanPay, Charge, Cost;
  }

  lemma CountNext(txs: seq<BlockTx>, i: nat)
    requires i < |txs|
    ensures Ordinary(txs[..i + 1]) == Ordinary(txs[..i]) + if txs[i].system then 0 else 1
    ensures MetaCount(txs[..i + 1]) == MetaCount(txs[..i]) + if txs[i].meta.Meta? then 1 else 0
  {
    assert txs[..i + 1][..i] == txs[..i];
  }

  /**
   Runs the transactions of a block, each on the balances and the gas that those before it have left, until one is
   refused or all are done. The running total never exceeds the gas limit, and under Congress after London the supply is
   conserved up to one unit for each meta transaction.
   */
  method Process(txs: seq<BlockTx>, env: Env, limit: nat, b0: Balances)
    returns (ok: bool, receipts: seq<Receipt>, usedGas: nat, b: Balances, ghost pools: seq<nat>,
             ghost trace: seq<Point>)
    requires limit <= MAX_UINT64 && Frugal(txs)
    ensures Traced(txs, env, trace) && trace[0] == Point(b0, limit)
    ensures if ok then |trace| == |txs| + 1 && usedGas <= limit && trace[|txs|] == Point(b, limit - usedGas)
            else StopsThere(txs, env, trace)
    ensures ok ==> Accounted(receipts, pools, limit) && usedGas == GasSum(receipts) <= limit
    ensures ok ==> (forall i :: 0 <= i < |txs| ==> txs[i].accepted) && |receipts| == Ordinary(txs)
    ensures ok && env.congress && env.london && Conserving(txs, env) ==>
              Supply(b0) - MetaCount(txs) <= Supply(b) <= Supply(b0) + MetaCount(txs)
  {
    hide Supply, Accounted, Priced, ConservingEvm, GasSum, MetaCount, Ordinary, Refused, Applies, Traced;
    receipts, usedGas, b, pools, trace := [], 0, b0, [], [Point(b0, limit)];
    var gp := new GasPool();
    var panicked := gp.AddGas(limit);
    assert !panicked;
    NothingYet(txs, limit);
    NothingTraced(txs, env, Point(b0, limit));
    for i := 0 to |txs|
      invariant gp.gas + usedGas == limit && usedGas == GasSum(receipts) && fresh(gp)
      invariant Accounted(receipts, pools, limit)
      invariant Traced(txs, env, trace) && |trace| == i + 1 && trace[0] == Point(b0, limit)
      invariant trace[i] == Point(b, gp.gas)
      invariant (forall j :: 0 <= j < i ==> txs[j].accepted) && |receipts| == Ordinary(txs[..i])
      invariant env.congress && env.london && Conserving(txs, env) ==>
                Supply(b0) - MetaCount(txs[..i]) <= Supply(b) <= Supply(b0) + MetaCount(txs[..i])
    {
      var tx := txs[i];
      CountNext(txs, i);
      if !tx.accepted {
        return false, [], 0, b, [], trace;
      }
      if !tx.system {
        var err, used, b' := ApplyTransaction(gp, tx, env, b);
        if err.Some? {
          return false, [], 0, b, [], trace;
        }
        AccountOne(receipts, pools, limit, used, gp.gas);
        usedGas := usedGas + used;
        receipts, pools, b := receipts + [Receipt(used, usedGas)], pools + [gp.gas], b';
      }
      TraceOne(txs, env, trace, Point(b, gp.gas));
      trace := trace + [Point(b, gp.gas)];
    }
    assert txs[..|txs|] == txs;
    return true, receipts, usedGas, b, pools, trace;
  }

  lemma NothingTraced(txs: seq<BlockTx>, env: Env, p: Point)
    ensures Traced(txs, env, [p])
  {
  }

  lemma NothingYet(txs: seq<BlockTx>, limit: nat)
    ensures GasSum([]) == 0 && Accounted([], [], limit) && MetaCount(txs[..0]) == Ordinary(txs[..0]) == 0
  {
  }
}

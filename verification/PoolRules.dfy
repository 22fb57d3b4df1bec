/**
 The rules by which the pool judges a transaction, on values: validation, rivals for the same nonce, room, and what
 adding a batch one by one comes to.
 */
module PoolRules {
  import opened Transactions
  import opened AccountLists
  import opened Lookups
  import opened PricedLists
  import opened Evictions
  import opened PoolInvariants
  import opened PoolMoves

  datatype PoolError =
    | AlreadyKnown | Unsupported | Oversized | NegativeValue | GasLimit | FeeCapVeryHigh | TipVeryHigh
    | TipAboveFeeCap | InvalidSender | UnderpricedTx | NonceTooLow | InsufficientFunds | IntrinsicGas
    | Denied | Overflow | ReplaceUnderpriced

  /** The verdicts of the checks on fields this model leaves out: transaction type, size, sign of the
      value, sender recovery, intrinsic gas, and the deny list of the extra validator. */
  datatype Checks = Checks(typeOk: bool, sizeOk: bool, valueOk: bool, senderOk: bool, intrinsicOk: bool, allowed: bool)

  datatype Config = Config(priceBump: nat, accountSlots: nat, globalSlots: nat, accountQueue: nat, globalQueue: nat)

  /** Unworkable settings are replaced by the defaults. */
  function Sanitize(c: Config): (r: Config)
    ensures 1 <= r.priceBump && 1 <= r.accountSlots && 1 <= r.globalSlots && 1 <= r.accountQueue && 1 <= r.globalQueue
    ensures c.priceBump >= 1 ==> r.priceBump == c.priceBump
    ensures c.accountSlots >= 1 ==> r.accountSlots == c.accountSlots
    ensures c.globalSlots >= 1 ==> r.globalSlots == c.globalSlots
    ensures c.globalQueue >= 1 ==> r.globalQueue == c.globalQueue
    ensures c.accountQueue >= 1 ==> r.accountQueue == c.accountQueue
  {
    Config(if c.priceBump < 1 then 10 else c.priceBump,
           if c.accountSlots < 1 then 16 else c.accountSlots,
           if c.globalSlots < 1 then 4096 + 1024 else c.globalSlots,
           if c.accountQueue < 1 then 64 else c.accountQueue,
           if c.globalQueue < 1 then 1024 else c.globalQueue)
  }

  /** The chain state the pool validates against. */
  datatype ChainState = ChainState(nonce: Address -> nat, balance: Address -> int)

  /** What a reset reads of a new head: its state, its gas limit, and the transactions that only the old chain held. */
  datatype Head = Head(state: ChainState, maxGas: nat, reinject: seq<(Tx, Checks)>)

  /** No account's nonce is lower at the new head than in `state`. */
  ghost predicate NoncesNotFalling(state: ChainState, head: Option<Head>) {
    head.Some? ==> forall a :: state.nonce(a) <= head.value.state.nonce(a)
  }

  /** No transaction tracked as remote belongs to a local account. */
  ghost predicate Spares(locals: set<Address>, remotes: map<Hash, Tx>) {
    forall h :: h in remotes ==> remotes[h].sender !in locals
  }

  lemma TrackedOne(remotes: map<Hash, Tx>, evicting: set<Hash>, entries: multiset<Tx>, locals: set<Address>, tx: Tx)
    requires Tracks(remotes, evicting, entries) && Spares(locals, remotes)
    ensures Tracks(remotes[tx.hash := tx], evicting, entries + multiset{tx})
    ensures tx.sender !in locals ==> Spares(locals, remotes[tx.hash := tx])
  {
  }

  const TWO_256: int := 0x1_0000000000000000_0000000000000000_0000000000000000_0000000000000000

  /** `validateTx`, with the verdicts of the checks on fields left out. */
  function Validate(tx: Tx, local: bool, c: Checks, state: ChainState, maxGas: nat, gasPrice: int,
                    baseFee: Option<int>): (e: Option<PoolError>)
    ensures e.None? <==>
              && tx.gas <= maxGas && state.nonce(tx.sender) <= tx.nonce && tx.cost <= state.balance(tx.sender)
              && tx.tipCap <= tx.feeCap < TWO_256
              && (local || gasPrice <= if baseFee.None? then tx.tipCap else TipAt(tx, baseFee.value))
              && c.typeOk && c.sizeOk && c.valueOk && c.senderOk && c.intrinsicOk && c.allowed
    ensures e == Some(GasLimit) ==> tx.gas > maxGas
    ensures e == Some(UnderpricedTx) ==> !local && EffectiveTip(tx, baseFee) < gasPrice
    ensures e == Some(NonceTooLow) ==> tx.nonce < state.nonce(tx.sender)
    ensures e == Some(InsufficientFunds) ==> state.balance(tx.sender) < tx.cost
    ensures e != Some(AlreadyKnown)
  {
    if !c.typeOk then Some(Unsupported)
    else if !c.sizeOk then Some(Oversized)
    else if !c.valueOk then Some(NegativeValue)
    else if maxGas < tx.gas then Some(GasLimit)
    else if tx.feeCap >= TWO_256 then Some(FeeCapVeryHigh)
    else if tx.tipCap >= TWO_256 then Some(TipVeryHigh)
    else if tx.feeCap < tx.tipCap then Some(TipAboveFeeCap)
    else if !c.senderOk then Some(InvalidSender)
    else if !local && EffectiveTip(tx, baseFee) < gasPrice then Some(UnderpricedTx)
    else if state.nonce(tx.sender) > tx.nonce then Some(NonceTooLow)
    else if state.balance(tx.sender) < tx.cost then Some(InsufficientFunds)
    else if !c.intrinsicOk then Some(IntrinsicGas)
    else if !c.allowed then Some(Denied)
    else None
  }

  /** The verdicts of validation: never that of a known or an underbid transaction, and an accepted one is payable. */
  lemma ValidateSays(tx: Tx, local: bool, c: Checks, state: ChainState, maxGas: nat, gasPrice: int,
                     baseFee: Option<int>)
    ensures var e := Validate(tx, local, c, state, maxGas, gasPrice, baseFee);
            && e != Some(AlreadyKnown) && e != Some(ReplaceUnderpriced)
            && (e.None? ==> !Exceeds(tx, state.balance(tx.sender), maxGas))
  {
  }

  // ---------------------------------------------------------------- evictions and replacements

  ghost predicate Without(m: map<Hash, Tx>, m': map<Hash, Tx>, hashes: set<Hash>) {
    m' == m - hashes
  }

  lemma NoHashes(drop: seq<Tx>)
    ensures forall m :: Without(m, m, HashesOf(drop[..0]))
  {
    assert HashesOf(drop[..0]) == {};
  }

  lemma OneHashMore(drop: seq<Tx>, i: nat, m: map<Hash, Tx>, m': map<Hash, Tx>)
    requires i < |drop| && Without(m, m', HashesOf(drop[..i]))
    ensures Without(m, m' - {drop[i].hash}, HashesOf(drop[..i + 1]))
  {
    assert HashesOf(drop[..i + 1]) == HashesOf(drop[..i]) + {drop[i].hash};
  }

  /** The known transactions of the sender and nonce of `tx`: there is at most one. */
  ghost function Rivals(known: map<Hash, Tx>, tx: Tx): set<Hash> {
    set h | h in known && known[h].sender == tx.sender && known[h].nonce == tx.nonce
  }

  ghost predicate BeatsRivals(known: map<Hash, Tx>, tx: Tx, bump: nat) {
    forall h :: h in Rivals(known, tx) ==> Outbids(tx, known[h], bump)
  }

  /** The known transactions once `tx` has taken the place of its rivals. */
  ghost function Filed(known: map<Hash, Tx>, tx: Tx): map<Hash, Tx> {
    (known - Rivals(known, tx))[tx.hash := tx]
  }

  /** The rival of a transaction is the one filed under its nonce, pending or queued. */
  lemma RivalsAre(pending: Accounts, queue: Accounts, known: map<Hash, Tx>, tx: Tx, bump: nat)
    requires PoolOk(pending, queue, known)
    ensures var p, q, n := Items(pending, tx.sender), Items(queue, tx.sender), tx.nonce;
            && Rivals(known, tx) == (if n in p then {p[n].hash} else if n in q then {q[n].hash} else {})
            && (n in p ==>
                  && (BeatsRivals(known, tx, bump) <==> Outbids(tx, p[n], bump))
                  && Filed(known, tx) == Learned(known, p, tx))
            && (n !in p ==>
                  && (BeatsRivals(known, tx, bump) <==> (n in q ==> Outbids(tx, q[n], bump)))
                  && Filed(known, tx) == Learned(known, q, tx))
  {
    hide Outbids;
    assert AccountOk(tx.sender, Items(pending, tx.sender), Items(queue, tx.sender), known);
    assert known - {} == known;
  }

  ghost function Senders(txs: seq<(Tx, Checks)>, errs: seq<Option<PoolError>>): set<Address>
    requires |errs| <= |txs|
  {
    set i | 0 <= i < |errs| && errs[i].None? :: txs[i].0.sender
  }

  /** Every known transaction was known before or has been accepted. */
  ghost predicate OnlyAccepted(known0: map<Hash, Tx>, known: map<Hash, Tx>, txs: seq<(Tx, Checks)>,
                               errs: seq<Option<PoolError>>)
    requires |errs| <= |txs|
  {
    forall h :: h in known ==> (h in known0 && known[h] == known0[h]) || Accepted(known[h], txs, errs)
  }

  ghost predicate Accepted(tx: Tx, txs: seq<(Tx, Checks)>, errs: seq<Option<PoolError>>)
    requires |errs| <= |txs|
  {
    exists i :: 0 <= i < |errs| && errs[i].None? && txs[i].0 == tx
  }

  lemma AcceptedOne(known0: map<Hash, Tx>, known: map<Hash, Tx>, txs: seq<(Tx, Checks)>, errs: seq<Option<PoolError>>,
                    gone: set<Hash>, err: Option<PoolError>, known': map<Hash, Tx>)
    requires |errs| < |txs| && OnlyAccepted(known0, known, txs, errs)
    requires known' == if err.None? then Filed(known - gone, txs[|errs|].0) else known - gone
    ensures OnlyAccepted(known0, known', txs, errs + [err])
    ensures Senders(txs, errs + [err]) == Senders(txs, errs) + if err.None? then {txs[|errs|].0.sender} else {}
  {
    var errs' := errs + [err];
    hide Rivals;
    forall h | h in known' ensures (h in known0 && known'[h] == known0[h]) || Accepted(known'[h], txs, errs') {
      if err.None? && h == txs[|errs|].0.hash {
        assert errs'[|errs|].None? && txs[|errs|].0 == known'[h];
      } else if !(h in known0 && known[h] == known0[h]) {
        var i :| 0 <= i < |errs| && errs[i].None? && txs[i].0 == known[h];
        assert errs'[i].None?;
      }
    }
    forall a | a in Senders(txs, errs) ensures a in Senders(txs, errs') {
      var i :| 0 <= i < |errs| && errs[i].None? && txs[i].0.sender == a;
      assert errs'[i].None?;
    }
    assert err.None? ==> errs'[|errs|].None?;
  }

  /** `m` with `tx` added if it belongs there. */
  ghost function With(m: map<Hash, Tx>, tx: Tx, belongs: bool): map<Hash, Tx> {
    if belongs then m[tx.hash := tx] else m
  }

  ghost function Bare(m: map<Hash, Tx>, replaced: Option<Tx>): map<Hash, Tx> {
    if replaced.Some? then m - {replaced.value.hash} else m
  }

  ghost function HashAt(items: map<nat, Tx>, n: nat): set<Hash> {
    if n in items then {items[n].hash} else {}
  }

  lemma BareIs(m: map<Hash, Tx>, items: map<nat, Tx>, n: nat)
    ensures m - HashAt(items, n) == Bare(m, if n in items then Some(items[n]) else None)
  {
    assert m - {} == m;
  }

  lemma NothingPooled(nonce: Address -> nat)
    ensures PoolOk(map[], map[], map[]) && ListsFine(map[], map[]) && AllIntervals(map[], nonce, map[])
  {
  }

  // ---------------------------------------------------------------- adding one transaction, and a batch

  /** What a transaction is judged by that adding others does not change. */
  datatype Rulebook = Rulebook(config: Config, state: ChainState, maxGas: nat, gasPrice: int, fee: Option<int>)

  /** What it is judged by of the pool itself. */
  datatype Shot = Shot(known: map<Hash, Tx>, remotes: map<Hash, Tx>, slots: int, changes: nat, book: Book,
                       locals: set<Address>)

  /** There is room for `tx` beside `slots` slots. */
  ghost predicate Fits(config: Config, slots: int, tx: Tx) {
    slots + NumSlots(tx) <= config.globalSlots + config.globalQueue
  }

  /** Why a full pool refuses `tx`: it is too cheap, too many evictions since the last run, or too few remote slots. */
  ghost function RoomIn(config: Config, s: Shot, tx: Tx, isLocal: bool): Option<PoolError> {
    if Fits(config, s.slots, tx) then None
    else if !isLocal && TooCheap(s.remotes, s.book.baseFee, s.book.urgent, s.book.floating, tx) then Some(UnderpricedTx)
    else if s.changes > config.globalSlots / 4 then Some(Overflow)
    else if !isLocal && LiveSlots(s.remotes, EntriesOf(s.book)) < Missing(config, s.slots, tx) then Some(Overflow)
    else None
  }

  /** The slots that have to be freed for `tx`. */
  function Missing(config: Config, slots: int, tx: Tx): (n: int)
    ensures n <= 0 <==> Fits(config, slots, tx)
    ensures Fits(config, slots - n, tx) && !Fits(config, slots - n + 1, tx)
  {
    slots - (config.globalSlots + config.globalQueue) + NumSlots(tx)
  }

  /** The verdict on a transaction for which `drop` is evicted. */
  ghost function Decision(rb: Rulebook, s: Shot, tx: Tx, checks: Checks, local: bool,
                          drop: seq<Tx>): Option<PoolError>
  {
    var isLocal := local || tx.sender in s.locals;
    var invalid := Validate(tx, isLocal, checks, rb.state, rb.maxGas, rb.gasPrice, rb.fee);
    if tx.hash in s.known then Some(AlreadyKnown)
    else if invalid.Some? then invalid
    else if RoomIn(rb.config, s, tx, isLocal).Some? then RoomIn(rb.config, s, tx, isLocal)
    else if BeatsRivals(s.known - HashesOf(drop), tx, rb.config.priceBump) then None
    else Some(ReplaceUnderpriced)
  }

  /** One transaction was added: the verdict on it, what was evicted for it, and what is known then. */
  ghost predicate AddedOne(rb: Rulebook, s: Shot, tx: Tx, checks: Checks, local: bool, err: Option<PoolError>,
                           drop: seq<Tx>, s': Shot)
  {
    && err == Decision(rb, s, tx, checks, local, drop)
    && HashesOf(drop) <= s.remotes.Keys && Drops(s.remotes, s.book, drop, Missing(rb.config, s.slots, tx))
    && (Fits(rb.config, s.slots, tx) || (err.Some? && err != Some(ReplaceUnderpriced)) ==> drop == [])
    && s'.known == (if err.None? then Filed(s.known - HashesOf(drop), tx) else s.known - HashesOf(drop))
    && s'.slots == SlotsOf(s'.known) && s'.changes == s.changes + |drop| && (!local ==> s'.locals == s.locals)
  }

  lemma RefusedOne(rb: Rulebook, s: Shot, tx: Tx, checks: Checks, local: bool, err: Option<PoolError>, s': Shot)
    requires err.Some? && err != Some(ReplaceUnderpriced) && err == Decision(rb, s, tx, checks, local, [])
    requires s'.known == s.known && s'.slots == s.slots == SlotsOf(s.known) && s'.changes == s.changes
    requires s'.locals == s.locals
    ensures AddedOne(rb, s, tx, checks, local, err, [], s')
  {
    hide Decision, Drops, Fits, SlotsOf;
    NothingLost(s.known);
    DropsNothing(s.remotes, s.book, Missing(rb.config, s.slots, tx));
  }

  lemma AdmittedOne(rb: Rulebook, s: Shot, tx: Tx, checks: Checks, local: bool, err: Option<PoolError>, drop: seq<Tx>,
                    s': Shot)
    requires tx.hash !in s.known
    requires Validate(tx, local || tx.sender in s.locals, checks, rb.state, rb.maxGas, rb.gasPrice, rb.fee).None?
    requires var room := RoomIn(rb.config, s, tx, local || tx.sender in s.locals);
             err == if room.Some? then room
                    else if BeatsRivals(s.known - HashesOf(drop), tx, rb.config.priceBump) then None
                    else Some(ReplaceUnderpriced)
    requires HashesOf(drop) <= s.remotes.Keys && Drops(s.remotes, s.book, drop, Missing(rb.config, s.slots, tx))
    requires Fits(rb.config, s.slots, tx) || (err.Some? && err != Some(ReplaceUnderpriced)) ==> drop == []
    requires s'.known == (if err.None? then Filed(s.known - HashesOf(drop), tx) else s.known - HashesOf(drop))
    requires s'.slots == SlotsOf(s'.known) && s'.changes == s.changes + |drop| && (!local ==> s'.locals == s.locals)
    ensures AddedOne(rb, s, tx, checks, local, err, drop, s')
  {
    hide Drops, Fits, SlotsOf, HashesOf, BeatsRivals, Filed, Validate, RoomIn;
  }

  /** The transactions were added one after the other: `shots` are the pool before, between and after them. */
  ghost predicate Batch(rb: Rulebook, txs: seq<(Tx, Checks)>, local: bool, errs: seq<Option<PoolError>>,
                        drops: seq<seq<Tx>>, shots: seq<Shot>)
  {
    && |errs| == |drops| == |shots| - 1 && |errs| <= |txs|
    && forall i :: 0 <= i < |errs| ==>
         AddedOne(rb, shots[i], txs[i].0, txs[i].1, local, errs[i], drops[i], shots[i + 1])
  }

  lemma BatchOne(rb: Rulebook, txs: seq<(Tx, Checks)>, local: bool, errs: seq<Option<PoolError>>,
                 drops: seq<seq<Tx>>, shots: seq<Shot>, err: Option<PoolError>, drop: seq<Tx>, s': Shot)
    requires Batch(rb, txs, local, errs, drops, shots) && |errs| < |txs|
    requires AddedOne(rb, shots[|errs|], txs[|errs|].0, txs[|errs|].1, local, err, drop, s')
    ensures Batch(rb, txs, local, errs + [err], drops + [drop], shots + [s'])
  {
    hide AddedOne;
  }

  ghost function TotalSlots(txs: seq<(Tx, Checks)>): nat {
    if txs == [] then 0 else TotalSlots(txs[..|txs| - 1]) + NumSlots(txs[|txs| - 1].0)
  }

  lemma {:induction false} PrefixSlots(txs: seq<(Tx, Checks)>, k: nat)
    requires k <= |txs|
    ensures TotalSlots(txs[..k]) <= TotalSlots(txs)
    ensures k < |txs| ==> TotalSlots(txs[..k + 1]) == TotalSlots(txs[..k]) + NumSlots(txs[k].0)
  {
    hide NumSlots;
    if k < |txs| {
      assert txs[..k + 1][..k] == txs[..k];
      if k < |txs| - 1 {
        PrefixSlots(txs[..|txs| - 1], k);
        assert txs[..|txs| - 1][..k] == txs[..k] && txs[..|txs| - 1][..k + 1] == txs[..k + 1];
      } else {
        assert txs[..k + 1] == txs;
      }
    } else {
      assert txs[..k] == txs;
    }
  }

  lemma FiledSlots(known: map<Hash, Tx>, tx: Tx)
    requires tx.hash !in known
    ensures SlotsOf(Filed(known, tx)) <= SlotsOf(known) + NumSlots(tx)
  {
    hide SlotsOf, NumSlots, Rivals;
    SlotsSplit(known, Rivals(known, tx));
    SlotsWith(known - Rivals(known, tx), tx.hash, tx);
  }

  /** If all transactions of a batch fit, nothing is evicted for any of them. */
  lemma {:induction false} NothingDropped(rb: Rulebook, txs: seq<(Tx, Checks)>, errs: seq<Option<PoolError>>,
                                          drops: seq<seq<Tx>>, shots: seq<Shot>, k: nat)
    requires Batch(rb, txs, false, errs, drops, shots) && k <= |errs| && shots[0].slots == SlotsOf(shots[0].known)
    requires shots[0].slots + TotalSlots(txs) <= rb.config.globalSlots + rb.config.globalQueue
    ensures shots[k].slots == SlotsOf(shots[k].known) <= shots[0].slots + TotalSlots(txs[..k])
    ensures k < |errs| ==> Fits(rb.config, shots[k].slots, txs[k].0) && drops[k] == []
    ensures shots[k].locals == shots[0].locals
  {
    hide SlotsOf, NumSlots, TotalSlots, Filed, Decision, Drops, HashesOf;
    PrefixSlots(txs, k);
    if k > 0 {
      var j := k - 1;
      NothingDropped(rb, txs, errs, drops, shots, j);
      PrefixSlots(txs, j);
      assert AddedOne(rb, shots[j], txs[j].0, txs[j].1, false, errs[j], drops[j], shots[k]);
      NothingLost(shots[j].known);
      if errs[j].None? {
        NewIfAccepted(rb, shots[j], txs[j].0, txs[j].1, false, drops[j]);
        FiledSlots(shots[j].known, txs[j].0);
      }
    }
    if k < |errs| {
      PrefixSlots(txs, k + 1);
      assert AddedOne(rb, shots[k], txs[k].0, txs[k].1, false, errs[k], drops[k], shots[k + 1]);
    }
  }

  lemma NothingLost(m: map<Hash, Tx>)
    ensures HashesOf([]) == {} && m - {} == m && m - HashesOf([]) == m
  {
    assert m - {} == m;
  }

  lemma NewIfAccepted(rb: Rulebook, s: Shot, tx: Tx, checks: Checks, local: bool, drop: seq<Tx>)
    requires Decision(rb, s, tx, checks, local, drop).None?
    ensures tx.hash !in s.known
  {
  }

  /** A transaction that shares its hash, or its sender and nonce, with no other one known or in the batch. */
  ghost predicate Unrivalled(known: map<Hash, Tx>, txs: seq<(Tx, Checks)>, tx: Tx) {
    && (forall h :: h in known && Clash(known[h], tx) ==> known[h] == tx)
    && (forall j :: 0 <= j < |txs| && Clash(txs[j].0, tx) ==> txs[j].0 == tx)
  }

  predicate Clash(a: Tx, b: Tx) {
    a.hash == b.hash || (a.sender == b.sender && a.nonce == b.nonce)
  }

  /** Every known transaction was known before or came with the batch. */
  lemma {:induction false} KnownFrom(rb: Rulebook, txs: seq<(Tx, Checks)>, errs: seq<Option<PoolError>>,
                                     drops: seq<seq<Tx>>, shots: seq<Shot>, k: nat, tx: Tx)
    requires Batch(rb, txs, false, errs, drops, shots) && k <= |errs| && HashKeyed(shots[0].known)
    requires Unrivalled(shots[0].known, txs, tx)
    ensures HashKeyed(shots[k].known)
    ensures forall h :: h in shots[k].known && Clash(shots[k].known[h], tx) ==> shots[k].known[h] == tx
  {
    if k > 0 {
      var j := k - 1;
      KnownFrom(rb, txs, errs, drops, shots, j, tx);
      assert AddedOne(rb, shots[j], txs[j].0, txs[j].1, false, errs[j], drops[j], shots[k]);
      hide Decision, Drops, Rivals, SlotsOf, HashesOf, Batch;
    }
  }

  /** It stays known once it is. */
  lemma {:induction false} StaysKnown(rb: Rulebook, txs: seq<(Tx, Checks)>, errs: seq<Option<PoolError>>,
                                      drops: seq<seq<Tx>>, shots: seq<Shot>, i: nat, k: nat, tx: Tx)
    requires Batch(rb, txs, false, errs, drops, shots) && i <= k <= |errs|
    requires HashKeyed(shots[0].known) && shots[0].slots == SlotsOf(shots[0].known)
    requires shots[0].slots + TotalSlots(txs) <= rb.config.globalSlots + rb.config.globalQueue
    requires Unrivalled(shots[0].known, txs, tx) && tx.hash in shots[i].known
    ensures tx.hash in shots[k].known && shots[k].known[tx.hash] == tx
  {
    KnownFrom(rb, txs, errs, drops, shots, k, tx);
    if i < k {
      var j := k - 1;
      StaysKnown(rb, txs, errs, drops, shots, i, j, tx);
      NothingDropped(rb, txs, errs, drops, shots, j);
      assert AddedOne(rb, shots[j], txs[j].0, txs[j].1, false, errs[j], drops[j], shots[k]);
      hide Decision, Drops, SlotsOf, HashesOf, Batch, TotalSlots, NumSlots, Validate, RoomIn;
      NothingLost(shots[j].known);
      if errs[j].None? {
        NewIfAccepted(rb, shots[j], txs[j].0, txs[j].1, false, drops[j]);
        assert !Clash(txs[j].0, tx);
      }
    }
  }

  /**
   Of a batch that fits, every transaction that validates and clashes with no other one, known or in the batch, is known
   afterwards.
   */
  lemma BatchPutsIn(rb: Rulebook, txs: seq<(Tx, Checks)>, errs: seq<Option<PoolError>>, drops: seq<seq<Tx>>,
                    shots: seq<Shot>, i: nat)
    requires Batch(rb, txs, false, errs, drops, shots) && i < |errs| == |txs|
    requires HashKeyed(shots[0].known) && shots[0].slots == SlotsOf(shots[0].known)
    requires shots[0].slots + TotalSlots(txs) <= rb.config.globalSlots + rb.config.globalQueue
    requires Unrivalled(shots[0].known, txs, txs[i].0)
    requires Validate(txs[i].0, txs[i].0.sender in shots[0].locals, txs[i].1, rb.state, rb.maxGas, rb.gasPrice,
                      rb.fee).None?
    ensures txs[i].0.hash in shots[|txs|].known && shots[|txs|].known[txs[i].0.hash] == txs[i].0
  {
    var tx := txs[i].0;
    NothingDropped(rb, txs, errs, drops, shots, i);
    KnownFrom(rb, txs, errs, drops, shots, i, tx);
    assert AddedOne(rb, shots[i], tx, txs[i].1, false, errs[i], drops[i], shots[i + 1]);
    hide Drops, SlotsOf, HashesOf, Batch, TotalSlots, NumSlots, Validate, TooCheap, LiveSlots;
    NothingLost(shots[i].known);
    if tx.hash !in shots[i].known {
      NoClash(shots[i].known, tx, rb.config.priceBump);
    }
    StaysKnown(rb, txs, errs, drops, shots, i + 1, |txs|, tx);
  }

  lemma NoClash(known: map<Hash, Tx>, tx: Tx, bump: nat)
    requires HashKeyed(known) && tx.hash !in known && forall h :: h in known && Clash(known[h], tx) ==> known[h] == tx
    ensures Rivals(known, tx) == {} && BeatsRivals(known, tx, bump) && tx.hash in Filed(known, tx)
  {
  }

  /** The transaction is filed under its sender and nonce, pending or queued. */
  ghost predicate Holds(t: Tiers, tx: Tx) {
    InItems(Items(t.pending, tx.sender), tx) || InItems(Items(t.queue, tx.sender), tx)
  }

  lemma KnownIsHeld(t: Tiers, known: map<Hash, Tx>, h: Hash)
    requires PoolOk(t.pending, t.queue, known) && h in known
    ensures Holds(t, known[h])
  {
    assert AccountOk(known[h].sender, Items(t.pending, known[h].sender), Items(t.queue, known[h].sender), known);
  }

  /** If all of `txs` fit into the pool, each of them that validates and clashes with no other is filed in `t`, and so
      is each known transaction that clashes with no other. */
  ghost predicate Returned(rb: Rulebook, s: Shot, txs: seq<(Tx, Checks)>, t: Tiers) {
    s.slots + TotalSlots(txs) <= rb.config.globalSlots + rb.config.globalQueue ==>
      && (forall i :: 0 <= i < |txs| && Unrivalled(s.known, txs, txs[i].0) && Welcome(rb, s, txs[i]) ==>
            Holds(t, txs[i].0))
      && (forall h :: h in s.known && Unrivalled(s.known, txs, s.known[h]) ==> Holds(t, s.known[h]))
  }

  /** The transaction validates; it is treated as local if its sender is. */
  ghost predicate Welcome(rb: Rulebook, s: Shot, tx: (Tx, Checks)) {
    Validate(tx.0, tx.0.sender in s.locals, tx.1, rb.state, rb.maxGas, rb.gasPrice, rb.fee).None?
  }

  lemma BatchReturned(rb: Rulebook, txs: seq<(Tx, Checks)>, errs: seq<Option<PoolError>>, drops: seq<seq<Tx>>,
                       shots: seq<Shot>, t: Tiers)
    requires Batch(rb, txs, false, errs, drops, shots) && |errs| == |txs|
    requires HashKeyed(shots[0].known) && shots[0].slots == SlotsOf(shots[0].known)
    requires PoolOk(t.pending, t.queue, shots[|txs|].known)
    ensures Returned(rb, shots[0], txs, t)
  {
    assert |shots| == |txs| + 1;
    hide Batch, SlotsOf, PoolOk, Holds, Unrivalled, Validate, TotalSlots, HashKeyed;
    if shots[0].slots + TotalSlots(txs) <= rb.config.globalSlots + rb.config.globalQueue {
      forall i | 0 <= i < |txs| && Unrivalled(shots[0].known, txs, txs[i].0) && Welcome(rb, shots[0], txs[i])
        ensures Holds(t, txs[i].0)
      {
        BatchPutsIn(rb, txs, errs, drops, shots, i);
        KnownIsHeld(t, shots[|txs|].known, txs[i].0.hash);
      }
      forall h | h in shots[0].known && Unrivalled(shots[0].known, txs, shots[0].known[h])
        ensures Holds(t, shots[0].known[h])
      {
        var tx := shots[0].known[h];
        ByHash(shots[0].known, h);
        StaysKnown(rb, txs, errs, drops, shots, 0, |txs|, tx);
        KnownIsHeld(t, shots[|txs|].known, tx.hash);
      }
    }
  }

  lemma ByHash(known: map<Hash, Tx>, h: Hash)
    requires HashKeyed(known) && h in known
    ensures known[h].hash == h
  {
  }

  lemma NoneAdded(rb: Rulebook, txs: seq<(Tx, Checks)>, local: bool, s: Shot)
    ensures Batch(rb, txs, local, [], [], [s])
  {
  }
}

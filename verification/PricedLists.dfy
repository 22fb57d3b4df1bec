/**
 The eviction order of the pool: two price heaps over the remote transactions. Entries are
 removed lazily, so a heap also holds stale entries, whose hash is no longer in the lookup's
 remote set. The lookup the source points to is passed in as the map `remotes`.
 */
module PricedLists {
  import opened Transactions
  import Heaps

  const URGENT_RATIO: nat := 4
  const FLOATING_RATIO: nat := 1

  function CompareInt(a: int, b: int): int {
    if a < b then -1 else if a == b then 0 else 1
  }

  /** `priceHeap.cmp`: by effective tip if a base fee is set, then by fee cap, then by tip cap. */
  function Compare(baseFee: Option<int>, a: Tx, b: Tx): int {
    var tips := CompareInt(EffectiveTip(a, baseFee), EffectiveTip(b, baseFee));
    if baseFee.Some? && tips != 0 then tips
    else if a.feeCap != b.feeCap then CompareInt(a.feeCap, b.feeCap)
    else CompareInt(a.tipCap, b.tipCap)
  }

  /** `priceHeap.Less`: cheaper first, and among equals the higher nonce first. */
  function PriceLess(baseFee: Option<int>): (Tx, Tx) -> bool {
    (a: Tx, b: Tx) => Compare(baseFee, a, b) < 0 || (Compare(baseFee, a, b) == 0 && a.nonce > b.nonce)
  }

  /** What a transaction leaves the miner per gas at base fee `fee`. */
  function TipAt(tx: Tx, fee: int): int {
    if tx.tipCap < tx.feeCap - fee then tx.tipCap else tx.feeCap - fee
  }

  /** `a` offers less by its caps: a lower fee cap, or an equal one and a lower tip cap. */
  predicate LowerCaps(a: Tx, b: Tx) {
    a.feeCap < b.feeCap || (a.feeCap == b.feeCap && a.tipCap < b.tipCap)
  }

  /** `a` pays less than `b`, in numbers: with a base fee what is left for the miner decides, and then the caps. */
  predicate PaysLess(baseFee: Option<int>, a: Tx, b: Tx) {
    match baseFee
    case None => LowerCaps(a, b)
    case Some(fee) => TipAt(a, fee) < TipAt(b, fee) || (TipAt(a, fee) == TipAt(b, fee) && LowerCaps(a, b))
  }

  /** The worst payer ranks below, and of transactions that pay the same the one with the higher nonce. */
  lemma RankMeans(baseFee: Option<int>, a: Tx, b: Tx)
    ensures Compare(baseFee, a, b) < 0 <==> PaysLess(baseFee, a, b)
    ensures Compare(baseFee, a, b) >= 0 <==> !PaysLess(baseFee, a, b)
    ensures PriceLess(baseFee)(a, b) <==>
              PaysLess(baseFee, a, b) || (!PaysLess(baseFee, b, a) && a.nonce > b.nonce)
  {
  }

  lemma PriceOrder(baseFee: Option<int>)
    ensures Heaps.WeakOrder(PriceLess(baseFee))
  {
    var less := PriceLess(baseFee);
    forall x, y, z ensures Heaps.Chain(less, x, y, z) {
    }
  }

  ghost predicate IsPriceHeap(baseFee: Option<int>, h: seq<Tx>) {
    Heaps.IsHeap(h, PriceLess(baseFee))
  }

  method PushTx(baseFee: Option<int>, h0: seq<Tx>, tx: Tx) returns (h: seq<Tx>)
    requires IsPriceHeap(baseFee, h0)
    ensures IsPriceHeap(baseFee, h)
    ensures |h| == |h0| + 1 && multiset(h) == multiset(h0) + multiset{tx}
  {
    PriceOrder(baseFee);
    h := Heaps.Push(h0, tx, PriceLess(baseFee));
  }

  /** Pops a transaction that no other one in the heap ranks below. */
  method PopTx(baseFee: Option<int>, h0: seq<Tx>) returns (h: seq<Tx>, tx: Tx)
    requires IsPriceHeap(baseFee, h0) && h0 != []
    ensures IsPriceHeap(baseFee, h)
    ensures |h| == |h0| - 1 && multiset(h0) == multiset(h) + multiset{tx}
    ensures tx == h0[0] && forall y :: y in multiset(h0) ==> !PriceLess(baseFee)(y, tx)
  {
    PriceOrder(baseFee);
    h, tx := Heaps.Pop(h0, PriceLess(baseFee));
    assert forall y :: y in multiset(h0) ==> y in h0;
  }

  method InitTxs(baseFee: Option<int>, h0: seq<Tx>) returns (h: seq<Tx>)
    ensures IsPriceHeap(baseFee, h)
    ensures |h| == |h0| && multiset(h) == multiset(h0)
  {
    PriceOrder(baseFee);
    h := Heaps.Init(h0, PriceLess(baseFee));
  }

  /** Whether a heap entry still stands for a remote transaction of the pool. */
  predicate Live(remotes: map<Hash, Tx>, tx: Tx) {
    tx.hash in remotes
  }

  ghost function LiveSlot(remotes: map<Hash, Tx>, tx: Tx): nat {
    if Live(remotes, tx) then NumSlots(tx) else 0
  }

  /** The slots of all live entries, each counted as often as it occurs. */
  ghost function LiveSlots(remotes: map<Hash, Tx>, m: multiset<Tx>): nat {
    if m == multiset{} then 0
    else
      var tx :| tx in m;
      LiveSlot(remotes, tx) + LiveSlots(remotes, m - multiset{tx})
  }

  lemma {:induction false} LiveSlotsAdd(remotes: map<Hash, Tx>, m: multiset<Tx>, x: Tx)
    ensures LiveSlots(remotes, m + multiset{x}) == LiveSlots(remotes, m) + LiveSlot(remotes, x)
    decreases |m|
  {
    var m' := m + multiset{x};
    assert x in m';
    var y: Tx :| y in m' && LiveSlots(remotes, m') == LiveSlot(remotes, y) + LiveSlots(remotes, m' - multiset{y});
    if y == x {
      assert m' - multiset{y} == m;
    } else {
      var rest := m - multiset{y};
      assert m' - multiset{y} == rest + multiset{x};
      assert m == rest + multiset{y};
      LiveSlotsAdd(remotes, rest, x);
      LiveSlotsAdd(remotes, rest, y);
    }
  }

  ghost function SumSlots(txs: seq<Tx>): nat {
    if txs == [] then 0 else SumSlots(txs[..|txs| - 1]) + NumSlots(txs[|txs| - 1])
  }

  /** No live entry of `h` pays less than `tx`. */
  ghost predicate NoneCheaper(remotes: map<Hash, Tx>, baseFee: Option<int>, h: multiset<Tx>, tx: Tx) {
    forall e :: e in h && Live(remotes, e) ==> !PaysLess(baseFee, e, tx)
  }

  ghost predicate HasLive(remotes: map<Hash, Tx>, h: multiset<Tx>) {
    exists e :: e in h && Live(remotes, e)
  }

  /** `after` holds the live entries of `before`, each as often, and nothing new. */
  ghost predicate SameLive(remotes: map<Hash, Tx>, before: multiset<Tx>, after: multiset<Tx>) {
    && (forall e :: Live(remotes, e) ==> before[e] == after[e])
    && after <= before
  }

  /** Stale entries hold no live slots. */
  lemma {:induction false} SameLiveSlots(remotes: map<Hash, Tx>, before: multiset<Tx>, after: multiset<Tx>)
    requires SameLive(remotes, before, after)
    ensures LiveSlots(remotes, before) == LiveSlots(remotes, after)
    decreases |before|
  {
    if x :| x in before - after {
      var rest := before - multiset{x};
      StaleLeft(remotes, before, after, x);
      hide LiveSlots, SameLive;
      LiveSlotsAdd(remotes, rest, x);
      SameLiveSlots(remotes, rest, after);
    } else {
      assert forall x: Tx :: (before - after)[x] == 0 ==> before[x] == after[x];
      assert before == after;
    }
  }

  lemma StaleLeft(remotes: map<Hash, Tx>, before: multiset<Tx>, after: multiset<Tx>, x: Tx)
    requires SameLive(remotes, before, after) && x in before - after
    ensures var rest := before - multiset{x};
            before == rest + multiset{x} && SameLive(remotes, rest, after) && !Live(remotes, x)
  {
  }

  /** `underpricedFor`: drops the stale entries found at the root, then compares with the root. */
  method UnderpricedFor(h0: seq<Tx>, baseFee: Option<int>, remotes: map<Hash, Tx>, tx: Tx)
    returns (h: seq<Tx>, popped: nat, under: bool)
    requires IsPriceHeap(baseFee, h0)
    ensures IsPriceHeap(baseFee, h)
    ensures SameLive(remotes, multiset(h0), multiset(h))
    ensures h != [] <==> HasLive(remotes, multiset(h0))
    ensures popped == |h0| - |h|
    ensures under <==> h != [] && NoneCheaper(remotes, baseFee, multiset(h0), tx)
  {
    h, popped := h0, 0;
    while h != [] && !Live(remotes, h[0])
      invariant IsPriceHeap(baseFee, h)
      invariant SameLive(remotes, multiset(h0), multiset(h))
      invariant popped == |h0| - |h|
      decreases |h|
    {
      var x;
      h, x := PopTx(baseFee, h);
      popped := popped + 1;
    }
    if h == [] {
      assert forall e :: e !in multiset(h);
      return h, popped, false;
    }
    assert h[0] in multiset(h);
    PriceOrder(baseFee);
    under := Compare(baseFee, h[0], tx) >= 0;
    RankMeans(baseFee, h[0], tx);
    forall e | e in multiset(h) ensures !PaysLess(baseFee, h[0], tx) ==> !PaysLess(baseFee, e, tx) {
      var k :| 0 <= k < |h| && h[k] == e;
      Heaps.RootIsLeast(h, PriceLess(baseFee), k);
      RankMeans(baseFee, e, h[0]);
    }
  }

  /** Each remote transaction once, in no particular order. */
  ghost predicate EachOnce(remotes: map<Hash, Tx>, m: multiset<Tx>) {
    forall e: Tx :: m[e] == if e.hash in remotes && remotes[e.hash] == e then 1 else 0
  }

  /** `Range` over the remote transactions, in any order. */
  method Collect(remotes: map<Hash, Tx>) returns (list: seq<Tx>)
    requires forall h :: h in remotes ==> remotes[h].hash == h
    ensures |list| == |remotes| && EachOnce(remotes, multiset(list))
  {
    var todo := remotes.Keys;
    list := [];
    while todo != {}
      invariant todo <= remotes.Keys
      invariant |list| + |todo| == |remotes|
      invariant forall e: Tx ::
                multiset(list)[e] == if e.hash in remotes && e.hash !in todo && remotes[e.hash] == e then 1 else 0
      decreases todo
    {
      var h :| h in todo;
      list := list + [remotes[h]];
      todo := todo - {h};
    }
  }

  /** Every entry of both heaps, counted as often as it occurs. */
  ghost function Both(urgent: seq<Tx>, floating: seq<Tx>): multiset<Tx> {
    multiset(urgent) + multiset(floating)
  }

  lemma TakenFrom(a0: seq<Tx>, a: seq<Tx>, b: seq<Tx>, tx: Tx)
    requires multiset(a0) == multiset(a) + multiset{tx}
    ensures Both(a0, b) == Both(a, b) + multiset{tx}
    ensures Both(b, a0) == Both(b, a) + multiset{tx}
  {
  }

  lemma BothPlus(a: seq<Tx>, a0: seq<Tx>, b: seq<Tx>, txs: seq<Tx>)
    requires multiset(a) == multiset(a0) + multiset(txs)
    ensures Both(a, b) == Both(a0, b) + multiset(txs)
  {
  }

  /**
   The worst went first. No entry that stayed urgent ranks below one that left the urgent heap. No entry still
   floating ranks below an evicted one, unless it came from the urgent heap meanwhile. And unless an evicted entry was
   floating from the start, no entry is left that ranks below it in both orders.
   */
  ghost predicate WorstWent(baseFee: Option<int>, u0: multiset<Tx>, f0: multiset<Tx>, u: multiset<Tx>, f: multiset<Tx>,
                            drop: seq<Tx>)
  {
    && u <= u0
    && (forall x, y :: x in u && y in u0 - u ==> !PriceLess(baseFee)(x, y))
    && (forall z :: z in f ==> z in f0 || z in u0 - u)
    && (forall z, d :: z in f && d in drop ==> z in u0 || !PriceLess(None)(z, d))
    && (forall z, d :: (z in u || z in f) && d in drop ==> d in f0 || !Below(baseFee, z, d))
  }

  /** `x` ranks below `y` in the order of either heap. */
  ghost predicate Below(baseFee: Option<int>, x: Tx, y: Tx) {
    PriceLess(baseFee)(x, y) && PriceLess(None)(x, y)
  }

  /** A transaction that leaves the miner less and has a lower fee cap ranks below in either order. */
  lemma WorseIsBelow(baseFee: Option<int>, x: Tx, y: Tx)
    requires x.feeCap < y.feeCap && (baseFee.Some? ==> TipAt(x, baseFee.value) < TipAt(y, baseFee.value))
    ensures Below(baseFee, x, y)
  {
    RankMeans(baseFee, x, y);
    RankMeans(None, x, y);
  }

  lemma UrgentWent(baseFee: Option<int>, u0: multiset<Tx>, f0: multiset<Tx>, u: multiset<Tx>, u': multiset<Tx>,
                   f: multiset<Tx>, f': multiset<Tx>, drop: seq<Tx>, tx: Tx)
    requires WorstWent(baseFee, u0, f0, u, f, drop) && u == u' + multiset{tx} && f' <= f + multiset{tx}
    requires forall y :: y in u ==> !PriceLess(baseFee)(y, tx)
    ensures WorstWent(baseFee, u0, f0, u', f', drop)
  {
    hide PriceLess, Below;
    forall x, y | x in u' && y in u0 - u' ensures !PriceLess(baseFee)(x, y) {
      assert x in u && (y in u0 - u || y == tx);
    }
    assert tx in u && tx in u0 && tx in u0 - u';
    forall z | z in f' ensures z in f || z == tx {
    }
    forall z | z in f' ensures z in f0 || z in u0 - u' {
      assert z in u0 - u ==> z in u0 - u';
    }
    forall z, d | z in f' && d in drop ensures z in u0 || !PriceLess(None)(z, d) {
    }
  }

  lemma FloatingWent(baseFee: Option<int>, u0: multiset<Tx>, f0: multiset<Tx>, u: multiset<Tx>, f: multiset<Tx>,
                     f': multiset<Tx>, drop: seq<Tx>, tx: Tx)
    requires WorstWent(baseFee, u0, f0, u, f, drop) && f == f' + multiset{tx}
    requires forall y :: y in f ==> !PriceLess(None)(y, tx)
    ensures WorstWent(baseFee, u0, f0, u, f', drop) && WorstWent(baseFee, u0, f0, u, f', drop + [tx])
  {
    hide PriceLess;
    assert tx in f;
  }

  /** Moves the worst urgent entry to the floating heap, or discards it if it is stale. */
  method Rebalance(u0: seq<Tx>, f0: seq<Tx>, baseFee: Option<int>, remotes: map<Hash, Tx>)
    returns (u: seq<Tx>, f: seq<Tx>, stale: bool, ghost tx: Tx)
    requires IsPriceHeap(baseFee, u0) && IsPriceHeap(None, f0) && u0 != []
    ensures IsPriceHeap(baseFee, u) && IsPriceHeap(None, f)
    ensures 2 * |u| + |f| < 2 * |u0| + |f0|
    ensures multiset(u0) == multiset(u) + multiset{tx} && multiset(f) <= multiset(f0) + multiset{tx}
    ensures forall y :: y in multiset(u0) ==> !PriceLess(baseFee)(y, tx)
    ensures SameLive(remotes, Both(u0, f0), Both(u, f))
    ensures LiveSlots(remotes, Both(u0, f0)) == LiveSlots(remotes, Both(u, f))
  {
    var worst;
    u, worst := PopTx(baseFee, u0);
    f, tx := f0, worst;
    TakenFrom(u0, u, f0, worst);
    stale := !Live(remotes, worst);
    if stale {
      LiveSlotsAdd(remotes, Both(u, f), worst);
    } else {
      f := PushTx(None, f0, worst);
      TakenFrom(f, f0, u, worst);
    }
  }

  /** Evicts the worst floating entry, or discards it if it is stale. */
  method EvictFloating(u: seq<Tx>, f0: seq<Tx>, remotes: map<Hash, Tx>)
    returns (f: seq<Tx>, victim: Option<Tx>, ghost tx: Tx)
    requires IsPriceHeap(None, f0) && f0 != []
    ensures IsPriceHeap(None, f) && |f| == |f0| - 1
    ensures multiset(f0) == multiset(f) + multiset{tx} && (victim.Some? ==> victim.value == tx)
    ensures forall y :: y in multiset(f0) ==> !PriceLess(None)(y, tx)
    ensures victim.None? ==> SameLive(remotes, Both(u, f0), Both(u, f))
                             && LiveSlots(remotes, Both(u, f0)) == LiveSlots(remotes, Both(u, f))
    ensures victim.Some? ==> Live(remotes, victim.value)
                             && Both(u, f0) == Both(u, f) + multiset{victim.value}
                             && LiveSlots(remotes, Both(u, f0))
                                == LiveSlots(remotes, Both(u, f)) + NumSlots(victim.value)
  {
    var worst;
    f, worst := PopTx(None, f0);
    tx := worst;
    TakenFrom(f0, f, u, worst);
    LiveSlotsAdd(remotes, Both(u, f), worst);
    victim := if Live(remotes, worst) then Some(worst) else None;
  }

  /** Pushes entries back onto a heap. */
  method Restore(h0: seq<Tx>, txs: seq<Tx>, baseFee: Option<int>) returns (h: seq<Tx>)
    requires IsPriceHeap(baseFee, h0)
    ensures IsPriceHeap(baseFee, h)
    ensures multiset(h) == multiset(h0) + multiset(txs)
  {
    h := h0;
    for i := 0 to |txs|
      invariant IsPriceHeap(baseFee, h)
      invariant multiset(h) == multiset(h0) + multiset(txs[..i])
    {
      h := PushTx(baseFee, h, txs[i]);
      assert txs[..i + 1] == txs[..i] + [txs[i]];
    }
    assert txs[..|txs|] == txs;
  }

  /** Evicting `drop` from the entries `all` leaves `rest`: only live entries went, no more than
      the request needs, and no live entry was lost on the way. */
  ghost predicate Evicted(remotes: map<Hash, Tx>, all: multiset<Tx>, rest: multiset<Tx>, drop: seq<Tx>, slots: int) {
    && (forall tx :: tx in drop ==> Live(remotes, tx))
    && SameLive(remotes, all, rest + multiset(drop))
    && LiveSlots(remotes, rest) + SumSlots(drop) == LiveSlots(remotes, all)
    && (drop != [] ==> SumSlots(drop[..|drop| - 1]) < slots)
  }

  lemma NothingLive(remotes: map<Hash, Tx>)
    ensures LiveSlots(remotes, multiset{}) == 0
  {
  }

  lemma EvictOne(remotes: map<Hash, Tx>, all: multiset<Tx>, rest: multiset<Tx>, rest': multiset<Tx>, drop: seq<Tx>,
                 slots: int, tx: Tx)
    requires Evicted(remotes, all, rest, drop, slots)
    requires Live(remotes, tx) && rest == rest' + multiset{tx}
    requires LiveSlots(remotes, rest) == LiveSlots(remotes, rest') + NumSlots(tx)
    requires SumSlots(drop) < slots
    ensures Evicted(remotes, all, rest', drop + [tx], slots)
    ensures SumSlots(drop + [tx]) == SumSlots(drop) + NumSlots(tx)
  {
    hide SameLive, LiveSlots, Live, NumSlots;
    assert (drop + [tx])[..|drop|] == drop;
    assert rest + multiset(drop) == rest' + multiset(drop + [tx]);
  }

  lemma EvictNone(remotes: map<Hash, Tx>, all: multiset<Tx>, rest: multiset<Tx>, rest': multiset<Tx>, drop: seq<Tx>,
                  slots: int)
    requires Evicted(remotes, all, rest, drop, slots)
    requires SameLive(remotes, rest, rest')
    requires LiveSlots(remotes, rest) == LiveSlots(remotes, rest')
    ensures Evicted(remotes, all, rest', drop, slots)
  {
  }

  /**
   The eviction loop of `Discard`: pops the worst floating entries until `slots` slots are
   covered, refilling the floating heap from the urgent one at the 4:1 ratio.
   */
  method Evict(u0: seq<Tx>, f0: seq<Tx>, baseFee: Option<int>, slots: int, remotes: map<Hash, Tx>)
    returns (u: seq<Tx>, f: seq<Tx>, drop: seq<Tx>, need: int)
    requires IsPriceHeap(baseFee, u0) && IsPriceHeap(None, f0)
    ensures IsPriceHeap(baseFee, u) && IsPriceHeap(None, f)
    ensures Evicted(remotes, Both(u0, f0), Both(u, f), drop, slots)
    ensures WorstWent(baseFee, multiset(u0), multiset(f0), multiset(u), multiset(f), drop)
    ensures need == slots - SumSlots(drop)
    ensures need > 0 ==> u == [] && f == []
    ensures slots > 0 ==> |u| <= 4 * (|f| + 1)
  {
    u, f, drop, need := u0, f0, [], slots;
    assert WorstWent(baseFee, multiset(u0), multiset(f0), multiset(u), multiset(f), drop);
    hide WorstWent, IsPriceHeap;
    assert Both(u, f) + multiset(drop) == Both(u, f);
    while need > 0
      invariant IsPriceHeap(baseFee, u) && IsPriceHeap(None, f)
      invariant Evicted(remotes, Both(u0, f0), Both(u, f), drop, slots)
      invariant WorstWent(baseFee, multiset(u0), multiset(f0), multiset(u), multiset(f), drop)
      invariant need == slots - SumSlots(drop)
      invariant need > 0 || slots <= 0 || |u| <= 4 * (|f| + 1)
      decreases 2 * |u| + |f|
    {
      ghost var before, mu, mf := Both(u, f), multiset(u), multiset(f);
      ghost var tx;
      if |u| * FLOATING_RATIO > |f| * URGENT_RATIO || FLOATING_RATIO == 0 {
        var stale;
        u, f, stale, tx := Rebalance(u, f, baseFee, remotes);
        UrgentWent(baseFee, multiset(u0), multiset(f0), mu, multiset(u), mf, multiset(f), drop, tx);
        EvictNone(remotes, Both(u0, f0), before, Both(u, f), drop, slots);
      } else {
        if f == [] {
          break;
        }
        var victim;
        f, victim, tx := EvictFloating(u, f, remotes);
        FloatingWent(baseFee, multiset(u0), multiset(f0), mu, mf, multiset(f), drop, tx);
        if victim.Some? {
          EvictOne(remotes, Both(u0, f0), before, Both(u, f), drop, slots, victim.value);
          drop := drop + [victim.value];
          need := need - NumSlots(victim.value);
        } else {
          EvictNone(remotes, Both(u0, f0), before, Both(u, f), drop, slots);
        }
      }
    }
  }

  /** The cheapest `count` entries of a heap, and the heap of the others. */
  method TakeWorst(h0: seq<Tx>, count: nat, baseFee: Option<int>) returns (worst: seq<Tx>, h: seq<Tx>)
    requires IsPriceHeap(baseFee, h0) && count <= |h0|
    ensures IsPriceHeap(baseFee, h)
    ensures |worst| == count && Both(h, worst) == multiset(h0)
    ensures forall x, y :: x in worst && y in multiset(h) ==> !PriceLess(baseFee)(y, x)
  {
    worst, h := [], h0;
    while |worst| < count
      invariant |worst| <= count && |worst| + |h| == |h0|
      invariant IsPriceHeap(baseFee, h)
      invariant Both(h, worst) == multiset(h0)
      invariant forall x, y :: x in worst && y in multiset(h) ==> !PriceLess(baseFee)(y, x)
      decreases count - |worst|
    {
      var x;
      ghost var before := h;
      h, x := PopTx(baseFee, h);
      TakenFrom(before, h, worst, x);
      assert forall y :: y in multiset(h) ==> y in multiset(before);
      assert multiset(worst + [x]) == multiset(worst) + multiset{x};
      assert forall z :: z in worst + [x] ==> z in worst || z == x;
      worst := worst + [x];
    }
  }

  /** Some live entry exists, and none ranks below `tx` in the order of its heap. */
  ghost predicate TooCheap(remotes: map<Hash, Tx>, baseFee: Option<int>, urgent: multiset<Tx>, floating: multiset<Tx>,
                           tx: Tx)
  {
    && HasLive(remotes, urgent + floating)
    && NoneCheaper(remotes, baseFee, urgent, tx) && NoneCheaper(remotes, None, floating, tx)
  }

  /** Unless it was floating before, no evicted transaction leaves behind one with a lower fee cap that leaves the miner
      less. */
  lemma StaysDearer(baseFee: Option<int>, u0: multiset<Tx>, f0: multiset<Tx>, u: multiset<Tx>, f: multiset<Tx>,
                    drop: seq<Tx>)
    requires WorstWent(baseFee, u0, f0, u, f, drop)
    ensures forall z, d :: d in drop && d !in f0 && z in u + f && z.feeCap < d.feeCap ==>
              baseFee.Some? && TipAt(d, baseFee.value) <= TipAt(z, baseFee.value)
  {
    forall z, d | d in drop && d !in f0 && z in u + f && z.feeCap < d.feeCap
      ensures baseFee.Some? && TipAt(d, baseFee.value) <= TipAt(z, baseFee.value)
    {
      assert !Below(baseFee, z, d);
      hide WorstWent, Below;
      if baseFee.None? || TipAt(z, baseFee.value) < TipAt(d, baseFee.value) {
        WorseIsBelow(baseFee, z, d);
      }
    }
  }

  /** What the price heaps hold, without their inner order. */
  datatype Book = Book(urgent: multiset<Tx>, floating: multiset<Tx>, baseFee: Option<int>, stales: int)

  ghost function Listed(b: Book, tx: Tx): Book {
    b.(urgent := b.urgent + multiset{tx})
  }

  class PricedList {
    var urgent: seq<Tx>
    var floating: seq<Tx>
    var baseFee: Option<int>
    var stales: int

    ghost predicate Valid()
      reads this
    {
      IsPriceHeap(baseFee, urgent) && IsPriceHeap(None, floating)
    }

    ghost function Entries(): multiset<Tx>
      reads this
    {
      Both(urgent, floating)
    }

    ghost function Contents(): Book
      reads this
    {
      Book(multiset(urgent), multiset(floating), baseFee, stales)
    }

    constructor ()
      ensures Valid() && Contents() == Book(multiset{}, multiset{}, None, 0)
    {
      urgent, floating, baseFee, stales := [], [], None, 0;
    }

    method Put(tx: Tx, local: bool)
      requires Valid()
      modifies this
      ensures Valid() && Contents() == if local then old(Contents()) else Listed(old(Contents()), tx)
    {
      if !local {
        urgent := PushTx(baseFee, urgent, tx);
      }
    }

    /** True exactly when some live entry exists and none ranks below `tx` in its heap's order. */
    method Underpriced(tx: Tx, remotes: map<Hash, Tx>) returns (under: bool)
      requires Valid()
      modifies this
      ensures Valid() && baseFee == old(baseFee)
      ensures under <==> TooCheap(remotes, baseFee, old(multiset(urgent)), old(multiset(floating)), tx)
      ensures baseFee.Some? ==> forall e :: e in old(multiset(urgent)) && Live(remotes, e) ==>
                TipAt(e, baseFee.value) < TipAt(tx, baseFee.value) ==> !under
      ensures forall e :: e in old(multiset(floating)) && Live(remotes, e) ==> e.feeCap < tx.feeCap ==> !under
      ensures SameLive(remotes, old(multiset(urgent)), multiset(urgent))
      ensures SameLive(remotes, old(multiset(floating)), multiset(floating))
    {
      var u, popped, underUrgent := UnderpricedFor(urgent, baseFee, remotes, tx);
      urgent, stales := u, stales - popped;
      if !(underUrgent || urgent == []) {
        return false;
      }
      var f, popped', underFloating := UnderpricedFor(floating, None, remotes, tx);
      floating, stales := f, stales - popped';
      under := (underFloating || floating == []) && (urgent != [] || floating != []);
    }

    /**
     Evicts until `slots` slots are covered. It refuses, restoring the live entries, exactly
     when it is not forced and all live entries together do not cover the request.
     */
    method Discard(slots: int, force: bool, remotes: map<Hash, Tx>) returns (drop: seq<Tx>, ok: bool)
      requires Valid()
      modifies this
      ensures Valid() && baseFee == old(baseFee)
      ensures ok <==> force || slots <= LiveSlots(remotes, old(Entries()))
      ensures ok ==> Evicted(remotes, old(Entries()), Entries(), drop, slots)
      ensures ok ==> slots <= SumSlots(drop) || Entries() == multiset{}
      ensures ok ==> WorstWent(baseFee, old(multiset(urgent)), old(multiset(floating)),
                               multiset(urgent), multiset(floating), drop)
      ensures forall z, d :: d in drop && d !in old(multiset(floating)) && z in Entries() && z.feeCap < d.feeCap ==>
                baseFee.Some? && TipAt(d, baseFee.value) <= TipAt(z, baseFee.value)
      ensures !ok ==> SameLive(remotes, old(Entries()), Entries())
      ensures !ok ==> drop == []
    {
      hide IsPriceHeap, SameLive, LiveSlots, Live, NumSlots, WorstWent;
      var u, f, txs, need := Evict(urgent, floating, baseFee, slots, remotes);
      NothingLive(remotes);
      assert need > 0 ==> Both(u, f) == multiset{};
      stales := stales - (|urgent| + |floating| - |u| - |f| - |txs|);
      if need > 0 && !force {
        var restored := Restore(u, txs, baseFee);
        BothPlus(restored, u, f, txs);
        urgent, floating := restored, f;
        return [], false;
      }
      StaysDearer(baseFee, multiset(urgent), multiset(floating), multiset(u), multiset(f), txs);
      urgent, floating := u, f;
      return txs, true;
    }

    /** Rebuilds both heaps from the remote transactions; the cheapest fifth becomes floating. */
    method Reheap(remotes: map<Hash, Tx>)
      requires forall h :: h in remotes ==> remotes[h].hash == h
      modifies this
      ensures Valid() && baseFee == old(baseFee) && stales == 0
      ensures EachOnce(remotes, Entries())
      ensures |floating| == |remotes| / 5
      ensures forall x, y :: x in multiset(floating) && y in multiset(urgent) ==> !PriceLess(baseFee)(y, x)
    {
      var list := Collect(remotes);
      var h := InitTxs(baseFee, list);
      var worst, u := TakeWorst(h, |h| * FLOATING_RATIO / (URGENT_RATIO + FLOATING_RATIO), baseFee);
      var f := InitTxs(None, worst);
      assert forall x :: x in multiset(f) ==> x in multiset(worst) && x in worst;
      urgent, floating, stales := u, f, 0;
    }

    method Removed(count: nat, remotes: map<Hash, Tx>)
      requires Valid()
      requires forall h :: h in remotes ==> remotes[h].hash == h
      modifies this
      ensures Valid() && baseFee == old(baseFee)
      ensures old(stales) + count <= |old(Entries())| / 4 ==> Contents() == old(Contents().(stales := stales + count))
      ensures old(stales) + count > |old(Entries())| / 4 ==> EachOnce(remotes, Entries()) && stales == 0
    {
      stales := stales + count;
      if stales > (|urgent| + |floating|) / 4 {
        Reheap(remotes);
      }
    }

    method SetBaseFee(fee: Option<int>, remotes: map<Hash, Tx>)
      requires forall h :: h in remotes ==> remotes[h].hash == h
      modifies this
      ensures Valid() && baseFee == fee
      ensures EachOnce(remotes, Entries())
    {
      baseFee := fee;
      Reheap(remotes);
    }
  }
}

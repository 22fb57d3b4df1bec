/**
 What a per-account transaction list computes, on values: the nonce-to-transaction map, the
 strictness flag and the two cached caps. `TxLists.TxList` is the object with the heap index and
 the sorted cache whose methods are proved to compute exactly these functions, and the pool
 is built on them.
 */
module AccountLists {
  import opened Transactions

  datatype AccountTxs = AccountTxs(strict: bool, items: map<nat, Tx>, costcap: int, gascap: nat)

  /** Every transaction sits under its own nonce. */
  ghost predicate WellFiled(items: map<nat, Tx>) {
    forall n :: n in items ==> items[n].nonce == n
  }

  /** The cached caps bound every stored transaction. */
  ghost predicate Capped(l: AccountTxs) {
    forall n :: n in l.items ==> l.items[n].cost <= l.costcap && l.items[n].gas <= l.gascap
  }

  ghost predicate Good(l: AccountTxs) {
    WellFiled(l.items) && Capped(l)
  }

  function Empty(strict: bool): AccountTxs {
    AccountTxs(strict, map[], 0, 0)
  }

  // ---------------------------------------------------------------- nonces

  lemma {:induction false} HasMin(s: set<nat>, x: nat)
    requires x in s
    ensures exists m :: m in s && forall k :: k in s ==> m <= k
    decreases x
  {
    if y :| y in s && y < x {
      HasMin(s, y);
    }
  }

  function MinNonce(s: set<nat>): (m: nat)
    requires s != {}
    ensures m in s && forall k :: k in s ==> m <= k
  {
    assert exists m :: m in s && forall k :: k in s ==> m <= k by {
      var x :| x in s;
      HasMin(s, x);
    }
    var m :| m in s && forall k :: k in s ==> m <= k;
    m
  }

  lemma {:induction false} HasMax(s: set<nat>)
    requires s != {}
    ensures exists m :: m in s && forall k :: k in s ==> k <= m
    decreases |s|
  {
    var low := MinNonce(s);
    if s != {low} {
      HasMax(s - {low});
      var m :| m in s - {low} && forall k :: k in s - {low} ==> k <= m;
      assert forall k :: k in s ==> k == low || k in s - {low};
      assert m in s && forall k :: k in s ==> k <= m;
    }
  }

  function MaxNonce(s: set<nat>): (m: nat)
    requires s != {}
    ensures m in s && forall k :: k in s ==> k <= m
  {
    HasMax(s);
    var m :| m in s && forall k :: k in s ==> k <= m;
    m
  }

  /** The first nonce from `n` on that is missing from `keys`. */
  function RunEnd(keys: set<nat>, n: nat): (end: nat)
    ensures n <= end && end !in keys
    ensures forall m :: n <= m < end ==> m in keys
    decreases |keys|
  {
    if n !in keys then n
    else
      var rest := keys - {n};
      assert forall m :: m !in keys ==> m !in rest;
      RunEnd(rest, n + 1)
  }

  /** The `k` lowest nonces: the right number of them, and all below the others. */
  function LowestKeys(keys: set<nat>, k: nat): (low: set<nat>)
    ensures low <= keys && |low| == if k <= |keys| then k else |keys|
    ensures forall n, m :: n in low && m in keys && m !in low ==> n < m
    decreases k
  {
    if keys == {} || k == 0 then {}
    else
      var least := MinNonce(keys);
      {least} + LowestKeys(keys - {least}, k - 1)
  }

  /** The lowest `k` keys are the only ones of that number lying below the rest. */
  lemma LowestUnique(keys: set<nat>, k: nat, low: set<nat>)
    requires low <= keys && |low| == if k <= |keys| then k else |keys|
    requires forall n, m :: n in low && m in keys && m !in low ==> n < m
    ensures low == LowestKeys(keys, k)
  {
    var least := LowestKeys(keys, k);
    if x :| x in low && x !in least {
      if y :| y in least && y !in low {
        assert false;
      }
      assert least <= low - {x};
      SubsetSize(least, low - {x});
    }
    assert low <= least;
    SubsetSize(low, least);
  }

  lemma SubsetSize(a: set<nat>, b: set<nat>)
    requires a <= b
    ensures |a| <= |b|
    ensures |a| == |b| ==> a == b
  {
    assert b == a + (b - a) && |b| == |a| + |b - a|;
  }

  function Lowest(items: map<nat, Tx>, k: nat): map<nat, Tx> {
    map n | n in LowestKeys(items.Keys, k) :: items[n]
  }

  lemma LowestAll(items: map<nat, Tx>, k: nat)
    requires |items| <= k
    ensures Lowest(items, k) == items
  {
    SubsetSize(LowestKeys(items.Keys, k), items.Keys);
  }

  // ---------------------------------------------------------------- operations

  /** The replacement rule: strictly better fee cap and tip, both by at least `bump` percent. */
  predicate Outbids(tx: Tx, prev: Tx, bump: nat) {
    && prev.feeCap < tx.feeCap && prev.tipCap < tx.tipCap
    && (100 + bump) * prev.feeCap / 100 <= tx.feeCap
    && (100 + bump) * prev.tipCap / 100 <= tx.tipCap
  }

  /** The rule in numbers, where a rise of `bump` percent is rounded down; of two transactions at most one outbids. */
  lemma OutbidsMeans(tx: Tx, prev: Tx, bump: nat)
    ensures Outbids(tx, prev, bump) <==>
              && tx.feeCap > prev.feeCap && 100 * (tx.feeCap - prev.feeCap) + 99 >= bump * prev.feeCap
              && tx.tipCap > prev.tipCap && 100 * (tx.tipCap - prev.tipCap) + 99 >= bump * prev.tipCap
    ensures Outbids(tx, prev, bump) ==> !Outbids(prev, tx, bump)
  {
    assert (100 + bump) * prev.feeCap == 100 * prev.feeCap + bump * prev.feeCap;
    assert (100 + bump) * prev.tipCap == 100 * prev.tipCap + bump * prev.tipCap;
  }

  datatype AddResult = Rejected | Inserted(replaced: Option<Tx>, list: AccountTxs)

  function Add(l: AccountTxs, tx: Tx, bump: nat): AddResult {
    if tx.nonce in l.items && !Outbids(tx, l.items[tx.nonce], bump) then Rejected
    else
      Inserted(if tx.nonce in l.items then Some(l.items[tx.nonce]) else None,
               l.(items := l.items[tx.nonce := tx],
                  costcap := if l.costcap < tx.cost then tx.cost else l.costcap,
                  gascap := if l.gascap < tx.gas then tx.gas else l.gascap))
  }

  function Below(items: map<nat, Tx>, t: nat): map<nat, Tx> {
    map n | n in items && n < t :: items[n]
  }

  function From(items: map<nat, Tx>, t: nat): map<nat, Tx> {
    map n | n in items && t <= n :: items[n]
  }

  function Above(items: map<nat, Tx>, t: nat): map<nat, Tx> {
    map n | n in items && t < n :: items[n]
  }

  function Forward(l: AccountTxs, threshold: nat): AccountTxs {
    l.(items := From(l.items, threshold))
  }

  predicate Exceeds(tx: Tx, costLimit: int, gasLimit: nat) {
    tx.gas > gasLimit || tx.cost > costLimit
  }

  function Unpayable(items: map<nat, Tx>, costLimit: int, gasLimit: nat): map<nat, Tx> {
    map n | n in items && Exceeds(items[n], costLimit, gasLimit) :: items[n]
  }

  datatype FilterResult = FilterResult(removed: map<nat, Tx>, invalids: map<nat, Tx>, list: AccountTxs)

  /** `Filter`, with the short circuit on the cached caps. */
  function Filter(l: AccountTxs, costLimit: int, gasLimit: nat): FilterResult {
    if l.costcap <= costLimit && l.gascap <= gasLimit then FilterResult(map[], map[], l)
    else
      var capped := l.(costcap := costLimit, gascap := gasLimit);
      var removed := Unpayable(l.items, costLimit, gasLimit);
      var kept := l.items - removed.Keys;
      if removed == map[] || !l.strict then FilterResult(removed, map[], capped.(items := kept))
      else
        var lowest := MinNonce(removed.Keys);
        FilterResult(removed, Above(kept, lowest), capped.(items := Below(kept, lowest)))
  }

  function Cap(l: AccountTxs, threshold: nat): AccountTxs {
    l.(items := Lowest(l.items, threshold))
  }

  /** Deletes one nonce; in strict mode everything above it is invalidated too. */
  function Remove(l: AccountTxs, nonce: nat): (r: (bool, map<nat, Tx>, AccountTxs)) {
    if nonce !in l.items then (false, map[], l)
    else
      var rest := l.items - {nonce};
      if !l.strict then (true, map[], l.(items := rest))
      else (true, Above(rest, nonce), l.(items := Below(rest, nonce)))
  }

  /** The run of consecutive nonces from the lowest one, if that is not above `start`. */
  function ReadyRun(items: map<nat, Tx>, start: nat): map<nat, Tx> {
    if items == map[] || start < MinNonce(items.Keys) then map[]
    else Below(items, RunEnd(items.Keys, MinNonce(items.Keys)))
  }

  // ---------------------------------------------------------------- properties

  /** What a filter without caps would take out and invalidate. */
  function PlainRemoved(l: AccountTxs, costLimit: int, gasLimit: nat): map<nat, Tx> {
    Unpayable(l.items, costLimit, gasLimit)
  }

  ghost predicate IsInvalidated(l: AccountTxs, costLimit: int, gasLimit: nat, n: nat) {
    && l.strict && n in l.items && !Exceeds(l.items[n], costLimit, gasLimit)
    && exists m :: m in l.items && m < n && Exceeds(l.items[m], costLimit, gasLimit)
  }

  /** With sound caps the short-circuiting filter removes, invalidates and keeps exactly what an
      uncached one would, and its new caps are sound again. */
  lemma FilterIsPlain(l: AccountTxs, costLimit: int, gasLimit: nat)
    requires Good(l)
    ensures var r := Filter(l, costLimit, gasLimit);
            && r.removed == PlainRemoved(l, costLimit, gasLimit)
            && (forall n :: n in r.invalids <==> IsInvalidated(l, costLimit, gasLimit, n))
            && (forall n :: n in r.invalids ==> r.invalids[n] == l.items[n])
            && r.list.items == l.items - r.removed.Keys - r.invalids.Keys
            && Good(r.list)
            && r.list.strict == l.strict
  {
    var r := Filter(l, costLimit, gasLimit);
    if l.costcap <= costLimit && l.gascap <= gasLimit {
      assert Unpayable(l.items, costLimit, gasLimit) == map[];
    } else if r.removed != map[] && l.strict {
      var lowest := MinNonce(r.removed.Keys);
      assert lowest in l.items && Exceeds(l.items[lowest], costLimit, gasLimit);
      forall n | IsInvalidated(l, costLimit, gasLimit, n) ensures n in r.invalids {
        var m :| m in l.items && m < n && Exceeds(l.items[m], costLimit, gasLimit);
        assert m in r.removed.Keys;
      }
      forall n | n in r.invalids ensures IsInvalidated(l, costLimit, gasLimit, n) {
      }
      assert r.list.items == l.items - r.removed.Keys - r.invalids.Keys;
    } else {
      assert forall n :: n in l.items && Exceeds(l.items[n], costLimit, gasLimit) ==> n in r.removed;
      assert r.list.items == l.items - r.removed.Keys - r.invalids.Keys;
    }
  }

  /** In numbers: what is taken out costs more, or may use more gas, than the limit; what stays does not. */
  lemma FilterTakes(l: AccountTxs, costLimit: int, gasLimit: nat, n: nat)
    requires Good(l) && n in l.items
    ensures var r := Filter(l, costLimit, gasLimit);
            && (n in r.removed <==> l.items[n].cost > costLimit || l.items[n].gas > gasLimit)
            && (n in r.list.items ==> l.items[n].cost <= costLimit && l.items[n].gas <= gasLimit)
            && (n !in r.removed && n !in r.list.items ==> l.strict)
  {
    hide Filter;
    FilterIsPlain(l, costLimit, gasLimit);
  }

  /** Inserting keeps the caps sound. */
  lemma AddKeepsGood(l: AccountTxs, tx: Tx, bump: nat)
    requires Good(l)
    ensures var r := Add(l, tx, bump); r.Inserted? ==> Good(r.list)
  {
  }

  /** No gap between any two nonces of the list. */
  ghost predicate Contiguous(items: map<nat, Tx>) {
    forall a, n, b :: a in items && b in items && a <= n <= b ==> n in items
  }

  /** A strict list that starts contiguous stays contiguous when filtered. */
  lemma FilterKeepsContiguous(l: AccountTxs, costLimit: int, gasLimit: nat)
    requires l.strict && Contiguous(l.items)
    ensures Contiguous(Filter(l, costLimit, gasLimit).list.items)
  {
    var r := Filter(l, costLimit, gasLimit);
    if !(l.costcap <= costLimit && l.gascap <= gasLimit) && r.removed != map[] {
      var lowest := MinNonce(r.removed.Keys);
      forall a, n, b | a in r.list.items && b in r.list.items && a <= n <= b ensures n in r.list.items {
        assert n in l.items && n !in r.removed.Keys;
      }
    }
  }

  /** A strict list that starts contiguous stays contiguous when capped. */
  lemma CapKeepsContiguous(l: AccountTxs, k: nat)
    requires Contiguous(l.items)
    ensures Contiguous(Cap(l, k).items)
  {
    var kept := Cap(l, k).items;
    forall a, n, b | a in kept && b in kept && a <= n <= b ensures n in kept {
      assert b in LowestKeys(l.items.Keys, k) && n in l.items;
    }
  }

  /** A strict list that starts contiguous stays contiguous when cut at a nonce. */
  lemma CuttingKeepsContiguous(l: AccountTxs, nonce: nat)
    requires l.strict && Contiguous(l.items)
    ensures Contiguous(Remove(l, nonce).2.items)
    ensures Contiguous(Forward(l, nonce).items)
  {
  }
}

/**
 The canonical chain of blocks: moving the head to a block on another branch rewrites the canonical
 index, the transaction lookups and the head markers.
 */
module BlockChains {
  import opened Transactions
  import opened ChainIndex

  /** The hashes of the transactions of each block. */
  type Bodies = map<Hash, seq<Hash>>

  /** What the database keeps about the canonical chain: its index, the block number of each of its
      transactions, and the head block, head header and head fast block. */
  datatype Markers = Markers(canon: Index, lookups: map<Hash, nat>, block: Hash, header: Hash, fast: Hash)

  function Located(l: map<Hash, nat>, txs: seq<Hash>, n: nat): (r: map<Hash, nat>)
    ensures forall t :: t in r <==> t in l || t in txs
    ensures forall t :: t in r ==> r[t] == if t in txs then n else l[t]
  {
    l + map t | t in txs :: n
  }

  /** Makes a block the head; the other heads follow if it was not canonical. */
  function WithHead(m: Markers, hs: Headers, bodies: Bodies, h: Hash): Markers
    requires h in hs && h in bodies
  {
    var n := hs[h].number;
    var moved := Read(m.canon, n) != h;
    Markers(m.canon[n := h], Located(m.lookups, bodies[h], n), h, if moved then h else m.header,
            if moved then h else m.fast)
  }

  // ---------------------------------------------------------------- finding the common ancestor

  /** `chain` lists the path of `head` from the top down to, but without, number `low`. */
  ghost predicate Segment(hs: Headers, genesis: Hash, head: Hash, low: nat, chain: seq<Hash>) {
    && Rooted(hs, genesis) && head in hs && low <= hs[head].number
    && |chain| == hs[head].number - low
    && forall i :: 0 <= i < |chain| ==> chain[i] == PathAt(hs, genesis, head, hs[head].number - i)
  }

  /** Number `n` is the highest at which the two paths agree. */
  ghost predicate Fork(hs: Headers, genesis: Hash, a: Hash, b: Hash, n: nat)
    requires Rooted(hs, genesis) && a in hs && b in hs
  {
    && n <= hs[a].number && n <= hs[b].number && PathAt(hs, genesis, a, n) == PathAt(hs, genesis, b, n)
    && forall k :: n < k <= hs[a].number && k <= hs[b].number ==> PathAt(hs, genesis, a, k) != PathAt(hs, genesis, b, k)
  }

  /** Walks the path of `head` down to number `low`. */
  method Descend(hs: Headers, ghost genesis: Hash, head: Hash, low: nat) returns (h: Hash, chain: seq<Hash>)
    requires Rooted(hs, genesis) && head in hs && low <= hs[head].number
    ensures Segment(hs, genesis, head, low, chain) && h == PathAt(hs, genesis, head, low)
    ensures h in hs && hs[h].number == low
  {
    hide Rooted, Ancestor;
    h, chain := head, [];
    AncestorStep(hs, genesis, head, hs[head].number);
    while hs[h].number != low
      invariant h in hs && low <= hs[h].number <= hs[head].number && h == PathAt(hs, genesis, head, hs[h].number)
      invariant Segment(hs, genesis, head, hs[h].number, chain)
      decreases hs[h].number
    {
      StepBack(hs, genesis, head, hs[h].number);
      chain := chain + [h];
      h := hs[h].parent;
    }
  }

  /** Steps both paths back together until they meet; at the latest they do at the genesis. */
  method Meet(hs: Headers, ghost genesis: Hash, oldHead: Hash, newHead: Hash, a0: Hash, b0: Hash, oldTop: seq<Hash>,
              newTop: seq<Hash>)
    returns (common: Hash, oldChain: seq<Hash>, newChain: seq<Hash>)
    requires Rooted(hs, genesis) && a0 in hs && b0 in hs && hs[a0].number == hs[b0].number
    requires Segment(hs, genesis, oldHead, hs[a0].number, oldTop) && a0 == PathAt(hs, genesis, oldHead, hs[a0].number)
    requires Segment(hs, genesis, newHead, hs[b0].number, newTop) && b0 == PathAt(hs, genesis, newHead, hs[b0].number)
    requires hs[a0].number == hs[oldHead].number || hs[b0].number == hs[newHead].number
    ensures common in hs && Fork(hs, genesis, oldHead, newHead, hs[common].number)
    ensures common == PathAt(hs, genesis, oldHead, hs[common].number)
    ensures Segment(hs, genesis, oldHead, hs[common].number, oldChain)
    ensures Segment(hs, genesis, newHead, hs[common].number, newChain)
  {
    hide Rooted, Ancestor;
    var a, b := a0, b0;
    oldChain, newChain := oldTop, newTop;
    while a != b
      invariant a in hs && b in hs && hs[a].number == hs[b].number <= hs[a0].number
      invariant Segment(hs, genesis, oldHead, hs[a].number, oldChain) && a == PathAt(hs, genesis, oldHead, hs[a].number)
      invariant Segment(hs, genesis, newHead, hs[b].number, newChain) && b == PathAt(hs, genesis, newHead, hs[b].number)
      invariant forall k :: hs[a].number < k <= hs[a0].number ==>
                PathAt(hs, genesis, oldHead, k) != PathAt(hs, genesis, newHead, k)
      decreases hs[a].number
    {
      NotYetGenesis(hs, genesis, oldHead, newHead, hs[a].number);
      StepBack(hs, genesis, oldHead, hs[a].number);
      StepBack(hs, genesis, newHead, hs[b].number);
      oldChain, newChain := oldChain + [a], newChain + [b];
      a, b := hs[a].parent, hs[b].parent;
    }
    common := a;
  }

  lemma NotYetGenesis(hs: Headers, genesis: Hash, a: Hash, b: Hash, n: nat)
    requires Rooted(hs, genesis) && a in hs && b in hs && n <= hs[a].number && n <= hs[b].number
    requires PathAt(hs, genesis, a, n) != PathAt(hs, genesis, b, n)
    ensures n > 0
  {
  }

  // ---------------------------------------------------------------- adopting the new blocks

  ghost predicate AllBodies(hs: Headers, bodies: Bodies) {
    forall h :: h in hs ==> h in bodies
  }

  /** Transaction `t` is in the block of `head`'s path at number `n`. */
  ghost predicate InBlock(hs: Headers, genesis: Hash, bodies: Bodies, head: Hash, n: nat, t: Hash) {
    && Rooted(hs, genesis) && head in hs && n <= hs[head].number
    && PathAt(hs, genesis, head, n) in bodies && t in bodies[PathAt(hs, genesis, head, n)]
  }

  /** Transaction `t` is in a block of `head`'s path above `low`, up to `high`. */
  ghost predicate Between(hs: Headers, genesis: Hash, bodies: Bodies, head: Hash, low: nat, high: nat, t: Hash) {
    exists n :: low < n <= high && InBlock(hs, genesis, bodies, head, n, t)
  }

  /** The markers while the path of `newHead` above `low` has been written up to number `high`. */
  ghost predicate Adopted(hs: Headers, genesis: Hash, bodies: Bodies, newHead: Hash, low: nat, high: nat, m0: Markers,
                          m: Markers)
  {
    && Rooted(hs, genesis) && newHead in hs
    && (forall k: nat :: Read(m.canon, k) ==
          if low < k <= high then PathAt(hs, genesis, newHead, k) else Read(m0.canon, k))
    && LookedUp(hs, genesis, bodies, newHead, low, high, m0.lookups, m.lookups)
    && m.block == if low < high then PathAt(hs, genesis, newHead, high) else m0.block
  }

  /** The lookups are as they were, except that the transactions of the adopted blocks point to an adopted block holding
      them. */
  ghost predicate LookedUp(hs: Headers, genesis: Hash, bodies: Bodies, newHead: Hash, low: nat, high: nat,
                           l0: map<Hash, nat>, l: map<Hash, nat>)
  {
    && (forall t :: t in l <==> t in l0 || Between(hs, genesis, bodies, newHead, low, high, t))
    && (forall t :: t in l ==>
          if Between(hs, genesis, bodies, newHead, low, high, t)
          then low < l[t] <= high && InBlock(hs, genesis, bodies, newHead, l[t], t)
          else l[t] == l0[t])
  }

  lemma BetweenNext(hs: Headers, genesis: Hash, bodies: Bodies, newHead: Hash, low: nat, high: nat, t: Hash)
    requires low <= high
    ensures Between(hs, genesis, bodies, newHead, low, high + 1, t) <==>
            Between(hs, genesis, bodies, newHead, low, high, t) || InBlock(hs, genesis, bodies, newHead, high + 1, t)
  {
    hide InBlock;
  }

  lemma LookUpOne(hs: Headers, genesis: Hash, bodies: Bodies, newHead: Hash, low: nat, high: nat, l0: map<Hash, nat>,
                  l: map<Hash, nat>, txs: seq<Hash>)
    requires low <= high && LookedUp(hs, genesis, bodies, newHead, low, high, l0, l)
    requires forall t :: t in txs <==> InBlock(hs, genesis, bodies, newHead, high + 1, t)
    ensures LookedUp(hs, genesis, bodies, newHead, low, high + 1, l0, Located(l, txs, high + 1))
  {
    hide Between, InBlock, Located;
    forall t {
      BetweenNext(hs, genesis, bodies, newHead, low, high, t);
    }
  }

  lemma AdoptOne(hs: Headers, genesis: Hash, bodies: Bodies, newHead: Hash, low: nat, high: nat, m0: Markers,
                 m: Markers)
    requires AllBodies(hs, bodies) && Adopted(hs, genesis, bodies, newHead, low, high, m0, m)
    requires low <= high < hs[newHead].number
    ensures var h := PathAt(hs, genesis, newHead, high + 1);
            && h in hs && h in bodies
            && Adopted(hs, genesis, bodies, newHead, low, high + 1, m0, WithHead(m, hs, bodies, h))
            && forall t :: Between(hs, genesis, bodies, newHead, low, high + 1, t) <==>
                           Between(hs, genesis, bodies, newHead, low, high, t) || t in bodies[h]
  {
    hide Rooted, Ancestor, LookedUp, Located, Between;
    StepBack(hs, genesis, newHead, high + 1);
    var h := PathAt(hs, genesis, newHead, high + 1);
    forall t
      ensures InBlock(hs, genesis, bodies, newHead, high + 1, t) <==> t in bodies[h]
      ensures Between(hs, genesis, bodies, newHead, low, high + 1, t) <==>
              Between(hs, genesis, bodies, newHead, low, high, t) || t in bodies[h]
    {
      BetweenNext(hs, genesis, bodies, newHead, low, high, t);
    }
    LookUpOne(hs, genesis, bodies, newHead, low, high, m0.lookups, m.lookups, bodies[h]);
  }

  lemma AdoptNone(hs: Headers, genesis: Hash, bodies: Bodies, newHead: Hash, low: nat, m: Markers)
    requires Rooted(hs, genesis) && newHead in hs
    ensures Adopted(hs, genesis, bodies, newHead, low, low, m, m)
  {
  }

  /** How far a reorganisation to `newHead` that forks at `low` writes the new path. */
  ghost function Written(hs: Headers, newHead: Hash, low: nat): nat
    requires newHead in hs
  {
    if hs[newHead].number <= low then low else hs[newHead].number - 1
  }

  /** Makes the blocks of `newChain`, except its head, canonical one after the other, lowest first. */
  method Adopt(hs: Headers, ghost genesis: Hash, bodies: Bodies, ghost newHead: Hash, ghost low: nat,
               newChain: seq<Hash>, m0: Markers)
    returns (m: Markers, addedTxs: set<Hash>)
    requires AllBodies(hs, bodies) && Segment(hs, genesis, newHead, low, newChain)
    ensures Adopted(hs, genesis, bodies, newHead, low, Written(hs, newHead, low), m0, m)
    ensures forall t :: t in addedTxs <==> Between(hs, genesis, bodies, newHead, low, Written(hs, newHead, low), t)
  {
    hide Rooted, PathAt, Adopted, Between;
    m, addedTxs := m0, {};
    AdoptNone(hs, genesis, bodies, newHead, low, m0);
    ghost var high := low;
    var i := |newChain| - 1;
    NoneBetween(hs, genesis, bodies, newHead, low);
    while i >= 1
      invariant -1 <= i < |newChain| && (i >= 0 ==> high == hs[newHead].number - i - 1) && (i < 0 ==> newChain == [])
      invariant low <= high
      invariant newChain == [] ==> high == low
      invariant Adopted(hs, genesis, bodies, newHead, low, high, m0, m)
      invariant forall t :: t in addedTxs <==> Between(hs, genesis, bodies, newHead, low, high, t)
    {
      AdoptOne(hs, genesis, bodies, newHead, low, high, m0, m);
      m := WithHead(m, hs, bodies, newChain[i]);
      addedTxs := addedTxs + set t | t in bodies[newChain[i]];
      high := high + 1;
      i := i - 1;
    }
  }

  lemma NoneBetween(hs: Headers, genesis: Hash, bodies: Bodies, newHead: Hash, low: nat)
    ensures forall t :: !Between(hs, genesis, bodies, newHead, low, low, t)
  {
  }

  // ---------------------------------------------------------------- the reorganisation

  /** The transactions of the blocks of a chain. */
  method TxsOf(hs: Headers, ghost genesis: Hash, bodies: Bodies, ghost head: Hash, ghost low: nat, chain: seq<Hash>)
    returns (txs: set<Hash>)
    requires AllBodies(hs, bodies) && Segment(hs, genesis, head, low, chain)
    ensures forall t :: t in txs <==> Between(hs, genesis, bodies, head, low, hs[head].number, t)
  {
    hide Rooted, PathAt, Between;
    SegmentStored(hs, genesis, head, low, chain);
    txs := {};
    for i := 0 to |chain|
      invariant forall t :: t in txs <==> exists j :: 0 <= j < i && t in bodies[chain[j]]
    {
      txs := txs + set t | t in bodies[chain[i]];
    }
    SegmentTxs(hs, genesis, bodies, head, low, chain);
  }

  lemma SegmentStored(hs: Headers, genesis: Hash, head: Hash, low: nat, chain: seq<Hash>)
    requires Segment(hs, genesis, head, low, chain)
    ensures forall i :: 0 <= i < |chain| ==> chain[i] in hs
  {
    hide Rooted;
  }

  lemma SegmentTxs(hs: Headers, genesis: Hash, bodies: Bodies, head: Hash, low: nat, chain: seq<Hash>)
    requires AllBodies(hs, bodies) && Segment(hs, genesis, head, low, chain)
    requires forall i :: 0 <= i < |chain| ==> chain[i] in hs
    ensures forall t :: (exists j :: 0 <= j < |chain| && t in bodies[chain[j]]) <==>
              Between(hs, genesis, bodies, head, low, hs[head].number, t)
  {
    hide Rooted, PathAt;
    forall t
      ensures (exists j :: 0 <= j < |chain| && t in bodies[chain[j]]) <==>
              Between(hs, genesis, bodies, head, low, hs[head].number, t)
    {
      if j :| 0 <= j < |chain| && t in bodies[chain[j]] {
        assert InBlock(hs, genesis, bodies, head, hs[head].number - j, t);
      }
      if Between(hs, genesis, bodies, head, low, hs[head].number, t) {
        var n :| low < n <= hs[head].number && InBlock(hs, genesis, bodies, head, n, t);
        assert chain[hs[head].number - n] == PathAt(hs, genesis, head, n);
      }
    }
  }

  /** What `reorg` leaves: the new path up to below the new head, nothing above the block it last made the head,
      and no lookups of transactions that only dropped blocks held. */
  ghost predicate Reorganised(hs: Headers, genesis: Hash, bodies: Bodies, newHead: Hash, low: nat, m0: Markers,
                              m: Markers)
  {
    && Rooted(hs, genesis) && newHead in hs && m0.block in hs
    && var high := Written(hs, newHead, low);
    && (forall k: nat :: Read(m.canon, k) ==
          if low < k <= high then PathAt(hs, genesis, newHead, k)
          else if k > (if low < high then high else hs[m0.block].number) then 0
          else Read(m0.canon, k))
    && (forall t :: t in m.lookups <==>
          && (t in m0.lookups || Between(hs, genesis, bodies, newHead, low, high, t))
          && (Between(hs, genesis, bodies, m0.block, low, hs[m0.block].number, t) ==>
                Between(hs, genesis, bodies, newHead, low, high, t)))
    && (forall t :: t in m.lookups ==>
          if Between(hs, genesis, bodies, newHead, low, high, t)
          then low < m.lookups[t] <= high && InBlock(hs, genesis, bodies, newHead, m.lookups[t], t)
          else t in m0.lookups && m.lookups[t] == m0.lookups[t])
  }

  method Reorg(hs: Headers, ghost genesis: Hash, bodies: Bodies, m0: Markers, newHead: Hash)
    returns (m: Markers, ghost low: nat)
    requires AllBodies(hs, bodies) && IsPath(m0.canon, hs, genesis, m0.block) && newHead in hs
    ensures Fork(hs, genesis, m0.block, newHead, low) && Reorganised(hs, genesis, bodies, newHead, low, m0, m)
  {
    hide Rooted, PathAt, Between, Segment, AllBodies, Adopted, Fork, HasParent;
    var oldHead := m0.block;
    var a, b, oldTop, newTop := oldHead, newHead, [], [];
    Itself(hs, genesis, oldHead);
    Itself(hs, genesis, newHead);
    NothingAbove(hs, genesis, oldHead);
    NothingAbove(hs, genesis, newHead);
    if hs[oldHead].number > hs[newHead].number {
      a, oldTop := Descend(hs, genesis, oldHead, hs[newHead].number);
    } else {
      b, newTop := Descend(hs, genesis, newHead, hs[oldHead].number);
    }
    var common, oldChain, newChain := Meet(hs, genesis, oldHead, newHead, a, b, oldTop, newTop);
    low := hs[common].number;
    var deletedTxs := TxsOf(hs, genesis, bodies, oldHead, low, oldChain);
    var addedTxs;
    m, addedTxs := Adopt(hs, genesis, bodies, newHead, low, newChain, m0);
    m := Clean(hs, genesis, bodies, newHead, low, m0, m, deletedTxs - addedTxs);
  }

  lemma NothingAbove(hs: Headers, genesis: Hash, head: Hash)
    requires Rooted(hs, genesis) && head in hs
    ensures Segment(hs, genesis, head, hs[head].number, [])
  {
  }

  /** Deletes the lookups in `stale` and every marker above the current head. */
  method Clean(hs: Headers, ghost genesis: Hash, ghost bodies: Bodies, ghost newHead: Hash, ghost low: nat,
               ghost m0: Markers, m1: Markers, stale: set<Hash>)
    returns (m: Markers)
    requires IsPath(m0.canon, hs, genesis, m0.block) && newHead in hs && Fork(hs, genesis, m0.block, newHead, low)
    requires Adopted(hs, genesis, bodies, newHead, low, Written(hs, newHead, low), m0, m1)
    requires forall t :: t in stale <==> Between(hs, genesis, bodies, m0.block, low, hs[m0.block].number, t)
                                         && !Between(hs, genesis, bodies, newHead, low, Written(hs, newHead, low), t)
    ensures Reorganised(hs, genesis, bodies, newHead, low, m0, m)
  {
    hide Rooted, PathAt, Between, HasParent, InBlock;
    CurrentKnown(hs, genesis, bodies, newHead, low, m0, m1);
    PathEnds(hs, genesis, m0.block);
    var canon, end := DeleteUpward(m1.canon, m1.canon, hs[m1.block].number + 1);
    m := m1.(canon := canon, lookups := m1.lookups - stale);
  }

  lemma PathEnds(hs: Headers, genesis: Hash, head: Hash)
    requires Rooted(hs, genesis) && head in hs
    ensures forall k: nat :: PathAt(hs, genesis, head, k) == 0 <==> k > hs[head].number
  {
  }

  lemma CurrentKnown(hs: Headers, genesis: Hash, bodies: Bodies, newHead: Hash, low: nat, m0: Markers, m: Markers)
    requires newHead in hs && m0.block in hs
    requires Adopted(hs, genesis, bodies, newHead, low, Written(hs, newHead, low), m0, m)
    requires low <= hs[newHead].number
    ensures m.block in hs
    ensures hs[m.block].number ==
              if low < Written(hs, newHead, low) then Written(hs, newHead, low) else hs[m0.block].number
  {
    hide Rooted, LookedUp;
  }

  // ---------------------------------------------------------------- what the new head's markers say

  /** When moving the head keeps the index exact: the new head is no lower than the old one, or its parent is not
      canonical. */
  ghost predicate CleanMove(hs: Headers, canon: Index, oldHead: Hash, newHead: Hash)
    requires oldHead in hs && newHead in hs
  {
    var n := hs[newHead].number;
    n >= hs[oldHead].number || (n > 0 && Read(canon, n - 1) != hs[newHead].parent)
  }

  /** After the reorganisation and the new head's own entry, the index is the new path exactly after a clean move. */
  lemma IndexAfter(hs: Headers, genesis: Hash, bodies: Bodies, m0: Markers, newHead: Hash, low: nat, m: Markers)
    requires IsPath(m0.canon, hs, genesis, m0.block) && newHead in hs && newHead in bodies
    requires Fork(hs, genesis, m0.block, newHead, low) && Reorganised(hs, genesis, bodies, newHead, low, m0, m)
    ensures IsPath(WithHead(m, hs, bodies, newHead).canon, hs, genesis, newHead) <==>
              CleanMove(hs, m0.canon, m0.block, newHead)
  {
    hide Rooted, PathAt, HasParent, Between, InBlock, Located;
    var c, n, o := WithHead(m, hs, bodies, newHead).canon, hs[newHead].number, hs[m0.block].number;
    Itself(hs, genesis, newHead);
    PathEnds(hs, genesis, m0.block);
    PathEnds(hs, genesis, newHead);
    ForkIsClean(hs, genesis, m0, newHead, low);
    if n >= o || low + 1 < n {
      forall k: nat ensures Read(c, k) == PathAt(hs, genesis, newHead, k) {
        if k <= low {
          SharedBelow(hs, genesis, m0.block, newHead, low, k);
        }
      }
    } else {
      assert Read(c, o) == PathAt(hs, genesis, m0.block, o);
    }
  }

  lemma SharedBelow(hs: Headers, genesis: Hash, a: Hash, b: Hash, low: nat, k: nat)
    requires Rooted(hs, genesis) && a in hs && b in hs && Fork(hs, genesis, a, b, low) && k <= low
    ensures PathAt(hs, genesis, a, k) == PathAt(hs, genesis, b, k)
  {
    hide Rooted;
    PathsMeet(hs, genesis, a, b, low, k);
  }

  /** The new segment has at least two blocks exactly when the parent of the new head is not canonical. */
  lemma ForkIsClean(hs: Headers, genesis: Hash, m0: Markers, newHead: Hash, low: nat)
    requires IsPath(m0.canon, hs, genesis, m0.block) && newHead in hs && Fork(hs, genesis, m0.block, newHead, low)
    ensures CleanMove(hs, m0.canon, m0.block, newHead) <==>
              hs[newHead].number >= hs[m0.block].number || low + 1 < hs[newHead].number
  {
    hide Rooted, Ancestor;
    var n := hs[newHead].number;
    if 0 < n < hs[m0.block].number {
      StepBack(hs, genesis, newHead, n);
      Itself(hs, genesis, newHead);
      if low + 1 >= n {
        SharedBelow(hs, genesis, m0.block, newHead, low, n - 1);
      }
    }
  }

  /** A transaction of a dropped block keeps a lookup entry exactly if an adopted block holds it. */
  lemma DroppedTx(hs: Headers, genesis: Hash, bodies: Bodies, m0: Markers, newHead: Hash, low: nat, m: Markers, t: Hash)
    requires AllBodies(hs, bodies) && newHead in hs && Reorganised(hs, genesis, bodies, newHead, low, m0, m)
    requires low < hs[newHead].number
    requires Between(hs, genesis, bodies, m0.block, low, hs[m0.block].number, t)
    ensures t in WithHead(m, hs, bodies, newHead).lookups <==>
              Between(hs, genesis, bodies, newHead, low, hs[newHead].number, t)
  {
    hide Rooted, PathAt, Between, InBlock;
    HeadTxs(hs, genesis, bodies, newHead, t);
    BetweenNext(hs, genesis, bodies, newHead, low, hs[newHead].number - 1, t);
  }

  lemma HeadTxs(hs: Headers, genesis: Hash, bodies: Bodies, head: Hash, t: Hash)
    requires AllBodies(hs, bodies) && Rooted(hs, genesis) && head in hs
    ensures InBlock(hs, genesis, bodies, head, hs[head].number, t) <==> t in bodies[head]
  {
    Itself(hs, genesis, head);
  }

  /** The lookups are exactly the transactions of the path of `head`, each with the number of a block holding it. */
  ghost predicate Indexed(hs: Headers, genesis: Hash, bodies: Bodies, head: Hash, l: map<Hash, nat>) {
    && (forall t, n :: InBlock(hs, genesis, bodies, head, n, t) ==> t in l)
    && (forall t :: t in l ==> InBlock(hs, genesis, bodies, head, l[t], t))
  }

  /** No transaction is in two blocks of the path of `head`. */
  ghost predicate NoRepeats(hs: Headers, genesis: Hash, bodies: Bodies, head: Hash) {
    forall t, n, k :: InBlock(hs, genesis, bodies, head, n, t) && InBlock(hs, genesis, bodies, head, k, t) ==> n == k
  }

  lemma SharedBlock(hs: Headers, genesis: Hash, bodies: Bodies, a: Hash, b: Hash, low: nat, n: nat, t: Hash)
    requires Rooted(hs, genesis) && a in hs && b in hs && Fork(hs, genesis, a, b, low) && n <= low
    ensures InBlock(hs, genesis, bodies, a, n, t) <==> InBlock(hs, genesis, bodies, b, n, t)
  {
    hide Rooted, PathAt;
    SharedBelow(hs, genesis, a, b, low, n);
  }

  lemma StillIndexed(hs: Headers, genesis: Hash, bodies: Bodies, m0: Markers, newHead: Hash, low: nat, m: Markers,
                     t: Hash, n: nat)
    requires AllBodies(hs, bodies) && newHead in hs && m0.block in hs && Rooted(hs, genesis)
    requires Fork(hs, genesis, m0.block, newHead, low) && Reorganised(hs, genesis, bodies, newHead, low, m0, m)
    requires Indexed(hs, genesis, bodies, m0.block, m0.lookups) && NoRepeats(hs, genesis, bodies, m0.block)
    requires InBlock(hs, genesis, bodies, newHead, n, t)
    ensures t in WithHead(m, hs, bodies, newHead).lookups
  {
    hide Rooted, PathAt, InBlock;
    HeadTxs(hs, genesis, bodies, newHead, t);
    AtMost(hs, genesis, bodies, newHead, n, t);
    if n <= low {
      SharedBlock(hs, genesis, bodies, m0.block, newHead, low, n, t);
    }
  }

  lemma AtMost(hs: Headers, genesis: Hash, bodies: Bodies, head: Hash, n: nat, t: Hash)
    requires InBlock(hs, genesis, bodies, head, n, t)
    ensures head in hs && n <= hs[head].number
  {
  }

  lemma RightlyIndexed(hs: Headers, genesis: Hash, bodies: Bodies, m0: Markers, newHead: Hash, low: nat, m: Markers,
                       t: Hash)
    requires AllBodies(hs, bodies) && newHead in hs && m0.block in hs && Rooted(hs, genesis)
    requires Fork(hs, genesis, m0.block, newHead, low) && Reorganised(hs, genesis, bodies, newHead, low, m0, m)
    requires Indexed(hs, genesis, bodies, m0.block, m0.lookups) && t in WithHead(m, hs, bodies, newHead).lookups
    ensures InBlock(hs, genesis, bodies, newHead, WithHead(m, hs, bodies, newHead).lookups[t], t)
  {
    hide Rooted, PathAt, InBlock;
    HeadTxs(hs, genesis, bodies, newHead, t);
    if t in m0.lookups {
      var n := m0.lookups[t];
      AtMost(hs, genesis, bodies, m0.block, n, t);
      if n <= low {
        SharedBlock(hs, genesis, bodies, m0.block, newHead, low, n, t);
      }
    }
  }

  /** Moving the head keeps the lookups exact. */
  lemma IndexedAfter(hs: Headers, genesis: Hash, bodies: Bodies, m0: Markers, newHead: Hash, low: nat, m: Markers)
    requires AllBodies(hs, bodies) && newHead in hs && m0.block in hs && Rooted(hs, genesis)
    requires Fork(hs, genesis, m0.block, newHead, low) && Reorganised(hs, genesis, bodies, newHead, low, m0, m)
    requires Indexed(hs, genesis, bodies, m0.block, m0.lookups) && NoRepeats(hs, genesis, bodies, m0.block)
    ensures Indexed(hs, genesis, bodies, newHead, WithHead(m, hs, bodies, newHead).lookups)
  {
    hide Rooted, PathAt, InBlock, Fork;
    var l := WithHead(m, hs, bodies, newHead).lookups;
    forall t, n | InBlock(hs, genesis, bodies, newHead, n, t) ensures t in l {
      StillIndexed(hs, genesis, bodies, m0, newHead, low, m, t, n);
    }
    forall t | t in l ensures InBlock(hs, genesis, bodies, newHead, l[t], t) {
      RightlyIndexed(hs, genesis, bodies, m0, newHead, low, m, t);
    }
  }

  // ---------------------------------------------------------------- fork choice

  /** Which of two equally heavy blocks of one number to keep: the local miner's own, else a coin decides. */
  datatype TieBreak = TieBreak(keepCurrent: bool, keepNew: bool, coin: bool) {
    predicate Wins() {
      !keepCurrent && (keepNew || coin)
    }
  }

  /** The heavier block wins, of equals the lower one, and on a tie the miner's own, else the coin's. */
  lemma ForkChoice(newTd: nat, number: nat, td: nat, head: nat, tie: TieBreak)
    ensures if Prefer(newTd, number, td, head, tie.Wins()) then
              && newTd >= td && (newTd == td ==> number <= head)
              && (newTd == td && number == head ==> !tie.keepCurrent && (tie.keepNew || tie.coin))
            else
              && newTd <= td && (newTd == td ==> number >= head)
              && (newTd == td && number == head ==> tie.keepCurrent || !(tie.keepNew || tie.coin))
  {
  }

  /** Appending a block to the head needs no reorganisation. */
  lemma Appended(hs: Headers, genesis: Hash, bodies: Bodies, m: Markers, newHead: Hash)
    requires IsPath(m.canon, hs, genesis, m.block) && newHead in hs && newHead != genesis
    requires hs[newHead].parent == m.block
    ensures Fork(hs, genesis, m.block, newHead, hs[m.block].number)
    ensures Reorganised(hs, genesis, bodies, newHead, hs[m.block].number, m, m)
  {
    var n := hs[m.block].number;
    assert HasParent(hs, newHead);
    Itself(hs, genesis, m.block);
    AncestorStep(hs, genesis, newHead, n);
    NoneBetween(hs, genesis, bodies, m.block, n);
    NoneBetween(hs, genesis, bodies, newHead, n);
  }

  /** The other heads follow a block that was not canonical. */
  lemma HeadsFollow(hs: Headers, genesis: Hash, bodies: Bodies, m0: Markers, newHead: Hash, low: nat, m: Markers)
    requires IsPath(m0.canon, hs, genesis, m0.block) && newHead in hs && newHead in bodies
    requires Fork(hs, genesis, m0.block, newHead, low) && Reorganised(hs, genesis, bodies, newHead, low, m0, m)
    ensures Read(m0.canon, hs[newHead].number) != newHead ==>
              WithHead(m, hs, bodies, newHead).header == newHead && WithHead(m, hs, bodies, newHead).fast == newHead
  {
    hide Rooted, PathAt, Between, InBlock, Located;
    Itself(hs, genesis, newHead);
    PathEnds(hs, genesis, newHead);
    if hs[newHead].number <= low {
      SharedBelow(hs, genesis, m0.block, newHead, low, hs[newHead].number);
    }
  }

  // ---------------------------------------------------------------- storing blocks

  /** The parent of a block is stored, one number below. */
  predicate Attached(hs: Headers, hd: Header) {
    hd.parent in hs && hs[hd.parent].number + 1 == hd.number
  }

  /** Storing a block changes nothing for the blocks that are there. */
  lemma StoredBlock(hs: Headers, genesis: Hash, bodies: Bodies, tds: map<Hash, nat>, hd: Header, txs: seq<Hash>)
    requires Rooted(hs, genesis) && AllBodies(hs, bodies) && AddUp(hs, genesis, tds) && hd.hash != 0 && Attached(hs, hd)
    requires hd.hash in hs ==> hs[hd.hash] == hd
    ensures Rooted(hs[hd.hash := hd], genesis) && AllBodies(hs[hd.hash := hd], bodies[hd.hash := txs])
    ensures hd.parent in tds && AddUp(hs[hd.hash := hd], genesis, tds[hd.hash := tds[hd.parent] + hd.difficulty])
    ensures hd.hash != genesis && (hd.hash in hs ==> tds[hd.hash] == tds[hd.parent] + hd.difficulty)
  {
    RootedWith(hs, genesis, hd);
    assert hd.hash in hs && hd.hash != genesis ==> HasParent(hs, hd.hash);
  }

  lemma SameInBlock(hs: Headers, genesis: Hash, bodies: Bodies, head: Hash, hs': Headers, bodies': Bodies, n: nat,
                    t: Hash)
    requires Rooted(hs, genesis) && Rooted(hs', genesis) && head in hs && AllBodies(hs, bodies)
    requires forall h :: h in hs ==> h in hs' && hs'[h] == hs[h]
    requires forall h :: h in hs ==> h in bodies' && bodies'[h] == bodies[h]
    ensures InBlock(hs, genesis, bodies, head, n, t) <==> InBlock(hs', genesis, bodies', head, n, t)
  {
    hide Rooted;
    if n <= hs[head].number {
      AncestorKept(hs, hs', genesis, head, n);
    }
  }

  lemma SameIndexed(hs: Headers, genesis: Hash, bodies: Bodies, head: Hash, hs': Headers, bodies': Bodies,
                    l: map<Hash, nat>)
    requires Rooted(hs, genesis) && Rooted(hs', genesis) && head in hs && AllBodies(hs, bodies)
    requires forall h :: h in hs ==> h in hs' && hs'[h] == hs[h]
    requires forall h :: h in hs ==> h in bodies' && bodies'[h] == bodies[h]
    ensures Indexed(hs, genesis, bodies, head, l) ==> Indexed(hs', genesis, bodies', head, l)
    ensures NoRepeats(hs, genesis, bodies, head) ==> NoRepeats(hs', genesis, bodies', head)
  {
    hide Rooted, InBlock, AllBodies;
    forall n, t ensures InBlock(hs, genesis, bodies, head, n, t) <==> InBlock(hs', genesis, bodies', head, n, t) {
      SameInBlock(hs, genesis, bodies, head, hs', bodies', n, t);
    }
  }

  lemma StoreKeeps(hs: Headers, genesis: Hash, bodies: Bodies, tds: map<Hash, nat>, hd: Header, txs: seq<Hash>,
                   m: Markers)
    requires AllBodies(hs, bodies) && AddUp(hs, genesis, tds) && IsPath(m.canon, hs, genesis, m.block)
    requires hd.hash != 0 && Attached(hs, hd) && (hd.hash in hs ==> hs[hd.hash] == hd && bodies[hd.hash] == txs)
    ensures var hs', bodies' := hs[hd.hash := hd], bodies[hd.hash := txs];
            && hd.parent in tds && m.block in tds && m.block in hs
            && var tds' := tds[hd.hash := tds[hd.parent] + hd.difficulty];
            && Rooted(hs', genesis) && AllBodies(hs', bodies') && AddUp(hs', genesis, tds')
            && IsPath(m.canon, hs', genesis, m.block)
            && (Indexed(hs, genesis, bodies, m.block, m.lookups) ==> Indexed(hs', genesis, bodies', m.block, m.lookups))
            && (NoRepeats(hs, genesis, bodies, m.block) ==> NoRepeats(hs', genesis, bodies', m.block))
            && hs'[m.block] == hs[m.block] && tds'[m.block] == tds[m.block] && hd.hash != genesis
  {
    var hs', bodies' := hs[hd.hash := hd], bodies[hd.hash := txs];
    StoredBlock(hs, genesis, bodies, tds, hd, txs);
    assert forall h :: h in hs ==> h in hs' && hs'[h] == hs[h] && h in bodies' && bodies'[h] == bodies[h];
    hide Rooted, Indexed, NoRepeats, PathAt, AllBodies;
    PathKept(m.canon, hs, genesis, m.block, hs');
    SameIndexed(hs, genesis, bodies, m.block, hs', bodies', m.lookups);
  }

  datatype WriteStatus = UnknownAncestor | SideBlock | CanonicalBlock

  class BlockChain {
    const genesis: Hash
    var headers: Headers
    var bodies: Bodies
    var tds: map<Hash, nat>
    var markers: Markers

    /** A chain that holds only its genesis, without transactions. */
    constructor (genesis: Header)
      requires genesis.hash != 0 && genesis.number == 0
      ensures Stored() && Exact() && AllIndexed()
      ensures headers == map[genesis.hash := genesis] && markers.block == genesis.hash
    {
      this.genesis := genesis.hash;
      headers, bodies := map[genesis.hash := genesis], map[genesis.hash := []];
      tds := map[genesis.hash := genesis.difficulty];
      markers := Markers(map[0 := genesis.hash], map[], genesis.hash, genesis.hash, genesis.hash);
    }

    ghost predicate Stored()
      reads this
    {
      Rooted(headers, genesis) && AllBodies(headers, bodies) && AddUp(headers, genesis, tds) && markers.block in headers
    }

    /** The index is exactly the path of the head block. */
    ghost predicate Exact()
      reads this
    {
      IsPath(markers.canon, headers, genesis, markers.block)
    }

    /** The lookups are exactly the transactions of the head's path. */
    ghost predicate AllIndexed()
      reads this
    {
      Indexed(headers, genesis, bodies, markers.block, markers.lookups)
    }

    /** The fork choice for a stored block, and the move of the head to it if it is preferred. */
    method ChooseHead(block: Hash, tie: TieBreak) returns (canonical: bool)
      requires Stored() && Exact() && block in headers && block != genesis
      modifies this`markers
      ensures Stored()
      ensures canonical <==> Prefer(tds[block], headers[block].number, tds[old(markers).block],
                                    headers[old(markers).block].number, tie.Wins())
      ensures !canonical ==> markers == old(markers)
      ensures canonical ==> markers.block == block
      ensures canonical ==> (Exact() <==> CleanMove(headers, old(markers).canon, old(markers).block, block))
      ensures canonical && Read(old(markers).canon, headers[block].number) != block ==>
                markers.header == block && markers.fast == block
      ensures old(AllIndexed()) && NoRepeats(headers, genesis, bodies, old(markers).block) ==> AllIndexed()
    {
      assert tds.Keys == headers.Keys;
      hide Rooted, HasParent, Fork, Reorganised, CleanMove, Indexed, NoRepeats, Prefer, WithHead, AddUp;
      var m0 := markers;
      canonical := Prefer(tds[block], headers[block].number, tds[m0.block], headers[m0.block].number, tie.Wins());
      if canonical {
        var m := m0;
        ghost var low := headers[m0.block].number;
        if headers[block].parent != m0.block {
          m, low := Reorg(headers, genesis, bodies, m0, block);
        } else {
          Appended(headers, genesis, bodies, m0, block);
        }
        markers := WithHead(m, headers, bodies, block);
        WithHeadBlock(m, headers, bodies, block);
        IndexAfter(headers, genesis, bodies, m0, block, low, m);
        HeadsFollow(headers, genesis, bodies, m0, block, low, m);
        if Indexed(headers, genesis, bodies, m0.block, m0.lookups) && NoRepeats(headers, genesis, bodies, m0.block) {
          IndexedAfter(headers, genesis, bodies, m0, block, low, m);
        }
      }
    }

    /**
     Stores a block whose parent is known, with its total difficulty, and makes it the head if the fork choice
     prefers it. If lookups were exactly the transactions of the canonical path, and none of these is in two
     blocks, they are again; the index is exact again if and only if the move was clean.
     */
    method WriteBlock(block: Header, txs: seq<Hash>, tie: TieBreak) returns (status: WriteStatus)
      requires Stored() && Exact() && block.hash != 0
      requires block.hash in headers ==> headers[block.hash] == block && bodies[block.hash] == txs
      modifies this
      ensures Stored()
      ensures status == UnknownAncestor <==> !Attached(old(headers), block)
      ensures status == UnknownAncestor ==>
                headers == old(headers) && bodies == old(bodies) && tds == old(tds) && markers == old(markers)
      ensures status != UnknownAncestor ==>
                && block.parent in old(tds) && old(markers).block in old(headers)
                && headers == old(headers)[block.hash := block] && bodies == old(bodies)[block.hash := txs]
                && tds == old(tds)[block.hash := old(tds)[block.parent] + block.difficulty]
                && (status == CanonicalBlock <==>
                      Prefer(tds[block.hash], block.number, old(tds)[old(markers).block],
                             old(headers)[old(markers).block].number, tie.Wins()))
      ensures status == CanonicalBlock ==> tds[markers.block] >= old(tds)[old(markers).block]
      ensures status == SideBlock ==>
                var td, head := old(tds)[old(markers).block], old(headers)[old(markers).block].number;
                && tds[block.hash] <= td && (tds[block.hash] == td ==> block.number >= head)
                && (tds[block.hash] == td && block.number == head ==> tie.keepCurrent || !(tie.keepNew || tie.coin))
      ensures status == CanonicalBlock ==>
                var td, head := old(tds)[old(markers).block], old(headers)[old(markers).block].number;
                && (tds[block.hash] == td ==> block.number <= head)
                && (tds[block.hash] == td && block.number == head ==> !tie.keepCurrent && (tie.keepNew || tie.coin))
      ensures status != CanonicalBlock ==> markers == old(markers) && Exact()
      ensures status == CanonicalBlock ==>
                && markers.block == block.hash
                && (Exact() <==> CleanMove(headers, old(markers).canon, old(markers).block, block.hash))
                && (Read(old(markers).canon, block.number) != block.hash ==>
                      markers.header == block.hash && markers.fast == block.hash)
      ensures old(AllIndexed()) && old(NoRepeats(headers, genesis, bodies, markers.block)) ==> AllIndexed()
    {
      hide Stored, Exact, AllIndexed, NoRepeats, Prefer, CleanMove;
      InStore();
      if !(block.parent in headers && headers[block.parent].number + 1 == block.number) {
        return UnknownAncestor;
      }
      StoreBlock(block, txs);
      InStore();
      var canonical := ChooseHead(block.hash, tie);
      ForkChoice(tds[block.hash], block.number, tds[old(markers).block], headers[old(markers).block].number, tie);
      status := if canonical then CanonicalBlock else SideBlock;
    }

    lemma InStore()
      requires Stored()
      ensures tds.Keys == headers.Keys && markers.block in headers && genesis in headers && headers[genesis].number == 0
      ensures forall h :: h in headers ==> h in bodies
    {
      hide HasParent;
    }

    /** Writes a block, its body and its total difficulty; the canonical chain is not touched. */
    method StoreBlock(block: Header, txs: seq<Hash>)
      requires Stored() && Exact() && block.hash != 0 && Attached(headers, block)
      requires block.hash in headers ==> headers[block.hash] == block && bodies[block.hash] == txs
      modifies this`headers, this`bodies, this`tds
      ensures Stored() && Exact() && block.parent in old(tds)
      ensures headers == old(headers)[block.hash := block] && bodies == old(bodies)[block.hash := txs]
      ensures tds == old(tds)[block.hash := old(tds)[block.parent] + block.difficulty]
      ensures markers.block in old(headers) && headers[markers.block] == old(headers[markers.block])
      ensures tds[markers.block] == old(tds[markers.block])
      ensures old(AllIndexed()) ==> AllIndexed()
      ensures old(NoRepeats(headers, genesis, bodies, markers.block)) ==>
                NoRepeats(headers, genesis, bodies, markers.block)
    {
      hide Rooted, AddUp, AllBodies, Indexed, NoRepeats, IsPath;
      StoreKeeps(headers, genesis, bodies, tds, block, txs, markers);
      tds := tds[block.hash := tds[block.parent] + block.difficulty];
      headers, bodies := headers[block.hash := block], bodies[block.hash := txs];
    }
  }

  lemma WithHeadBlock(m: Markers, hs: Headers, bodies: Bodies, h: Hash)
    requires h in hs && h in bodies
    ensures WithHead(m, hs, bodies, h).block == h
  {
  }

  /** One heavier block replaces two: the entry of the higher dropped block stays. */
  lemma ShortReorgExample() returns (hs: Headers, canon: Index)
    ensures IsPath(canon, hs, 1, 3) && 2 in hs && hs[3].parent == 2 && 4 in hs && hs[4].parent == 1
    ensures Prefer(1 + hs[4].difficulty, hs[4].number, 1 + hs[2].difficulty + hs[3].difficulty, hs[3].number, false)
    ensures !CleanMove(hs, canon, 3, 4)
  {
    hs := map[1 := Header(1, 0, 0, 1), 2 := Header(2, 1, 1, 1), 3 := Header(3, 2, 2, 1), 4 := Header(4, 1, 1, 2)];
    canon := map[0 := 1, 1 := 2, 2 := 3];
    assert HasParent(hs, 2) && HasParent(hs, 3) && HasParent(hs, 4);
    forall n: nat ensures Read(canon, n) == PathAt(hs, 1, 3, n) {
      if n == 1 {
        AncestorStep(hs, 1, 3, 1);
        AncestorStep(hs, 1, 2, 1);
      }
    }
  }
}

/**
 What a reset of the pool puts back: the transactions of the blocks a reorganisation dropped that no
 adopted block holds, found by walking both branches back to where they meet.
 */
module PoolResets {
  import opened Transactions
  import opened ChainIndex
  import opened BlockChains
  import PoolMoves
  import PoolRules
  import Pools

  /** Deeper reorganisations are not followed. */
  const MAX_DEPTH: nat := 64

  function Distance(a: nat, b: nat): nat {
    if a < b then b - a else a - b
  }

  /** The transactions of a chain of blocks, in the order of the chain. */
  function TxsAlong(bodies: Bodies, chain: seq<Hash>): seq<Hash> {
    if chain == [] then []
    else
      var last := chain[|chain| - 1];
      TxsAlong(bodies, chain[..|chain| - 1]) + if last in bodies then bodies[last] else []
  }

  lemma {:induction false} InTxsAlong(bodies: Bodies, chain: seq<Hash>, t: Hash)
    ensures t in TxsAlong(bodies, chain) <==>
              exists j :: 0 <= j < |chain| && chain[j] in bodies && t in bodies[chain[j]]
  {
    if chain != [] {
      InTxsAlong(bodies, chain[..|chain| - 1], t);
    }
  }

  /** The elements of `a` that are not in `b`, in order. */
  function Difference(a: seq<Hash>, b: seq<Hash>): seq<Hash> {
    if a == [] then []
    else Difference(a[..|a| - 1], b) + if a[|a| - 1] in b then [] else [a[|a| - 1]]
  }

  lemma {:induction false} InDifference(a: seq<Hash>, b: seq<Hash>, t: Hash)
    ensures t in Difference(a, b) <==> t in a && t !in b
  {
    if a != [] {
      var n := |a| - 1;
      InDifference(a[..n], b, t);
      assert a == a[..n] + [a[n]];
    }
  }

  /** `types.TxDifference`. */
  method TxDifference(a: seq<Hash>, b: seq<Hash>) returns (keep: seq<Hash>)
    ensures keep == Difference(a, b)
  {
    keep := [];
    for i := 0 to |a|
      invariant keep == Difference(a[..i], b)
    {
      assert a[..i + 1][..i] == a[..i];
      if a[i] !in b {
        keep := keep + [a[i]];
      }
    }
    assert a[..|a|] == a;
  }

  /** Whether the walk is made: there was an old head, the new one is not its child, and they are not too far apart. */
  predicate Walks(from: Option<Header>, to: Header) {
    && from.Some? && from.value.hash != to.parent
    && from.value.number <= to.number + 64 && to.number <= from.value.number + 64
  }

  /** Transaction `t` was only in blocks that the move from `a` to `b` dropped. */
  ghost predicate OnlyDropped(hs: Headers, genesis: Hash, bodies: Bodies, a: Hash, b: Hash, low: nat, t: Hash)
    requires a in hs && b in hs
  {
    Between(hs, genesis, bodies, a, low, hs[a].number, t) && !Between(hs, genesis, bodies, b, low, hs[b].number, t)
  }

  lemma SegmentTxsAlong(hs: Headers, genesis: Hash, bodies: Bodies, head: Hash, low: nat, chain: seq<Hash>, t: Hash)
    requires AllBodies(hs, bodies) && Segment(hs, genesis, head, low, chain)
    ensures t in TxsAlong(bodies, chain) <==> Between(hs, genesis, bodies, head, low, hs[head].number, t)
  {
    hide Rooted, PathAt, Between;
    SegmentStored(hs, genesis, head, low, chain);
    SegmentTxs(hs, genesis, bodies, head, low, chain);
    InTxsAlong(bodies, chain, t);
  }

  /** Walks both branches back to where they meet and returns what only the old one holds. */
  method DroppedTxs(hs: Headers, ghost genesis: Hash, bodies: Bodies, oldHead: Hash, newHead: Hash)
    returns (txs: seq<Hash>, ghost low: nat)
    requires Rooted(hs, genesis) && AllBodies(hs, bodies) && oldHead in hs && newHead in hs
    ensures Fork(hs, genesis, oldHead, newHead, low)
    ensures forall t :: t in txs <==> OnlyDropped(hs, genesis, bodies, oldHead, newHead, low, t)
  {
    hide Rooted, PathAt, Between, Segment, AllBodies, Fork, HasParent;
    var rem, add, oldTop, newTop := oldHead, newHead, [], [];
    Itself(hs, genesis, oldHead);
    Itself(hs, genesis, newHead);
    NothingAbove(hs, genesis, oldHead);
    NothingAbove(hs, genesis, newHead);
    if hs[oldHead].number > hs[newHead].number {
      rem, oldTop := Descend(hs, genesis, oldHead, hs[newHead].number);
    } else {
      add, newTop := Descend(hs, genesis, newHead, hs[oldHead].number);
    }
    var common, oldChain, newChain := Meet(hs, genesis, oldHead, newHead, rem, add, oldTop, newTop);
    low := hs[common].number;
    var discarded, included := TxsAlong(bodies, oldChain), TxsAlong(bodies, newChain);
    txs := TxDifference(discarded, included);
    forall t ensures t in txs <==> OnlyDropped(hs, genesis, bodies, oldHead, newHead, low, t) {
      SegmentTxsAlong(hs, genesis, bodies, oldHead, low, oldChain, t);
      SegmentTxsAlong(hs, genesis, bodies, newHead, low, newChain, t);
      InDifference(discarded, included, t);
    }
  }

  /**
   The first half of `reset`: what to put back, or None if the reset is abandoned because the old head is
   gone although the new one is not lower.
   */
  method CollectReinject(hs: Headers, ghost genesis: Hash, bodies: Bodies, from: Option<Header>, to: Header)
    returns (txs: Option<seq<Hash>>, ghost low: nat)
    requires Rooted(hs, genesis) && AllBodies(hs, bodies) && to.hash in hs && hs[to.hash] == to
    requires from.Some? && from.value.hash in hs ==> hs[from.value.hash] == from.value
    ensures txs.None? <==> Walks(from, to) && from.value.hash !in hs && from.value.number <= to.number
    ensures !Walks(from, to) || from.value.hash !in hs ==> txs.None? || txs.value == []
    ensures Walks(from, to) && from.value.hash in hs ==>
              && txs.Some? && Fork(hs, genesis, from.value.hash, to.hash, low)
              && forall t :: t in txs.value <==> OnlyDropped(hs, genesis, bodies, from.value.hash, to.hash, low, t)
  {
    hide Rooted, AllBodies, Fork, OnlyDropped;
    low := 0;
    txs := Some([]);
    if from.Some? && from.value.hash != to.parent {
      var depth := Distance(from.value.number, to.number);
      if depth <= MAX_DEPTH {
        if from.value.hash !in hs {
          if to.number >= from.value.number {
            return None, 0;
          }
        } else {
          var dropped;
          dropped, low := DroppedTxs(hs, genesis, bodies, from.value.hash, to.hash);
          txs := Some(dropped);
        }
      }
    }
  }

  // ---------------------------------------------------------------- a run on the reset

  /** What the pool sees of the transactions in blocks, with the verdicts of the checks on fields left out. */
  type Fields = map<Hash, (Tx, PoolRules.Checks)>

  ghost predicate FieldsOk(fields: Fields, hs: Headers, bodies: Bodies) {
    && (forall t :: t in fields ==> fields[t].0.hash == t)
    && (forall b, t :: b in bodies && t in bodies[b] ==> t in fields)
  }

  function Found(fields: Fields, txs: seq<Hash>): (r: seq<(Tx, PoolRules.Checks)>)
    requires forall t :: t in txs ==> t in fields
    ensures |r| == |txs| && forall i :: 0 <= i < |txs| ==> r[i] == fields[txs[i]]
  {
    seq(|txs|, i requires 0 <= i < |txs| => fields[txs[i]])
  }

  /** Only transactions in blocks are put back. */
  lemma DroppedFound(hs: Headers, genesis: Hash, bodies: Bodies, fields: Fields, a: Hash, b: Hash, low: nat, t: Hash)
    requires FieldsOk(fields, hs, bodies) && a in hs && b in hs && OnlyDropped(hs, genesis, bodies, a, b, low, t)
    ensures t in fields
  {
    var n :| low < n <= hs[a].number && InBlock(hs, genesis, bodies, a, n, t);
  }

  /** Each dropped transaction that is welcome and clashes with no other is filed in `was`, if all of them fit. */
  ghost predicate DroppedBack(rb: PoolRules.Rulebook, s: PoolRules.Shot, fields: Fields, txs: seq<Hash>,
                              was: PoolMoves.Tiers)
    requires forall t :: t in txs ==> t in fields
  {
    s.slots + PoolRules.TotalSlots(Found(fields, txs)) <= rb.config.globalSlots + rb.config.globalQueue ==>
      forall t | t in txs && PoolRules.Unrivalled(s.known, Found(fields, txs), fields[t].0) ::
        PoolRules.Welcome(rb, s, fields[t]) ==> PoolRules.Holds(was, fields[t].0)
  }

  lemma BackByHash(rb: PoolRules.Rulebook, s: PoolRules.Shot, fields: Fields, txs: seq<Hash>, was: PoolMoves.Tiers)
    requires (forall t :: t in txs ==> t in fields) && PoolRules.Returned(rb, s, Found(fields, txs), was)
    ensures DroppedBack(rb, s, fields, txs, was)
  {
    hide PoolRules.Holds, PoolRules.Unrivalled, PoolRules.Welcome, PoolRules.TotalSlots;
    var r := Found(fields, txs);
    if s.slots + PoolRules.TotalSlots(r) <= rb.config.globalSlots + rb.config.globalQueue {
      forall t | t in txs && PoolRules.Unrivalled(s.known, r, fields[t].0) && PoolRules.Welcome(rb, s, fields[t])
        ensures PoolRules.Holds(was, fields[t].0)
      {
        var i :| 0 <= i < |txs| && txs[i] == t;
        assert r[i] == fields[t];
      }
    }
  }

  /**
   A run of the pool with a reset from `from` to `to`. The reset is abandoned if the old head is gone although the new
   one is not lower, or if there is no state for the new head. Otherwise the pool moves to it, and the transactions that
   only dropped blocks hold are added again before the moves: if all of them fit, each that validates in the new state
   and clashes with no other is back in the pool the moves start from.
   */
  method RunWithReset(pool: Pools.TxPool, hs: Headers, ghost genesis: Hash, bodies: Bodies, from: Option<Header>,
                      to: Header, state: Option<PoolRules.ChainState>, maxGas: nat, fields: Fields, fee: Option<int>)
    returns (ghost was: PoolMoves.Tiers, ghost low: nat, ghost dropped: seq<Hash>)
    requires Rooted(hs, genesis) && AllBodies(hs, bodies) && to.hash in hs && hs[to.hash] == to
    requires from.Some? && from.value.hash in hs ==> hs[from.value.hash] == from.value
    requires FieldsOk(fields, hs, bodies) && pool.Valid() && pool.evicting == {}
    modifies pool, pool.all, pool.priced, pool.pendingNonces
    ensures pool.Valid() && pool.evicting == {}
    ensures (Walks(from, to) && from.value.hash !in hs && from.value.number <= to.number) || state.None? ==>
              was == old(pool.TiersOf()) && pool.state == old(pool.state)
    ensures !(Walks(from, to) && from.value.hash !in hs && from.value.number <= to.number) && state.Some? ==>
              && pool.state == state.value && pool.maxGas == maxGas
              && (forall t :: t in dropped ==> t in fields)
              && DroppedBack(old(pool.RulesNow()).(state := state.value, maxGas := maxGas), old(pool.ShotOf()), fields,
                             dropped, was)
    ensures Walks(from, to) && from.value.hash in hs ==>
              && Fork(hs, genesis, from.value.hash, to.hash, low)
              && forall t :: t in dropped <==> OnlyDropped(hs, genesis, bodies, from.value.hash, to.hash, low, t)
    ensures !Walks(from, to) || from.value.hash !in hs ==> dropped == []
  {
    hide Rooted, AllBodies, Fork, OnlyDropped, FieldsOk, DroppedBack;
    hide Pools.TxPool.Valid;
    var txs;
    txs, low := CollectReinject(hs, genesis, bodies, from, to);
    dropped := if txs.Some? then txs.value else [];
    var head: Option<PoolRules.Head> := None;
    if txs.Some? && state.Some? {
      forall t | t in txs.value ensures t in fields {
        DroppedFound(hs, genesis, bodies, fields, from.value.hash, to.hash, low, t);
      }
      head := Some(PoolRules.Head(state.value, maxGas, Found(fields, txs.value)));
    }
    ghost var moved, level;
    was, moved, level := pool.RunReorg(Some(head), {}, fee);
    if head.Some? {
      BackByHash(old(pool.RulesNow()).(state := state.value, maxGas := maxGas), old(pool.ShotOf()), fields, dropped,
                 was);
    }
  }
}

/**
 What an eviction frees. The price heaps count an entry as often as it occurs, the pool holds a transaction once:
 a request for slots is met by every eviction exactly if no remote transaction is listed twice.
 */
module Evictions {
  import opened Transactions
  import opened Lookups
  import opened PricedLists

  /** Every remote transaction that is not being evicted has an entry in one of the price heaps. */
  ghost predicate Tracks(remotes: map<Hash, Tx>, evicting: set<Hash>, entries: multiset<Tx>) {
    forall h :: h in remotes && h !in evicting ==> remotes[h] in entries
  }

  ghost function HashesOf(txs: seq<Tx>): set<Hash> {
    set i | 0 <= i < |txs| :: txs[i].hash
  }

  /** The transactions of `m` with the given hashes. */
  ghost function Part(m: map<Hash, Tx>, hashes: set<Hash>): map<Hash, Tx> {
    map h | h in m && h in hashes :: m[h]
  }

  lemma PartWithout(m: map<Hash, Tx>, hashes: set<Hash>, h: Hash)
    requires h in m && h in hashes
    ensures h in Part(m, hashes) && Part(m, hashes)[h] == m[h]
    ensures m - {h} - hashes == m - hashes && Part(m - {h}, hashes) == Part(m, hashes) - {h}
  {
  }

  lemma NoPart(m: map<Hash, Tx>, hashes: set<Hash>)
    requires m.Keys !! hashes
    ensures m - hashes == m && Part(m, hashes) == map[]
  {
  }

  /** The slots of some transactions and of the others add up. */
  lemma {:induction false} SlotsSplit(m: map<Hash, Tx>, hashes: set<Hash>)
    ensures SlotsOf(m) == SlotsOf(m - hashes) + SlotsOf(Part(m, hashes))
    decreases |m|
  {
    NothingHeld();
    hide SlotsOf, NumSlots, Part;
    if h :| h in m && h in hashes {
      PartWithout(m, hashes, h);
      SlotsWithout(m, h);
      SlotsWithout(Part(m, hashes), h);
      assert |m - {h}| < |m|;
      SlotsSplit(m - {h}, hashes);
    } else {
      NoPart(m, hashes);
    }
  }

  lemma NothingHeld()
    ensures SlotsOf(map[]) == 0
  {
  }

  /** The heaps cover what was not dropped, and only remote transactions were. */
  lemma DroppedTracks(remotes: map<Hash, Tx>, before: multiset<Tx>, after: multiset<Tx>, drop: seq<Tx>)
    requires HashKeyed(remotes) && Tracks(remotes, {}, before) && SameLive(remotes, before, after + multiset(drop))
    requires forall tx :: tx in drop ==> Live(remotes, tx)
    ensures Tracks(remotes, HashesOf(drop), after) && HashesOf(drop) <= remotes.Keys
    ensures after == multiset{} ==> HashesOf(drop) == remotes.Keys
    ensures drop == [] ==> HashesOf(drop) == {}
  {
    forall h | h in HashesOf(drop) ensures h in remotes {
      var i :| 0 <= i < |drop| && drop[i].hash == h;
      assert drop[i] in drop;
    }
    forall h | h in remotes && h !in HashesOf(drop) ensures remotes[h] in after {
      var tx := remotes[h];
      assert tx.hash == h && Live(remotes, tx);
      assert tx !in multiset(drop);
    }
  }

  // ---------------------------------------------------------------- slots counted twice

  /** Live entries stand for their transactions: a hash names one transaction. */
  ghost predicate NamesOne(remotes: map<Hash, Tx>, entries: multiset<Tx>) {
    forall e :: e in entries && Live(remotes, e) ==> remotes[e.hash] == e
  }

  /** No live transaction that takes up slots has two entries. */
  ghost predicate NoneTwice(remotes: map<Hash, Tx>, entries: multiset<Tx>) {
    forall e: Tx :: Live(remotes, e) && NumSlots(e) > 0 ==> entries[e] <= 1
  }

  /** The slots the heaps count beyond those the remote transactions hold. */
  ghost function Surplus(remotes: map<Hash, Tx>, entries: multiset<Tx>): int {
    LiveSlots(remotes, entries) - SlotsOf(remotes)
  }

  /** Transactions that all have an entry hold no more slots than the entries. */
  lemma {:induction false} SlotsCovered(remotes: map<Hash, Tx>, part: map<Hash, Tx>, entries: multiset<Tx>)
    requires HashKeyed(part) && forall h :: h in part ==> h in remotes && part[h] in entries
    ensures SlotsOf(part) <= LiveSlots(remotes, entries)
    decreases |part|
  {
    hide LiveSlots, NumSlots;
    if h :| h in part {
      var rest := entries - multiset{part[h]};
      assert entries == rest + multiset{part[h]};
      LiveSlotsAdd(remotes, rest, part[h]);
      SlotsWithout(part, h);
      SlotsCovered(remotes, part - {h}, rest);
    } else {
      assert part == map[];
    }
  }

  /** Entries that stand for one transaction each hold no more slots than these. */
  lemma {:induction false} SlotsBounded(remotes: map<Hash, Tx>, part: map<Hash, Tx>, entries: multiset<Tx>)
    requires forall e :: e in entries && LiveSlot(remotes, e) > 0 ==>
              e.hash in part && part[e.hash] == e && entries[e] == 1
    ensures LiveSlots(remotes, entries) <= SlotsOf(part)
    decreases |entries|
  {
    NothingLive(remotes);
    hide LiveSlots, LiveSlot, NumSlots;
    if e :| e in entries {
      var rest := entries - multiset{e};
      assert entries == rest + multiset{e};
      LiveSlotsAdd(remotes, rest, e);
      if LiveSlot(remotes, e) > 0 {
        SlotOf(remotes, e);
        SlotsWithout(part, e.hash);
        SlotsBounded(remotes, part - {e.hash}, rest);
      } else {
        SlotsBounded(remotes, part, rest);
      }
    } else {
      assert entries == multiset{};
    }
  }

  lemma SlotOf(remotes: map<Hash, Tx>, tx: Tx)
    ensures LiveSlot(remotes, tx) <= NumSlots(tx)
  {
  }

  /** The heaps count exactly the slots of the remote transactions if and only if none is listed twice. */
  lemma SurplusIff(remotes: map<Hash, Tx>, entries: multiset<Tx>)
    requires HashKeyed(remotes) && Tracks(remotes, {}, entries)
    ensures Surplus(remotes, entries) >= 0
    ensures NamesOne(remotes, entries) ==> (Surplus(remotes, entries) == 0 <==> NoneTwice(remotes, entries))
  {
    hide LiveSlots, SlotsOf;
    SlotsCovered(remotes, remotes, entries);
    if e: Tx :| Live(remotes, e) && NumSlots(e) > 0 && entries[e] > 1 {
      var rest := entries - multiset{e};
      assert entries == rest + multiset{e} && Tracks(remotes, {}, rest);
      LiveSlotsAdd(remotes, rest, e);
      SlotsCovered(remotes, remotes, rest);
    } else if NamesOne(remotes, entries) {
      SlotsBounded(remotes, remotes, entries);
    }
  }

  // ---------------------------------------------------------------- requests

  /** The slots of the distinct transactions among those dropped. */
  ghost function Freed(remotes: map<Hash, Tx>, drop: seq<Tx>): nat {
    SlotsOf(Part(remotes, HashesOf(drop)))
  }

  /** An eviction whose entries cover the request. */
  ghost predicate Covers(remotes: map<Hash, Tx>, entries: multiset<Tx>, rest: multiset<Tx>, drop: seq<Tx>, slots: int) {
    Evicted(remotes, entries, rest, drop, slots) && slots <= SumSlots(drop)
  }

  ghost function EntriesOf(b: Book): multiset<Tx> {
    b.urgent + b.floating
  }

  /** What is dropped for a request: live entries, none beyond the request. Unless it was on the floating heap before,
      none of them ranks above a live entry that is left. */
  ghost predicate Drops(remotes: map<Hash, Tx>, b: Book, drop: seq<Tx>, slots: int) {
    && (forall d :: d in drop ==> Live(remotes, d)) && multiset(drop) <= EntriesOf(b)
    && (drop != [] ==> SumSlots(drop[..|drop| - 1]) < slots)
    && (forall z, d :: Leftover(remotes, b, drop, z) && d in drop ==> d in b.floating || !Below(b.baseFee, z, d))
  }

  /** Not all live entries of `z` were dropped. */
  ghost predicate Leftover(remotes: map<Hash, Tx>, b: Book, drop: seq<Tx>, z: Tx) {
    Live(remotes, z) && EntriesOf(b)[z] > multiset(drop)[z]
  }

  lemma EvictedDrops(remotes: map<Hash, Tx>, b: Book, b': Book, drop: seq<Tx>, slots: int)
    requires Evicted(remotes, EntriesOf(b), EntriesOf(b'), drop, slots)
    requires WorstWent(b.baseFee, b.urgent, b.floating, b'.urgent, b'.floating, drop)
    ensures Drops(remotes, b, drop, slots)
  {
    hide LiveSlots, SumSlots, Below, PriceLess;
    forall z, d | Leftover(remotes, b, drop, z) && d in drop ensures d in b.floating || !Below(b.baseFee, z, d) {
      assert z in b'.urgent || z in b'.floating;
    }
  }

  lemma DropsNothing(remotes: map<Hash, Tx>, b: Book, slots: int)
    ensures Drops(remotes, b, [], slots)
  {
  }

  /** Stale entries make no difference. */
  lemma DropsSame(remotes: map<Hash, Tx>, b: Book, b': Book, drop: seq<Tx>, slots: int)
    requires SameLive(remotes, b.urgent, b'.urgent) && SameLive(remotes, b.floating, b'.floating)
    requires b'.baseFee == b.baseFee
    requires Drops(remotes, b', drop, slots)
    ensures Drops(remotes, b, drop, slots)
  {
    hide SumSlots, Below;
    forall z, d | Leftover(remotes, b, drop, z) && d in drop ensures d in b.floating || !Below(b.baseFee, z, d) {
      assert Leftover(remotes, b', drop, z) && Live(remotes, d);
    }
  }

  /** An eviction falls short by no more than the surplus, and frees no more than all remote transactions hold. */
  lemma Shortfall(remotes: map<Hash, Tx>, entries: multiset<Tx>, rest: multiset<Tx>, drop: seq<Tx>, slots: int)
    requires HashKeyed(remotes) && Tracks(remotes, {}, entries) && Evicted(remotes, entries, rest, drop, slots)
    ensures SumSlots(drop) - Surplus(remotes, entries) <= Freed(remotes, drop) <= SlotsOf(remotes)
  {
    hide LiveSlots, SlotsOf, SumSlots;
    DroppedTracks(remotes, entries, rest, drop);
    SlotsCovered(remotes, remotes - HashesOf(drop), rest);
    SlotsSplit(remotes, HashesOf(drop));
  }

  /** The heaps go on covering what was not dropped, and the eviction falls short by the surplus at most. */
  lemma WentFrom(remotes: map<Hash, Tx>, entries: multiset<Tx>, rest: multiset<Tx>, drop: seq<Tx>, slots: int)
    requires HashKeyed(remotes) && Tracks(remotes, {}, entries) && Evicted(remotes, entries, rest, drop, slots)
    ensures Tracks(remotes, HashesOf(drop), rest) && HashesOf(drop) <= remotes.Keys
    ensures rest == multiset{} ==> HashesOf(drop) == remotes.Keys
    ensures rest == multiset{} ==> SumSlots(drop) == LiveSlots(remotes, entries)
    ensures SumSlots(drop) - Surplus(remotes, entries) <= Freed(remotes, drop)
  {
    NothingLive(remotes);
    hide LiveSlots, SumSlots;
    DroppedTracks(remotes, entries, rest, drop);
    Shortfall(remotes, entries, rest, drop, slots);
  }

  lemma WentNone(remotes: map<Hash, Tx>, entries: multiset<Tx>, entries': multiset<Tx>)
    requires HashKeyed(remotes) && Tracks(remotes, {}, entries) && SameLive(remotes, entries, entries')
    ensures Tracks(remotes, {}, entries') && HashesOf([]) == {} && SumSlots([]) == 0 && Surplus(remotes, entries) >= 0
  {
    SurplusIff(remotes, entries);
  }

  /** Lists the live entries, each as often as it occurs. */
  lemma {:induction false} ListLive(remotes: map<Hash, Tx>, m: multiset<Tx>) returns (s: seq<Tx>)
    ensures forall e: Tx :: multiset(s)[e] == if Live(remotes, e) then m[e] else 0
    ensures SumSlots(s) == LiveSlots(remotes, m)
    decreases |m|
  {
    NothingLive(remotes);
    if x :| x in m {
      var rest := m - multiset{x};
      assert m == rest + multiset{x};
      hide LiveSlots, NumSlots;
      LiveSlotsAdd(remotes, rest, x);
      s := ListLive(remotes, rest);
      if Live(remotes, x) {
        assert (s + [x])[..|s|] == s;
        s := s + [x];
      }
    } else {
      s := [];
      assert m == multiset{};
    }
  }

  /** A transaction listed twice can be dropped twice, with all other live entries. */
  lemma DropAllLive(remotes: map<Hash, Tx>, entries: multiset<Tx>, t: Tx) returns (drop: seq<Tx>)
    requires t in entries && Live(remotes, t) && NumSlots(t) > 0
    ensures Covers(remotes, entries, multiset{}, drop, LiveSlots(remotes, entries))
  {
    hide LiveSlots, NumSlots;
    var rest := entries - multiset{t};
    assert entries == rest + multiset{t};
    LiveSlotsAdd(remotes, rest, t);
    var s := ListLive(remotes, rest);
    drop := s + [t];
    assert drop[..|s|] == s;
    forall tx | tx in drop ensures Live(remotes, tx) {
      assert tx in multiset(drop);
    }
    NothingLive(remotes);
    assert multiset{} + multiset(drop) == multiset(s) + multiset{t};
  }

  /** Every request that the heaps cover is met by distinct transactions, whichever are dropped, if and only if no
      transaction that takes up slots is listed twice. */
  lemma MetIffNoneTwice(remotes: map<Hash, Tx>, entries: multiset<Tx>)
    requires HashKeyed(remotes) && Tracks(remotes, {}, entries) && NamesOne(remotes, entries)
    ensures NoneTwice(remotes, entries) <==>
              forall slots, rest, drop :: Covers(remotes, entries, rest, drop, slots) ==> slots <= Freed(remotes, drop)
  {
    SurplusIff(remotes, entries);
    hide LiveSlots, SlotsOf, SumSlots, Evicted, NamesOne, Tracks, HashKeyed, Freed;
    forall slots, rest, drop | Covers(remotes, entries, rest, drop, slots)
      ensures slots - Surplus(remotes, entries) <= Freed(remotes, drop) <= SlotsOf(remotes)
    {
      Shortfall(remotes, entries, rest, drop, slots);
    }
    if e: Tx :| Live(remotes, e) && NumSlots(e) > 0 && entries[e] > 1 {
      var drop := DropAllLive(remotes, entries, e);
      assert Freed(remotes, drop) < LiveSlots(remotes, entries);
    }
  }
}

/** A small pool in which an accepted eviction frees fewer slots than it was asked for. */
module PoolExamples {
  import opened Transactions
  import opened Lookups
  import opened PricedLists
  import opened Evictions
  import opened PoolInvariants
  import opened PoolRules
  import opened Pools

  /** A transaction of one slot; a higher hash pays more. */
  function Sample(h: Hash): Tx {
    Tx(h, 7, h, 21000, 5, h, h, 100)
  }

  function Samples(hashes: set<Hash>): map<Hash, Tx> {
    map h | h in hashes :: Sample(h)
  }

  const PASSED: Checks := Checks(true, true, true, true, true, true)

  /** A pool of four slots without local accounts. */
  ghost predicate Small(pool: TxPool)
    reads pool
  {
    && pool.evicting == {} && pool.locals == {} && pool.config.globalSlots == pool.config.globalQueue == 2
    && (forall a :: pool.state.nonce(a) == 0 && pool.state.balance(a) == 1000)
    && pool.maxGas == 30000 && pool.gasPrice == 1 && pool.changesSinceReorg == 0
  }

  /** The pool holds the given samples, all of them as remote transactions. */
  ghost predicate Holds(pool: TxPool, hashes: set<Hash>)
    reads pool, pool.all, pool.priced, pool.pendingNonces
  {
    pool.Valid() && pool.all.remotes == pool.all.Known() == Samples(hashes)
  }

  lemma {:induction false} SampleSlots(hashes: set<Hash>)
    ensures SlotsOf(Samples(hashes)) == |hashes|
  {
    if h :| h in hashes {
      SampleSlots(hashes - {h});
      SlotsWithout(Samples(hashes), h);
      assert Samples(hashes) - {h} == Samples(hashes - {h}) && NumSlots(Sample(h)) == 1;
    } else {
      assert Samples(hashes) == map[];
    }
  }

  lemma HeldSlots(pool: TxPool, hashes: set<Hash>)
    requires Holds(pool, hashes)
    ensures pool.all.slots == |hashes|
  {
    SampleSlots(hashes);
    pool.SlotsCounted();
    hide SlotsOf, TxPool.Valid;
    assert pool.all.locals == map[];
  }

  /** A further sample is accepted, and nothing is evicted for it. */
  lemma Suitable(rb: Rulebook, s: Shot, hashes: set<Hash>, h: Hash, err: Option<PoolError>, drop: seq<Tx>, s': Shot)
    requires rb.config.globalSlots == rb.config.globalQueue == 2 && rb.maxGas == 30000 && rb.gasPrice == 1
    requires rb.fee == None && forall a :: rb.state.nonce(a) == 0 && rb.state.balance(a) == 1000
    requires s.known == Samples(hashes) && s.slots == |hashes| < 4 && h !in hashes && 1 <= h <= 4 && s.locals == {}
    requires AddedOne(rb, s, Sample(h), PASSED, false, err, drop, s')
    ensures err.None? && drop == [] && s'.known == Samples(hashes + {h}) && s'.changes == s.changes
    ensures Fits(rb.config, s.slots, Sample(h))
  {
    assert Fits(rb.config, s.slots, Sample(h)) && NumSlots(Sample(h)) == 1;
    Passes(rb, h);
    NoRivals(hashes, h);
    NotYet(hashes, h);
    hide Drops, SlotsOf, HashesOf, Rivals, Samples, Filed, Validate, NumSlots, Sample, Fits, TooCheap, LiveSlots;
    hide Missing;
  }

  lemma NotYet(hashes: set<Hash>, h: Hash)
    requires h !in hashes
    ensures Sample(h).hash !in Samples(hashes)
  {
  }

  lemma Passes(rb: Rulebook, h: Hash)
    requires rb.maxGas == 30000 && rb.gasPrice == 1 && rb.fee == None && 1 <= h <= 4
    requires forall a :: rb.state.nonce(a) == 0 && rb.state.balance(a) == 1000
    ensures Validate(Sample(h), false, PASSED, rb.state, rb.maxGas, rb.gasPrice, rb.fee).None?
  {
  }

  lemma NoRivals(hashes: set<Hash>, h: Hash)
    requires h !in hashes
    ensures HashesOf([]) == {} && Samples(hashes) - {} == Samples(hashes) && Rivals(Samples(hashes), Sample(h)) == {}
    ensures Filed(Samples(hashes), Sample(h)) == Samples(hashes + {h})
    ensures RemotesOutside(With(Samples(hashes), Sample(h), true), {}) == Samples(hashes + {h})
  {
    assert Samples(hashes) - {} == Samples(hashes);
  }

  method AddSample(pool: TxPool, ghost hashes: set<Hash>, h: Hash)
    requires Small(pool) && Holds(pool, hashes) && h !in hashes && 1 <= h <= 4 && |hashes| < 4
    requires pool.priced.Contents().baseFee == None
    modifies pool, pool.all, pool.priced, pool.pendingNonces
    ensures Small(pool) && Holds(pool, hashes + {h}) && pool.pendingNonces == old(pool.pendingNonces)
    ensures pool.priced.Contents() == Listed(old(pool.priced.Contents()), Sample(h))
  {
    hide TxPool.Valid, TxLookup.Known, Samples, Rivals, With, RemotesOutside, HashesOf, AddedOne, Fits, Lessened;
    hide TxPool.Steady, TxPool.NotReady, TxPool.Payable;
    NoRivals(hashes, h);
    HeldSlots(pool, hashes);
    pool.FeeListed();
    ghost var rb, s := pool.RulesNow(), pool.ShotOf();
    var replaced, err;
    ghost var drop;
    replaced, err, drop := pool.AddTx(Sample(h), false, PASSED);
    Suitable(rb, s, hashes, h, err, drop, pool.ShotOf());
  }

  /** A transaction of two slots that pays more than the samples. */
  const BIG: Tx := Tx(9, 8, 0, 21000, 5, 100, 100, TX_SLOT_SIZE + 1)

  method NewPool() returns (pool: TxPool)
    ensures fresh(pool) && fresh(pool.all) && fresh(pool.priced) && fresh(pool.pendingNonces)
    ensures Small(pool) && Holds(pool, {}) && pool.priced.Contents() == EMPTY
  {
    hide TxPool.Valid, TxLookup.Known;
    pool := new TxPool(Config(10, 16, 2, 64, 2), {}, ChainState(a => 0, a => 1000), 30000, 1);
  }

  const EMPTY: Book := Book(multiset{}, multiset{}, None, 0)

  /** The price heaps after four samples have come. */
  ghost function Stock(): Book {
    Listed(Listed(Listed(Listed(EMPTY, Sample(1)), Sample(2)), Sample(3)), Sample(4))
  }

  lemma StockIs()
    ensures Stock() == Book(multiset{Sample(1), Sample(2), Sample(3), Sample(4)}, multiset{}, None, 0)
  {
    hide Sample;
    assert multiset{} + multiset{Sample(1)} + multiset{Sample(2)} + multiset{Sample(3)} + multiset{Sample(4)}
        == multiset{Sample(1), Sample(2), Sample(3), Sample(4)};
  }

  lemma GrowingSets()
    ensures {} + {1} == {1} && {1} + {2} == {1, 2} && {1, 2} + {3} == {1, 2, 3} && {1, 2, 3} + {4} == {1, 2, 3, 4}
    ensures |{1, 2}| < 4 && |{1, 2, 3}| < 4
  {
  }

  method AddFour(pool: TxPool)
    requires Small(pool) && Holds(pool, {}) && pool.priced.Contents() == EMPTY
    modifies pool, pool.all, pool.priced, pool.pendingNonces
    ensures Small(pool) && Holds(pool, {1, 2, 3, 4}) && pool.priced.Contents() == Stock()
    ensures pool.pendingNonces == old(pool.pendingNonces)
  {
    GrowingSets();
    hide Holds, Small, Sample, PricedList.Contents;
    AddSample(pool, {}, 1);
    AddSample(pool, {1}, 2);
    AddSample(pool, {1, 2}, 3);
    AddSample(pool, {1, 2, 3}, 4);
  }

  lemma LessOne()
    ensures Samples({1, 2, 3, 4}) - {1} == Samples({2, 3, 4}) && 1 in Samples({1, 2, 3, 4})
    ensures |Stock().urgent + Stock().floating| / 4 == 1 && Stock().stales == 0
  {
    StockIs();
  }

  /** A sample leaves; the price heaps keep its entry. */
  method RemoveFirst(pool: TxPool)
    requires Small(pool) && Holds(pool, {1, 2, 3, 4}) && pool.priced.Contents() == Stock()
    modifies pool, pool.all, pool.priced, pool.pendingNonces
    ensures Small(pool) && Holds(pool, {2, 3, 4}) && pool.priced.Contents() == Stock().(stales := 1)
    ensures pool.pendingNonces == old(pool.pendingNonces)
  {
    LessOne();
    hide TxPool.Valid, TxLookup.Known, Samples, Stock, TxPool.Steady, TxPool.NotReady, TxPool.Payable, Taken, Lessened;
    pool.RemoveTx(1, true);
  }

  /** A pool that is full of four samples, one of which has left and come back before the heaps were rebuilt. */
  method FillPool() returns (pool: TxPool)
    ensures fresh(pool) && fresh(pool.all) && fresh(pool.priced) && fresh(pool.pendingNonces)
    ensures Small(pool) && Holds(pool, {1, 2, 3, 4})
    ensures pool.priced.Contents() == Doubled()
  {
    hide Holds, Small, Sample;
    assert {2, 3, 4} + {1} == {1, 2, 3, 4};
    pool := NewPool();
    AddFour(pool);
    RemoveFirst(pool);
    AddSample(pool, {2, 3, 4}, 1);
  }

  /** The price heaps of that pool: the first sample is listed twice. */
  ghost function Doubled(): Book {
    Listed(Stock().(stales := 1), Sample(1))
  }

  ghost predicate IsSample(tx: Tx) {
    tx == Sample(1) || tx == Sample(2) || tx == Sample(3) || tx == Sample(4)
  }

  lemma DoubledIs()
    ensures Doubled().floating == multiset{} && EntriesOf(Doubled())[Sample(1)] == 2 && Doubled().baseFee == None
    ensures forall e :: e in EntriesOf(Doubled()) ==> IsSample(e)
  {
    StockIs();
    hide Sample, Stock;
    assert Sample(1) != Sample(2) && Sample(1) != Sample(3) && Sample(1) != Sample(4) by {
      SamplesDiffer();
    }
  }

  lemma SamplesDiffer()
    ensures Sample(1) != Sample(2) && Sample(1) != Sample(3) && Sample(1) != Sample(4)
  {
  }

  /** The heaps promise five slots, although the four transactions hold four. */
  lemma FivePromised()
    ensures LiveSlots(Samples({1, 2, 3, 4}), EntriesOf(Doubled())) == 5
  {
    var remotes, m := Samples({1, 2, 3, 4}), multiset{};
    NothingLive(remotes);
    hide LiveSlots, Sample;
    AddedSlot(remotes, m, 1);
    AddedSlot(remotes, m + multiset{Sample(1)}, 2);
    AddedSlot(remotes, m + multiset{Sample(1)} + multiset{Sample(2)}, 3);
    AddedSlot(remotes, m + multiset{Sample(1)} + multiset{Sample(2)} + multiset{Sample(3)}, 4);
    AddedSlot(remotes, m + multiset{Sample(1)} + multiset{Sample(2)} + multiset{Sample(3)} + multiset{Sample(4)}, 1);
    assert EntriesOf(Doubled()) == m + multiset{Sample(1)} + multiset{Sample(2)} + multiset{Sample(3)}
                                   + multiset{Sample(4)} + multiset{Sample(1)};
  }

  lemma AddedSlot(remotes: map<Hash, Tx>, m: multiset<Tx>, h: Hash)
    requires h in remotes
    ensures LiveSlots(remotes, m + multiset{Sample(h)}) == LiveSlots(remotes, m) + 1
  {
    assert LiveSlot(remotes, Sample(h)) == 1;
    hide LiveSlots, LiveSlot;
    LiveSlotsAdd(remotes, m, Sample(h));
  }

  lemma {:induction false} OneSlotEach(drop: seq<Tx>)
    requires forall d :: d in drop ==> NumSlots(d) == 1
    ensures SumSlots(drop) == |drop|
  {
    if drop != [] {
      OneSlotEach(drop[..|drop| - 1]);
    }
  }

  lemma DropsTwo(drop: seq<Tx>)
    requires Drops(Samples({1, 2, 3, 4}), Doubled(), drop, 2) && 2 <= SumSlots(drop)
    ensures |drop| == 2 && forall d :: d in drop ==> IsSample(d)
  {
    DoubledIs();
    hide Doubled;
    forall d | d in drop ensures IsSample(d) {
      assert d in multiset(drop) && d in EntriesOf(Doubled());
    }
    hide SumSlots, Leftover, EntriesOf, Below;
    OneSlotEach(drop);
    OneSlotEach(drop[..|drop| - 1]);
  }

  lemma CheaperStays(drop: seq<Tx>, d: Tx)
    requires Drops(Samples({1, 2, 3, 4}), Doubled(), drop, 2) && |drop| == 2 && d in drop && IsSample(d)
    ensures d == Sample(1)
  {
    DoubledIs();
    hide Doubled, SumSlots;
    assert drop == [drop[0], drop[1]];
    assert d == Sample(1) || multiset(drop)[Sample(1)] < 2;
    assert d == Sample(1) || Below(None, Sample(1), d);
    assert multiset(drop)[Sample(1)] < 2 ==> Leftover(Samples({1, 2, 3, 4}), Doubled(), drop, Sample(1));
  }

  /** A request for two slots drops the first sample twice. */
  lemma DropsFirstTwice(drop: seq<Tx>)
    requires Drops(Samples({1, 2, 3, 4}), Doubled(), drop, 2) && 2 <= SumSlots(drop)
    ensures drop == [Sample(1), Sample(1)]
  {
    hide Drops, Doubled, Samples, SumSlots, Sample;
    DropsTwo(drop);
    CheaperStays(drop, drop[0]);
    CheaperStays(drop, drop[1]);
  }

  lemma FreesOne()
    ensures HashesOf([Sample(1), Sample(1)]) == {1} && Freed(Samples({1, 2, 3, 4}), [Sample(1), Sample(1)]) == 1
  {
    var drop := [Sample(1), Sample(1)];
    assert drop[0].hash == 1 && HashesOf(drop) == {1};
    assert Part(Samples({1, 2, 3, 4}), {1}) == Samples({1});
    SampleSlots({1});
  }

  /** The large transaction is not refused: it pays enough, and the heaps promise enough slots. */
  lemma Accepted(pool: TxPool)
    requires Small(pool) && Holds(pool, {1, 2, 3, 4}) && pool.priced.Contents() == Doubled()
    ensures pool.RoomVerdict(BIG, false).None? && pool.Needed(BIG) == 2 && pool.all.slots == 4
  {
    hide TxPool.Valid, LiveSlots, SlotsOf, Stock;
    HeldSlots(pool, {1, 2, 3, 4});
    FivePromised();
    DoubledIs();
    hide Doubled;
    NotCheap();
  }

  lemma NotCheap()
    ensures !NoneCheaper(Samples({1, 2, 3, 4}), None, Doubled().urgent, BIG)
  {
    assert Sample(1) in Doubled().urgent && Live(Samples({1, 2, 3, 4}), Sample(1)) && PaysLess(None, Sample(1), BIG);
  }

  /** Two slots are asked for and granted, but the same transaction is evicted for both: there is no room afterwards. */
  method EvictDoubled(pool: TxPool) returns (err: Option<PoolError>)
    requires Small(pool) && Holds(pool, {1, 2, 3, 4}) && pool.priced.Contents() == Doubled()
    modifies pool, pool.all, pool.priced, pool.pendingNonces
    ensures err == old(pool.RoomVerdict(BIG, false)) == None && old(pool.Needed(BIG)) == 2
    ensures Holds(pool, {2, 3, 4}) && !pool.HasRoom(BIG)
  {
    hide TxPool.Valid, TxLookup.Known, Samples, Doubled, Drops, Freed, TxPool.RoomVerdict, Stock, Sample, SumSlots;
    Accepted(pool);
    LessOne();
    ghost var drop;
    err, drop := pool.MakeRoom(BIG, false);
    DropsFirstTwice(drop);
    FreesOne();
  }

  /** A pool in this state comes about by its own operations. */
  method DoubleEntryExample() returns (pool: TxPool, err: Option<PoolError>)
    ensures fresh(pool) && err.None? && Holds(pool, {2, 3, 4}) && !pool.HasRoom(BIG)
  {
    hide TxPool.Valid, TxLookup.Known, Samples, Doubled, TxPool.RoomVerdict, TxPool.HasRoom;
    pool := FillPool();
    err := EvictDoubled(pool);
  }
}

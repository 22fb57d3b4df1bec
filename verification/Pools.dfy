/**
 The transaction pool: pending and queued lists by account, the hash lookup, the price heaps and
 the virtual nonces, kept consistent by every operation.
 */
module Pools {
  import opened Transactions
  import opened AccountLists
  import opened Lookups
  import opened PricedLists
  import opened Evictions
  import opened PoolInvariants
  import opened PoolMoves
  import opened PoolTruncation
  import opened PoolRules

  class TxPool {
    const config: Config
    const all: TxLookup
    const priced: PricedList
    var state: ChainState
    var maxGas: nat
    var gasPrice: int
    var changesSinceReorg: nat
    var pendingNonces: TxNoncer
    var locals: set<Address>
    var pending: Accounts
    var queue: Accounts

    /** Remote transactions already taken off the price heaps that are about to leave the pool. */
    ghost var evicting: set<Hash>

    /** The base fee the price heaps are ordered by. */
    ghost var listedFee: Option<int>

    /** The lookup and the price heaps are sound, the heaps cover every remote transaction, and none of
        these belongs to a local account. */
    ghost predicate Backed()
      reads this`evicting, this`locals, this`listedFee, all, priced
    {
      && all.Valid() && priced.Valid() && priced.baseFee == listedFee
      && Tracks(all.remotes, evicting, priced.Entries()) && Spares(locals, all.remotes)
    }

    /** The records of the pool agree: see `PoolOk`; no list is empty. */
    ghost predicate Valid()
      reads this, all, priced, pendingNonces
    {
      && Backed()
      && PoolOk(pending, queue, all.Known())
      && ListsFine(pending, queue)
      && pendingNonces.fallback == state.nonce
      && 1 <= config.accountSlots && 1 <= config.accountQueue
    }

    /** Each account's pending nonces are exactly the interval from its state nonce up to its virtual nonce. */
    ghost predicate Steady()
      reads this`pending, this`pendingNonces, pendingNonces
    {
      AllIntervals(pending, pendingNonces.fallback, pendingNonces.nonces)
    }

    /** Every pending transaction is within its sender's balance and the block gas limit. */
    ghost predicate Payable()
      reads this`pending, this`state, this`maxGas
    {
      AllPayable(pending, state.balance, maxGas)
    }

    /** The next transaction of account `a` is not waiting in the queue. */
    ghost predicate NotReady(a: Address)
      reads this`queue, this`pendingNonces, pendingNonces
    {
      NextNotQueued(queue, pendingNonces.fallback, pendingNonces.nonces, a)
    }

    constructor (config: Config, locals: set<Address>, state: ChainState, maxGas: nat, gasPrice: int)
      ensures Valid() && pending == map[] && queue == map[] && this.config == Sanitize(config)
      ensures fresh(all) && fresh(priced) && fresh(pendingNonces) && evicting == {} && Steady()
      ensures this.locals == locals && this.state == state && this.maxGas == maxGas && this.gasPrice == gasPrice
      ensures all.Known() == all.remotes == map[] && priced.Contents() == Book(multiset{}, multiset{}, None, 0)
      ensures changesSinceReorg == 0
    {
      this.gasPrice, changesSinceReorg, evicting, listedFee := gasPrice, 0, {}, None;
      this.config := Sanitize(config);
      this.locals, this.state, this.maxGas := locals, state, maxGas;
      all := new TxLookup();
      priced := new PricedList();
      pendingNonces := new TxNoncer(state.nonce);
      pending, queue := map[], map[];
      new;
      NothingPooled(state.nonce);
      hide PoolOk, ListsFine, AllIntervals, SlotsOf, IsPriceHeap;
    }

    // -------------------------------------------------------------- lookup and prices

    /** `count` more stale entries do not make it worth rebuilding the heaps. */
    ghost predicate FewStale(count: nat)
      reads priced
    {
      priced.stales + count <= |priced.Entries()| / 4
    }

    ghost function Staler(count: nat): Book
      reads priced
    {
      priced.Contents().(stales := priced.stales + count)
    }

    /** Removes a transaction from the lookup. */
    method Forget(hash: Hash)
      requires Backed()
      modifies all
      ensures Backed() && all.Known() == old(all.Known()) - {hash}
      ensures all.locals == old(all.locals) - {hash} && all.remotes == old(all.remotes) - {hash}
    {
      hide HashKeyed, SlotsOf, IsPriceHeap;
      all.Remove(hash);
    }

    method ForgetOne(hash: Hash, outofbound: bool)
      requires Backed()
      modifies all, priced
      ensures Backed() && all.Known() == old(all.Known()) - {hash}
      ensures all.locals == old(all.locals) - {hash} && all.remotes == old(all.remotes) - {hash}
      ensures outofbound && old(FewStale(1)) ==> priced.Contents() == old(Staler(1))
    {
      hide Backed;
      Forget(hash);
      if outofbound {
        Removed(1);
      }
    }

    /** Removes each of the given transactions from the lookup. */
    method ForgetAll(hashes: set<Hash>)
      requires Backed()
      modifies all
      ensures Backed() && all.Known() == old(all.Known()) - hashes
    {
      hide Backed;
      var todo := hashes;
      while todo != {}
        invariant todo <= hashes
        invariant Backed() && all.Known() == old(all.Known()) - (hashes - todo)
        decreases todo
      {
        var h :| h in todo;
        Forget(h);
        todo := todo - {h};
      }
    }

    /** `priced.Removed`: the heaps go on covering the remote transactions. */
    method Removed(count: nat)
      requires Backed()
      modifies priced
      ensures Backed()
      ensures old(FewStale(count)) ==> priced.Contents() == old(Staler(count))
    {
      priced.Removed(count, all.remotes);
    }

    // -------------------------------------------------------------- removing

    /** Takes a transaction out of its list; pending ones above it are queued again and the virtual nonce drops. */
    method Unlist(tx: Tx)
      requires ListsFine(pending, queue)
      requires Items(queue, tx.sender).Keys !! Items(pending, tx.sender).Keys
      requires forall n :: n in Items(pending, tx.sender) ==> Items(pending, tx.sender)[n].nonce == n
      modifies this`pending, this`queue, pendingNonces
      ensures ListsFine(pending, queue) && Taken(old(pending), old(queue), tx, pending, queue)
      ensures Lessened(pendingNonces.fallback, old(pending), old(pendingNonces.nonces), pending, pendingNonces.nonces)
      ensures old(Steady()) ==> Steady() && forall a :: old(NotReady(a)) ==> NotReady(a)
    {
      hide ListsFine, Taken, AllIntervals, NonceSet, Items, NextNotQueued, Lessened;
      var wasPending;
      pending, queue, wasPending := TakeOut(pending, queue, tx, config.priceBump);
      if wasPending {
        pendingNonces.SetIfLower(tx.sender, tx.nonce);
      } else {
        NonceUnchanged(pendingNonces.fallback, pendingNonces.nonces, tx.sender);
      }
      TakenKeepsNonces(old(pending), old(queue), tx, pending, queue, pendingNonces.fallback,
                       old(pendingNonces.nonces), pendingNonces.nonces);
      TakenLessened(old(pending), old(queue), tx, pending, queue, pendingNonces.fallback, old(pendingNonces.nonces),
                    pendingNonces.nonces);
      if old(Steady()) {
        forall a | old(NotReady(a)) ensures NotReady(a) {
          TakenNextNotQueued(old(pending), old(queue), tx, pending, queue, pendingNonces.fallback,
                             old(pendingNonces.nonces), pendingNonces.nonces, a);
        }
      }
    }

    lemma NotInEither(hash: Hash)
      requires hash !in all.Known()
      ensures all.Known() - {hash} == all.Known() && all.locals - {hash} == all.locals
      ensures all.remotes - {hash} == all.remotes
    {
    }

    /** Removes one transaction from every record. */
    method RemoveTx(hash: Hash, outofbound: bool)
      requires Valid()
      modifies this`pending, this`queue, all, priced, pendingNonces
      ensures Valid() && all.Known() == old(all.Known()) - {hash}
      ensures all.locals == old(all.locals) - {hash} && all.remotes == old(all.remotes) - {hash}
      ensures hash !in old(all.Known()) ==> pending == old(pending) && queue == old(queue)
      ensures hash in old(all.Known()) && outofbound && old(FewStale(1)) ==> priced.Contents() == old(Staler(1))
      ensures Lessened(pendingNonces.fallback, old(pending), old(pendingNonces.nonces), pending, pendingNonces.nonces)
      ensures hash in old(all.Known()) ==> Taken(old(pending), old(queue), old(all.Known())[hash], pending, queue)
      ensures old(Steady()) ==> Steady() && forall a :: old(NotReady(a)) ==> NotReady(a)
      ensures old(Payable()) ==> Payable()
    {
      hide PoolOk, ListsFine, Taken, AllIntervals, AllPayable, TxLookup.Valid, PricedList.Valid, TxLookup.Known, Items;
      hide Tracks, Spares, NextNotQueued, Lessened;
      NotLessened(pendingNonces.fallback, pending, pendingNonces.nonces);
      var found := all.Get(hash);
      if found.None? {
        NotInEither(hash);
        return;
      }
      var tx := found.value;
      Owned(pending, queue, all.Known(), tx.sender);
      ForgetOne(hash, outofbound);
      Unlist(tx);
      if old(Payable()) {
        TakenPayable(old(pending), old(queue), tx, pending, queue, state.balance, maxGas);
      }
      TakeKnown(old(pending), old(queue), old(all.Known()), hash, pending, queue);
    }

    // -------------------------------------------------------------- truncating the pending lists

    method CutPending(addr: Address) returns (tx: Tx)
      requires addr in pending && 2 <= Len(pending, addr) && WellFiled(pending[addr].items) && ListsFine(pending, queue)
      modifies this`pending, pendingNonces
      ensures ListsFine(pending, queue) && WithoutTop(old(pending), pending, addr, tx)
      ensures old(Steady()) ==> Steady()
    {
      hide AllIntervals, WithoutTop, ListsOk, NoneEmpty, NonceSet;
      pending, tx := CutTop(pending, addr);
      pendingNonces.SetIfLower(addr, tx.nonce);
      CutTopNonces(old(pending), pending, addr, tx, pendingNonces.fallback, old(pendingNonces.nonces),
                   pendingNonces.nonces);
    }

    /** Drops the highest-nonce pending transaction of an account and lowers its virtual nonce to it. */
    method DropTop(addr: Address)
      requires Valid() && addr in pending && 2 <= Len(pending, addr)
      modifies this`pending, all, priced, pendingNonces
      ensures Valid()
      ensures exists tx :: WithoutTop(old(pending), pending, addr, tx)
      ensures old(Steady()) ==> Steady()
    {
      hide PoolOk, AllIntervals, WithoutTop, ListsFine, Backed, TxLookup.Known;
      Owned(pending, queue, all.Known(), addr);
      var tx := CutPending(addr);
      CutTopOk(old(pending), pending, queue, all.Known(), addr, tx);
      ForgetOne(tx.hash, true);
    }

    method CutInRound(addr: Address, ghost p0: Accounts, ghost t: nat, ghost done: set<Address>)
      requires Valid() && 2 <= t && MidRound(p0, pending, locals, t, done)
      requires addr in Longer(p0, locals, t - 1) && addr !in done
      modifies this`pending, all, priced, pendingNonces
      ensures Valid() && MidRound(p0, pending, locals, t, done + {addr})
      ensures Total(pending) == old(Total(pending)) - 1
      ensures old(Steady()) ==> Steady()
    {
      hide Valid, Steady, MidRound, WithoutTop, Total, Longer;
      CutOne(p0, pending, pending, locals, t, done, addr);
      LongIsPresent(p0, pending, locals, t, done, addr);
      DropTop(addr);
      ghost var tx :| WithoutTop(old(pending), pending, addr, tx);
      CutTotal(old(pending), pending, addr, tx);
      CutByTop(p0, old(pending), pending, locals, t, done, addr, tx);
    }

    /** One round of the fairness rule: each of the given accounts loses its highest nonce. */
    method Round(offs: seq<Address>, ghost p0: Accounts, ghost t: nat)
      requires Valid() && 2 <= t && WaterFilled(p0, pending, locals, t)
      requires Distinct(offs) && Members(offs) == Longer(p0, locals, t - 1)
      modifies this`pending, all, priced, pendingNonces
      ensures Valid() && WaterFilled(p0, pending, locals, t - 1)
      ensures Total(pending) == old(Total(pending)) - |offs|
      ensures old(Steady()) ==> Steady()
    {
      hide Valid, Steady, WaterFilled, MidRound, Total, Longer;
      StartRound(p0, pending, locals, t);
      assert Members(offs[..0]) == {};
      for i := 0 to |offs|
        invariant Valid() && MidRound(p0, pending, locals, t, Members(offs[..i]))
        invariant Total(pending) == old(Total(pending)) - i
        invariant old(Steady()) ==> Steady()
      {
        NextMember(offs, i);
        CutInRound(offs[i], p0, t, Members(offs[..i]));
      }
      assert offs[..|offs|] == offs;
      EndRound(p0, pending, locals, t, Members(offs));
    }

    /** Cuts the given accounts round by round, while the pool is over its limit and they are above `floor`. */
    method Level(offs: seq<Address>, floor: nat, count0: nat, ghost p0: Accounts, ghost t0: nat)
      returns (count: nat, ghost t: nat)
      requires Valid() && offs != [] && 1 <= floor <= t0 && count0 == Total(pending)
      requires WaterFilled(p0, pending, locals, t0) && Cuttable(p0, locals, offs, floor, t0)
      modifies this`pending, all, priced, pendingNonces
      ensures Valid() && count == Total(pending)
      ensures floor <= t <= t0 && WaterFilled(p0, pending, locals, t)
      ensures count <= config.globalSlots || t == floor
      ensures if t == t0 then pending == old(pending) else count + |Longer(p0, locals, t)| > config.globalSlots
      ensures old(Steady()) ==> Steady()
    {
      hide Valid, Steady, WaterFilled, Cuttable, Total, Longer, Members;
      count, t := count0, t0;
      var last := offs[|offs| - 1];
      LastLength(p0, pending, locals, offs, floor, t0, t);
      while count > config.globalSlots && Len(pending, last) > floor
        invariant Valid() && count == Total(pending)
        invariant floor <= t <= t0 && WaterFilled(p0, pending, locals, t) && Len(pending, last) == t
        invariant if t == t0 then pending == old(pending) else count + |Longer(p0, locals, t)| > config.globalSlots
        invariant old(Steady()) ==> Steady()
        decreases t
      {
        CuttableAre(p0, locals, offs, floor, t0, t - 1);
        Round(offs, p0, t);
        count, t := count - |offs|, t - 1;
        LastLength(p0, pending, locals, offs, floor, t0, t);
      }
    }

    /** Takes in one more offender and cuts the earlier ones down to its length, or until the limit is met. */
    method Equalize(offs: seq<Address>, o: Address, count0: nat, ghost p0: Accounts, ghost spammers: set<Address>,
                    ghost t0: nat)
      returns (count: nat, ghost t: nat)
      requires Valid() && count0 > config.globalSlots
      requires Searching(p0, pending, locals, config.accountSlots, config.globalSlots, offs, spammers, t0, count0)
      requires o in spammers && forall b :: b in spammers ==> Len(p0, b) <= Len(p0, o)
      modifies this`pending, all, priced, pendingNonces
      ensures Valid()
      ensures Searching(p0, pending, locals, config.accountSlots, config.globalSlots, offs + [o], spammers - {o}, t,
                        count)
      ensures old(Steady()) ==> Steady()
    {
      hide Valid, Steady, Cuttable, WaterFilled, Total, Longer, Members, AtLevel;
      NextOffender(p0, pending, locals, config.accountSlots, offs, spammers, t0, o);
      var threshold := Len(pending, o);
      if offs == [] {
        count, t := count0, threshold;
      } else {
        count, t := Level(offs, threshold, count0, p0, t0);
      }
      hide Stage;
      StageStep(p0, old(pending), pending, locals, config.accountSlots, offs, spammers, t0, o, t);
    }

    /** Pops spammers, longest list first, until the limit is met or none is left. */
    method PopSpammers(count0: nat, ghost t0: nat)
      returns (offenders: seq<Address>, spammers: set<Address>, count: nat, ghost t: nat)
      requires Valid()
      requires Searching(pending, pending, locals, config.accountSlots, config.globalSlots, [],
                         Longer(pending, locals, config.accountSlots), t0, count0)
      modifies this`pending, all, priced, pendingNonces
      ensures Valid()
      ensures Searching(old(pending), pending, locals, config.accountSlots, config.globalSlots, offenders, spammers, t,
                        count)
      ensures count <= config.globalSlots || spammers == {}
      ensures old(Steady()) ==> Steady()
    {
      hide Valid, Steady, Stage, Total, AtLevel;
      offenders, spammers, count, t := [], Longer(pending, locals, config.accountSlots), count0, t0;
      hide Longer;
      while count > config.globalSlots && spammers != {}
        invariant Valid()
        invariant Searching(old(pending), pending, locals, config.accountSlots, config.globalSlots, offenders, spammers,
                            t, count)
        invariant old(Steady()) ==> Steady()
        decreases spammers
      {
        SpammerLens(old(pending), pending, locals, config.accountSlots, offenders, spammers, t);
        var offender := PopLongest(pending, spammers);
        count, t := Equalize(offenders, offender, count, old(pending), spammers, t);
        offenders, spammers := offenders + [offender], spammers - {offender};
      }
    }

    /** If still above the limit, cuts all offenders down to it or to their slots. */
    method LevelOut(offenders: seq<Address>, ghost spammers: set<Address>, count: nat, ghost p0: Accounts, ghost t: nat)
      returns (ghost level: nat)
      requires Valid() && (count <= config.globalSlots || spammers == {})
      requires Searching(p0, pending, locals, config.accountSlots, config.globalSlots, offenders, spammers, t, count)
      modifies this`pending, all, priced, pendingNonces
      ensures Valid() && Truncated(p0, pending, locals, config.accountSlots, config.globalSlots, level)
      ensures old(Steady()) ==> Steady()
    {
      assert 1 <= config.accountSlots;
      hide Valid, Steady, WaterFilled, Cuttable, Total, Longer, Members, AtLevel, Truncated, Distinct;
      level := t;
      if count > config.globalSlots {
        LastStage(p0, pending, locals, config.accountSlots, offenders, t);
        if offenders == [] {
          level := config.accountSlots;
        } else {
          var left;
          left, level := Level(offenders, config.accountSlots, count, p0, t);
        }
      }
      Outcome(p0, old(pending), pending, locals, config.accountSlots, config.globalSlots, t, level);
    }

    /** Cuts the longest non-local lists to the highest common level that meets the limit, or to the minimum. */
    method TruncatePending() returns (ghost level: nat)
      requires Valid()
      modifies this`pending, all, priced, pendingNonces
      ensures Valid() && Truncated(old(pending), pending, locals, config.accountSlots, config.globalSlots, level)
      ensures old(Steady()) ==> Steady()
    {
      hide Valid, Steady, WaterFilled, Total, Longer, Members, AtLevel;
      var count := CountAll(pending);
      level := Total(pending) + config.accountSlots;
      FirstStage(pending, locals, config.accountSlots);
      if count > config.globalSlots {
        var offenders, spammers;
        offenders, spammers, count, level := PopSpammers(count, level);
        level := LevelOut(offenders, spammers, count, old(pending), level);
      }
    }

    // -------------------------------------------------------------- promoting

    /** What promotions and demotions read. */
    ghost function EnvOf(): Env
      reads this`state, this`maxGas, this`locals
    {
      Env(state.nonce, state.balance, maxGas, locals, config.accountQueue, config.priceBump)
    }

    ghost function TiersOf(): Tiers
      reads this`pending, this`queue, this`pendingNonces, pendingNonces
    {
      Tiers(pending, queue, pendingNonces.nonces)
    }

    /** The rules an account is promoted and demoted by. */
    ghost function RulesFor(addr: Address): Rules
      reads this`state, this`maxGas, this`locals, this`pendingNonces, pendingNonces
    {
      RulesAt(EnvOf(), pendingNonces.nonces, addr)
    }

    /** Reads the rules for an account; the virtual nonce it looks up is cached but not changed. */
    method ReadRules(addr: Address) returns (r: Rules)
      requires pendingNonces.fallback == state.nonce
      modifies pendingNonces
      ensures r == old(RulesFor(addr)) == RulesFor(addr)
      ensures SameNonces(state.nonce, old(pendingNonces.nonces), pendingNonces.nonces)
    {
      var start := pendingNonces.Get(addr);
      r := Rules(state.nonce(addr), state.balance(addr), maxGas, start, addr in locals, config.accountQueue,
                 config.priceBump);
    }

    /** The list side of promoting one account. */
    method PromoteListed(addr: Address, r: Rules) returns (gone: map<nat, Tx>)
      requires addr in queue && ListsFine(pending, queue) && WellFiled(queue[addr].items)
      requires Items(pending, addr).Keys !! queue[addr].items.Keys && pendingNonces.fallback == state.nonce
      modifies this`pending, this`queue, pendingNonces
      ensures ListsFine(pending, queue) && Promoted(old(pending), old(queue), addr, r, pending, queue)
      ensures NonceSet(state.nonce, old(pendingNonces.nonces), pendingNonces.nonces, addr,
                       NonceAfter(old(Items(queue, addr)), r))
      ensures gone == Gone(old(Items(queue, addr)), r)
    {
      hide ListsFine, Promoted, Gone, NonceAfter, WellFiled;
      var end := NonceAfter(queue[addr].items, r);
      pending, queue, gone := PromoteLists(pending, queue, addr, r);
      pendingNonces.Set(addr, end);
    }

    /** Promotes the executable transactions of one account. */
    method PromoteAccount(addr: Address)
      requires Valid()
      modifies this`pending, this`queue, all, priced, pendingNonces
      ensures Valid()
      ensures addr !in old(queue) ==> TiersOf() == old(TiersOf()) && all.Known() == old(all.Known())
      ensures addr in old(queue) ==>
                var q, r := old(Items(queue, addr)), old(RulesFor(addr));
                && Promoted(old(pending), old(queue), addr, r, pending, queue)
                && NonceSet(state.nonce, old(pendingNonces.nonces), pendingNonces.nonces, addr, NonceAfter(q, r))
                && all.Known() == old(all.Known()) - Hashes(Gone(q, r))
    {
      hide PoolOk, ListsFine, Promoted, Gone, NonceAfter, Backed, TxLookup.Known, RulesAt, Hashes, NonceSet, SameNonces;
      if addr !in queue {
        return;
      }
      Owned(pending, queue, all.Known(), addr);
      var r := ReadRules(addr);
      ghost var nonces := pendingNonces.nonces;
      var gone := PromoteListed(addr, r);
      SetAfterSame(state.nonce, old(pendingNonces.nonces), nonces, pendingNonces.nonces, addr,
                   NonceAfter(old(Items(queue, addr)), r));
      PromotionOk(old(pending), old(queue), all.Known(), addr, r, pending, queue);
      ForgetAll(Hashes(gone));
      Removed(|gone|);
    }

    /** Promotes every account of `addrs`, in any order. */
    method PromoteExecutables(addrs: set<Address>)
      requires Valid()
      modifies this`pending, this`queue, all, priced, pendingNonces
      ensures Valid() && PromotedAll(EnvOf(), old(TiersOf()), addrs, TiersOf())
    {
      hide PoolOk, ListsFine, Promoted, Gone, NonceAfter, Backed, RulesAt, NonceSet, PromotedAll, TxLookup.Known;
      hide Hashes;
      PromotedNobody(EnvOf(), TiersOf());
      var todo := addrs;
      assert addrs - todo == {};
      while todo != {}
        invariant todo <= addrs
        invariant Valid() && PromotedAll(EnvOf(), old(TiersOf()), addrs - todo, TiersOf())
        decreases todo
      {
        var addr :| addr in todo;
        ghost var before := TiersOf();
        PromoteAccount(addr);
        if addr in before.queue {
          PromoteOne(EnvOf(), old(TiersOf()), addrs - todo, before, addr, TiersOf());
        } else {
          PromoteNone(EnvOf(), old(TiersOf()), addrs - todo, before, addr);
        }
        assert addrs - todo + {addr} == addrs - (todo - {addr});
        todo := todo - {addr};
      }
      assert addrs - todo == addrs;
    }

    // -------------------------------------------------------------- demoting

    /** Drops the outdated and unpayable pending transactions of one account and queues what they invalidate. */
    method DemoteAccount(addr: Address)
      requires Valid() && addr in pending
      modifies this`pending, this`queue, all, priced, pendingNonces
      ensures Valid()
      ensures Demoted(old(pending), old(queue), addr, old(RulesFor(addr)), pending, queue)
      ensures SameNonces(state.nonce, old(pendingNonces.nonces), pendingNonces.nonces)
      ensures all.Known() == old(all.Known()) - Hashes(Lost(old(Items(pending, addr)), old(RulesFor(addr))))
    {
      hide PoolOk, ListsFine, Demoted, Lost, Backed, TxLookup.Known, RulesAt, Hashes, SameNonces;
      Owned(pending, queue, all.Known(), addr);
      var r := ReadRules(addr);
      var lost;
      pending, queue, lost := DemoteLists(pending, queue, addr, r);
      DemotionOk(old(pending), old(queue), all.Known(), addr, r, pending, queue);
      ForgetAll(Hashes(lost));
    }

    /** Demotes every account with pending transactions. */
    method DemoteUnexecutables()
      requires Valid()
      modifies this`pending, this`queue, all, priced, pendingNonces
      ensures Valid() && DemotedAll(EnvOf(), old(TiersOf()), old(pending).Keys, TiersOf())
    {
      hide PoolOk, ListsFine, Demoted, Lost, Backed, RulesAt, DemotedAll, TxLookup.Known, Hashes, SameNonces;
      DemotedNobody(EnvOf(), TiersOf());
      var addrs := pending.Keys;
      var todo := addrs;
      assert addrs - todo == {};
      while todo != {}
        invariant todo <= addrs
        invariant Valid() && DemotedAll(EnvOf(), old(TiersOf()), addrs - todo, TiersOf())
        decreases todo
      {
        var addr :| addr in todo;
        ghost var before := TiersOf();
        if addr in pending {
          DemoteAccount(addr);
          DemoteOne(EnvOf(), old(TiersOf()), addrs - todo, before, addr, TiersOf());
        } else {
          DemoteNone(EnvOf(), old(TiersOf()), addrs - todo, before, addr);
        }
        assert addrs - todo + {addr} == addrs - (todo - {addr});
        todo := todo - {addr};
      }
      assert addrs - todo == addrs;
    }

    /** Sets every account's virtual nonce past its highest pending transaction. */
    method SetHighestNonces()
      requires Valid()
      modifies pendingNonces
      ensures Valid() && pendingNonces.nonces == HighestNonces(pending)
    {
      hide PoolOk, ListsOk, Backed, HighestNonces;
      pendingNonces.SetAll(HighestNonces(pending));
    }

    // -------------------------------------------------------------- adding

    /** Asks the price heaps whether `tx` is too cheap, dropping stale entries on the way. */
    method IsUnderpriced(tx: Tx) returns (under: bool)
      requires Backed()
      modifies priced
      ensures Backed() && priced.baseFee == old(priced.baseFee) && under == old(Cheap(tx))
      ensures LiveSlots(all.remotes, priced.Entries()) == old(LiveSlots(all.remotes, priced.Entries()))
      ensures SameLive(all.remotes, old(priced.Contents().urgent), priced.Contents().urgent)
      ensures SameLive(all.remotes, old(priced.Contents().floating), priced.Contents().floating)
    {
      hide SlotsOf, IsPriceHeap, TooCheap, LiveSlots;
      under := priced.Underpriced(tx, all.remotes);
      SameLiveSlots(all.remotes, old(priced.Entries()), priced.Entries());
    }

    /** `tx` is too cheap to evict a remote transaction for it. */
    ghost predicate Cheap(tx: Tx)
      reads all, priced
    {
      TooCheap(all.remotes, priced.baseFee, multiset(priced.urgent), multiset(priced.floating), tx)
    }

    /** Takes the cheapest remote transactions off the price heaps; they are still in the pool. */
    method DiscardCheapest(slots: int, force: bool) returns (drop: seq<Tx>, ok: bool)
      requires Backed() && evicting == {}
      modifies this`evicting, priced
      ensures Backed() && evicting == HashesOf(drop) && evicting <= all.remotes.Keys
      ensures ok <==> force || slots <= LiveSlots(all.remotes, old(priced.Entries()))
      ensures !ok ==> drop == []
      ensures Drops(all.remotes, old(priced.Contents()), drop, slots)
      ensures ok ==> slots <= SumSlots(drop) || (force && evicting == all.remotes.Keys)
      ensures SumSlots(drop) - old(Surplus(all.remotes, priced.Entries())) <= Freed(all.remotes, drop)
    {
      hide SlotsOf, IsPriceHeap, LiveSlots, SumSlots, HashKeyed, Tracks, SameLive, Live, WorstWent;
      hide Evicted, Drops, Freed, Surplus;
      drop, ok := priced.Discard(slots, force, all.remotes);
      evicting := HashesOf(drop);
      if ok {
        WentFrom(all.remotes, old(priced.Entries()), priced.Entries(), drop, slots);
        EvictedDrops(all.remotes, old(priced.Contents()), priced.Contents(), drop, slots);
      } else {
        WentNone(all.remotes, old(priced.Entries()), priced.Entries());
        DropsNothing(all.remotes, old(priced.Contents()), slots);
      }
    }

    /** Removes the discarded transactions from the pool. */
    method RemoveDropped(drop: seq<Tx>)
      requires Valid() && evicting == HashesOf(drop)
      modifies this`pending, this`queue, this`evicting, all, priced, pendingNonces
      ensures Valid() && evicting == {} && Without(old(all.Known()), all.Known(), old(evicting))
      ensures Without(old(all.locals), all.locals, old(evicting))
      ensures Without(old(all.remotes), all.remotes, old(evicting))
      ensures Lessened(pendingNonces.fallback, old(pending), old(pendingNonces.nonces), pending, pendingNonces.nonces)
      ensures old(Steady()) ==> Steady() && forall a :: old(NotReady(a)) ==> NotReady(a)
      ensures old(Payable()) ==> Payable()
    {
      hide Valid, Steady, NotReady, TxLookup.Known, Taken;
      hide HashesOf, Without, Lessened;
      NoHashes(drop);
      NotLessened(pendingNonces.fallback, pending, pendingNonces.nonces);
      for i := 0 to |drop|
        invariant Valid() && evicting == old(evicting)
        invariant Without(old(all.Known()), all.Known(), HashesOf(drop[..i]))
        invariant Lessened(pendingNonces.fallback, old(pending), old(pendingNonces.nonces), pending,
                           pendingNonces.nonces)
        invariant Without(old(all.locals), all.locals, HashesOf(drop[..i]))
        invariant Without(old(all.remotes), all.remotes, HashesOf(drop[..i]))
        invariant old(Payable()) ==> Payable()
        invariant old(Steady()) ==> Steady() && forall a :: old(NotReady(a)) ==> NotReady(a)
      {
        OneHashMore(drop, i, old(all.Known()), all.Known());
        OneHashMore(drop, i, old(all.locals), all.locals);
        OneHashMore(drop, i, old(all.remotes), all.remotes);
        ghost var p, nonces := pending, pendingNonces.nonces;
        RemoveTx(drop[i].hash, false);
        LessenedTwice(pendingNonces.fallback, old(pending), old(pendingNonces.nonces), p, nonces, pending,
                      pendingNonces.nonces);
      }
      assert drop[..|drop|] == drop;
      FinishEvicting(old(all.Known()));
    }

    /** Once the evicted transactions have left the lookup, the heaps cover all remote transactions again. */
    method FinishEvicting(ghost known0: map<Hash, Tx>)
      requires Valid() && Without(known0, all.Known(), evicting)
      modifies this`evicting
      ensures Valid() && evicting == {}
    {
      hide PoolOk, SlotsOf, HashKeyed, IsPriceHeap, ListsFine;
      forall h | h in all.remotes ensures h !in evicting {
        assert h in all.Known().Keys;
      }
      evicting := {};
    }

    /** There is room for `tx` without an eviction. */
    ghost predicate HasRoom(tx: Tx)
      reads all
    {
      Fits(config, all.slots, tx)
    }

    /** The slots an eviction for `tx` has to free. */
    function Needed(tx: Tx): int
      reads all
    {
      Missing(config, all.slots, tx)
    }

    /** Why a full pool refuses `tx`. */
    ghost function RoomVerdict(tx: Tx, isLocal: bool): Option<PoolError>
      reads this`changesSinceReorg, this`locals, all, priced
    {
      RoomIn(config, ShotOf(), tx, isLocal)
    }

    /** What a transaction is judged by of the pool. */
    ghost function ShotOf(): Shot
      reads this`changesSinceReorg, this`locals, all, priced
    {
      Shot(all.Known(), all.remotes, all.slots, changesSinceReorg, priced.Contents(), locals)
    }

    /** What it is judged by besides. */
    ghost function RulesNow(): Rulebook
      reads this`state, this`maxGas, this`gasPrice, this`listedFee
    {
      Rulebook(config, state, maxGas, gasPrice, listedFee)
    }

    lemma FeeIsListed()
      requires Backed()
      ensures priced.baseFee == listedFee
    {
    }

    /** The slots in use are those of the known transactions. */
    lemma KnownSlots()
      requires Backed()
      ensures all.slots == SlotsOf(all.Known()) && HashKeyed(all.Known())
    {
      hide SlotsOf, IsPriceHeap;
      SlotsSplit(all.Known(), all.remotes.Keys);
      assert all.Known() - all.remotes.Keys == all.locals && Part(all.Known(), all.remotes.Keys) == all.remotes;
    }

    /**
     If the pool is full, makes room for `tx` by evicting the cheapest remote transactions, or refuses. What is still
     missing afterwards is at most the surplus of the price heaps, so there is room if no remote transaction has two
     entries (`SurplusIff`), unless all remote transactions have gone and `tx` is local.
     */
    method MakeRoom(tx: Tx, isLocal: bool) returns (err: Option<PoolError>, ghost drop: seq<Tx>)
      requires Valid() && evicting == {}
      modifies this`pending, this`queue, this`evicting, this`changesSinceReorg, all, priced, pendingNonces
      ensures Valid() && evicting == {} && all.Known() == old(all.Known()) - HashesOf(drop)
      ensures HashesOf(drop) <= old(all.remotes).Keys && all.remotes == old(all.remotes) - HashesOf(drop)
      ensures err == old(RoomVerdict(tx, isLocal))
      ensures err.Some? || old(HasRoom(tx)) ==> drop == [] && TiersOf() == old(TiersOf())
      ensures Drops(old(all.remotes), old(priced.Contents()), drop, old(Needed(tx)))
      ensures err.None? && !isLocal ==> old(Needed(tx)) <= SumSlots(drop)
      ensures all.slots == old(all.slots) - Freed(old(all.remotes), drop)
      ensures changesSinceReorg == old(changesSinceReorg) + |drop|
      ensures err.None? ==>
                || HasRoom(tx) || Needed(tx) <= old(Surplus(all.remotes, priced.Entries()))
                || (isLocal && all.remotes == map[])
      ensures old(Needed(tx) > SlotsOf(all.remotes)) ==> !HasRoom(tx)
      ensures old(HasRoom(tx)) ==> priced.Contents() == old(priced.Contents())
      ensures Lessened(pendingNonces.fallback, old(pending), old(pendingNonces.nonces), pending, pendingNonces.nonces)
      ensures old(Steady()) ==> Steady() && forall a :: old(NotReady(a)) ==> NotReady(a)
      ensures old(Payable()) ==> Payable()
    {
      hide PoolOk, Backed, ListsFine, Steady, NotReady, TxLookup.Known, LiveSlots, SumSlots, TooCheap, Lessened;
      hide SlotsOf;
      hide SameLive, PriceLess;
      hide Drops, Freed, HashesOf;
      drop := [];
      NothingEvicted();
      DropsNothing(all.remotes, priced.Contents(), Needed(tx));
      NotLessened(pendingNonces.fallback, pending, pendingNonces.nonces);
      if all.slots + NumSlots(tx) <= config.globalSlots + config.globalQueue {
        return None, [];
      }
      if !isLocal {
        var under := IsUnderpriced(tx);
        if under {
          return Some(UnderpricedTx), [];
        }
      }
      if changesSinceReorg > config.globalSlots / 4 {
        return Some(Overflow), [];
      }
      ghost var book := priced.Contents();
      err, drop := EvictFor(tx, isLocal);
      if !isLocal {
        DropsSame(old(all.remotes), old(priced.Contents()), book, drop, old(Needed(tx)));
      }
    }

    lemma RoomKinds(tx: Tx, isLocal: bool)
      ensures RoomVerdict(tx, isLocal) != Some(ReplaceUnderpriced) && (HasRoom(tx) ==> RoomVerdict(tx, isLocal).None?)
    {
    }

    lemma NothingEvicted()
      ensures HashesOf([]) == {} && all.Known() - {} == all.Known() && all.remotes - {} == all.remotes
      ensures Freed(all.remotes, []) == 0 && SumSlots([]) == 0 && SlotsOf(all.remotes) >= 0
    {
      assert Part(all.remotes, HashesOf([])) == map[];
    }

    lemma SlotsCounted()
      requires Backed()
      ensures all.Valid() && all.locals.Keys !! all.remotes.Keys
      ensures all.slots == SlotsOf(all.locals) + SlotsOf(all.remotes)
    {
    }

    /** The lookup loses the slots of the distinct transactions dropped. */
    lemma SlotsFreed(drop: seq<Tx>, locals0: map<Hash, Tx>, remotes0: map<Hash, Tx>)
      requires all.Valid() && locals0.Keys !! remotes0.Keys && HashesOf(drop) <= remotes0.Keys
      requires all.locals == locals0 - HashesOf(drop) && all.remotes == remotes0 - HashesOf(drop)
      ensures all.slots == SlotsOf(locals0) + SlotsOf(remotes0) - Freed(remotes0, drop)
      ensures Freed(remotes0, drop) <= SlotsOf(remotes0)
    {
      hide SlotsOf, HashKeyed;
      assert locals0 - HashesOf(drop) == locals0;
      SlotsSplit(remotes0, HashesOf(drop));
    }

    /** Discards the cheapest remote transactions until there is room for `tx`. */
    method EvictFor(tx: Tx, isLocal: bool) returns (err: Option<PoolError>, ghost dropped: seq<Tx>)
      requires Valid() && evicting == {}
      modifies this`pending, this`queue, this`evicting, this`changesSinceReorg, all, priced, pendingNonces
      ensures Valid() && evicting == {} && all.Known() == old(all.Known()) - HashesOf(dropped)
      ensures HashesOf(dropped) <= old(all.remotes).Keys && all.remotes == old(all.remotes) - HashesOf(dropped)
      ensures err == if !isLocal && old(LiveSlots(all.remotes, priced.Entries()) < Needed(tx)) then Some(Overflow)
                     else None
      ensures err.Some? ==> dropped == [] && TiersOf() == old(TiersOf())
      ensures Drops(old(all.remotes), old(priced.Contents()), dropped, old(Needed(tx)))
      ensures err.None? ==> old(Needed(tx)) <= SumSlots(dropped) || (isLocal && all.remotes == map[])
      ensures all.slots == old(all.slots) - Freed(old(all.remotes), dropped)
      ensures changesSinceReorg == old(changesSinceReorg) + |dropped|
      ensures SumSlots(dropped) - old(Surplus(all.remotes, priced.Entries())) <= Freed(old(all.remotes), dropped)
      ensures Freed(old(all.remotes), dropped) <= SlotsOf(old(all.remotes))
      ensures Lessened(pendingNonces.fallback, old(pending), old(pendingNonces.nonces), pending, pendingNonces.nonces)
      ensures old(Steady()) ==> Steady() && forall a :: old(NotReady(a)) ==> NotReady(a)
      ensures old(Payable()) ==> Payable()
    {
      hide PoolOk, Backed, ListsFine, Steady, NotReady, TxLookup.Known, LiveSlots, SumSlots, Lessened, SlotsOf;
      hide Drops, Freed, HashesOf, Surplus;
      NothingEvicted();
      NotLessened(pendingNonces.fallback, pending, pendingNonces.nonces);
      SlotsCounted();
      var drop, ok := DiscardCheapest(Needed(tx), isLocal);
      dropped := drop;
      if !isLocal && !ok {
        return Some(Overflow), [];
      }
      changesSinceReorg := changesSinceReorg + |drop|;
      RemoveDropped(drop);
      SlotsCounted();
      SlotsFreed(drop, old(all.locals), old(all.remotes));
      return None, drop;
    }

    /** Enters a new transaction into lookup and price heaps, removing the one it replaced. */
    method Learn(tx: Tx, local: bool, replaced: Option<Tx>)
      requires Backed() && tx.hash !in all.Known() && (local || tx.sender !in locals)
      modifies all, priced
      ensures Backed() && all.Known() == Bare(old(all.Known()), replaced)[tx.hash := tx]
      ensures all.remotes == With(Bare(old(all.remotes), replaced), tx, !local)
      ensures all.locals == With(Bare(old(all.locals), replaced), tx, local)
      ensures replaced.None? && !local ==> priced.Contents() == Listed(old(priced.Contents()), tx)
    {
      hide Backed, TxLookup.Known;
      if replaced.Some? {
        ForgetOne(replaced.value.hash, true);
      }
      Track(tx, local);
    }

    /** Enters a new transaction into lookup and price heaps. */
    method Track(tx: Tx, local: bool)
      requires Backed() && tx.hash !in all.Known() && (local || tx.sender !in locals)
      modifies all, priced
      ensures Backed() && all.Known() == old(all.Known())[tx.hash := tx]
      ensures all.remotes == With(old(all.remotes), tx, !local) && all.locals == With(old(all.locals), tx, local)
      ensures !local ==> priced.Contents() == Listed(old(priced.Contents()), tx)
    {
      hide HashKeyed, SlotsOf, IsPriceHeap, Tracks, Spares;
      all.Add(tx, local);
      priced.Put(tx, local);
      TrackedOne(old(all.remotes), evicting, old(priced.Entries()), locals, tx);
      assert !local ==> priced.Entries() == old(priced.Entries()) + multiset{tx};
    }

    /** Replaces the pending transaction at the nonce of `tx`, if `tx` outbids it. */
    method ReplacePending(tx: Tx, isLocal: bool) returns (ok: bool)
      requires Valid() && tx.hash !in all.Known() && tx.nonce in Items(pending, tx.sender)
      requires isLocal || tx.sender !in locals
      modifies this`pending, all, priced
      ensures Valid()
      ensures ok <==> Outbids(tx, old(Items(pending, tx.sender))[tx.nonce], config.priceBump)
      ensures !ok ==> pending == old(pending) && all.Known() == old(all.Known())
      ensures ok ==> && all.Known() == Learned(old(all.Known()), old(Items(pending, tx.sender)), tx)
                     && Items(pending, tx.sender) == old(Items(pending, tx.sender))[tx.nonce := tx]
                     && SameListsElsewhere(tx.sender, old(pending), pending)
                     && all.remotes == With(old(all.remotes) - old(HashAt(Items(pending, tx.sender), tx.nonce)), tx,
                                            !isLocal)
      ensures !ok ==> all.remotes == old(all.remotes)
    {
      hide PoolOk, Backed, ListsOk, NoneEmpty, TxLookup.Known, Outbids, Capped;
      var a := tx.sender;
      AddedFine(pending, true, tx, config.priceBump);
      var r := Add(pending[a], tx, config.priceBump);
      if r.Rejected? {
        return false;
      }
      ReplacedOk(pending, queue, all.Known(), tx, r.list);
      BareIs(all.remotes, Items(pending, a), tx.nonce);
      Learn(tx, isLocal, r.replaced);
      pending := pending[a := r.list];
      return true;
    }

    /** Queues a new transaction whose nonce is not pending. */
    method EnqueueNew(tx: Tx, isLocal: bool) returns (replaced: bool, ok: bool)
      requires Valid() && tx.hash !in all.Known() && tx.nonce !in Items(pending, tx.sender)
      requires isLocal || tx.sender !in locals
      modifies this`queue, all, priced
      ensures Valid()
      ensures !ok ==> queue == old(queue) && all.Known() == old(all.Known())
      ensures ok ==> && all.Known() == Learned(old(all.Known()), old(Items(queue, tx.sender)), tx)
                     && Items(queue, tx.sender) == old(Items(queue, tx.sender))[tx.nonce := tx]
                     && SameListsElsewhere(tx.sender, old(queue), queue)
      ensures ok <==> (tx.nonce in old(Items(queue, tx.sender)) ==>
                         Outbids(tx, old(Items(queue, tx.sender))[tx.nonce], config.priceBump))
      ensures ok ==> (replaced <==> tx.nonce in old(Items(queue, tx.sender)))
      ensures ok ==>
                all.remotes == With(old(all.remotes) - old(HashAt(Items(queue, tx.sender), tx.nonce)), tx, !isLocal)
      ensures !ok ==> all.remotes == old(all.remotes)
      ensures ok && !replaced && !isLocal ==> priced.Contents() == Listed(old(priced.Contents()), tx)
    {
      hide PoolOk, Backed, ListsOk, NoneEmpty, TxLookup.Known, Outbids, Capped;
      var a := tx.sender;
      AddedFine(queue, false, tx, config.priceBump);
      var r := Add(ListOr(queue, a, false), tx, config.priceBump);
      if r.Rejected? {
        return false, false;
      }
      EnqueuedOk(pending, queue, all.Known(), tx, r.list);
      BareIs(all.remotes, Items(queue, a), tx.nonce);
      Learn(tx, isLocal, r.replaced);
      queue := queue[a := r.list];
      return r.replaced.Some?, true;
    }

    /** Marks an account local and moves its remote transactions over in the lookup. */
    method MarkLocal(addr: Address)
      requires Valid()
      modifies this`locals, all, priced
      ensures Valid() && locals == old(locals) + {addr} && all.Known() == old(all.Known())
      ensures all.remotes == RemotesOutside(old(all.remotes), locals)
    {
      hide PoolOk, ListsFine, IsPriceHeap, SlotsOf, HashKeyed;
      locals := locals + {addr};
      var migrated := all.RemoteToLocals(locals);
      Removed(migrated);
    }

    /** Files a validated transaction: in the place of its rival, if it outbids it, or else in the queue. */
    method Insert(tx: Tx, isLocal: bool) returns (replaced: bool, queued: bool, err: Option<PoolError>)
      requires Valid() && tx.hash !in all.Known() && (isLocal || tx.sender !in locals)
      modifies this`pending, this`queue, all, priced
      ensures Valid()
      ensures err == if BeatsRivals(old(all.Known()), tx, config.priceBump) then None else Some(ReplaceUnderpriced)
      ensures queued <==> err.None? && tx.nonce !in old(Items(pending, tx.sender))
      ensures Items(pending, tx.sender).Keys == old(Items(pending, tx.sender)).Keys
      ensures err.None? ==> all.Known() == Filed(old(all.Known()), tx)
      ensures err.None? ==> all.remotes == With(old(all.remotes) - Rivals(old(all.Known()), tx), tx, !isLocal)
      ensures err.None? && !replaced && !isLocal ==> priced.Contents() == Listed(old(priced.Contents()), tx)
      ensures err.Some? ==>
                all.Known() == old(all.Known()) && all.remotes == old(all.remotes) && TiersOf() == old(TiersOf())
      ensures replaced <==> err.None? && Rivals(old(all.Known()), tx) != {}
      ensures Lessened(pendingNonces.fallback, old(pending), pendingNonces.nonces, pending, pendingNonces.nonces)
      ensures old(Steady()) ==> Steady()
      ensures forall a :: old(NotReady(a)) && (a != tx.sender || replaced || err.Some?) ==> NotReady(a)
      ensures old(Payable()) && !Exceeds(tx, state.balance(tx.sender), maxGas) ==> Payable()
    {
      hide PoolOk, Backed, ListsFine, TxLookup.Known, Outbids, Interval, AllIntervals, Rivals, Filed, Learned, Lessened;
      NotLessened(pendingNonces.fallback, pending, pendingNonces.nonces);
      RivalsAre(pending, queue, all.Known(), tx, config.priceBump);
      var ok;
      if tx.nonce in Items(pending, tx.sender) {
        ok := ReplacePending(tx, isLocal);
        if ok {
          forall a ensures Items(pending, a).Keys == old(Items(pending, a).Keys) {
          }
        }
        SameKeysSameNonces(old(pending), pending, pendingNonces.fallback, pendingNonces.nonces);
        SameKeysLessened(pendingNonces.fallback, old(pending), pendingNonces.nonces, pending);
        return ok, false, if ok then None else Some(ReplaceUnderpriced);
      }
      replaced, ok := EnqueueNew(tx, isLocal);
      return ok && replaced, ok, if ok then None else Some(ReplaceUnderpriced);
    }

    /** The remote transactions belong to no local account. */
    lemma AllSpared()
      requires Backed()
      ensures all.remotes == RemotesOutside(all.remotes, locals)
    {
    }

    /** Files a validated transaction and, if it was added as a local one, marks its account local. */
    method InsertAs(tx: Tx, local: bool) returns (replaced: bool, err: Option<PoolError>)
      requires Valid() && tx.hash !in all.Known()
      modifies this`pending, this`queue, this`locals, all, priced
      ensures Valid() && Items(pending, tx.sender).Keys == old(Items(pending, tx.sender)).Keys
      ensures locals == if local && err.None? && tx.nonce !in Items(pending, tx.sender) then old(locals) + {tx.sender}
                        else old(locals)
      ensures err == if BeatsRivals(old(all.Known()), tx, config.priceBump) then None else Some(ReplaceUnderpriced)
      ensures err.None? ==> all.Known() == Filed(old(all.Known()), tx)
      ensures err.None? ==>
                var isLocal, rivals := local || tx.sender in old(locals), Rivals(old(all.Known()), tx);
                all.remotes == RemotesOutside(With(old(all.remotes) - rivals, tx, !isLocal), locals)
      ensures err.None? && !replaced && !(local || tx.sender in old(locals)) ==>
                priced.Contents() == Listed(old(priced.Contents()), tx)
      ensures err.Some? ==>
                all.Known() == old(all.Known()) && all.remotes == old(all.remotes) && TiersOf() == old(TiersOf())
      ensures replaced <==> err.None? && Rivals(old(all.Known()), tx) != {}
      ensures Lessened(pendingNonces.fallback, old(pending), pendingNonces.nonces, pending, pendingNonces.nonces)
      ensures old(Steady()) ==> Steady()
      ensures forall a :: old(NotReady(a)) && (a != tx.sender || replaced || err.Some?) ==> NotReady(a)
      ensures old(Payable()) && !Exceeds(tx, state.balance(tx.sender), maxGas) ==> Payable()
    {
      hide PoolOk, Backed, ListsFine, Steady, NotReady, TxLookup.Known, BeatsRivals, Rivals, Filed, Items, With;
      hide RemotesOutside, Lessened;
      var queued;
      replaced, queued, err := Insert(tx, local || tx.sender in locals);
      AllSpared();
      if queued && local && tx.sender !in locals {
        MarkLocal(tx.sender);
      }
    }

    method Lookup(hash: Hash) returns (known: bool)
      requires Backed()
      ensures known <==> hash in all.Known()
    {
      hide HashKeyed, SlotsOf, IsPriceHeap;
      var tx := all.Get(hash);
      known := tx.Some?;
    }

    /** A transaction of a local account is not tracked as remote. */
    lemma LocalNotRemote(h: Hash)
      requires Backed() && h in all.Known() && all.Known()[h].sender in locals
      ensures h !in all.remotes
    {
    }

    lemma NoLocalRemote()
      requires Backed()
      ensures forall h :: h in all.remotes && h in all.Known() ==> all.Known()[h].sender !in locals
    {
      forall h | h in all.Known() && all.Known()[h].sender in locals ensures h !in all.remotes {
        LocalNotRemote(h);
      }
    }

    /** Makes room for a validated transaction and files it. */
    method Admit(tx: Tx, local: bool) returns (replaced: bool, err: Option<PoolError>, ghost drop: seq<Tx>)
      requires Valid() && evicting == {} && tx.hash !in all.Known() && !Exceeds(tx, state.balance(tx.sender), maxGas)
      modifies this`pending, this`queue, this`locals, this`evicting, this`changesSinceReorg, all, priced, pendingNonces
      ensures Valid() && evicting == {}
      ensures err == if old(RoomVerdict(tx, local || tx.sender in locals)).Some?
                     then old(RoomVerdict(tx, local || tx.sender in locals))
                     else if BeatsRivals(old(all.Known()) - HashesOf(drop), tx, config.priceBump) then None
                     else Some(ReplaceUnderpriced)
      ensures HashesOf(drop) <= old(all.remotes).Keys && (old(HasRoom(tx)) ==> drop == [])
      ensures err.Some? && err != Some(ReplaceUnderpriced) ==> drop == []
      ensures Drops(old(all.remotes), old(priced.Contents()), drop, old(Needed(tx)))
      ensures all.Known() == if err.None? then Filed(old(all.Known()) - HashesOf(drop), tx)
                             else old(all.Known()) - HashesOf(drop)
      ensures changesSinceReorg == old(changesSinceReorg) + |drop|
      ensures err.Some? ==> all.remotes == old(all.remotes) - HashesOf(drop)
      ensures err.None? ==>
                var isLocal := local || tx.sender in old(locals);
                var rivals := Rivals(old(all.Known()) - HashesOf(drop), tx);
                all.remotes == RemotesOutside(With(old(all.remotes) - HashesOf(drop) - rivals, tx, !isLocal), locals)
      ensures err.None? && !replaced && !(local || tx.sender in old(locals)) && old(HasRoom(tx)) ==>
                priced.Contents() == Listed(old(priced.Contents()), tx)
      ensures err.Some? && err != Some(ReplaceUnderpriced) ==> TiersOf() == old(TiersOf())
      ensures replaced <==> err.None? && Rivals(old(all.Known()) - HashesOf(drop), tx) != {}
      ensures locals == if local && err.None? && tx.nonce !in Items(pending, tx.sender) then old(locals) + {tx.sender}
                        else old(locals)
      ensures old(HasRoom(tx)) ==> Items(pending, tx.sender).Keys == old(Items(pending, tx.sender)).Keys
      ensures Lessened(pendingNonces.fallback, old(pending), old(pendingNonces.nonces), pending, pendingNonces.nonces)
      ensures old(Steady()) ==>
                Steady() && forall a :: old(NotReady(a)) && (a != tx.sender || replaced || err.Some?) ==> NotReady(a)
      ensures old(Payable()) ==> Payable()
    {
      hide PoolOk, Backed, ListsFine, Steady, NotReady, TxLookup.Known, Outbids, BeatsRivals, Rivals, Filed, Items;
      hide With, RemotesOutside, Fits, RoomIn, Missing, HasRoom, Lessened, HashesOf, Drops, SumSlots, Surplus, Freed;
      hide SlotsOf;
      var isLocal := local || tx.sender in locals;
      NothingEvicted();
      RoomKinds(tx, isLocal);
      err, drop := MakeRoom(tx, isLocal);
      if err.Some? {
        return false, err, drop;
      }
      ghost var p := pending;
      replaced, err := InsertAs(tx, local);
      LessenedTwice(pendingNonces.fallback, old(pending), old(pendingNonces.nonces), p, pendingNonces.nonces, pending,
                    pendingNonces.nonces);
    }

    /**
     Validates a transaction and files it: it replaces its rival of the same sender and nonce, or goes to the
     queue. Only the rival and remote transactions evicted for it leave the pool; no other transaction of a local
     account does. An account becomes local if a transaction of it is added as local and goes to the queue.
     */
    method AddTx(tx: Tx, local: bool, checks: Checks)
      returns (replaced: bool, err: Option<PoolError>, ghost drop: seq<Tx>)
      requires Valid() && evicting == {}
      modifies this`pending, this`queue, this`locals, this`evicting, this`changesSinceReorg, all, priced, pendingNonces
      ensures Valid() && evicting == {}
      ensures AddedOne(old(RulesNow()), old(ShotOf()), tx, checks, local, err, drop, ShotOf())
      ensures forall h :: h in old(all.Known()) && old(all.Known())[h].sender in old(locals) ==> h !in HashesOf(drop)
      ensures err.Some? ==> all.remotes == old(all.remotes) - HashesOf(drop)
      ensures err.None? ==>
                var isLocal := local || tx.sender in old(locals);
                var rivals := Rivals(old(all.Known()) - HashesOf(drop), tx);
                all.remotes == RemotesOutside(With(old(all.remotes) - HashesOf(drop) - rivals, tx, !isLocal), locals)
      ensures err.None? && !replaced && !(local || tx.sender in old(locals)) && old(HasRoom(tx)) ==>
                priced.Contents() == Listed(old(priced.Contents()), tx)
      ensures err.Some? && err != Some(ReplaceUnderpriced) ==> TiersOf() == old(TiersOf())
      ensures replaced <==> err.None? && Rivals(old(all.Known()) - HashesOf(drop), tx) != {}
      ensures locals == if local && err.None? && tx.nonce !in Items(pending, tx.sender) then old(locals) + {tx.sender}
                        else old(locals)
      ensures old(HasRoom(tx)) ==> Items(pending, tx.sender).Keys == old(Items(pending, tx.sender)).Keys
      ensures Lessened(pendingNonces.fallback, old(pending), old(pendingNonces.nonces), pending, pendingNonces.nonces)
      ensures old(Steady()) ==>
                Steady() && forall a :: old(NotReady(a)) && (a != tx.sender || replaced || err.Some?) ==> NotReady(a)
      ensures old(Payable()) ==> Payable()
    {
      hide PoolOk, Backed, ListsFine, Steady, NotReady, Payable, TxLookup.Known, BeatsRivals, Rivals, Filed, Items;
      hide Exceeds;
      hide Validate, With, RemotesOutside, Fits, RoomIn, AddedOne, Missing;
      hide Lessened, HashesOf, Drops, SlotsOf;
      ghost var shot := ShotOf();
      NotLessened(pendingNonces.fallback, pending, pendingNonces.nonces);
      replaced, drop := false, [];
      NothingEvicted();
      KnownSlots();
      FeeIsListed();
      var known := Lookup(tx.hash);
      if known {
        RefusedOne(RulesNow(), shot, tx, checks, local, Some(AlreadyKnown), shot);
        return false, Some(AlreadyKnown), [];
      }
      err := Validate(tx, local || tx.sender in locals, checks, state, maxGas, gasPrice, priced.baseFee);
      ValidateSays(tx, local || tx.sender in locals, checks, state, maxGas, gasPrice, priced.baseFee);
      if err.Some? {
        RefusedOne(RulesNow(), shot, tx, checks, local, err, shot);
        return;
      }
      NoLocalRemote();
      replaced, err, drop := Admit(tx, local);
      KnownSlots();
      AdmittedOne(RulesNow(), shot, tx, checks, local, err, drop, ShotOf());
    }

    // -------------------------------------------------------------- truncating the queue

    /** Removes the queued transaction with the lowest nonce of an account. */
    method RemoveOldest(addr: Address)
      requires Valid() && addr in queue
      modifies this`pending, this`queue, all, priced, pendingNonces
      ensures Valid() && Total(queue) == old(Total(queue)) - 1
      ensures forall a :: Items(pending, a) == old(Items(pending, a))
      ensures SameListsElsewhere(addr, old(queue), queue) && Len(queue, addr) == old(Len(queue, addr)) - 1
      ensures Newest(old(Items(queue, addr)), Items(queue, addr))
      ensures old(Steady()) ==> Steady()
    {
      hide PoolOk, Backed, Steady, NotReady, TxLookup.Known, Total, ListsOk, Newest;
      var n := MinNonce(queue[addr].items.Keys);
      var tx := queue[addr].items[n];
      QueuedIs(pending, queue, all.Known(), addr, n);
      RemoveTx(tx.hash, true);
      TotalTakeOne(old(queue), queue, addr, n);
      WithoutLeast(old(Items(queue, addr)), Items(queue, addr), n);
    }

    /** Removes the `k` lowest nonces of an account's queue. */
    method RemoveLowest(addr: Address, k: nat)
      requires Valid() && k <= Len(queue, addr)
      modifies this`pending, this`queue, all, priced, pendingNonces
      ensures Valid() && Total(queue) == old(Total(queue)) - k
      ensures forall a :: Items(pending, a) == old(Items(pending, a))
      ensures SameListsElsewhere(addr, old(queue), queue) && Len(queue, addr) == old(Len(queue, addr)) - k
      ensures Newest(old(Items(queue, addr)), Items(queue, addr))
      ensures old(Steady()) ==> Steady()
    {
      hide Valid, Steady, Total;
      for i := 0 to k
        invariant Valid() && Total(queue) == old(Total(queue)) - i
        invariant forall a :: Items(pending, a) == old(Items(pending, a))
        invariant SameListsElsewhere(addr, old(queue), queue) && Len(queue, addr) == old(Len(queue, addr)) - i
        invariant Newest(old(Items(queue, addr)), Items(queue, addr))
        invariant old(Steady()) ==> Steady()
      {
        RemoveOldest(addr);
      }
    }

    /** Drops queued transactions of non-local accounts, account by account, until the limit is met. */
    method TruncateQueue()
      requires Valid()
      modifies this`pending, this`queue, all, priced, pendingNonces
      ensures Valid()
      ensures QueueCut(old(queue), queue, locals, config.globalQueue, old(queue).Keys - locals)
      ensures forall a :: Items(pending, a) == old(Items(pending, a))
      ensures old(Steady()) ==> Steady()
    {
      hide Valid, Steady, Total, QueueCut, Newest;
      NothingCut(queue, locals, config.globalQueue, {});
      NothingCut(queue, locals, config.globalQueue, queue.Keys - locals);
      var count := CountAll(queue);
      if count <= config.globalQueue {
        return;
      }
      var addresses := queue.Keys - locals;
      var drop := count - config.globalQueue;
      ghost var done: set<Address> := {};
      while drop > 0 && addresses != {}
        invariant Valid() && addresses == old(queue).Keys - locals - done && done <= old(queue).Keys - locals
        invariant Total(queue) == config.globalQueue + drop && drop >= 0
        invariant QueueCut(old(queue), queue, locals, config.globalQueue, done)
        invariant forall a :: a !in done ==> Items(queue, a) == old(Items(queue, a))
        invariant forall a :: Items(pending, a) == old(Items(pending, a))
        invariant old(Steady()) ==> Steady()
        decreases addresses
      {
        var addr :| addr in addresses;
        addresses := addresses - {addr};
        var size := Len(queue, addr);
        var k := if size <= drop then size else drop;
        ghost var before := queue;
        RemoveLowest(addr, k);
        drop := drop - k;
        NoneLeft(queue, addr);
        CutQueue(old(queue), before, queue, locals, config.globalQueue, done, addr);
        done := done + {addr};
      }
      CutOff(old(queue), queue, locals, config.globalQueue, done, old(queue).Keys - locals);
    }

    // -------------------------------------------------------------- resetting

    /** `addTxsLocked`: adds transactions one by one; those that fail are skipped. The accounts whose queue has
        grown are returned: no other account's next transaction has come to wait in the queue. */
    method AddTxs(txs: seq<(Tx, Checks)>, local: bool)
      returns (dirty: set<Address>, errs: seq<Option<PoolError>>, ghost drops: seq<seq<Tx>>, ghost shots: seq<Shot>)
      requires Valid() && evicting == {}
      modifies this`pending, this`queue, this`locals, this`evicting, this`changesSinceReorg, all, priced, pendingNonces
      ensures Valid() && evicting == {} && (!local ==> locals == old(locals))
      ensures txs == [] ==> TiersOf() == old(TiersOf())
      ensures Batch(old(RulesNow()), txs, local, errs, drops, shots) && |errs| == |txs|
      ensures shots[0] == old(ShotOf()) && shots[|txs|] == ShotOf()
      ensures |errs| == |txs| && dirty <= Senders(txs, errs) && OnlyAccepted(old(all.Known()), all.Known(), txs, errs)
      ensures pendingNonces.fallback == old(pendingNonces.fallback)
      ensures Lessened(pendingNonces.fallback, old(pending), old(pendingNonces.nonces), pending, pendingNonces.nonces)
      ensures old(Steady()) ==> Steady() && forall a :: a !in dirty && old(NotReady(a)) ==> NotReady(a)
      ensures old(Payable()) ==> Payable()
    {
      hide Valid, Steady, NotReady, TxLookup.Known, BeatsRivals, Rivals, Filed, HasRoom, With, Decision;
      hide RemotesOutside;
      NotLessened(pendingNonces.fallback, pending, pendingNonces.nonces);
      dirty, errs, drops, shots := {}, [], [], [ShotOf()];
      NoneAdded(RulesNow(), txs, local, ShotOf());
      assert OnlyAccepted(all.Known(), all.Known(), txs, errs);
      hide Lessened, OnlyAccepted, Senders, Drops, HashesOf, Batch;
      for i := 0 to |txs|
        invariant Valid() && evicting == {} && (!local ==> locals == old(locals))
        invariant i == 0 ==> TiersOf() == old(TiersOf())
        invariant Batch(RulesNow(), txs, local, errs, drops, shots) && |drops| == i && |shots| == i + 1
        invariant shots[0] == old(ShotOf()) && shots[i] == ShotOf()
        invariant |errs| == i && dirty <= Senders(txs, errs) && OnlyAccepted(old(all.Known()), all.Known(), txs, errs)
        invariant Lessened(pendingNonces.fallback, old(pending), old(pendingNonces.nonces), pending,
                           pendingNonces.nonces)
        invariant old(Payable()) ==> Payable()
        invariant old(Steady()) ==> Steady() && forall a :: a !in dirty && old(NotReady(a)) ==> NotReady(a)
      {
        var replaced, err;
        ghost var drop;
        ghost var p, nonces, known := pending, pendingNonces.nonces, all.Known();
        replaced, err, drop := AddTx(txs[i].0, local, txs[i].1);
        LessenedTwice(pendingNonces.fallback, old(pending), old(pendingNonces.nonces), p, nonces, pending,
                      pendingNonces.nonces);
        AcceptedOne(old(all.Known()), known, txs, errs, HashesOf(drop), err, all.Known());
        BatchOne(RulesNow(), txs, local, errs, drops, shots, err, drop, ShotOf());
        errs, drops, shots := errs + [err], drops + [drop], shots + [ShotOf()];
        if err.None? && !replaced {
          dirty := dirty + {txs[i].0.sender};
        }
      }
    }

    lemma FallsBack()
      requires Valid()
      ensures pendingNonces.fallback == state.nonce
    {
    }

    lemma SoundKnown()
      requires Valid()
      ensures all.slots == SlotsOf(all.Known()) && HashKeyed(all.Known())
    {
      KnownSlots();
    }

    lemma AllReturned(txs: seq<(Tx, Checks)>, errs: seq<Option<PoolError>>, drops: seq<seq<Tx>>, shots: seq<Shot>)
      requires Valid() && Batch(RulesNow(), txs, false, errs, drops, shots) && |errs| == |txs|
      requires shots[0].slots == SlotsOf(shots[0].known) && HashKeyed(shots[0].known) && shots[|txs|] == ShotOf()
      ensures Returned(RulesNow(), shots[0], txs, TiersOf())
    {
      hide Batch, Returned, PoolOk, Backed, ListsFine, SlotsOf, HashKeyed;
      BatchReturned(RulesNow(), txs, errs, drops, shots, TiersOf());
    }

    /** Moves to the state of a new head; the virtual nonces start over from it. */
    method AdoptState(state: ChainState, maxGas: nat)
      requires Valid()
      modifies this`state, this`maxGas, this`pendingNonces
      ensures Valid() && fresh(pendingNonces) && this.state == state && this.maxGas == maxGas
      ensures ShotOf() == old(ShotOf())
      ensures pendingNonces.nonces == map[] && pendingNonces.fallback == state.nonce
    {
      hide PoolOk, ListsFine, Backed, TxLookup.Known;
      this.state, this.maxGas := state, maxGas;
      pendingNonces := new TxNoncer(state.nonce);
    }

    /**
     Resets the pool to a new head, putting back what the reorganisation took out of the chain: the transactions are
     added one by one, and if all fit, each that validates in the new state and clashes with no other is back. Pending
     lists are only cut, and no virtual nonce is above the one in the new state.
     */
    method Reset(head: Option<Head>)
      returns (ghost errs: seq<Option<PoolError>>, ghost drops: seq<seq<Tx>>, ghost shots: seq<Shot>)
      requires Valid() && evicting == {}
      modifies this, all, priced, pendingNonces
      ensures Valid() && evicting == {} && locals == old(locals) && listedFee == old(listedFee)
      ensures pendingNonces == old(pendingNonces) || fresh(pendingNonces)
      ensures head.None? ==> TiersOf() == old(TiersOf()) && state == old(state) && maxGas == old(maxGas)
      ensures gasPrice == old(gasPrice)
      ensures head.Some? ==> state == head.value.state && maxGas == head.value.maxGas
      ensures head.Some? ==>
                && Batch(RulesNow(), head.value.reinject, false, errs, drops, shots) && |errs| == |head.value.reinject|
                && shots[0] == old(ShotOf()) && shots[|errs|] == ShotOf()
                && Returned(RulesNow(), old(ShotOf()), head.value.reinject, TiersOf())
      ensures head.Some? && head.value.reinject == [] ==> TiersOf() == Tiers(old(pending), old(queue), map[])
      ensures old(Steady()) ==> PoisedAll(EnvOf(), TiersOf(), old(state).nonce)
    {
      hide Valid, AllIntervals, TxLookup.Known, NextNotQueued, Lessened, PoisedAll, Batch, Returned, OnlyAccepted;
      hide Senders, SlotsOf, HashKeyed;
      FallsBack();
      errs, drops, shots := [], [], [];
      if head.None? {
        if Steady() {
          SteadyIsPoised(EnvOf(), TiersOf());
        }
        return;
      }
      AdoptState(head.value.state, head.value.maxGas);
      SoundKnown();
      var dirty, verdicts;
      dirty, verdicts, drops, shots := AddTxs(head.value.reinject, false);
      errs := verdicts;
      AllReturned(head.value.reinject, errs, drops, shots);
      if old(Steady()) {
        ResetIsPoised(EnvOf(), old(pending), old(pendingNonces.nonces), old(state).nonce, TiersOf());
      }
    }

    /** Reorders the price heaps for a new base fee. */
    method UpdateBaseFee(fee: Option<int>)
      requires Valid() && evicting == {}
      modifies priced, this`listedFee
      ensures Valid() && listedFee == if fee.Some? then fee else old(listedFee)
    {
      hide PoolOk, ListsFine, IsPriceHeap, SlotsOf;
      if fee.Some? {
        priced.SetBaseFee(fee, all.remotes);
        listedFee := fee;
      }
    }

    /** What a run does after a reset: promotes and demotes every account and sets the virtual nonces anew. `s0` are the
        nonces in the old state. */
    method Resettle(fee: Option<int>, ghost s0: Address -> nat)
      requires Valid() && evicting == {}
      modifies this`pending, this`queue, this`listedFee, all, priced, pendingNonces
      ensures Valid() && Payable() && ResettledAll(EnvOf(), old(TiersOf()), TiersOf())
      ensures listedFee == if fee.Some? then fee else old(listedFee)
      ensures PoisedAll(EnvOf(), old(TiersOf()), s0) ==>
                && MovedExactly(EnvOf(), old(TiersOf()), TiersOf(), s0)
                && ((forall a :: !GappedAt(EnvOf(), old(TiersOf()), s0, a)) ==> Steady())
                && (forall a :: NotReady(a) <==> !LeftBehindAt(EnvOf(), old(TiersOf()), s0, a))
      ensures PoisedAll(EnvOf(), old(TiersOf()), s0) && (forall a :: s0(a) <= state.nonce(a)) ==>
                OnlyOverlooked(EnvOf(), old(TiersOf()), s0)
    {
      hide PoolOk, Backed, ListsOk, PromotedAll, DemotedAll, ResettledAll, HighestNonces, TxLookup.Known, AllGapFree;
      hide AllPayable, NextNotQueued, OverlookedAt, LeftBehindAt, GappedAt, IntervalAt, PoisedAll;
      Disjoint(pending, queue, all.Known());
      ghost var t := TiersOf();
      PromoteExecutables(queue.Keys);
      ghost var t1 := TiersOf();
      DemoteUnexecutables();
      ghost var t2 := TiersOf();
      DemotedPayable(EnvOf(), t1, t1.pending.Keys, t2);
      UpdateBaseFee(fee);
      SetHighestNonces();
      Resettles(EnvOf(), t, t1, t1.pending.Keys, t2, TiersOf());
      ResettledOutcome(EnvOf(), t, TiersOf(), s0);
      SteadyIs();
    }

    /** The pool is steady if each account's pending nonces are the interval up to its virtual nonce. */
    lemma SteadyIs()
      requires Valid()
      ensures Steady() <==> forall a :: IntervalAt(EnvOf(), TiersOf(), a)
    {
      hide PoolOk, Backed, ListsFine, Interval;
      AllIntervalsAt(EnvOf(), TiersOf());
    }

    /** What a run does without a reset. */
    method PromoteDirty(dirty: set<Address>)
      requires Valid()
      modifies this`pending, this`queue, all, priced, pendingNonces
      ensures Valid() && PromotedAll(EnvOf(), old(TiersOf()), dirty, TiersOf())
      ensures (old(Payable()) ==> Payable()) && (old(Steady()) ==> Steady())
      ensures forall a :: a in dirty || old(NotReady(a)) ==> NotReady(a)
    {
      hide PoolOk, Backed, ListsFine, PromotedAll, TxLookup.Known, AllIntervals, AllPayable, NextNotQueued;
      Disjoint(pending, queue, all.Known());
      PromoteExecutables(dirty);
      if old(Steady()) {
        PromotedKeepsNonces(EnvOf(), old(TiersOf()), dirty, TiersOf());
      }
      PromotedNextNotQueued(EnvOf(), old(TiersOf()), dirty, TiersOf());
      if old(Payable()) {
        PromotedPayable(EnvOf(), old(TiersOf()), dirty, TiersOf());
      }
    }

    /** Brings both tiers of the pool back within their limits. */
    method Truncate() returns (ghost level: nat)
      requires Valid()
      modifies this`pending, this`queue, all, priced, pendingNonces
      ensures Valid() && Truncated(old(pending), pending, locals, config.accountSlots, config.globalSlots, level)
      ensures QueueCut(old(queue), queue, locals, config.globalQueue, old(queue).Keys - locals)
      ensures WithinLimits(pending, queue, locals, config.accountSlots, config.globalSlots, config.globalQueue)
      ensures old(Payable()) ==> Payable()
      ensures old(Steady()) ==> Steady() && forall a :: old(NotReady(a)) ==> NotReady(a)
    {
      hide PoolOk, Backed, AllIntervals, ListsOk, WithinLimits, Truncated, QueueCut, TxLookup.Known, AllPayable;
      Disjoint(pending, queue, all.Known());
      level := TruncatePending();
      ghost var p, q := pending, queue;
      TruncateQueue();
      SameTruncated(old(pending), p, pending, locals, config.accountSlots, config.globalSlots, level);
      LimitsHold(old(pending), pending, q, queue, locals, config.accountSlots, config.globalSlots, config.globalQueue,
                 level);
      OnlyShrunk(old(pending), pending, q, queue, locals, config.accountSlots, config.globalSlots, config.globalQueue,
                 level);
      if old(Payable()) {
        ShrunkPayable(old(pending), pending, state.balance, maxGas);
      }
      if old(Steady()) {
        forall a | old(NotReady(a)) ensures NotReady(a) {
          StillNotReady(old(pending), q, pending, queue, pendingNonces.fallback, old(pendingNonces.nonces),
                        pendingNonces.nonces, a);
        }
      }
    }

    /** The moves of a run: with a reset all accounts are promoted and demoted in the new state, without one the given
        ones are promoted. */
    method Move(reset: Option<Option<Head>>, dirty: set<Address>, fee: Option<int>) returns (ghost was: Tiers)
      requires Valid() && evicting == {}
      modifies this, all, priced, pendingNonces
      ensures Valid() && evicting == {} && locals == old(locals)
      ensures pendingNonces == old(pendingNonces) || fresh(pendingNonces)
      ensures listedFee == if reset.Some? && fee.Some? then fee else old(listedFee)
      ensures reset.None? || reset.value.None? ==> was == old(TiersOf()) && state == old(state) && maxGas == old(maxGas)
      ensures reset.Some? && reset.value.Some? ==> Adopted(reset.value.value, old(RulesNow()), old(ShotOf()), was)
      ensures reset.Some? && reset.value.Some? && reset.value.value.reinject == [] ==>
                was == Tiers(old(pending), old(queue), map[])
      ensures if reset.None? then PromotedAll(EnvOf(), was, dirty, TiersOf()) else ResettledAll(EnvOf(), was, TiersOf())
      ensures old(Steady()) && reset.Some? ==> MovedExactly(EnvOf(), was, TiersOf(), old(state).nonce)
      ensures old(Steady()) && reset.Some? && NoncesNotFalling(old(state), reset.value) ==>
                OnlyOverlooked(EnvOf(), was, old(state).nonce)
      ensures old(Steady()) && (reset.Some? ==> forall a :: !GappedAt(EnvOf(), was, old(state).nonce, a)) ==> Steady()
      ensures reset.Some? || old(Payable()) ==> Payable()
      ensures reset.None? ==> forall a :: a in dirty || old(NotReady(a)) ==> NotReady(a)
      ensures old(Steady()) && reset.Some? ==>
                forall a :: NotReady(a) <==> !LeftBehindAt(EnvOf(), was, old(state).nonce, a)
    {
      hide Valid, Steady, Payable, NotReady, PromotedAll, ResettledAll, MovedExactly, OnlyOverlooked, LeftBehindAt;
      hide GappedAt, IntervalAt, PoisedAll, Batch, Returned;
      if reset.Some? {
        ghost var errs, drops, shots := Reset(reset.value);
        was := TiersOf();
        Resettle(fee, old(state).nonce);
      } else {
        was := TiersOf();
        PromoteDirty(dirty);
      }
    }

    /** The pool has moved to the state of `head`, and the moves of the run start from tiers in which the transactions
        of dropped blocks are back. */
    ghost predicate Adopted(head: Head, rb: Rulebook, s: Shot, was: Tiers)
      reads this`state, this`maxGas
    {
      && state == head.state && maxGas == head.maxGas
      && Returned(rb.(state := head.state, maxGas := head.maxGas), s, head.reinject, was)
    }

    /**
     One background run: an optional reset to a new head, promotion, demotion, and truncation. `was` are the tiers
     the moves start from, `moved` what they lead to, before both are cut to their limits.
     */
    method RunReorg(reset: Option<Option<Head>>, dirty: set<Address>, fee: Option<int>)
      returns (ghost was: Tiers, ghost moved: Tiers, ghost level: nat)
      requires Valid() && evicting == {}
      modifies this, all, priced, pendingNonces
      ensures Valid() && evicting == {} && changesSinceReorg == 0 && locals == old(locals)
      ensures priced.baseFee == if reset.Some? && fee.Some? then fee else old(priced.baseFee)
      ensures reset.None? || reset.value.None? ==> was == old(TiersOf()) && state == old(state) && maxGas == old(maxGas)
      ensures reset.Some? && reset.value.Some? ==> Adopted(reset.value.value, old(RulesNow()), old(ShotOf()), was)
      ensures reset.Some? && reset.value.Some? && reset.value.value.reinject == [] ==>
                was == Tiers(old(pending), old(queue), map[])
      ensures if reset.None? then PromotedAll(EnvOf(), was, dirty, moved) else ResettledAll(EnvOf(), was, moved)
      ensures Truncated(moved.pending, pending, locals, config.accountSlots, config.globalSlots, level)
      ensures QueueCut(moved.queue, queue, locals, config.globalQueue, moved.queue.Keys - locals)
      ensures WithinLimits(pending, queue, locals, config.accountSlots, config.globalSlots, config.globalQueue)
      ensures old(Steady()) && reset.Some? ==> MovedExactly(EnvOf(), was, moved, old(state).nonce)
      ensures old(Steady()) && reset.Some? && NoncesNotFalling(old(state), reset.value) ==>
                OnlyOverlooked(EnvOf(), was, old(state).nonce)
      ensures old(Steady()) && (reset.Some? ==> forall a :: !GappedAt(EnvOf(), was, old(state).nonce, a)) ==> Steady()
      ensures reset.Some? || old(Payable()) ==> Payable()
      ensures reset.None? && old(Steady()) ==> forall a :: a in dirty || old(NotReady(a)) ==> NotReady(a)
      ensures reset.Some? && old(Steady()) && (forall a :: !GappedAt(EnvOf(), was, old(state).nonce, a)) ==>
                forall a :: !LeftBehindAt(EnvOf(), was, old(state).nonce, a) ==> NotReady(a)
    {
      hide Valid, Steady, Payable, NotReady, PromotedAll, ResettledAll, MovedExactly, OnlyOverlooked, LeftBehindAt;
      hide GappedAt, IntervalAt, PoisedAll, Truncated, QueueCut, WithinLimits, Returned, EnvOf, Adopted, ShotOf;
      hide RulesNow, NoncesNotFalling;
      FeeListed();
      was := Move(reset, dirty, fee);
      moved := TiersOf();
      level := Truncate();
      ForgetChanges();
      FeeListed();
    }

    lemma FeeListed()
      requires Valid()
      ensures priced.baseFee == listedFee
    {
      FeeIsListed();
    }

    method ForgetChanges()
      requires Valid()
      modifies this`changesSinceReorg
      ensures Valid() && changesSinceReorg == 0
    {
      changesSinceReorg := 0;
    }
  }
}

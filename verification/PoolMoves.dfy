/** How `promoteExecutables` and `demoteUnexecutables` move the transactions of one account. */
module PoolMoves {
  import opened Transactions
  import opened AccountLists
  import opened Lookups
  import opened PoolInvariants

  // ---------------------------------------------------------------- promotion

  /** The parameters a promotion or demotion of one account depends on. */
  datatype Rules = Rules(stateNonce: nat, balance: int, maxGas: nat, virtualNonce: nat, local: bool, accountQueue: nat,
                         bump: nat)

  predicate Affordable(tx: Tx, r: Rules) {
    !Exceeds(tx, r.balance, r.maxGas)
  }

  /** The transactions that are neither too old nor too costly. */
  function Eligible(items: map<nat, Tx>, r: Rules): map<nat, Tx> {
    map n | n in items && r.stateNonce <= n && Affordable(items[n], r) :: items[n]
  }

  /** The consecutive run of queued transactions that becomes executable. */
  function Run(items: map<nat, Tx>, r: Rules): map<nat, Tx> {
    ReadyRun(Eligible(items, r), r.virtualNonce)
  }

  /** What stays queued: all that is left for a local account, the lowest nonces for others. */
  function Kept(items: map<nat, Tx>, r: Rules): map<nat, Tx> {
    var rest := Eligible(items, r) - Run(items, r).Keys;
    if r.local then rest else Lowest(rest, r.accountQueue)
  }

  /** What leaves the pool. */
  function Gone(items: map<nat, Tx>, r: Rules): map<nat, Tx> {
    items - Run(items, r).Keys - Kept(items, r).Keys
  }

  /** Forwarding and filtering a queued list leaves exactly the eligible transactions. */
  lemma FilterEligible(l: AccountTxs, r: Rules)
    requires Good(l) && !l.strict
    ensures var f := Filter(Forward(l, r.stateNonce), r.balance, r.maxGas).list;
            f.items == Eligible(l.items, r) && Good(f) && !f.strict
  {
    FilterIsPlain(Forward(l, r.stateNonce), r.balance, r.maxGas);
    hide Filter, Good;
  }

  lemma RunIsSub(items: map<nat, Tx>, r: Rules)
    ensures Sub(Run(items, r), items) && Sub(Kept(items, r), items)
    ensures Run(items, r).Keys !! Kept(items, r).Keys
    ensures Sub(Gone(items, r), items)
    ensures items - Gone(items, r).Keys - Run(items, r).Keys == Kept(items, r)
    ensures forall n :: n in Gone(items, r) ==> n !in Run(items, r)
  {
    var some := Eligible(items, r);
    assert Sub(some, items);
    hide Eligible, ReadyRun, Lowest, Sub;
    RunSub(some, r.virtualNonce);
    LowestSub(some - Run(items, r).Keys, r.accountQueue);
    ThreeParts(items, some, Run(items, r), Kept(items, r));
  }

  lemma RunSub(items: map<nat, Tx>, start: nat)
    ensures Sub(ReadyRun(items, start), items)
  {
  }

  lemma LowestSub(items: map<nat, Tx>, k: nat)
    ensures Sub(Lowest(items, k), items) && Sub(items, items)
  {
    assert LowestKeys(items.Keys, k) <= items.Keys;
  }

  lemma ThreeParts(all: map<nat, Tx>, items: map<nat, Tx>, run: map<nat, Tx>, kept: map<nat, Tx>)
    requires Sub(items, all) && Sub(run, items) && Sub(kept, items - run.Keys)
    ensures Sub(run, all) && Sub(kept, all) && run.Keys !! kept.Keys && Sub(all - run.Keys - kept.Keys, all)
    ensures all - (all - run.Keys - kept.Keys).Keys - run.Keys == kept
  {
  }

  lemma PromotedAccountOk(a: Address, p: map<nat, Tx>, q: map<nat, Tx>, known: map<Hash, Tx>, r: Rules)
    requires AccountOk(a, p, q, known) && HashKeyed(known)
    ensures AccountOk(a, p + Run(q, r), Kept(q, r), known - Hashes(Gone(q, r)))
    ensures SameElsewhere(a, known, known - Hashes(Gone(q, r))) && HashKeyed(known - Hashes(Gone(q, r)))
  {
    hide AccountOk, SameElsewhere, HashKeyed, Run, Kept, Gone, Hashes;
    RunIsSub(q, r);
    var gone, run := Gone(q, r), Run(q, r);
    DropQueued(a, p, q, known, gone);
    Promote(a, p, q - gone.Keys, known - Hashes(gone), run);
  }

  /** The pending and queued lists after promoting account `a`. */
  ghost predicate Promoted(pending: Accounts, queue: Accounts, a: Address, r: Rules, pending': Accounts,
                           queue': Accounts)
  {
    && SameListsElsewhere(a, pending, pending') && SameListsElsewhere(a, queue, queue')
    && Items(pending', a) == Items(pending, a) + Run(Items(queue, a), r)
    && Items(queue', a) == Kept(Items(queue, a), r)
  }

  /** Promotion keeps the records of the pool in step. */
  lemma PromotionOk(pending: Accounts, queue: Accounts, known: map<Hash, Tx>, a: Address, r: Rules, pending': Accounts,
                    queue': Accounts)
    requires PoolOk(pending, queue, known) && Promoted(pending, queue, a, r, pending', queue')
    ensures PoolOk(pending', queue', known - Hashes(Gone(Items(queue, a), r)))
  {
    assert AccountOk(a, Items(pending, a), Items(queue, a), known);
    hide AccountOk, SameElsewhere, HashKeyed, Run, Kept, Gone, Hashes;
    PromotedAccountOk(a, Items(pending, a), Items(queue, a), known, r);
    Confined(a, pending, queue, known, pending', queue', known - Hashes(Gone(Items(queue, a), r)));
  }

  /** The virtual nonce after promoting: the end of the run, if there is one. */
  function NonceAfter(items: map<nat, Tx>, r: Rules): nat {
    var some := Eligible(items, r);
    if some == map[] || r.virtualNonce < MinNonce(some.Keys) then r.virtualNonce
    else RunEnd(some.Keys, MinNonce(some.Keys))
  }

  /** The run is a block of consecutive nonces that starts at or below the virtual nonce. */
  lemma RunIsBlock(items: map<nat, Tx>, r: Rules)
    ensures Run(items, r) == map[] ==> NonceAfter(items, r) == r.virtualNonce
    ensures Run(items, r) != map[] ==>
              var first, end := MinNonce(Eligible(items, r).Keys), NonceAfter(items, r);
              && r.stateNonce <= first <= r.virtualNonce && first < end && first in items
              && forall n :: n in Run(items, r) <==> first <= n < end
  {
    var some := Eligible(items, r);
    assert Sub(some, items) && forall n :: n in some ==> r.stateNonce <= n;
    hide Eligible;
    if some != map[] && MinNonce(some.Keys) <= r.virtualNonce {
      var first := MinNonce(some.Keys);
      var end := RunEnd(some.Keys, first);
      assert first in some.Keys && first < end;
      assert first in Run(items, r);
      forall n | first <= n < end ensures n in Run(items, r) {
        assert n in some.Keys;
      }
    }
  }

  /** Promotion keeps the pending nonces gap-free, and keeps them an interval. */
  lemma PromotionNonces(p: set<nat>, q: map<nat, Tx>, r: Rules)
    requires p !! q.Keys
    ensures GapFree(p, r.stateNonce, r.virtualNonce) ==> GapFree(p + Run(q, r).Keys, r.stateNonce, NonceAfter(q, r))
    ensures Interval(p, r.stateNonce, r.virtualNonce) ==> Interval(p + Run(q, r).Keys, r.stateNonce, NonceAfter(q, r))
  {
    RunIsBlock(q, r);
    hide Run, NonceAfter, Eligible;
    if Run(q, r) == map[] {
      assert p + Run(q, r).Keys == p;
    }
  }

  /** Sorts a queued list into what is dropped, what is ready, and what stays. */
  method SplitQueue(l: AccountTxs, r: Rules) returns (ready: map<nat, Tx>, stays: AccountTxs, gone: map<nat, Tx>)
    requires Good(l) && !l.strict
    ensures ready == Run(l.items, r) && stays.items == Kept(l.items, r) && gone == Gone(l.items, r)
    ensures Capped(stays) && !stays.strict
  {
    FilterEligible(l, r);
    hide Filter, ReadyRun, Lowest, Good, Capped, Eligible, Forward;
    var list := Filter(Forward(l, r.stateNonce), r.balance, r.maxGas).list;
    GoodIsCapped(list);
    ready := ReadyRun(list.items, r.virtualNonce);
    LessIsCapped(list, ready.Keys);
    list := list.(items := list.items - ready.Keys);
    LowestIsCapped(list, r.accountQueue);
    stays := if r.local then list else Cap(list, r.accountQueue);
    gone := l.items - ready.Keys - stays.items.Keys;
  }

  lemma GoodIsCapped(l: AccountTxs)
    requires Good(l)
    ensures Capped(l)
  {
  }

  lemma LessIsCapped(l: AccountTxs, keys: set<nat>)
    requires Capped(l)
    ensures Capped(l.(items := l.items - keys))
  {
  }

  lemma LowestIsCapped(l: AccountTxs, k: nat)
    requires Capped(l)
    ensures Capped(Cap(l, k))
  {
    LowestSub(l.items, k);
  }

  /** Promotes account `a`: drops what is too old or too costly, moves the run, caps the rest. */
  method PromoteLists(pending0: Accounts, queue0: Accounts, a: Address, r: Rules)
    returns (pending: Accounts, queue: Accounts, gone: map<nat, Tx>)
    requires ListsFine(pending0, queue0) && a in queue0 && WellFiled(queue0[a].items)
    requires Items(pending0, a).Keys !! queue0[a].items.Keys
    ensures ListsFine(pending, queue) && Promoted(pending0, queue0, a, r, pending, queue)
    ensures gone == Gone(Items(queue0, a), r)
  {
    var ready, stays;
    ready, stays, gone := SplitQueue(queue0[a], r);
    RunIsSub(queue0[a].items, r);
    hide Run, Kept, Gone, Add;
    queue := PutBack(queue0, a, stays);
    hide PutBack;
    pending := AddAll(pending0, true, a, ready, r.bump);
  }

  // ---------------------------------------------------------------- demotion

  /** At or below nonce `n` there is a transaction, not yet mined, that the account cannot pay. */
  ghost predicate Blocked(items: map<nat, Tx>, r: Rules, n: nat) {
    exists m :: m in items && r.stateNonce <= m <= n && !Affordable(items[m], r)
  }

  /** The pending transactions below the first one that cannot be paid. */
  ghost function Intact(items: map<nat, Tx>, r: Rules): map<nat, Tx> {
    map n | n in items && r.stateNonce <= n && !Blocked(items, r, n) :: items[n]
  }

  /** What stays pending: the intact transactions, unless there is a gap in front of them. */
  ghost function Stays(items: map<nat, Tx>, r: Rules): map<nat, Tx> {
    if r.stateNonce in Intact(items, r) then Intact(items, r) else map[]
  }

  /** What goes back to the queue: everything else that is neither too old nor too costly. */
  ghost function Back(items: map<nat, Tx>, r: Rules): map<nat, Tx> {
    Eligible(items, r) - Stays(items, r).Keys
  }

  /** What leaves the pool. */
  ghost function Lost(items: map<nat, Tx>, r: Rules): map<nat, Tx> {
    items - Eligible(items, r).Keys
  }

  ghost predicate Demoted(pending: Accounts, queue: Accounts, a: Address, r: Rules, pending': Accounts,
                          queue': Accounts)
  {
    && SameListsElsewhere(a, pending, pending') && SameListsElsewhere(a, queue, queue')
    && Items(pending', a) == Stays(Items(pending, a), r)
    && Items(queue', a) == Items(queue, a) + Back(Items(pending, a), r)
  }

  lemma StaysEligible(items: map<nat, Tx>, r: Rules)
    ensures Sub(Intact(items, r), Eligible(items, r)) && Sub(Stays(items, r), Eligible(items, r))
    ensures Sub(Eligible(items, r), items)
  {
    forall n | n in Intact(items, r) ensures n in Eligible(items, r) {
      assert !Blocked(items, r, n);
    }
  }

  lemma DemotionParts(items: map<nat, Tx>, r: Rules)
    ensures Sub(Stays(items, r), items) && Sub(Back(items, r), items) && Sub(Lost(items, r), items)
    ensures items - Lost(items, r).Keys - Back(items, r).Keys == Stays(items, r)
    ensures Sub(Back(items, r), items - Lost(items, r).Keys)
  {
    StaysEligible(items, r);
    hide Stays, Eligible;
  }

  /** A payable transaction is invalidated exactly if one below it, that is not too old, is not payable. */
  lemma BlockedIs(l: AccountTxs, r: Rules, n: nat)
    requires l.strict && n in l.items && r.stateNonce <= n
    ensures Affordable(l.items[n], r) ==>
              (Blocked(l.items, r, n) <==> IsInvalidated(Forward(l, r.stateNonce), r.balance, r.maxGas, n))
    ensures !Affordable(l.items[n], r) ==> Blocked(l.items, r, n)
  {
    var fwd := Forward(l, r.stateNonce);
    assert forall m :: m in fwd.items <==> m in l.items && r.stateNonce <= m;
    if Affordable(l.items[n], r) && Blocked(l.items, r, n) {
      var m :| m in l.items && r.stateNonce <= m <= n && !Affordable(l.items[m], r);
      assert m in fwd.items && m < n && Exceeds(fwd.items[m], r.balance, r.maxGas);
    }
  }

  lemma FilterAt(l: AccountTxs, r: Rules, n: nat)
    requires Good(l) && l.strict && n in l.items && r.stateNonce <= n
    ensures var f := Filter(Forward(l, r.stateNonce), r.balance, r.maxGas);
            && (n in f.list.items <==> n in Intact(l.items, r))
            && (n in f.invalids <==> n in Eligible(l.items, r) && n !in Intact(l.items, r))
  {
    FilterIsPlain(Forward(l, r.stateNonce), r.balance, r.maxGas);
    BlockedIs(l, r, n);
    hide Filter, Blocked, IsInvalidated, Good;
  }

  lemma FilterParts(l: AccountTxs, r: Rules)
    requires Good(l) && l.strict
    ensures var f := Filter(Forward(l, r.stateNonce), r.balance, r.maxGas);
            && Sub(f.list.items, From(l.items, r.stateNonce)) && Sub(f.invalids, From(l.items, r.stateNonce))
            && Capped(f.list) && f.list.strict
  {
    FilterIsPlain(Forward(l, r.stateNonce), r.balance, r.maxGas);
    hide Filter, IsInvalidated, PlainRemoved;
  }

  /** Forwarding and filtering a pending list leaves exactly the intact transactions, and invalidates the eligible
      rest. */
  lemma FilterIntact(l: AccountTxs, r: Rules)
    requires Good(l) && l.strict
    ensures var f := Filter(Forward(l, r.stateNonce), r.balance, r.maxGas);
            && f.list.items == Intact(l.items, r) && f.invalids == Eligible(l.items, r) - Intact(l.items, r).Keys
            && Capped(f.list) && f.list.strict
  {
    FilterParts(l, r);
    var all, f := From(l.items, r.stateNonce), Filter(Forward(l, r.stateNonce), r.balance, r.maxGas);
    assert Sub(Intact(l.items, r), all) && Sub(Eligible(l.items, r), all);
    hide Filter, Good, Capped, Forward, Intact, Eligible, Sub;
    forall n | n in all
      ensures n in f.list.items <==> n in Intact(l.items, r)
      ensures n in f.invalids <==> n in Eligible(l.items, r) && n !in Intact(l.items, r)
    {
      FilterAt(l, r, n);
    }
    SameParts(all, f.list.items, f.invalids, Intact(l.items, r), Eligible(l.items, r));
  }

  lemma SameParts(all: map<nat, Tx>, kept: map<nat, Tx>, invalids: map<nat, Tx>, intact: map<nat, Tx>,
                  some: map<nat, Tx>)
    requires Sub(kept, all) && Sub(invalids, all) && Sub(intact, all) && Sub(some, all)
    requires forall n :: n in all ==> (n in kept <==> n in intact) && (n in invalids <==> n in some && n !in intact)
    ensures kept == intact && invalids == some - intact.Keys
  {
  }

  lemma DemotedAccountOk(a: Address, p: map<nat, Tx>, q: map<nat, Tx>, known: map<Hash, Tx>, r: Rules)
    requires AccountOk(a, p, q, known) && HashKeyed(known)
    ensures AccountOk(a, Stays(p, r), q + Back(p, r), known - Hashes(Lost(p, r)))
    ensures SameElsewhere(a, known, known - Hashes(Lost(p, r))) && HashKeyed(known - Hashes(Lost(p, r)))
  {
    hide AccountOk, SameElsewhere, HashKeyed, Stays, Back, Lost, Hashes;
    DemotionParts(p, r);
    var lost := Lost(p, r);
    DropPending(a, p, q, known, lost);
    Demote(a, p - lost.Keys, q, known - Hashes(lost), Back(p, r));
  }

  /** Demotion keeps the records of the pool in step. */
  lemma DemotionOk(pending: Accounts, queue: Accounts, known: map<Hash, Tx>, a: Address, r: Rules, pending': Accounts,
                   queue': Accounts)
    requires PoolOk(pending, queue, known) && Demoted(pending, queue, a, r, pending', queue')
    ensures PoolOk(pending', queue', known - Hashes(Lost(Items(pending, a), r)))
  {
    assert AccountOk(a, Items(pending, a), Items(queue, a), known);
    hide AccountOk, SameElsewhere, HashKeyed, Stays, Back, Lost, Hashes;
    DemotedAccountOk(a, Items(pending, a), Items(queue, a), known, r);
    Confined(a, pending, queue, known, pending', queue', known - Hashes(Lost(Items(pending, a), r)));
  }

  /** The first nonce from the state nonce on that is missing or cannot be paid. */
  ghost function StaysEnd(items: map<nat, Tx>, r: Rules): nat {
    RunEnd(Intact(items, r).Keys, r.stateNonce)
  }

  /** Demoting a gap-free account leaves an interval that starts at the state nonce. */
  lemma DemotionInterval(items: map<nat, Tx>, r: Rules, g: nat)
    requires GapFree(items.Keys, r.stateNonce, g)
    ensures Interval(Stays(items, r).Keys, r.stateNonce, StaysEnd(items, r))
  {
    var end := StaysEnd(items, r);
    forall n | n in Intact(items, r) ensures n < end {
    }
  }

  /** With a gap in front, the intact transactions go back as well. */
  lemma GapGoesBack(some: map<nat, Tx>, intact: map<nat, Tx>)
    requires Sub(intact, some)
    ensures (some - intact.Keys) + intact == some && some - {} == some
  {
  }

  lemma RestIsLost(items: map<nat, Tx>, r: Rules)
    ensures items - Stays(items, r).Keys - Back(items, r).Keys == Lost(items, r)
  {
    StaysEligible(items, r);
    hide Stays, Eligible;
  }

  /** Sorts a pending list into what stays, what goes back to the queue, and what is dropped. */
  method SplitPending(l: AccountTxs, r: Rules) returns (stays: AccountTxs, back: map<nat, Tx>, lost: map<nat, Tx>)
    requires Good(l) && l.strict
    ensures stays.items == Stays(l.items, r) && back == Back(l.items, r) && lost == Lost(l.items, r)
    ensures Capped(stays) && stays.strict
  {
    FilterIntact(l, r);
    StaysEligible(l.items, r);
    hide Filter, Capped, WellFiled, Lowest, Forward, Intact, Eligible, Sub, Lost;
    var f := Filter(Forward(l, r.stateNonce), r.balance, r.maxGas);
    stays, back := f.list, f.invalids;
    if stays.items != map[] && r.stateNonce !in stays.items {
      GapGoesBack(Eligible(l.items, r), stays.items);
      back := back + stays.items;
      LowestNone(stays.items);
      LowestIsCapped(stays, 0);
      stays := Cap(stays, 0);
    }
    RestIsLost(l.items, r);
    lost := l.items - stays.items.Keys - back.Keys;
  }

  /** Demotes account `a`: drops what is too old or too costly and queues what that invalidates. */
  method DemoteLists(pending0: Accounts, queue0: Accounts, a: Address, r: Rules)
    returns (pending: Accounts, queue: Accounts, lost: map<nat, Tx>)
    requires ListsFine(pending0, queue0) && a in pending0 && WellFiled(pending0[a].items)
    requires Items(queue0, a).Keys !! pending0[a].items.Keys
    ensures ListsFine(pending, queue) && Demoted(pending0, queue0, a, r, pending, queue)
    ensures lost == Lost(Items(pending0, a), r) && pending.Keys <= pending0.Keys
  {
    var stays, back;
    stays, back, lost := SplitPending(pending0[a], r);
    DemotionParts(pending0[a].items, r);
    hide Stays, Back, Lost, Add;
    pending := PutBack(pending0, a, stays);
    hide PutBack;
    queue := AddAll(queue0, false, a, back, r.bump);
  }

  lemma LowestNone(items: map<nat, Tx>)
    ensures Lowest(items, 0) == map[]
  {
  }

  // ---------------------------------------------------------------- what the moves achieve

  /** Every pending transaction of account `a` is within the balance and the gas limit. */
  ghost predicate PayableAt(p: Accounts, a: Address, balance: int, maxGas: nat) {
    forall n :: n in Items(p, a) ==> !Exceeds(Items(p, a)[n], balance, maxGas)
  }

  ghost predicate AllPayable(p: Accounts, balance: Address -> int, maxGas: nat) {
    forall a :: PayableAt(p, a, balance(a), maxGas)
  }

  lemma RunPayable(items: map<nat, Tx>, r: Rules)
    ensures forall n :: n in Run(items, r) ==> !Exceeds(Run(items, r)[n], r.balance, r.maxGas)
  {
    RunSub(Eligible(items, r), r.virtualNonce);
    hide ReadyRun;
  }

  /** After promotion the queue does not hold the account's next nonce. */
  lemma PromotedNotReady(items: map<nat, Tx>, r: Rules)
    ensures NonceAfter(items, r) !in Kept(items, r)
  {
    hide Eligible, ReadyRun;
    LowestSub(Eligible(items, r) - Run(items, r).Keys, r.accountQueue);
  }

  /** Lists that only shrink stay payable. */
  lemma ShrunkPayable(p: Accounts, p': Accounts, balance: Address -> int, maxGas: nat)
    requires AllPayable(p, balance, maxGas) && forall a :: Sub(Items(p', a), Items(p, a))
    ensures AllPayable(p', balance, maxGas)
  {
    forall a ensures PayableAt(p', a, balance(a), maxGas) {
      assert PayableAt(p, a, balance(a), maxGas) && Sub(Items(p', a), Items(p, a));
    }
  }

  lemma TakenPayable(pending: Accounts, queue: Accounts, tx: Tx, pending': Accounts, queue': Accounts,
                     balance: Address -> int, maxGas: nat)
    requires Taken(pending, queue, tx, pending', queue') && AllPayable(pending, balance, maxGas)
    ensures AllPayable(pending', balance, maxGas)
  {
    forall b ensures Sub(Items(pending', b), Items(pending, b)) {
    }
    ShrunkPayable(pending, pending', balance, maxGas);
  }

  lemma Disjoint(pending: Accounts, queue: Accounts, known: map<Hash, Tx>)
    requires PoolOk(pending, queue, known)
    ensures forall a :: Items(pending, a).Keys !! Items(queue, a).Keys
  {
    forall a ensures Items(pending, a).Keys !! Items(queue, a).Keys {
      assert AccountOk(a, Items(pending, a), Items(queue, a), known);
    }
  }

  /** If pending and queued lists only shrink and the nonces follow, no queued transaction becomes the next. */
  lemma StillNotReady(pending: Accounts, queue: Accounts, pending': Accounts, queue': Accounts,
                      state: Address -> nat, nonces: map<Address, nat>, nonces': map<Address, nat>, a: Address)
    requires AllIntervals(pending, state, nonces) && AllIntervals(pending', state, nonces')
    requires Items(pending, a).Keys !! Items(queue, a).Keys
    requires Sub(Items(pending', a), Items(pending, a)) && Sub(Items(queue', a), Items(queue, a))
    requires VirtualNonce(nonces, state, a) !in Items(queue, a)
    ensures VirtualNonce(nonces', state, a) !in Items(queue', a)
  {
    var g, g' := VirtualNonce(nonces, state, a), VirtualNonce(nonces', state, a);
    assert Interval(Items(pending, a).Keys, state(a), g) && Interval(Items(pending', a).Keys, state(a), g');
    if g' > state(a) {
      assert g' - 1 in Items(pending', a).Keys;
    }
    if g' < g {
      assert g' in Items(pending, a).Keys;
    }
  }

  // ---------------------------------------------------------------- account by account

  /** What promoting an account with pending `p`, queued `q` leaves, and its new virtual nonce. */
  ghost predicate PromotedAt(p: map<nat, Tx>, q: map<nat, Tx>, r: Rules, p': map<nat, Tx>, q': map<nat, Tx>, v': nat) {
    p' == p + Run(q, r) && q' == Kept(q, r) && v' == NonceAfter(q, r)
  }

  ghost predicate DemotedAt(p: map<nat, Tx>, q: map<nat, Tx>, r: Rules, p': map<nat, Tx>, q': map<nat, Tx>) {
    p' == Stays(p, r) && q' == q + Back(p, r)
  }

  /** Nothing happens to an account without queued transactions. */
  lemma NothingQueued(p: map<nat, Tx>, r: Rules)
    ensures PromotedAt(p, map[], r, p, map[], r.virtualNonce)
  {
    assert Eligible(map[], r) == map[] && p + map[] == p;
    LowestNone(map[]);
    LowestSub(map[], r.accountQueue);
  }

  lemma NothingPendingAt(q: map<nat, Tx>, r: Rules)
    ensures DemotedAt(map[], q, r, map[], q)
  {
    assert Eligible(map[], r) == map[] && Intact(map[], r) == map[];
    assert q + map[] == q;
  }

  /** The nonce past the highest pending one. */
  ghost function NextNonce(p: map<nat, Tx>, stateNonce: nat): nat {
    if p == map[] then stateNonce else MaxNonce(p.Keys) + 1
  }

  /**
   A run after a reset passes over the next transaction of an account: the virtual nonces start over from the
   state, so the queue is asked for a transaction below the end of the account's pending ones, and the one
   that follows them, though payable, is not moved.
   */
  ghost predicate Overlooked(p: map<nat, Tx>, q: map<nat, Tx>, r: Rules) {
    var end := RunEnd(p.Keys, r.stateNonce);
    && r.virtualNonce < end && end in q && Affordable(q[end], r)
    && forall n :: n in p && r.stateNonce <= n < end ==> Affordable(p[n], r)
  }

  /** Above the state nonce a gap-free list is exactly the run from it. */
  lemma GapFreeIsRun(p: set<nat>, s: nat, g: nat)
    requires GapFree(p, s, g)
    ensures forall n :: s <= n ==> (n in p <==> n < RunEnd(p, s))
    ensures g <= s || g <= RunEnd(p, s)
  {
    var end := RunEnd(p, s);
  }

  lemma NextIsEnd(p: map<nat, Tx>, s: nat, end: nat)
    requires Interval(p.Keys, s, end)
    ensures NextNonce(p, s) == end
  {
    if p == map[] {
      assert s !in p.Keys;
    } else {
      var top := MaxNonce(p.Keys);
      assert top in p.Keys && top + 1 !in p.Keys;
    }
  }

  /** From the state nonce on, a list without a gap stays pending up to its first transaction that cannot be paid. */
  lemma StaysUpTo(p: map<nat, Tx>, r: Rules, end: nat)
    requires r.stateNonce <= end && forall n :: r.stateNonce <= n ==> (n in p <==> n < end)
    ensures r.stateNonce <= StaysEnd(p, r) <= end
    ensures StaysEnd(p, r) < end ==> StaysEnd(p, r) in p && !Affordable(p[StaysEnd(p, r)], r)
    ensures StaysEnd(p, r) == end <==> forall n :: n in p && r.stateNonce <= n < end ==> Affordable(p[n], r)
  {
    var e := StaysEnd(p, r);
    assert end !in Intact(p, r).Keys;
    if e < end {
      assert e in p && Blocked(p, r, e);
      var m :| m in p && r.stateNonce <= m <= e && !Affordable(p[m], r);
      if m < e {
        assert m in Intact(p, r).Keys && Blocked(p, r, m);
      }
    } else {
      forall n | n in p && r.stateNonce <= n < end ensures Affordable(p[n], r) {
        assert n in Intact(p, r).Keys;
      }
    }
  }

  /** What is eligible lies above the pending run, so it is ready exactly if it continues the run and the run ends at
      the virtual nonce. */
  lemma EligibleAbove(p: map<nat, Tx>, q: map<nat, Tx>, r: Rules)
    requires GapFree(p.Keys, r.stateNonce, r.virtualNonce) && p.Keys !! q.Keys
    ensures var end := RunEnd(p.Keys, r.stateNonce);
            && (forall n :: n in Eligible(q, r) ==> end <= n)
            && (Run(q, r) != map[] <==> r.virtualNonce == end && end in Eligible(q, r))
            && (Run(q, r) != map[] ==> forall n :: n in Run(q, r) <==> end <= n < NonceAfter(q, r))
  {
    GapFreeIsRun(p.Keys, r.stateNonce, r.virtualNonce);
    RunIsBlock(q, r);
    var end := RunEnd(p.Keys, r.stateNonce);
    var some := Eligible(q, r);
    forall n | n in some ensures end <= n {
      assert n in q && n !in p.Keys;
    }
  }

  /** Without a run: the next nonce waits in the queue exactly if it is overlooked. */
  lemma NoRunOverlooked(p: map<nat, Tx>, q: map<nat, Tx>, r: Rules)
    requires GapFree(p.Keys, r.stateNonce, r.virtualNonce) && p.Keys !! q.Keys && (r.local || 1 <= r.accountQueue)
    requires Run(q, r) == map[]
    ensures StaysEnd(p, r) in Kept(q, r) <==> Overlooked(p, q, r)
  {
    var end := RunEnd(p.Keys, r.stateNonce);
    GapFreeIsRun(p.Keys, r.stateNonce, r.virtualNonce);
    EligibleAbove(p, q, r);
    KeptWithoutRun(q, r, end);
    hide GapFree, Run, StaysEnd, Kept;
    StaysUpTo(p, r, end);
  }

  /** Without a run, only eligible transactions are kept, and the lowest of them is. */
  lemma KeptWithoutRun(q: map<nat, Tx>, r: Rules, n: nat)
    requires Run(q, r) == map[] && (r.local || 1 <= r.accountQueue) && forall m :: m in Eligible(q, r) ==> n <= m
    ensures Sub(Kept(q, r), Eligible(q, r)) && (n in Kept(q, r) <==> n in Eligible(q, r))
  {
    var some := Eligible(q, r);
    hide Run, Eligible;
    assert some - Run(q, r).Keys == some;
    LowestSub(some, r.accountQueue);
    if n in some && !r.local {
      LeastIsKept(some, r.accountQueue, n);
    }
  }

  lemma LeastIsKept(items: map<nat, Tx>, k: nat, n: nat)
    requires 1 <= k && n in items && forall m :: m in items ==> n <= m
    ensures n in Lowest(items, k)
  {
    assert LowestKeys(items.Keys, k) != {};
  }

  /** With a run: the pending transactions reach past it or stop at one that cannot be paid, so the next is not
      queued. */
  lemma RunNotOverlooked(p: map<nat, Tx>, q: map<nat, Tx>, r: Rules)
    requires GapFree(p.Keys, r.stateNonce, r.virtualNonce) && p.Keys !! q.Keys && Run(q, r) != map[]
    ensures StaysEnd(p + Run(q, r), r) !in Kept(q, r) && !Overlooked(p, q, r)
  {
    var p1, end := p + Run(q, r), NonceAfter(q, r);
    EligibleAbove(p, q, r);
    RunReaches(p, q, r);
    RunIsSub(q, r);
    PromotedNotReady(q, r);
    hide GapFree, Run, StaysEnd, Kept, NonceAfter, Eligible;
    StaysUpTo(p1, r, end);
  }

  /** From the state nonce on, the pending transactions and the run are exactly the nonces up to the end of the run. */
  lemma RunReaches(p: map<nat, Tx>, q: map<nat, Tx>, r: Rules)
    requires GapFree(p.Keys, r.stateNonce, r.virtualNonce) && p.Keys !! q.Keys && Run(q, r) != map[]
    ensures r.stateNonce <= NonceAfter(q, r)
    ensures forall n :: r.stateNonce <= n ==> (n in p + Run(q, r) <==> n < NonceAfter(q, r))
  {
    GapFreeIsRun(p.Keys, r.stateNonce, r.virtualNonce);
    EligibleAbove(p, q, r);
    RunIsBlock(q, r);
    hide GapFree, Run, NonceAfter, Eligible;
  }

  /** Nothing that goes back to the queue has the nonce at which the pending transactions now end. */
  lemma EndNotBack(p: map<nat, Tx>, r: Rules, g: nat)
    requires GapFree(p.Keys, r.stateNonce, g)
    ensures StaysEnd(p, r) !in Back(p, r)
  {
    GapFreeIsRun(p.Keys, r.stateNonce, g);
    StaysUpTo(p, r, RunEnd(p.Keys, r.stateNonce));
    hide StaysEnd, Stays;
  }

  /**
   Promotion, demotion and the new virtual nonce together: afterwards the next nonce of the account is
   still queued exactly if it was overlooked.
   */
  lemma QueuedNextIffOverlooked(p: map<nat, Tx>, q: map<nat, Tx>, r: Rules)
    requires GapFree(p.Keys, r.stateNonce, r.virtualNonce) && p.Keys !! q.Keys && (r.local || 1 <= r.accountQueue)
    ensures var p1 := p + Run(q, r);
            NextNonce(Stays(p1, r), r.stateNonce) in Kept(q, r) + Back(p1, r) <==> Overlooked(p, q, r)
  {
    var p1, run := p + Run(q, r), Run(q, r);
    PromotionNonces(p.Keys, q, r);
    assert p1.Keys == p.Keys + run.Keys;
    DemotionInterval(p1, r, NonceAfter(q, r));
    NextIsEnd(Stays(p1, r), r.stateNonce, StaysEnd(p1, r));
    EndNotBack(p1, r, NonceAfter(q, r));
    hide GapFree, Interval, Run, Stays, StaysEnd, Kept, Back, Overlooked, NonceAfter;
    if run == map[] {
      assert p1 == p;
      NoRunOverlooked(p, q, r);
    } else {
      RunNotOverlooked(p, q, r);
    }
  }

  /** One pending and one queued transaction that follows it: a run after a reset to the same state leaves it queued. */
  lemma OverlookedExample() returns (p: map<nat, Tx>, q: map<nat, Tx>, r: Rules)
    ensures Interval(p.Keys, 0, 1) && q.Keys == {1} && r.stateNonce == r.virtualNonce == 0
    ensures Overlooked(p, q, r) && !Overlooked(p, q, r.(virtualNonce := 1)) && 1 in Run(q, r.(virtualNonce := 1))
  {
    p := map[0 := Tx(1, 7, 0, 21000, 5, 1, 1, 100)];
    q := map[1 := Tx(2, 7, 1, 21000, 5, 1, 1, 100)];
    r := Rules(0, 10, 30000, 0, false, 64, 10);
    assert RunEnd(p.Keys, 0) == 1;
    var r' := r.(virtualNonce := 1);
    assert Eligible(q, r') == q;
    assert MinNonce(q.Keys) == 1;
  }

  // ---------------------------------------------------------------- the whole pool

  /** What the moves read of the pool and the chain state. */
  datatype Env = Env(nonce: Address -> nat, balance: Address -> int, maxGas: nat, locals: set<Address>,
                     accountQueue: nat, bump: nat)

  function RulesAt(env: Env, nonces: map<Address, nat>, a: Address): Rules {
    Rules(env.nonce(a), env.balance(a), env.maxGas, VirtualNonce(nonces, env.nonce, a), a in env.locals,
          env.accountQueue, env.bump)
  }

  /** The lists of the pool and its table of virtual nonces. */
  datatype Tiers = Tiers(pending: Accounts, queue: Accounts, nonces: map<Address, nat>)

  ghost predicate SameAt(env: Env, t: Tiers, t': Tiers, a: Address) {
    && Items(t'.pending, a) == Items(t.pending, a) && Items(t'.queue, a) == Items(t.queue, a)
    && VirtualNonce(t'.nonces, env.nonce, a) == VirtualNonce(t.nonces, env.nonce, a)
  }

  ghost predicate AccountPromoted(env: Env, t: Tiers, t': Tiers, a: Address) {
    PromotedAt(Items(t.pending, a), Items(t.queue, a), RulesAt(env, t.nonces, a),
               Items(t'.pending, a), Items(t'.queue, a), VirtualNonce(t'.nonces, env.nonce, a))
  }

  /** Exactly the accounts in `addrs` were promoted, each by its own lists and nonce. */
  ghost predicate PromotedAll(env: Env, t: Tiers, addrs: set<Address>, t': Tiers) {
    forall a :: if a in addrs then AccountPromoted(env, t, t', a) else SameAt(env, t, t', a)
  }

  ghost predicate AccountDemoted(env: Env, t: Tiers, t': Tiers, a: Address) {
    && DemotedAt(Items(t.pending, a), Items(t.queue, a), RulesAt(env, t.nonces, a), Items(t'.pending, a),
                 Items(t'.queue, a))
    && VirtualNonce(t'.nonces, env.nonce, a) == VirtualNonce(t.nonces, env.nonce, a)
  }

  /** The accounts in `addrs` were demoted. */
  ghost predicate DemotedAll(env: Env, t: Tiers, addrs: set<Address>, t': Tiers) {
    forall a :: if a in addrs then AccountDemoted(env, t, t', a) else SameAt(env, t, t', a)
  }

  lemma PromotedNobody(env: Env, t: Tiers)
    ensures PromotedAll(env, t, {}, t)
  {
  }

  lemma DemotedNobody(env: Env, t: Tiers)
    ensures DemotedAll(env, t, {}, t)
  {
  }

  lemma PromoteOne(env: Env, t: Tiers, done: set<Address>, t1: Tiers, a: Address, t2: Tiers)
    requires PromotedAll(env, t, done, t1) && a !in done
    requires Promoted(t1.pending, t1.queue, a, RulesAt(env, t1.nonces, a), t2.pending, t2.queue)
    requires NonceSet(env.nonce, t1.nonces, t2.nonces, a, NonceAfter(Items(t1.queue, a), RulesAt(env, t1.nonces, a)))
    ensures PromotedAll(env, t, done + {a}, t2)
  {
    hide Run, Kept, NonceAfter;
    assert SameAt(env, t, t1, a);
    forall b ensures if b in done + {a} then AccountPromoted(env, t, t2, b) else SameAt(env, t, t2, b) {
      assert if b in done then AccountPromoted(env, t, t1, b) else SameAt(env, t, t1, b);
    }
  }

  lemma PromoteNone(env: Env, t: Tiers, done: set<Address>, t1: Tiers, a: Address)
    requires PromotedAll(env, t, done, t1) && a !in done && a !in t1.queue
    ensures PromotedAll(env, t, done + {a}, t1)
  {
    hide PromotedAt;
    assert SameAt(env, t, t1, a);
    NothingQueued(Items(t.pending, a), RulesAt(env, t.nonces, a));
    forall b ensures if b in done + {a} then AccountPromoted(env, t, t1, b) else SameAt(env, t, t1, b) {
      assert if b in done then AccountPromoted(env, t, t1, b) else SameAt(env, t, t1, b);
    }
  }

  lemma DemoteOne(env: Env, t: Tiers, done: set<Address>, t1: Tiers, a: Address, t2: Tiers)
    requires DemotedAll(env, t, done, t1) && a !in done
    requires Demoted(t1.pending, t1.queue, a, RulesAt(env, t1.nonces, a), t2.pending, t2.queue)
    requires SameNonces(env.nonce, t1.nonces, t2.nonces)
    ensures DemotedAll(env, t, done + {a}, t2)
  {
    hide Stays, Back;
    assert SameAt(env, t, t1, a);
    forall b ensures if b in done + {a} then AccountDemoted(env, t, t2, b) else SameAt(env, t, t2, b) {
      assert if b in done then AccountDemoted(env, t, t1, b) else SameAt(env, t, t1, b);
    }
  }

  lemma DemoteNone(env: Env, t: Tiers, done: set<Address>, t1: Tiers, a: Address)
    requires DemotedAll(env, t, done, t1) && a !in done && a !in t1.pending
    ensures DemotedAll(env, t, done + {a}, t1)
  {
    hide DemotedAt;
    assert SameAt(env, t, t1, a);
    NothingPendingAt(Items(t.queue, a), RulesAt(env, t.nonces, a));
    forall b ensures if b in done + {a} then AccountDemoted(env, t, t1, b) else SameAt(env, t, t1, b) {
      assert if b in done then AccountDemoted(env, t, t1, b) else SameAt(env, t, t1, b);
    }
  }

  ghost predicate Apart(t: Tiers) {
    forall a :: Items(t.pending, a).Keys !! Items(t.queue, a).Keys
  }

  /** Promotion keeps the pending nonces exact intervals. */
  lemma PromotedKeepsNonces(env: Env, t: Tiers, addrs: set<Address>, t': Tiers)
    requires PromotedAll(env, t, addrs, t') && Apart(t) && AllIntervals(t.pending, env.nonce, t.nonces)
    ensures AllIntervals(t'.pending, env.nonce, t'.nonces)
  {
    hide Run, Kept, NonceAfter, GapFree, Interval;
    forall a ensures Interval(Items(t'.pending, a).Keys, env.nonce(a), VirtualNonce(t'.nonces, env.nonce, a)) {
      assert Interval(Items(t.pending, a).Keys, env.nonce(a), VirtualNonce(t.nonces, env.nonce, a));
      assert if a in addrs then AccountPromoted(env, t, t', a) else SameAt(env, t, t', a);
      PromotionNonces(Items(t.pending, a).Keys, Items(t.queue, a), RulesAt(env, t.nonces, a));
      var run := Run(Items(t.queue, a), RulesAt(env, t.nonces, a));
      assert a in addrs ==> Items(t'.pending, a).Keys == Items(t.pending, a).Keys + run.Keys;
    }
  }

  /** Only payable transactions are promoted. */
  lemma PromotedPayable(env: Env, t: Tiers, addrs: set<Address>, t': Tiers)
    requires PromotedAll(env, t, addrs, t') && AllPayable(t.pending, env.balance, env.maxGas)
    ensures AllPayable(t'.pending, env.balance, env.maxGas)
  {
    hide Run, Kept, NonceAfter;
    forall a ensures PayableAt(t'.pending, a, env.balance(a), env.maxGas) {
      assert if a in addrs then AccountPromoted(env, t, t', a) else SameAt(env, t, t', a);
      assert PayableAt(t.pending, a, env.balance(a), env.maxGas);
      RunPayable(Items(t.queue, a), RulesAt(env, t.nonces, a));
    }
  }

  /** No promoted account's next nonce is left in the queue, and the other accounts are left alone. */
  lemma PromotedNextNotQueued(env: Env, t: Tiers, addrs: set<Address>, t': Tiers)
    requires PromotedAll(env, t, addrs, t')
    ensures forall a :: a in addrs || NextNotQueued(t.queue, env.nonce, t.nonces, a) ==>
              NextNotQueued(t'.queue, env.nonce, t'.nonces, a)
  {
    hide Run, Kept, NonceAfter;
    forall a | a in addrs || NextNotQueued(t.queue, env.nonce, t.nonces, a)
      ensures NextNotQueued(t'.queue, env.nonce, t'.nonces, a)
    {
      assert if a in addrs then AccountPromoted(env, t, t', a) else SameAt(env, t, t', a);
      PromotedNotReady(Items(t.queue, a), RulesAt(env, t.nonces, a));
    }
  }

  /** What demotion leaves pending is payable. */
  lemma DemotedPayable(env: Env, t: Tiers, addrs: set<Address>, t': Tiers)
    requires DemotedAll(env, t, addrs, t') && t.pending.Keys <= addrs
    ensures AllPayable(t'.pending, env.balance, env.maxGas)
  {
    hide Stays, Back;
    forall a ensures PayableAt(t'.pending, a, env.balance(a), env.maxGas) {
      assert if a in addrs then AccountDemoted(env, t, t', a) else SameAt(env, t, t', a);
      StaysEligible(Items(t.pending, a), RulesAt(env, t.nonces, a));
    }
  }

  // ---------------------------------------------------------------- after a reset

  /** Promotion, demotion and the new virtual nonce, for one account. */
  ghost predicate AccountResettled(env: Env, t: Tiers, t': Tiers, a: Address) {
    var p, q, r := Items(t.pending, a), Items(t.queue, a), RulesAt(env, t.nonces, a);
    var p1 := p + Run(q, r);
    && Items(t'.pending, a) == Stays(p1, r) && Items(t'.queue, a) == Kept(q, r) + Back(p1, r)
    && VirtualNonce(t'.nonces, env.nonce, a) == NextNonce(Items(t'.pending, a), env.nonce(a))
  }

  ghost predicate ResettledAll(env: Env, t: Tiers, t': Tiers) {
    forall a :: AccountResettled(env, t, t', a)
  }

  /** The next transaction of account `a` is overlooked. */
  ghost predicate OverlookedAt(env: Env, t: Tiers, a: Address) {
    Overlooked(Items(t.pending, a), Items(t.queue, a), RulesAt(env, t.nonces, a))
  }

  lemma Resettles(env: Env, t: Tiers, t1: Tiers, addrs: set<Address>, t2: Tiers, t': Tiers)
    requires PromotedAll(env, t, t.queue.Keys, t1) && DemotedAll(env, t1, addrs, t2) && t1.pending.Keys <= addrs
    requires t'.pending == t2.pending && t'.queue == t2.queue && NoneEmpty(t2.pending)
    requires t'.nonces == HighestNonces(t2.pending)
    ensures ResettledAll(env, t, t')
  {
    hide AccountPromoted, AccountDemoted, SameAt, AccountResettled, Items;
    forall a ensures AccountResettled(env, t, t', a) {
      assert if a in t.queue.Keys then AccountPromoted(env, t, t1, a) else SameAt(env, t, t1, a);
      assert if a in addrs then AccountDemoted(env, t1, t2, a) else SameAt(env, t1, t2, a);
      PromotedAnyway(env, t, t1, a);
      DemotedAnyway(env, t1, t2, a);
      ResettlesAt(env, t, t1, t2, t', a);
    }
  }

  lemma PromotedAnyway(env: Env, t: Tiers, t1: Tiers, a: Address)
    requires AccountPromoted(env, t, t1, a) || (a !in t.queue && SameAt(env, t, t1, a))
    ensures AccountPromoted(env, t, t1, a)
  {
    hide Run, Kept, NonceAfter;
    NothingQueued(Items(t.pending, a), RulesAt(env, t.nonces, a));
  }

  lemma DemotedAnyway(env: Env, t: Tiers, t1: Tiers, a: Address)
    requires AccountDemoted(env, t, t1, a) || (a !in t.pending && SameAt(env, t, t1, a))
    ensures AccountDemoted(env, t, t1, a)
  {
    hide Stays, Back;
    NothingPendingAt(Items(t.queue, a), RulesAt(env, t.nonces, a));
  }

  lemma ResettlesAt(env: Env, t: Tiers, t1: Tiers, t2: Tiers, t': Tiers, a: Address)
    requires AccountPromoted(env, t, t1, a) && AccountDemoted(env, t1, t2, a)
    requires t'.pending == t2.pending && t'.queue == t2.queue && NoneEmpty(t2.pending)
    requires t'.nonces == HighestNonces(t2.pending)
    ensures AccountResettled(env, t, t', a)
  {
    hide Run, Kept, NonceAfter, Stays, Back;
    var r, r1 := RulesAt(env, t.nonces, a), RulesAt(env, t1.nonces, a);
    assert r1 == r.(virtualNonce := r1.virtualNonce);
    DemotionIgnoresNonce(Items(t1.pending, a), r, r1.virtualNonce);
  }

  lemma DemotionIgnoresNonce(p: map<nat, Tx>, r: Rules, v: nat)
    ensures var r' := r.(virtualNonce := v); Stays(p, r') == Stays(p, r) && Back(p, r') == Back(p, r)
  {
    var r' := r.(virtualNonce := v);
    assert forall n :: Blocked(p, r', n) == Blocked(p, r, n);
    hide Blocked;
  }

  /** After a run with a reset, an account's next transaction is still queued exactly if it was overlooked. */
  lemma ResettledNext(env: Env, t: Tiers, t': Tiers, a: Address)
    requires ResettledAll(env, t, t') && AllGapFree(t.pending, env.nonce, t.nonces) && Apart(t) && 1 <= env.accountQueue
    ensures NextNotQueued(t'.queue, env.nonce, t'.nonces, a) <==> !OverlookedAt(env, t, a)
  {
    hide Run, Kept, Stays, Back, Overlooked, GapFree;
    assert AccountResettled(env, t, t', a);
    QueuedNextIffOverlooked(Items(t.pending, a), Items(t.queue, a), RulesAt(env, t.nonces, a));
  }

  /** An account whose pending nonces are the interval up to its virtual nonce is never overlooked. */
  lemma SteadyNotOverlooked(env: Env, t: Tiers, a: Address)
    requires AllIntervals(t.pending, env.nonce, t.nonces)
    ensures !OverlookedAt(env, t, a)
  {
    var keys, v := Items(t.pending, a).Keys, VirtualNonce(t.nonces, env.nonce, a);
    assert Interval(keys, env.nonce(a), v);
    assert v !in keys && RunEnd(keys, env.nonce(a)) !in keys;
  }

  // ---------------------------------------------------------------- when a nonce falls

  /**
   A run after a reset to a state in which the account's nonce has fallen below its pending ones leaves a gap:
   queued transactions are promoted from the new nonce on, but do not reach up to the payable pending ones.
   */
  ghost predicate Gapped(p: map<nat, Tx>, q: map<nat, Tx>, r: Rules, s0: nat) {
    r.stateNonce < s0 && s0 in p && Affordable(p[s0], r) && Run(q, r) != map[] && NonceAfter(q, r) < s0
  }

  /** How an account stands before the moves of a run: its pending nonces start at its nonce `s0` in the old state, and
      its
      virtual nonce is not above its new one, unless nothing was reset. */
  ghost predicate Poised(p: map<nat, Tx>, r: Rules, s0: nat) {
    && Settled(p.Keys, s0)
    && (r.virtualNonce <= r.stateNonce || (r.stateNonce == s0 && Interval(p.Keys, s0, r.virtualNonce)))
  }

  /** If its nonce has not fallen, the account is gap-free, and is an interval afterwards. */
  lemma NotFallenInterval(p: map<nat, Tx>, q: map<nat, Tx>, r: Rules, s0: nat)
    requires Poised(p, r, s0) && p.Keys !! q.Keys && s0 <= r.stateNonce
    ensures GapFree(p.Keys, r.stateNonce, r.virtualNonce)
    ensures var p2 := Stays(p + Run(q, r), r); Interval(p2.Keys, r.stateNonce, NextNonce(p2, r.stateNonce))
  {
    var end :| Interval(p.Keys, s0, end);
    assert GapFree(p.Keys, r.stateNonce, r.virtualNonce);
    var p1, run := p + Run(q, r), Run(q, r);
    PromotionNonces(p.Keys, q, r);
    assert p1.Keys == p.Keys + run.Keys;
    DemotionInterval(p1, r, NonceAfter(q, r));
    NextIsEnd(Stays(p1, r), r.stateNonce, StaysEnd(p1, r));
  }

  /** If its nonce has fallen and no transaction is promoted, nothing stays pending. */
  lemma FallenNoRun(p: map<nat, Tx>, r: Rules, s0: nat)
    requires Settled(p.Keys, s0) && r.stateNonce < s0
    ensures Stays(p, r) == map[]
  {
    var end :| Interval(p.Keys, s0, end);
    assert r.stateNonce !in p.Keys;
  }

  /** The run then starts at the fallen nonce, and ends at or below the pending transactions. */
  lemma FallenRun(p: map<nat, Tx>, q: map<nat, Tx>, r: Rules, s0: nat, end: nat)
    requires Interval(p.Keys, s0, end) && p.Keys !! q.Keys && r.stateNonce < s0 && r.virtualNonce <= r.stateNonce
    requires Run(q, r) != map[]
    ensures var k := NonceAfter(q, r);
            && r.stateNonce < k && (s0 in p ==> k <= s0)
            && (forall n :: n in Run(q, r) <==> r.stateNonce <= n < k)
            && (forall n :: n in Run(q, r) ==> Affordable(Run(q, r)[n], r))
  {
    RunIsBlock(q, r);
    RunPayable(q, r);
    RunIsSub(q, r);
    hide Run, NonceAfter, Eligible, Kept, Gone;
  }

  /** Pending transactions that the run does not reach stay above a gap, if the first of them is payable. */
  lemma GapStays(p: map<nat, Tx>, run: map<nat, Tx>, r: Rules, s0: nat, end: nat, k: nat)
    requires Interval(p.Keys, s0, end) && r.stateNonce < k < s0 < end
    requires forall n :: n in run <==> r.stateNonce <= n < k
    requires forall n :: n in run ==> Affordable(run[n], r)
    ensures Affordable(p[s0], r) ==> s0 in Stays(p + run, r) && k !in Stays(p + run, r)
    ensures !Affordable(p[s0], r) ==> Interval(Stays(p + run, r).Keys, r.stateNonce, k)
  {
    var p1 := p + run;
    assert s0 in p.Keys && s0 !in run && p1[s0] == p[s0] && k !in p1;
    forall n | r.stateNonce <= n < k ensures n in Intact(p1, r) {
      assert n in run && n !in p.Keys && !Blocked(p1, r, n);
    }
    if Affordable(p[s0], r) {
      assert !Blocked(p1, r, s0);
    } else {
      forall n | n in Intact(p1, r) ensures n < k {
        assert s0 <= n ==> Blocked(p1, r, n);
      }
    }
  }

  /** A run that reaches up to the pending transactions, or that there are none of, leaves no gap. */
  lemma NoGapLeft(p: map<nat, Tx>, run: map<nat, Tx>, r: Rules, s0: nat, end: nat, k: nat)
    requires Interval(p.Keys, s0, end) && r.stateNonce < k && (forall n :: n in run <==> r.stateNonce <= n < k)
    requires k == s0 || s0 == end
    ensures Interval(Stays(p + run, r).Keys, r.stateNonce, StaysEnd(p + run, r))
  {
    var p1 := p + run;
    assert forall n :: n in p1 <==> n in p.Keys || n in run;
    assert GapFree(p1.Keys, r.stateNonce, 0);
    DemotionInterval(p1, r, 0);
  }

  /**
   Whatever happened to the account's nonce: after the moves its pending nonces are exactly the interval from
   its state nonce up to its virtual nonce, unless a gap is left.
   */
  lemma IntervalIffNotGapped(p: map<nat, Tx>, q: map<nat, Tx>, r: Rules, s0: nat)
    requires Poised(p, r, s0) && p.Keys !! q.Keys
    ensures var p2 := Stays(p + Run(q, r), r);
            Interval(p2.Keys, r.stateNonce, NextNonce(p2, r.stateNonce)) <==> !Gapped(p, q, r, s0)
  {
    var run, k := Run(q, r), NonceAfter(q, r);
    var end :| Interval(p.Keys, s0, end);
    if s0 <= r.stateNonce {
      NotFallenInterval(p, q, r, s0);
    } else if run == map[] {
      FallenNoRun(p, r, s0);
      assert p + run == p;
    } else {
      FallenRun(p, q, r, s0, end);
      assert s0 in p.Keys <==> s0 < end;
      hide Run, NonceAfter, Stays, StaysEnd;
      if s0 == end || k == s0 {
        NoGapLeft(p, run, r, s0, end, k);
        NextIsEnd(Stays(p + run, r), r.stateNonce, StaysEnd(p + run, r));
      } else {
        GapStays(p, run, r, s0, end, k);
        if !Affordable(p[s0], r) {
          NextIsEnd(Stays(p + run, r), r.stateNonce, k);
        } else {
          assert k !in Stays(p + run, r).Keys && s0 in Stays(p + run, r).Keys;
        }
      }
    }
  }

  /**
   The moves of a run leave the next transaction of an account in the queue: it follows the promoted and the pending
   transactions, these are payable, and it is kept in the queue instead of being promoted itself.
   */
  ghost predicate LeftBehind(p: map<nat, Tx>, q: map<nat, Tx>, r: Rules, s0: nat) {
    var end := if Gapped(p, q, r, s0) then RunEnd(p.Keys, s0) else RunEnd((p + Run(q, r)).Keys, r.stateNonce);
    end in Kept(q, r) && AllAffordable(p, r, end)
  }

  ghost predicate AllAffordable(p: map<nat, Tx>, r: Rules, end: nat) {
    forall n :: n in p && r.stateNonce <= n < end ==> Affordable(p[n], r)
  }

  /** Without a gap, the next transaction is the one at the end or one that cannot be paid. */
  lemma NextOfBlock(p: map<nat, Tx>, r: Rules, end: nat)
    requires r.stateNonce <= end && forall n :: r.stateNonce <= n ==> (n in p <==> n < end)
    ensures var next := NextNonce(Stays(p, r), r.stateNonce);
            && next !in Back(p, r) && (next == end <==> AllAffordable(p, r, end))
            && (next != end ==> next in p && r.stateNonce <= next && !Affordable(p[next], r))
    ensures RunEnd(p.Keys, r.stateNonce) == end
  {
    assert GapFree(p.Keys, r.stateNonce, 0);
    DemotionInterval(p, r, 0);
    NextIsEnd(Stays(p, r), r.stateNonce, StaysEnd(p, r));
    EndNotBack(p, r, 0);
    StaysUpTo(p, r, end);
    hide Stays, StaysEnd, Back;
    assert end !in p && forall n :: r.stateNonce <= n < end ==> n in p.Keys;
  }

  /** If the promoted and pending transactions have no gap, the next one is queued exactly if it is kept and they are
      payable. */
  lemma NextAfterBlock(p: map<nat, Tx>, q: map<nat, Tx>, r: Rules, end: nat)
    requires p.Keys !! q.Keys && r.stateNonce <= end
    requires forall n :: r.stateNonce <= n ==> (n in p + Run(q, r) <==> n < end)
    ensures var p1 := p + Run(q, r);
            && RunEnd(p1.Keys, r.stateNonce) == end
            && (NextNonce(Stays(p1, r), r.stateNonce) in Kept(q, r) + Back(p1, r) <==>
                  end in Kept(q, r) && AllAffordable(p, r, end))
  {
    var p1, run := p + Run(q, r), Run(q, r);
    NextOfBlock(p1, r, end);
    RunIsSub(q, r);
    RunPayable(q, r);
    hide Run, Kept, Gone, Stays, Back, NextNonce;
    assert forall n :: n in p1 ==> if n in run then p1[n] == run[n] else n in p && p1[n] == p[n];
    assert AllAffordable(p1, r, end) <==> AllAffordable(p, r, end);
  }

  /** Below an intact transaction the pending ones are intact. */
  lemma IntactBelow(p: map<nat, Tx>, r: Rules, n: nat, m: nat)
    requires n in Intact(p, r) && m in p && r.stateNonce <= m <= n
    ensures m in Intact(p, r) && Affordable(p[m], r)
  {
    assert Blocked(p, r, m) ==> Blocked(p, r, n);
    assert !Affordable(p[m], r) ==> Blocked(p, r, n);
  }

  /** The intact transactions above a gap end at the first one that cannot be paid. */
  lemma IntactAboveGap(p: map<nat, Tx>, r: Rules, s0: nat, end: nat) returns (e: nat)
    requires r.stateNonce < s0 < end && s0 in Intact(p, r) && forall n :: s0 <= n ==> (n in p <==> n < end)
    ensures s0 < e <= end && e - 1 in Intact(p, r) && forall n :: n in Intact(p, r) ==> n < e
    ensures e < end ==> !Affordable(p[e], r)
    ensures forall n :: n in p && r.stateNonce <= n < e ==> Affordable(p[n], r)
  {
    e := RunEnd(Intact(p, r).Keys, s0);
    assert end !in Intact(p, r).Keys && s0 in Intact(p, r).Keys;
    assert e - 1 in Intact(p, r).Keys;
    forall n | n in Intact(p, r) ensures n < e {
      if s0 <= n {
        forall m | s0 <= m <= n ensures m in Intact(p, r).Keys {
          IntactBelow(p, r, n, m);
        }
      }
    }
    forall n | n in p && r.stateNonce <= n < e ensures Affordable(p[n], r) {
      IntactBelow(p, r, e - 1, n);
    }
    if e < end {
      assert e in p && e !in Intact(p, r).Keys && Blocked(p, r, e);
    }
  }

  /** Above a gap, what stays pending ends at the first transaction that cannot be paid. */
  lemma StaysAboveGap(p: map<nat, Tx>, run: map<nat, Tx>, r: Rules, s0: nat, end: nat, k: nat)
    requires Interval(p.Keys, s0, end) && r.stateNonce < k < s0 < end
    requires forall n :: n in run <==> r.stateNonce <= n < k
    requires (forall n :: n in run ==> Affordable(run[n], r)) && Affordable(p[s0], r)
    ensures var next := NextNonce(Stays(p + run, r), r.stateNonce);
            && s0 <= next <= end && next !in Back(p + run, r)
            && (next < end ==> !Affordable(p[next], r)) && (next == end <==> AllAffordable(p, r, end))
  {
    var p1 := p + run;
    GapStays(p, run, r, s0, end, k);
    assert forall n :: s0 <= n ==> (n in p1 <==> n < end) && (n < end ==> n in p.Keys && p1[n] == p[n]);
    assert Stays(p1, r) == Intact(p1, r) && s0 in Intact(p1, r);
    var e := IntactAboveGap(p1, r, s0, end);
    hide Intact;
    assert MaxNonce(Stays(p1, r).Keys) == e - 1;
    hide Stays;
    assert e !in Eligible(p1, r);
  }

  /** The next transaction of an account with a gap in front of its pending ones. */
  lemma NextAboveGap(p: map<nat, Tx>, q: map<nat, Tx>, r: Rules, s0: nat, end: nat)
    requires Interval(p.Keys, s0, end) && p.Keys !! q.Keys && r.stateNonce < NonceAfter(q, r) < s0 < end
    requires forall n :: n in Run(q, r) <==> r.stateNonce <= n < NonceAfter(q, r)
    ensures var p1 := p + Run(q, r);
            NextNonce(Stays(p1, r), r.stateNonce) in Kept(q, r) + Back(p1, r) <==>
              Affordable(p[s0], r) && end in Kept(q, r) && AllAffordable(p, r, end)
    ensures RunEnd(p.Keys, s0) == end && RunEnd((p + Run(q, r)).Keys, r.stateNonce) == NonceAfter(q, r)
  {
    var run, k := Run(q, r), NonceAfter(q, r);
    RunPayable(q, r);
    RunIsSub(q, r);
    PromotedNotReady(q, r);
    hide Run, NonceAfter, Kept, Gone;
    assert s0 in p.Keys && end !in p.Keys && k !in (p + run).Keys;
    GapStays(p, run, r, s0, end, k);
    assert k !in Back(p + run, r);
    hide Stays, Back, Eligible;
    if Affordable(p[s0], r) {
      StaysAboveGap(p, run, r, s0, end, k);
    } else {
      NextIsEnd(Stays(p + run, r), r.stateNonce, k);
    }
  }

  /** Whatever happened to the account's nonce: after the moves its next transaction is queued exactly if it was left
      behind. */
  lemma QueuedNextIffLeftBehind(p: map<nat, Tx>, q: map<nat, Tx>, r: Rules, s0: nat)
    requires Poised(p, r, s0) && p.Keys !! q.Keys
    ensures var p1 := p + Run(q, r);
            NextNonce(Stays(p1, r), r.stateNonce) in Kept(q, r) + Back(p1, r) <==> LeftBehind(p, q, r, s0)
  {
    if s0 <= r.stateNonce {
      NotFallenInterval(p, q, r, s0);
      hide Run, NonceAfter, Stays, Kept, Back;
      NotFallenBlock(p, q, r);
    } else {
      hide Run, NonceAfter, Stays, Kept, Back;
      var end :| Interval(p.Keys, s0, end);
      assert s0 in p.Keys <==> s0 < end;
      if Run(q, r) == map[] {
        FallenNoRunNext(p, q, r, s0, end);
      } else {
        FallenRun(p, q, r, s0, end);
        if s0 == end || NonceAfter(q, r) == s0 {
          NextAfterBlock(p, q, r, if s0 == end then NonceAfter(q, r) else end);
        } else {
          NextAboveGap(p, q, r, s0, end);
        }
      }
    }
  }

  lemma FallenNoRunNext(p: map<nat, Tx>, q: map<nat, Tx>, r: Rules, s0: nat, end: nat)
    requires Interval(p.Keys, s0, end) && r.stateNonce < s0 && Run(q, r) == map[]
    ensures var p1 := p + Run(q, r);
            NextNonce(Stays(p1, r), r.stateNonce) in Kept(q, r) + Back(p1, r) <==> LeftBehind(p, q, r, s0)
  {
    hide Run, NonceAfter, Kept, Affordable;
    FallenNoRun(p, r, s0);
    assert p + Run(q, r) == p;
    assert r.stateNonce !in p.Keys && r.stateNonce !in Back(p, r);
    hide Stays, Back;
  }

  lemma NotFallenBlock(p: map<nat, Tx>, q: map<nat, Tx>, r: Rules)
    requires GapFree(p.Keys, r.stateNonce, r.virtualNonce) && p.Keys !! q.Keys
    ensures var p1 := p + Run(q, r); var end := RunEnd(p1.Keys, r.stateNonce);
            NextNonce(Stays(p1, r), r.stateNonce) in Kept(q, r) + Back(p1, r) <==>
              end in Kept(q, r) && AllAffordable(p, r, end)
  {
    var p1 := p + Run(q, r);
    PromotionNonces(p.Keys, q, r);
    assert p1.Keys == p.Keys + Run(q, r).Keys;
    hide Run, NonceAfter, Stays, Kept, Back;
    GapFreeIsRun(p1.Keys, r.stateNonce, NonceAfter(q, r));
    NextAfterBlock(p, q, r, RunEnd(p1.Keys, r.stateNonce));
  }

  /** Two transactions are pending from nonce 2 on, the nonce falls to 0, and only the transaction with nonce 0 is
      queued. */
  lemma GappedExample() returns (p: map<nat, Tx>, q: map<nat, Tx>, r: Rules)
    ensures Interval(p.Keys, 2, 4) && q.Keys == {0} && r.stateNonce == r.virtualNonce == 0 && Poised(p, r, 2)
    ensures Gapped(p, q, r, 2)
  {
    p := map[2 := Tx(1, 7, 2, 21000, 5, 1, 1, 100), 3 := Tx(2, 7, 3, 21000, 5, 1, 1, 100)];
    q := map[0 := Tx(3, 7, 0, 21000, 5, 1, 1, 100)];
    r := Rules(0, 10, 30000, 0, false, 64, 10);
    assert Interval(p.Keys, 2, 4);
    assert Eligible(q, r) == q;
    assert 0 in q.Keys;
    assert MinNonce(q.Keys) == 0 && RunEnd(q.Keys, 0) == 1;
    assert 0 in Run(q, r);
  }

  ghost predicate IntervalAt(env: Env, t: Tiers, a: Address) {
    Interval(Items(t.pending, a).Keys, env.nonce(a), VirtualNonce(t.nonces, env.nonce, a))
  }

  lemma AllIntervalsAt(env: Env, t: Tiers)
    ensures AllIntervals(t.pending, env.nonce, t.nonces) <==> forall a :: IntervalAt(env, t, a)
  {
    hide Interval, Items, VirtualNonce;
    if AllIntervals(t.pending, env.nonce, t.nonces) {
      forall a ensures IntervalAt(env, t, a) {
        assert Interval(Items(t.pending, a).Keys, env.nonce(a), VirtualNonce(t.nonces, env.nonce, a));
      }
    } else {
      var a :| !Interval(Items(t.pending, a).Keys, env.nonce(a), VirtualNonce(t.nonces, env.nonce, a));
      assert !IntervalAt(env, t, a);
    }
  }

  ghost predicate GappedAt(env: Env, t: Tiers, s0: Address -> nat, a: Address) {
    Gapped(Items(t.pending, a), Items(t.queue, a), RulesAt(env, t.nonces, a), s0(a))
  }

  ghost predicate LeftBehindAt(env: Env, t: Tiers, s0: Address -> nat, a: Address) {
    LeftBehind(Items(t.pending, a), Items(t.queue, a), RulesAt(env, t.nonces, a), s0(a))
  }

  ghost predicate PoisedAll(env: Env, t: Tiers, s0: Address -> nat) {
    forall a :: Poised(Items(t.pending, a), RulesAt(env, t.nonces, a), s0(a))
  }

  /** After a run with a reset an account is an exact interval if and only if no gap is left. */
  lemma ResettledInterval(env: Env, t: Tiers, t': Tiers, s0: Address -> nat, a: Address)
    requires ResettledAll(env, t, t') && PoisedAll(env, t, s0) && Apart(t)
    ensures IntervalAt(env, t', a) <==> !GappedAt(env, t, s0, a)
  {
    hide Run, Kept, Stays, Back, Gapped, Interval, Poised;
    assert AccountResettled(env, t, t', a);
    assert Poised(Items(t.pending, a), RulesAt(env, t.nonces, a), s0(a));
    IntervalIffNotGapped(Items(t.pending, a), Items(t.queue, a), RulesAt(env, t.nonces, a), s0(a));
  }

  /** After a run with a reset an account's next transaction is queued if and only if it was left behind. */
  lemma ResettledNextQueued(env: Env, t: Tiers, t': Tiers, s0: Address -> nat, a: Address)
    requires ResettledAll(env, t, t') && PoisedAll(env, t, s0) && Apart(t)
    ensures NextNotQueued(t'.queue, env.nonce, t'.nonces, a) <==> !LeftBehindAt(env, t, s0, a)
  {
    hide Run, Kept, Stays, Back, LeftBehind, Interval, Poised;
    assert AccountResettled(env, t, t', a);
    assert Poised(Items(t.pending, a), RulesAt(env, t.nonces, a), s0(a));
    QueuedNextIffLeftBehind(Items(t.pending, a), Items(t.queue, a), RulesAt(env, t.nonces, a), s0(a));
  }

  /** If no nonce fell, every account is gap-free, and no gap is left. */
  lemma NotFallen(env: Env, t: Tiers, s0: Address -> nat)
    requires PoisedAll(env, t, s0) && Apart(t) && forall a :: s0(a) <= env.nonce(a)
    ensures AllGapFree(t.pending, env.nonce, t.nonces)
    ensures forall a :: !GappedAt(env, t, s0, a)
  {
    hide GapFree, Interval, Poised, Stays;
    forall a
      ensures GapFree(Items(t.pending, a).Keys, env.nonce(a), VirtualNonce(t.nonces, env.nonce, a))
      ensures !GappedAt(env, t, s0, a)
    {
      assert Poised(Items(t.pending, a), RulesAt(env, t.nonces, a), s0(a));
      NotFallenInterval(Items(t.pending, a), Items(t.queue, a), RulesAt(env, t.nonces, a), s0(a));
    }
  }

  /** The pool as it stands is poised for the moves. */
  lemma SteadyIsPoised(env: Env, t: Tiers)
    requires AllIntervals(t.pending, env.nonce, t.nonces)
    ensures PoisedAll(env, t, env.nonce)
  {
    forall a ensures Poised(Items(t.pending, a), RulesAt(env, t.nonces, a), env.nonce(a)) {
      assert Interval(Items(t.pending, a).Keys, env.nonce(a), VirtualNonce(t.nonces, env.nonce, a));
    }
  }

  /** A reset, which cuts pending lists and raises no virtual nonce above the state's, leaves it poised. */
  lemma ResetIsPoised(env: Env, p: Accounts, nonces: map<Address, nat>, s0: Address -> nat, t: Tiers)
    requires AllIntervals(p, s0, nonces) && Lessened(env.nonce, p, map[], t.pending, t.nonces)
    ensures PoisedAll(env, t, s0)
  {
    forall a ensures Poised(Items(t.pending, a), RulesAt(env, t.nonces, a), s0(a)) {
      assert Interval(Items(p, a).Keys, s0(a), VirtualNonce(nonces, s0, a));
      assert CutBelow(Items(p, a).Keys, Items(t.pending, a).Keys);
      assert VirtualNonce(t.nonces, env.nonce, a) <= VirtualNonce(map[], env.nonce, a);
      CutSettled(Items(p, a).Keys, Items(t.pending, a).Keys, s0(a));
    }
  }

  /** Afterwards each account's pending nonces are an exact interval if and only if no gap was left, and its next
      transaction is queued if and only if it was left behind. */
  ghost predicate MovedExactly(env: Env, t: Tiers, t': Tiers, s0: Address -> nat) {
    forall a :: && (IntervalAt(env, t', a) <==> !GappedAt(env, t, s0, a))
                && (NextNotQueued(t'.queue, env.nonce, t'.nonces, a) <==> !LeftBehindAt(env, t, s0, a))
  }

  /** No account has a gap, and its next transaction is left behind exactly if it was overlooked. */
  ghost predicate OnlyOverlooked(env: Env, t: Tiers, s0: Address -> nat) {
    forall a :: !GappedAt(env, t, s0, a) && (LeftBehindAt(env, t, s0, a) <==> OverlookedAt(env, t, a))
  }

  /** What a run with a reset leaves of the nonces of all accounts. */
  lemma ResettledOutcome(env: Env, t: Tiers, t': Tiers, s0: Address -> nat)
    requires ResettledAll(env, t, t') && Apart(t) && 1 <= env.accountQueue
    ensures PoisedAll(env, t, s0) ==> MovedExactly(env, t, t', s0)
    ensures PoisedAll(env, t, s0) && (forall a :: s0(a) <= env.nonce(a)) ==> OnlyOverlooked(env, t, s0)
  {
    hide ResettledAll, PoisedAll, IntervalAt, GappedAt, OverlookedAt, LeftBehindAt, AllGapFree, NextNotQueued;
    if PoisedAll(env, t, s0) {
      forall a {
        ResettledInterval(env, t, t', s0, a);
      }
      forall a {
        ResettledNextQueued(env, t, t', s0, a);
      }
      if forall a :: s0(a) <= env.nonce(a) {
        NotFallen(env, t, s0);
        forall a {
          ResettledNext(env, t, t', a);
        }
      }
    }
  }
}

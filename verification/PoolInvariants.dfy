/**
 What keeps the redundant records of the pool in step, stated on plain values: the pending and
 queued transactions of each account, the lookup by hash, and the virtual nonces. Every pool
 operation changes one account at a time, so consistency is stated account by account.
 */
module PoolInvariants {
  import opened Transactions
  import opened AccountLists
  import opened Lookups

  type Accounts = map<Address, AccountTxs>

  function Items(p: Accounts, a: Address): map<nat, Tx> {
    if a in p then p[a].items else map[]
  }

  ghost predicate InItems(items: map<nat, Tx>, tx: Tx) {
    tx.nonce in items && items[tx.nonce] == tx
  }

  /** Every transaction sits under its nonce, belongs to `a`, and is known to the lookup. */
  ghost predicate OwnedAndKnown(a: Address, items: map<nat, Tx>, known: map<Hash, Tx>) {
    forall n :: n in items ==>
      items[n].nonce == n && items[n].sender == a && items[n].hash in known && known[items[n].hash] == items[n]
  }

  /** The lookup knows of account `a` exactly what is pending or queued for it, and no nonce is both. */
  ghost predicate AccountOk(a: Address, p: map<nat, Tx>, q: map<nat, Tx>, known: map<Hash, Tx>) {
    && p.Keys !! q.Keys
    && OwnedAndKnown(a, p, known) && OwnedAndKnown(a, q, known)
    && (forall h :: h in known && known[h].sender == a ==> InItems(p, known[h]) || InItems(q, known[h]))
  }

  /** The whole pool: the lookup holds exactly the filed transactions, each filed once. */
  ghost predicate PoolOk(pending: Accounts, queue: Accounts, known: map<Hash, Tx>) {
    HashKeyed(known) && forall a :: AccountOk(a, Items(pending, a), Items(queue, a), known)
  }

  /** Strictness and sound caps of every list. */
  ghost predicate ListsOk(p: Accounts, strict: bool) {
    forall a :: a in p ==> p[a].strict == strict && Capped(p[a])
  }

  ghost predicate NoneEmpty(p: Accounts) {
    forall a :: a in p ==> p[a].items != map[]
  }

  function Hashes(items: map<nat, Tx>): set<Hash> {
    set n | n in items :: items[n].hash
  }

  ghost predicate Sub(part: map<nat, Tx>, items: map<nat, Tx>) {
    forall n :: n in part ==> n in items && part[n] == items[n]
  }

  /** The lookups agree on every account but `a`. */
  ghost predicate SameElsewhere(a: Address, known: map<Hash, Tx>, known': map<Hash, Tx>) {
    && (forall h :: h in known && known[h].sender != a ==> h in known' && known'[h] == known[h])
    && (forall h :: h in known' && known'[h].sender != a ==> h in known && known'[h] == known[h])
  }

  /** The lists agree on every account but `a`. */
  ghost predicate SameListsElsewhere(a: Address, p: Accounts, p': Accounts) {
    forall b :: b != a ==> Items(p', b) == Items(p, b)
  }

  // ---------------------------------------------------------------- one account

  lemma DropPending(a: Address, p: map<nat, Tx>, q: map<nat, Tx>, known: map<Hash, Tx>, gone: map<nat, Tx>)
    requires AccountOk(a, p, q, known) && HashKeyed(known) && Sub(gone, p)
    ensures AccountOk(a, p - gone.Keys, q, known - Hashes(gone))
    ensures SameElsewhere(a, known, known - Hashes(gone)) && HashKeyed(known - Hashes(gone))
  {
  }

  lemma DropQueued(a: Address, p: map<nat, Tx>, q: map<nat, Tx>, known: map<Hash, Tx>, gone: map<nat, Tx>)
    requires AccountOk(a, p, q, known) && HashKeyed(known) && Sub(gone, q)
    ensures AccountOk(a, p, q - gone.Keys, known - Hashes(gone))
    ensures SameElsewhere(a, known, known - Hashes(gone)) && HashKeyed(known - Hashes(gone))
  {
  }

  lemma Demote(a: Address, p: map<nat, Tx>, q: map<nat, Tx>, known: map<Hash, Tx>, moved: map<nat, Tx>)
    requires AccountOk(a, p, q, known) && Sub(moved, p)
    ensures AccountOk(a, p - moved.Keys, q + moved, known)
  {
  }

  lemma Promote(a: Address, p: map<nat, Tx>, q: map<nat, Tx>, known: map<Hash, Tx>, moved: map<nat, Tx>)
    requires AccountOk(a, p, q, known) && Sub(moved, q)
    ensures AccountOk(a, p + moved, q - moved.Keys, known)
  {
  }

  /** The lookup once `tx` has been inserted among `items`, replacing what was at its nonce. */
  function Learned(known: map<Hash, Tx>, items: map<nat, Tx>, tx: Tx): map<Hash, Tx> {
    (if tx.nonce in items then known - {items[tx.nonce].hash} else known)[tx.hash := tx]
  }

  lemma InsertPending(a: Address, p: map<nat, Tx>, q: map<nat, Tx>, known: map<Hash, Tx>, tx: Tx)
    requires AccountOk(a, p, q, known) && HashKeyed(known)
    requires tx.sender == a && tx.hash !in known && tx.nonce !in q
    ensures AccountOk(a, p[tx.nonce := tx], q, Learned(known, p, tx))
    ensures SameElsewhere(a, known, Learned(known, p, tx)) && HashKeyed(Learned(known, p, tx))
  {
  }

  lemma InsertQueued(a: Address, p: map<nat, Tx>, q: map<nat, Tx>, known: map<Hash, Tx>, tx: Tx)
    requires AccountOk(a, p, q, known) && HashKeyed(known)
    requires tx.sender == a && tx.hash !in known && tx.nonce !in p
    ensures AccountOk(a, p, q[tx.nonce := tx], Learned(known, q, tx))
    ensures SameElsewhere(a, known, Learned(known, q, tx)) && HashKeyed(Learned(known, q, tx))
  {
  }

  /** Changes confined to account `a` keep the pool consistent if they keep `a` consistent. */
  lemma Confined(a: Address, pending: Accounts, queue: Accounts, known: map<Hash, Tx>,
                 pending': Accounts, queue': Accounts, known': map<Hash, Tx>)
    requires PoolOk(pending, queue, known)
    requires SameListsElsewhere(a, pending, pending') && SameListsElsewhere(a, queue, queue')
    requires SameElsewhere(a, known, known') && HashKeyed(known')
    requires AccountOk(a, Items(pending', a), Items(queue', a), known')
    ensures PoolOk(pending', queue', known')
  {
    forall b ensures AccountOk(b, Items(pending', b), Items(queue', b), known') {
      if b != a {
        assert AccountOk(b, Items(pending, b), Items(queue, b), known);
      }
    }
  }

  /** Putting a list back: an empty one is deleted. */
  function PutBack(p: Accounts, a: Address, l: AccountTxs): (r: Accounts)
    ensures Items(r, a) == l.items && SameListsElsewhere(a, p, r)
    ensures NoneEmpty(p) ==> NoneEmpty(r)
    ensures ListsOk(p, l.strict) && Capped(l) ==> ListsOk(r, l.strict)
  {
    if l.items == map[] then p - {a} else p[a := l]
  }

  /** Taking out a pending transaction: the ones above it are queued again. */
  lemma TakePending(a: Address, p: map<nat, Tx>, q: map<nat, Tx>, known: map<Hash, Tx>, tx: Tx)
    requires AccountOk(a, p, q, known) && HashKeyed(known) && InItems(p, tx)
    ensures AccountOk(a, Below(p, tx.nonce), q + Above(p, tx.nonce), known - {tx.hash})
    ensures SameElsewhere(a, known, known - {tx.hash}) && HashKeyed(known - {tx.hash})
  {
    assert forall n :: n in p ==> p[n].nonce == n;
    hide AccountOk, SameElsewhere, HashKeyed;
    var gone := map[tx.nonce := tx];
    DropPending(a, p, q, known, gone);
    assert Hashes(gone) == {tx.hash};
    Demote(a, p - {tx.nonce}, q, known - {tx.hash}, Above(p, tx.nonce));
    assert p - {tx.nonce} - Above(p, tx.nonce).Keys == Below(p, tx.nonce);
  }

  lemma TakeQueued(a: Address, p: map<nat, Tx>, q: map<nat, Tx>, known: map<Hash, Tx>, tx: Tx)
    requires AccountOk(a, p, q, known) && HashKeyed(known) && InItems(q, tx)
    ensures AccountOk(a, p, q - {tx.nonce}, known - {tx.hash})
    ensures SameElsewhere(a, known, known - {tx.hash}) && HashKeyed(known - {tx.hash})
  {
    hide AccountOk, SameElsewhere, HashKeyed;
    var gone := map[tx.nonce := tx];
    DropQueued(a, p, q, known, gone);
    assert Hashes(gone) == {tx.hash} && q - gone.Keys == q - {tx.nonce};
  }

  lemma Owned(pending: Accounts, queue: Accounts, known: map<Hash, Tx>, a: Address)
    requires PoolOk(pending, queue, known)
    ensures Items(queue, a).Keys !! Items(pending, a).Keys
    ensures forall n :: n in Items(pending, a) ==> Items(pending, a)[n].sender == a && Items(pending, a)[n].nonce == n
    ensures forall n :: n in Items(queue, a) ==> Items(queue, a)[n].sender == a && Items(queue, a)[n].nonce == n
  {
    assert AccountOk(a, Items(pending, a), Items(queue, a), known);
  }

  lemma QueuedIs(pending: Accounts, queue: Accounts, known: map<Hash, Tx>, a: Address, n: nat)
    requires PoolOk(pending, queue, known) && n in Items(queue, a)
    ensures var tx := Items(queue, a)[n];
            tx.hash in known && known[tx.hash] == tx && tx.sender == a && tx.nonce == n && n !in Items(pending, a)
  {
    assert AccountOk(a, Items(pending, a), Items(queue, a), known);
  }

  /** Taking any known transaction out of its list, demoting what it invalidates. */
  lemma TakeKnown(pending: Accounts, queue: Accounts, known: map<Hash, Tx>, h: Hash,
                  pending': Accounts, queue': Accounts)
    requires PoolOk(pending, queue, known) && h in known
    requires Taken(pending, queue, known[h], pending', queue')
    ensures PoolOk(pending', queue', known - {h})
  {
    var tx := known[h];
    var a, p, q := tx.sender, Items(pending, tx.sender), Items(queue, tx.sender);
    assert AccountOk(a, p, q, known) && tx.hash == h;
    assert if tx.nonce in p then InItems(p, tx) else InItems(q, tx);
    if tx.nonce in p {
      TakePending(a, p, q, known, tx);
    } else {
      TakeQueued(a, p, q, known, tx);
    }
    hide AccountOk, SameElsewhere, HashKeyed, PoolOk;
    Confined(a, pending, queue, known, pending', queue', known - {h});
  }

  /** What removing `tx` from its account leaves pending and queued. */
  ghost predicate Taken(pending: Accounts, queue: Accounts, tx: Tx, pending': Accounts, queue': Accounts) {
    var a, items := tx.sender, Items(pending, tx.sender);
    && SameListsElsewhere(a, pending, pending') && SameListsElsewhere(a, queue, queue')
    && if tx.nonce in items then
         Items(pending', a) == Below(items, tx.nonce) && Items(queue', a) == Items(queue, a) + Above(items, tx.nonce)
       else
         Items(pending', a) == items && Items(queue', a) == Items(queue, a) - {tx.nonce}
  }

  function ListOr(p: Accounts, a: Address, strict: bool): AccountTxs {
    if a in p then p[a] else Empty(strict)
  }

  /** `p'` is `p` with the transactions `more` added to account `a`. */
  ghost predicate Grown(p: Accounts, p': Accounts, strict: bool, a: Address, more: map<nat, Tx>) {
    && ListsOk(p', strict)
    && Items(p', a) == Items(p, a) + more
    && SameListsElsewhere(a, p, p')
    && (NoneEmpty(p) ==> NoneEmpty(p'))
  }

  lemma GrowOne(p: Accounts, p': Accounts, strict: bool, a: Address, more: map<nat, Tx>, tx: Tx, bump: nat)
    requires Grown(p, p', strict, a, more)
    requires tx.nonce !in Items(p, a) && tx.nonce !in more
    ensures var r := Add(ListOr(p', a, strict), tx, bump);
            && r.Inserted? && r.replaced.None?
            && Grown(p, p'[a := r.list], strict, a, more[tx.nonce := tx])
  {
    var r := Add(ListOr(p', a, strict), tx, bump);
    assert Items(p'[a := r.list], a) == Items(p, a) + more[tx.nonce := tx];
  }

  /**
   Adds transactions to an account's list one by one, in any order. None of their nonces is
   taken, so each insertion succeeds and replaces nothing.
   */
  method AddAll(p0: Accounts, strict: bool, a: Address, more: map<nat, Tx>, bump: nat) returns (p: Accounts)
    requires ListsOk(p0, strict) && Items(p0, a).Keys !! more.Keys
    requires forall n :: n in more ==> more[n].nonce == n
    ensures Grown(p0, p, strict, a, more)
  {
    p := p0;
    var todo := more.Keys;
    assert Grown(p0, p, strict, a, map[]) && more - todo == map[];
    hide Grown, Add, ListOr;
    while todo != {}
      invariant todo <= more.Keys
      invariant Grown(p0, p, strict, a, more - todo)
      decreases todo
    {
      var n :| n in todo;
      GrowOne(p0, p, strict, a, more - todo, more[n], bump);
      assert (more - todo)[n := more[n]] == more - (todo - {n});
      p := p[a := Add(ListOr(p, a, strict), more[n], bump).list];
      todo := todo - {n};
    }
    assert more - todo == more;
  }

  ghost predicate ListsFine(pending: Accounts, queue: Accounts) {
    ListsOk(pending, true) && ListsOk(queue, false) && NoneEmpty(pending) && NoneEmpty(queue)
  }

  /** Takes `tx` out of the pending list of its account, queueing what it invalidates, or else out of the queue. */
  method TakeOut(pending0: Accounts, queue0: Accounts, tx: Tx, bump: nat)
    returns (pending: Accounts, queue: Accounts, wasPending: bool)
    requires ListsFine(pending0, queue0)
    requires Items(queue0, tx.sender).Keys !! Items(pending0, tx.sender).Keys
    requires forall n :: n in Items(pending0, tx.sender) ==> Items(pending0, tx.sender)[n].nonce == n
    ensures ListsFine(pending, queue) && Taken(pending0, queue0, tx, pending, queue)
    ensures wasPending <==> tx.nonce in Items(pending0, tx.sender)
  {
    var a := tx.sender;
    pending, queue := pending0, queue0;
    if a in pending {
      var r := Remove(pending[a], tx.nonce);
      if r.0 {
        assert r.1 == Above(pending[a].items, tx.nonce) && r.2.items == Below(pending[a].items, tx.nonce);
        pending := PutBack(pending, a, r.2);
        queue := AddAll(queue, false, a, r.1, bump);
        return pending, queue, true;
      }
    }
    wasPending := false;
    if a in queue {
      queue := PutBack(queue, a, Remove(queue[a], tx.nonce).2);
    }
  }

  // ---------------------------------------------------------------- virtual nonces

  /** From the state nonce `s` on the pending nonces have no gap, and reach at least up to `g`. */
  ghost predicate GapFree(keys: set<nat>, s: nat, g: nat) {
    && (forall n, m :: n in keys && s <= m < n ==> m in keys)
    && (forall m :: s <= m < g ==> m in keys)
  }

  /** The pending nonces are exactly the interval from the state nonce `s` up to `g`. */
  ghost predicate Interval(keys: set<nat>, s: nat, g: nat) {
    s <= g && forall m :: m in keys <==> s <= m < g
  }

  ghost predicate AllGapFree(pending: Accounts, state: Address -> nat, nonces: map<Address, nat>) {
    forall a :: GapFree(Items(pending, a).Keys, state(a), VirtualNonce(nonces, state, a))
  }

  ghost predicate AllIntervals(pending: Accounts, state: Address -> nat, nonces: map<Address, nat>) {
    forall a :: Interval(Items(pending, a).Keys, state(a), VirtualNonce(nonces, state, a))
  }

  lemma NonceUnchanged(state: Address -> nat, nonces: map<Address, nat>, a: Address)
    ensures NonceSet(state, nonces, nonces, a, VirtualNonce(nonces, state, a))
  {
  }

  /** Removing a pending transaction and lowering the nonce to it keeps the pending nonces exact intervals. */
  lemma TakenKeepsNonces(pending: Accounts, queue: Accounts, tx: Tx, pending': Accounts, queue': Accounts,
                         state: Address -> nat, nonces: map<Address, nat>, nonces': map<Address, nat>)
    requires Taken(pending, queue, tx, pending', queue')
    requires var g := VirtualNonce(nonces, state, tx.sender);
             NonceSet(state, nonces, nonces', tx.sender,
                      if tx.nonce in Items(pending, tx.sender) then Lower(g, tx.nonce) else g)
    ensures AllIntervals(pending, state, nonces) ==> AllIntervals(pending', state, nonces')
  {
    var a := tx.sender;
    if AllIntervals(pending, state, nonces) {
      assert Interval(Items(pending, a).Keys, state(a), VirtualNonce(nonces, state, a));
      forall b ensures Interval(Items(pending', b).Keys, state(b), VirtualNonce(nonces', state, b)) {
        if b != a {
          assert Interval(Items(pending, b).Keys, state(b), VirtualNonce(nonces, state, b));
        }
      }
    }
  }

  /** The next transaction of account `a` is not waiting in the queue. */
  ghost predicate NextNotQueued(queue: Accounts, state: Address -> nat, nonces: map<Address, nat>, a: Address) {
    VirtualNonce(nonces, state, a) !in Items(queue, a)
  }

  /** Removing a transaction makes no queued one the next of its account: the gap it leaves is at the new virtual
      nonce. */
  lemma TakenNextNotQueued(pending: Accounts, queue: Accounts, tx: Tx, pending': Accounts, queue': Accounts,
                           state: Address -> nat, nonces: map<Address, nat>, nonces': map<Address, nat>, a: Address)
    requires Taken(pending, queue, tx, pending', queue') && AllIntervals(pending, state, nonces)
    requires Items(queue, tx.sender).Keys !! Items(pending, tx.sender).Keys
    requires var g := VirtualNonce(nonces, state, tx.sender);
             NonceSet(state, nonces, nonces', tx.sender,
                      if tx.nonce in Items(pending, tx.sender) then Lower(g, tx.nonce) else g)
    requires NextNotQueued(queue, state, nonces, a)
    ensures NextNotQueued(queue', state, nonces', a)
  {
    assert Interval(Items(pending, tx.sender).Keys, state(tx.sender), VirtualNonce(nonces, state, tx.sender));
    if a == tx.sender && tx.nonce in Items(pending, a) {
      assert tx.nonce in Items(pending, a).Keys;
    }
  }

  /** `keys'` is what is left of `keys` below some nonce. */
  ghost predicate CutBelow(keys: set<nat>, keys': set<nat>) {
    keys' <= keys && forall m, n :: m in keys && n in keys' && m <= n ==> m in keys'
  }

  /** Every account kept its lowest pending nonces, and no virtual nonce rose. */
  ghost predicate Lessened(state: Address -> nat, p: Accounts, nonces: map<Address, nat>, p': Accounts,
                           nonces': map<Address, nat>)
  {
    forall a :: && CutBelow(Items(p, a).Keys, Items(p', a).Keys)
                && VirtualNonce(nonces', state, a) <= VirtualNonce(nonces, state, a)
  }

  lemma NotLessened(state: Address -> nat, p: Accounts, nonces: map<Address, nat>)
    ensures Lessened(state, p, nonces, p, nonces)
  {
  }

  lemma LessenedTwice(state: Address -> nat, p: Accounts, n: map<Address, nat>, p1: Accounts, n1: map<Address, nat>,
                      p2: Accounts, n2: map<Address, nat>)
    requires Lessened(state, p, n, p1, n1) && Lessened(state, p1, n1, p2, n2)
    ensures Lessened(state, p, n, p2, n2)
  {
    hide Items, VirtualNonce;
    forall a
      ensures CutBelow(Items(p, a).Keys, Items(p2, a).Keys) && VirtualNonce(n2, state, a) <= VirtualNonce(n, state, a)
    {
      assert CutBelow(Items(p, a).Keys, Items(p1, a).Keys) && CutBelow(Items(p1, a).Keys, Items(p2, a).Keys);
    }
  }

  lemma SameKeysLessened(state: Address -> nat, p: Accounts, nonces: map<Address, nat>, p': Accounts)
    requires forall a :: Items(p', a).Keys == Items(p, a).Keys
    ensures Lessened(state, p, nonces, p', nonces)
  {
    hide Items;
    forall a ensures CutBelow(Items(p, a).Keys, Items(p', a).Keys) {
      assert Items(p', a).Keys == Items(p, a).Keys;
    }
  }

  lemma TakenLessened(pending: Accounts, queue: Accounts, tx: Tx, pending': Accounts, queue': Accounts,
                      state: Address -> nat, nonces: map<Address, nat>, nonces': map<Address, nat>)
    requires Taken(pending, queue, tx, pending', queue')
    requires var g := VirtualNonce(nonces, state, tx.sender);
             NonceSet(state, nonces, nonces', tx.sender,
                      if tx.nonce in Items(pending, tx.sender) then Lower(g, tx.nonce) else g)
    ensures Lessened(state, pending, nonces, pending', nonces')
  {
    forall a ensures CutBelow(Items(pending, a).Keys, Items(pending', a).Keys) {
      assert a != tx.sender ==> Items(pending', a) == Items(pending, a);
    }
  }

  /** What is left of an interval below some nonce is an interval. */
  lemma CutSettled(keys: set<nat>, keys': set<nat>, s: nat)
    requires Settled(keys, s) && CutBelow(keys, keys')
    ensures Settled(keys', s)
  {
    var end :| Interval(keys, s, end);
    var end' := RunEnd(keys', s);
    forall m | m in keys' ensures m < end' {
      assert m in keys && s <= m;
    }
    assert Interval(keys', s, end');
  }

  /** The pending nonces form some interval that starts at the state nonce. */
  ghost predicate Settled(keys: set<nat>, s: nat) {
    exists end :: Interval(keys, s, end)
  }

  /** The nonce after the highest pending one, for every account with pending transactions. */
  function HighestNonces(pending: Accounts): map<Address, nat>
    requires forall a :: a in pending ==> pending[a].items != map[]
  {
    map a | a in pending :: MaxNonce(pending[a].items.Keys) + 1
  }

  // ---------------------------------------------------------------- new transactions

  /** A new transaction accepted into a list keeps the lists fine. */
  lemma AddedFine(p: Accounts, strict: bool, tx: Tx, bump: nat)
    requires ListsOk(p, strict) && NoneEmpty(p)
    ensures var r := Add(ListOr(p, tx.sender, strict), tx, bump);
            r.Inserted? ==> ListsOk(p[tx.sender := r.list], strict) && NoneEmpty(p[tx.sender := r.list])
  {
  }

  /** Queueing a new transaction whose nonce is not pending. */
  lemma EnqueuedOk(pending: Accounts, queue: Accounts, known: map<Hash, Tx>, tx: Tx, l: AccountTxs)
    requires PoolOk(pending, queue, known) && tx.hash !in known && tx.nonce !in Items(pending, tx.sender)
    requires l.items == Items(queue, tx.sender)[tx.nonce := tx]
    ensures PoolOk(pending, queue[tx.sender := l], Learned(known, Items(queue, tx.sender), tx))
  {
    var a := tx.sender;
    hide AccountOk, SameElsewhere, HashKeyed, Learned;
    assert AccountOk(a, Items(pending, a), Items(queue, a), known);
    InsertQueued(a, Items(pending, a), Items(queue, a), known, tx);
    Confined(a, pending, queue, known, pending, queue[a := l], Learned(known, Items(queue, a), tx));
  }

  /** Replacing a pending transaction. */
  lemma ReplacedOk(pending: Accounts, queue: Accounts, known: map<Hash, Tx>, tx: Tx, l: AccountTxs)
    requires PoolOk(pending, queue, known) && tx.hash !in known && tx.nonce in Items(pending, tx.sender)
    requires l.items == Items(pending, tx.sender)[tx.nonce := tx]
    ensures PoolOk(pending[tx.sender := l], queue, Learned(known, Items(pending, tx.sender), tx))
  {
    var a := tx.sender;
    Owned(pending, queue, known, a);
    hide AccountOk, SameElsewhere, HashKeyed, Learned;
    assert AccountOk(a, Items(pending, a), Items(queue, a), known);
    InsertPending(a, Items(pending, a), Items(queue, a), known, tx);
    Confined(a, pending, queue, known, pending[a := l], queue, Learned(known, Items(pending, a), tx));
  }

  /** Lists with the same nonces have the same nonce properties. */
  lemma SameKeysSameNonces(p: Accounts, p': Accounts, state: Address -> nat, nonces: map<Address, nat>)
    requires forall a :: Items(p', a).Keys == Items(p, a).Keys
    ensures AllIntervals(p, state, nonces) ==> AllIntervals(p', state, nonces)
  {
    hide Interval;
  }
}

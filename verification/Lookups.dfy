/** The pool's hash lookup, split into local and remote transactions, and its virtual nonce table. */
module Lookups {
  import opened Transactions

  /** The slots of all transactions in a map. */
  ghost function SlotsOf(m: map<Hash, Tx>): nat {
    if m == map[] then 0
    else
      var h :| h in m;
      NumSlots(m[h]) + SlotsOf(m - {h})
  }

  lemma {:induction false} SlotsWithout(m: map<Hash, Tx>, k: Hash)
    requires k in m
    ensures SlotsOf(m) == NumSlots(m[k]) + SlotsOf(m - {k})
    decreases |m|
  {
    var h :| h in m && SlotsOf(m) == NumSlots(m[h]) + SlotsOf(m - {h});
    if h != k {
      SlotsWithout(m - {h}, k);
      SlotsWithout(m - {k}, h);
      assert m - {h} - {k} == m - {k} - {h};
    }
  }

  lemma SlotsWith(m: map<Hash, Tx>, k: Hash, tx: Tx)
    requires k !in m
    ensures SlotsOf(m[k := tx]) == SlotsOf(m) + NumSlots(tx)
  {
    SlotsWithout(m[k := tx], k);
    assert m[k := tx] - {k} == m;
  }

  ghost predicate HashKeyed(m: map<Hash, Tx>) {
    forall h :: h in m ==> m[h].hash == h
  }

  /** Two maps that split the same transactions between them, with the same slots. */
  ghost predicate SameSplit(a: map<Hash, Tx>, b: map<Hash, Tx>, a': map<Hash, Tx>, b': map<Hash, Tx>) {
    && a'.Keys !! b'.Keys && HashKeyed(a') && HashKeyed(b')
    && a' + b' == a + b
    && SlotsOf(a') + SlotsOf(b') == SlotsOf(a) + SlotsOf(b)
  }

  lemma MoveOne(a: map<Hash, Tx>, b: map<Hash, Tx>, a': map<Hash, Tx>, b': map<Hash, Tx>, h: Hash)
    requires SameSplit(a, b, a', b') && h in b'
    ensures SameSplit(a, b, a'[h := b'[h]], b' - {h})
  {
    SlotsWith(a', h, b'[h]);
    SlotsWithout(b', h);
  }

  function RemotesOutside(remotes: map<Hash, Tx>, accounts: set<Address>): map<Hash, Tx> {
    map h | h in remotes && remotes[h].sender !in accounts :: remotes[h]
  }

  method Migrate(locals0: map<Hash, Tx>, remotes0: map<Hash, Tx>, accounts: set<Address>)
    returns (locals: map<Hash, Tx>, remotes: map<Hash, Tx>, migrated: nat)
    requires SameSplit(locals0, remotes0, locals0, remotes0)
    ensures SameSplit(locals0, remotes0, locals, remotes)
    ensures remotes == RemotesOutside(remotes0, accounts)
    ensures migrated == |remotes0| - |remotes|
  {
    locals, remotes, migrated := locals0, remotes0, 0;
    hide SameSplit;
    var todo := remotes.Keys;
    while todo != {}
      invariant SameSplit(locals0, remotes0, locals, remotes)
      invariant todo <= remotes.Keys
      invariant remotes == map h | h in remotes0 && (h in todo || remotes0[h].sender !in accounts) :: remotes0[h]
      invariant migrated == |remotes0| - |remotes|
      decreases todo
    {
      var h :| h in todo;
      if remotes[h].sender in accounts {
        MoveOne(locals0, remotes0, locals, remotes, h);
        assert (remotes - {h}).Keys == remotes.Keys - {h};
        locals, remotes := locals[h := remotes[h]], remotes - {h};
        migrated := migrated + 1;
      }
      todo := todo - {h};
    }
    assert remotes == RemotesOutside(remotes0, accounts);
  }

  class TxLookup {
    var slots: int
    var locals: map<Hash, Tx>
    var remotes: map<Hash, Tx>

    /** Locals and remotes are disjoint, keyed by hash, and `slots` is the sum of their slots. */
    ghost predicate Valid()
      reads this
    {
      && locals.Keys !! remotes.Keys
      && HashKeyed(locals) && HashKeyed(remotes)
      && slots == SlotsOf(locals) + SlotsOf(remotes)
    }

    /** Every transaction of the pool, by hash. */
    ghost function Known(): map<Hash, Tx>
      reads this
    {
      locals + remotes
    }

    constructor ()
      ensures Valid() && Known() == map[] && remotes == map[]
    {
      slots, locals, remotes := 0, map[], map[];
    }

    method Get(hash: Hash) returns (tx: Option<Tx>)
      requires Valid()
      ensures tx == if hash in Known() then Some(Known()[hash]) else None
    {
      if hash in locals {
        return Some(locals[hash]);
      }
      return if hash in remotes then Some(remotes[hash]) else None;
    }

    method Add(tx: Tx, local: bool)
      requires Valid() && tx.hash !in Known()
      modifies this
      ensures Valid() && Known() == old(Known())[tx.hash := tx]
      ensures remotes == if local then old(remotes) else old(remotes)[tx.hash := tx]
      ensures locals == if local then old(locals)[tx.hash := tx] else old(locals)
    {
      slots := slots + NumSlots(tx);
      if local {
        SlotsWith(locals, tx.hash, tx);
        locals := locals[tx.hash := tx];
      } else {
        SlotsWith(remotes, tx.hash, tx);
        remotes := remotes[tx.hash := tx];
      }
    }

    method Remove(hash: Hash)
      requires Valid()
      modifies this
      ensures Valid() && Known() == old(Known()) - {hash}
      ensures remotes == old(remotes) - {hash} && locals == old(locals) - {hash}
    {
      if hash !in locals && hash !in remotes {
        assert locals - {hash} == locals && remotes - {hash} == remotes;
        return;
      }
      var tx := if hash in locals then locals[hash] else remotes[hash];
      if hash in locals {
        SlotsWithout(locals, hash);
        assert remotes - {hash} == remotes;
      } else {
        SlotsWithout(remotes, hash);
        assert locals - {hash} == locals;
      }
      slots := slots - NumSlots(tx);
      locals := locals - {hash};
      remotes := remotes - {hash};
    }

    /** Moves the remote transactions of local accounts over, keeping the pool's contents and slots. */
    method RemoteToLocals(accounts: set<Address>) returns (migrated: nat)
      requires Valid()
      modifies this
      ensures Valid() && Known() == old(Known()) && slots == old(slots)
      ensures remotes == RemotesOutside(old(remotes), accounts)
      ensures migrated == |old(remotes)| - |remotes|
    {
      locals, remotes, migrated := Migrate(locals, remotes, accounts);
    }
  }

  /** The nonce an account has once its pending transactions are applied. */
  function VirtualNonce(nonces: map<Address, nat>, fallback: Address -> nat, addr: Address): nat {
    if addr in nonces then nonces[addr] else fallback(addr)
  }

  /** The virtual nonces agree except at `a`, where the nonce is now `g`. */
  ghost predicate NonceSet(state: Address -> nat, nonces: map<Address, nat>, nonces': map<Address, nat>, a: Address,
                           g: nat)
  {
    && VirtualNonce(nonces', state, a) == g
    && forall b :: b != a ==> VirtualNonce(nonces', state, b) == VirtualNonce(nonces, state, b)
  }

  /** The virtual nonces agree. */
  ghost predicate SameNonces(state: Address -> nat, nonces: map<Address, nat>, nonces': map<Address, nat>) {
    forall b :: VirtualNonce(nonces', state, b) == VirtualNonce(nonces, state, b)
  }

  lemma SetAfterSame(state: Address -> nat, nonces: map<Address, nat>, nonces1: map<Address, nat>,
                     nonces2: map<Address, nat>, a: Address, g: nat)
    requires SameNonces(state, nonces, nonces1) && NonceSet(state, nonces1, nonces2, a, g)
    ensures NonceSet(state, nonces, nonces2, a, g)
  {
  }

  function Lower(g: nat, n: nat): nat {
    if g <= n then g else n
  }

  class TxNoncer {
    const fallback: Address -> nat
    var nonces: map<Address, nat>

    ghost function Nonce(addr: Address): nat
      reads this
    {
      VirtualNonce(nonces, fallback, addr)
    }

    constructor (fallback: Address -> nat)
      ensures this.fallback == fallback && nonces == map[]
    {
      this.fallback := fallback;
      nonces := map[];
    }

    /** Reading caches the fallback but changes no account's nonce. */
    method Get(addr: Address) returns (n: nat)
      modifies this
      ensures n == old(Nonce(addr)) && NonceSet(fallback, old(nonces), nonces, addr, n)
    {
      if addr !in nonces {
        nonces := nonces[addr := fallback(addr)];
      }
      n := nonces[addr];
    }

    method Set(addr: Address, nonce: nat)
      modifies this
      ensures NonceSet(fallback, old(nonces), nonces, addr, nonce)
    {
      nonces := nonces[addr := nonce];
    }

    method SetIfLower(addr: Address, nonce: nat)
      modifies this
      ensures NonceSet(fallback, old(nonces), nonces, addr, Lower(old(Nonce(addr)), nonce))
    {
      if addr !in nonces {
        nonces := nonces[addr := fallback(addr)];
      }
      if nonces[addr] <= nonce {
        return;
      }
      nonces := nonces[addr := nonce];
    }

    method SetAll(all: map<Address, nat>)
      modifies this
      ensures nonces == all
    {
      nonces := all;
    }
  }
}

/**
 The fairness rule of `truncatePending`: the longest non-local lists are cut down to one common
 level, like water filling, until the pool is within its limit or every account is at its minimum.
 */
module PoolTruncation {
  import opened Transactions
  import opened AccountLists
  import opened Lookups
  import opened PoolInvariants

  function Len(p: Accounts, a: Address): nat {
    |Items(p, a)|
  }

  /** The number of transactions in all lists. */
  ghost function Total(p: Accounts): nat {
    if p == map[] then 0
    else
      var a :| a in p;
      |p[a].items| + Total(p - {a})
  }

  lemma {:induction false} TotalWithout(p: Accounts, k: Address)
    requires k in p
    ensures Total(p) == |p[k].items| + Total(p - {k})
    decreases |p|
  {
    var a :| a in p && Total(p) == |p[a].items| + Total(p - {a});
    hide Total;
    if a != k {
      TotalWithout(p - {a}, k);
      TotalWithout(p - {k}, a);
      assert p - {a} - {k} == p - {k} - {a};
    }
  }

  lemma TotalUpdate(p: Accounts, a: Address, l: AccountTxs)
    requires a in p
    ensures Total(p[a := l]) == Total(p) - |p[a].items| + |l.items|
  {
    TotalWithout(p, a);
    TotalWithout(p[a := l], a);
    assert p[a := l] - {a} == p - {a};
  }

  lemma LowestOfLowest(keys: set<nat>, t: nat, k: nat)
    requires k <= t
    ensures LowestKeys(LowestKeys(keys, t), k) == LowestKeys(keys, k)
  {
    hide LowestKeys;
    var low := LowestKeys(keys, t);
    var lower := LowestKeys(low, k);
    SubsetSize(low, keys);
    LowestUnique(keys, k, lower);
  }

  /** Cutting twice is cutting once, at the lower level. */
  lemma LowestTwice(items: map<nat, Tx>, t: nat, k: nat)
    requires k <= t
    ensures Lowest(Lowest(items, t), k) == Lowest(items, k)
    ensures |Lowest(items, t)| == if t <= |items| then t else |items|
  {
    hide LowestKeys;
    LowestOfLowest(items.Keys, t, k);
    assert Lowest(items, t).Keys == LowestKeys(items.Keys, t);
    assert Lowest(Lowest(items, t), k).Keys == LowestKeys(items.Keys, k);
  }

  /** Every non-local list is the original cut to level `t`; local lists are untouched. */
  ghost predicate WaterFilled(p0: Accounts, p: Accounts, locals: set<Address>, t: nat) {
    && p.Keys == p0.Keys
    && forall a :: a in p0 ==> Items(p, a) == if a in locals then Items(p0, a) else Lowest(Items(p0, a), t)
  }

  /** The accounts whose lists are longer than `t` to begin with. */
  function Longer(p: Accounts, locals: set<Address>, t: nat): set<Address> {
    set a | a in p && a !in locals && Len(p, a) > t
  }

  /** In the middle of a round: the accounts in `done` are at level `t - 1`, the others at `t`. */
  ghost predicate MidRound(p0: Accounts, p: Accounts, locals: set<Address>, t: nat, done: set<Address>) {
    && 0 < t && p.Keys == p0.Keys
    && forall a :: a in p0 ==>
         Items(p, a) == if a in locals then Items(p0, a) else Lowest(Items(p0, a), if a in done then t - 1 else t)
  }

  lemma StartRound(p0: Accounts, p: Accounts, locals: set<Address>, t: nat)
    requires WaterFilled(p0, p, locals, t) && 0 < t
    ensures MidRound(p0, p, locals, t, {})
  {
  }

  lemma EndRound(p0: Accounts, p: Accounts, locals: set<Address>, t: nat, done: set<Address>)
    requires MidRound(p0, p, locals, t, done) && Longer(p0, locals, t - 1) <= done
    ensures WaterFilled(p0, p, locals, t - 1)
  {
    forall a | a in p0 && a !in locals ensures Items(p, a) == Lowest(Items(p0, a), t - 1) {
      if a !in done {
        assert a !in Longer(p0, locals, t - 1);
        LowestAll(Items(p0, a), t);
        LowestAll(Items(p0, a), t - 1);
      }
    }
  }

  lemma CutByTop(p0: Accounts, p: Accounts, p': Accounts, locals: set<Address>, t: nat, done: set<Address>, a: Address,
                 tx: Tx)
    requires MidRound(p0, p, locals, t, done) && WithoutTop(p, p', a, tx)
    requires a in Longer(p0, locals, t - 1) && a !in done
    ensures MidRound(p0, p', locals, t, done + {a})
  {
    hide MidRound, Lowest;
    CutOne(p0, p, p', locals, t, done, a);
  }

  /** One cut of a round. */
  lemma CutOne(p0: Accounts, p: Accounts, p': Accounts, locals: set<Address>, t: nat, done: set<Address>, a: Address)
    requires MidRound(p0, p, locals, t, done)
    requires a in Longer(p0, locals, t - 1) && a !in done
    ensures Len(p, a) == t
    ensures p'.Keys == p.Keys && SameListsElsewhere(a, p, p') && Items(p', a) == Lowest(Items(p, a), t - 1)
            ==> MidRound(p0, p', locals, t, done + {a})
  {
    hide Lowest;
    LowestTwice(Items(p0, a), t, t - 1);
  }

  // ---------------------------------------------------------------- dropping the highest nonce

  /** `p'` is `p` without the highest-nonce transaction `tx` of account `a`. */
  ghost predicate WithoutTop(p: Accounts, p': Accounts, a: Address, tx: Tx) {
    && InItems(Items(p, a), tx) && (forall n :: n in Items(p, a) ==> n <= tx.nonce)
    && Items(p', a) == Items(p, a) - {tx.nonce} && Items(p', a) == Lowest(Items(p, a), Len(p, a) - 1)
    && SameListsElsewhere(a, p, p') && p'.Keys == p.Keys
  }

  method CutTop(p: Accounts, a: Address) returns (p': Accounts, tx: Tx)
    requires a in p && 2 <= Len(p, a) && WellFiled(p[a].items) && ListsOk(p, true) && NoneEmpty(p)
    ensures WithoutTop(p, p', a, tx) && ListsOk(p', true) && NoneEmpty(p')
  {
    hide LowestKeys;
    var items := p[a].items;
    var cut := Cap(p[a], |items| - 1);
    var caps := items - cut.items.Keys;
    assert cut.items.Keys == LowestKeys(items.Keys, |items| - 1);
    OneLess(items.Keys, cut.items.Keys);
    var n :| n in caps;
    tx := caps[n];
    assert items - {n} == cut.items;
    p' := p[a := cut];
  }

  lemma OneLess(keys: set<nat>, kept: set<nat>)
    requires kept <= keys && |kept| == |keys| - 1
    ensures exists n :: n in keys - kept
    ensures forall n :: n in keys - kept ==> kept == keys - {n}
  {
    assert keys == kept + (keys - kept) && |keys - kept| == 1;
    var n :| n in keys - kept;
    assert |keys - kept - {n}| == 0;
    assert keys - kept == {n};
  }

  lemma CutTopOk(p: Accounts, p': Accounts, queue: Accounts, known: map<Hash, Tx>, a: Address, tx: Tx)
    requires PoolOk(p, queue, known) && WithoutTop(p, p', a, tx)
    ensures PoolOk(p', queue, known - {tx.hash})
  {
    hide AccountOk, SameElsewhere, HashKeyed, Lowest;
    assert AccountOk(a, Items(p, a), Items(queue, a), known);
    var gone := map[tx.nonce := tx];
    DropPending(a, Items(p, a), Items(queue, a), known, gone);
    assert Hashes(gone) == {tx.hash} && Items(p, a) - gone.Keys == Items(p, a) - {tx.nonce};
    Confined(a, p, queue, known, p', queue, known - {tx.hash});
  }

  lemma CutTopNonces(p: Accounts, p': Accounts, a: Address, tx: Tx, state: Address -> nat,
                     nonces: map<Address, nat>, nonces': map<Address, nat>)
    requires WithoutTop(p, p', a, tx)
    requires NonceSet(state, nonces, nonces', a, Lower(VirtualNonce(nonces, state, a), tx.nonce))
    ensures AllIntervals(p, state, nonces) ==> AllIntervals(p', state, nonces')
  {
    hide Lowest;
    if AllIntervals(p, state, nonces) {
      assert Interval(Items(p, a).Keys, state(a), VirtualNonce(nonces, state, a));
      forall b ensures Interval(Items(p', b).Keys, state(b), VirtualNonce(nonces', state, b)) {
        if b != a {
          assert Interval(Items(p, b).Keys, state(b), VirtualNonce(nonces, state, b));
        }
      }
    }
  }

  // ---------------------------------------------------------------- levels

  ghost function Members(offs: seq<Address>): set<Address> {
    set i | 0 <= i < |offs| :: offs[i]
  }

  ghost predicate Distinct(offs: seq<Address>) {
    forall i, j :: 0 <= i < j < |offs| ==> offs[i] != offs[j]
  }

  /** `offs` are distinct non-local accounts of at least `t` transactions, and all that have more than `floor`. */
  ghost predicate Cuttable(p0: Accounts, locals: set<Address>, offs: seq<Address>, floor: nat, t: nat) {
    && Distinct(offs)
    && (forall i :: 0 <= i < |offs| ==> offs[i] in p0 && offs[i] !in locals && Len(p0, offs[i]) >= t)
    && Longer(p0, locals, floor) <= Members(offs)
  }

  lemma CuttableAre(p0: Accounts, locals: set<Address>, offs: seq<Address>, floor: nat, t: nat, u: nat)
    requires Cuttable(p0, locals, offs, floor, t) && floor <= u < t
    ensures Members(offs) == Longer(p0, locals, u) && |offs| == |Longer(p0, locals, u)| && Distinct(offs)
  {
    MembersSize(offs);
  }

  lemma {:induction false} MembersSize(offs: seq<Address>)
    requires Distinct(offs)
    ensures |Members(offs)| == |offs|
  {
    if offs != [] {
      var n := |offs| - 1;
      MembersSize(offs[..n]);
      assert Members(offs) == Members(offs[..n]) + {offs[n]};
    }
  }

  lemma TotalBounds(p: Accounts, a: Address)
    requires a in p
    ensures |p[a].items| <= Total(p)
  {
    TotalWithout(p, a);
  }

  lemma CutTotal(p: Accounts, p': Accounts, a: Address, tx: Tx)
    requires WithoutTop(p, p', a, tx)
    ensures Total(p') == Total(p) - 1
  {
    forall b | b in p' ensures p'[b].items == p[a := p'[a]][b].items {
      assert b != a ==> Items(p', b) == Items(p, b);
    }
    SameTotal(p', p[a := p'[a]]);
    TotalUpdate(p, a, p'[a]);
    assert |Items(p', a)| == |Items(p, a)| - 1;
  }

  /** The total only depends on the contents of the lists. */
  lemma {:induction false} SameTotal(p: Accounts, q: Accounts)
    requires p.Keys == q.Keys && forall a :: a in p ==> p[a].items == q[a].items
    ensures Total(p) == Total(q)
    decreases |p|
  {
    if p != map[] {
      var a :| a in p;
      TotalWithout(p, a);
      TotalWithout(q, a);
      SameTotal(p - {a}, q - {a});
    }
  }

  /** Counts the transactions of all lists, in any order. */
  method CountAll(p: Accounts) returns (count: nat)
    ensures count == Total(p)
  {
    count := 0;
    var rest := p;
    while rest != map[]
      invariant count + Total(rest) == Total(p)
      decreases |rest|
    {
      var a :| a in rest;
      TotalWithout(rest, a);
      count := count + |rest[a].items|;
      rest := rest - {a};
    }
  }

  /** Nothing to cut above the longest list. */
  lemma AlreadyBelow(p: Accounts, locals: set<Address>, t: nat)
    requires Longer(p, locals, t) == {}
    ensures WaterFilled(p, p, locals, t)
  {
    forall a | a in p && a !in locals ensures Items(p, a) == Lowest(Items(p, a), t) {
      assert a !in Longer(p, locals, t);
      LowestAll(Items(p, a), t);
    }
  }

  /** Some account of a set has the longest list. */
  lemma {:induction false} HasLongest(p: Accounts, s: set<Address>, x: Address)
    requires x in s && s <= p.Keys
    ensures exists a :: a in s && forall b :: b in s ==> Len(p, b) <= Len(p, a)
    decreases Total(p) - Len(p, x)
  {
    if y :| y in s && Len(p, y) > Len(p, x) {
      TotalBounds(p, y);
      HasLongest(p, s, y);
    }
  }

  lemma NextMember(offs: seq<Address>, i: nat)
    requires Distinct(offs) && i < |offs|
    ensures offs[i] !in Members(offs[..i]) && offs[i] in Members(offs)
    ensures Members(offs[..i + 1]) == Members(offs[..i]) + {offs[i]}
  {
  }

  lemma LongIsPresent(p0: Accounts, p: Accounts, locals: set<Address>, t: nat, done: set<Address>, a: Address)
    requires MidRound(p0, p, locals, t, done) && a in Longer(p0, locals, t - 1)
    ensures a in p
  {
  }

  lemma LastLength(p0: Accounts, p: Accounts, locals: set<Address>, offs: seq<Address>, floor: nat, t0: nat, t: nat)
    requires Cuttable(p0, locals, offs, floor, t0) && offs != [] && t <= t0 && WaterFilled(p0, p, locals, t)
    ensures Len(p, offs[|offs| - 1]) == t
  {
    LowestTwice(Items(p0, offs[|offs| - 1]), t, t);
  }

  // ---------------------------------------------------------------- choosing the offenders

  /** The offenders popped so far and the spammers still queued are all accounts above their slots; the
      lists stand at level `t`, which no queued spammer exceeds. */
  ghost predicate Stage(p0: Accounts, p: Accounts, locals: set<Address>, slots: nat, offs: seq<Address>,
                        spammers: set<Address>, t: nat)
  {
    && WaterFilled(p0, p, locals, t) && slots <= t
    && Distinct(offs) && Members(offs) !! spammers && Members(offs) + spammers == Longer(p0, locals, slots)
    && forall a :: a in spammers ==> Len(p0, a) <= t
  }

  /** Every offender was at least `t` long. */
  ghost predicate AtLevel(p0: Accounts, offs: seq<Address>, t: nat) {
    forall i :: 0 <= i < |offs| ==> Len(p0, offs[i]) >= t
  }

  /** The next offender sets the floor to which the earlier ones are cut. */
  lemma NextOffender(p0: Accounts, p: Accounts, locals: set<Address>, slots: nat, offs: seq<Address>,
                     spammers: set<Address>, t: nat, o: Address)
    requires Stage(p0, p, locals, slots, offs, spammers, t) && AtLevel(p0, offs, t)
    requires o in spammers && forall b :: b in spammers ==> Len(p0, b) <= Len(p0, o)
    ensures slots < Len(p0, o) <= t && Len(p, o) == Len(p0, o)
    ensures Cuttable(p0, locals, offs, Len(p0, o), t)
    ensures offs == [] ==> WaterFilled(p0, p, locals, Len(p0, o))
  {
    var th := Len(p0, o);
    assert o in Longer(p0, locals, slots);
    LowestAll(Items(p0, o), t);
    forall i | 0 <= i < |offs| ensures offs[i] in p0 && offs[i] !in locals {
      assert offs[i] in Members(offs);
    }
    forall a | a in Longer(p0, locals, th) ensures a in Members(offs) {
      assert a in Longer(p0, locals, slots);
    }
    if offs == [] {
      LevelDown(p0, p, locals, t, th);
    }
  }

  lemma LevelDown(p0: Accounts, p: Accounts, locals: set<Address>, t: nat, u: nat)
    requires WaterFilled(p0, p, locals, t) && u <= t && Longer(p0, locals, u) == {}
    ensures WaterFilled(p0, p, locals, u)
  {
    forall a | a in p0 && a !in locals ensures Items(p, a) == Lowest(Items(p0, a), u) {
      assert a !in Longer(p0, locals, u);
      LowestAll(Items(p0, a), t);
      LowestAll(Items(p0, a), u);
    }
  }

  lemma StageStep(p0: Accounts, p: Accounts, p': Accounts, locals: set<Address>, slots: nat, offs: seq<Address>,
                  spammers: set<Address>, t: nat, o: Address, t': nat)
    requires Stage(p0, p, locals, slots, offs, spammers, t) && AtLevel(p0, offs, t)
    requires o in spammers && forall b :: b in spammers ==> Len(p0, b) <= Len(p0, o)
    requires slots < Len(p0, o) <= t' <= t && WaterFilled(p0, p', locals, t')
    ensures Stage(p0, p', locals, slots, offs + [o], spammers - {o}, t')
    ensures t' == Len(p0, o) ==> AtLevel(p0, offs + [o], t')
  {
    hide WaterFilled, Members, Distinct, Longer;
    AppendMember(offs, o);
  }

  lemma AppendMember(offs: seq<Address>, o: Address)
    requires Distinct(offs) && o !in Members(offs)
    ensures Distinct(offs + [o]) && Members(offs + [o]) == Members(offs) + {o}
  {
    var more := offs + [o];
    assert more[|offs|] == o;
    forall i | 0 <= i < |offs| ensures offs[i] != o {
      assert offs[i] in Members(offs);
    }
    forall a | a in Members(offs) ensures a in Members(more) {
      var i :| 0 <= i < |offs| && offs[i] == a;
      assert more[i] == a;
    }
  }

  /** The state of the search for the level, with `count` transactions left against the limit. */
  ghost predicate Searching(p0: Accounts, p: Accounts, locals: set<Address>, slots: nat, limit: nat, offs: seq<Address>,
                            spammers: set<Address>, t: nat, count: nat)
  {
    && Stage(p0, p, locals, slots, offs, spammers, t)
    && count == Total(p) && (offs == [] ==> p == p0)
    && (count > limit ==> AtLevel(p0, offs, t))
    && (p != p0 ==> count + |Longer(p0, locals, t)| > limit)
  }

  /** The outcome: the non-local lists are cut to one level, at least the guaranteed slots. The limit is met
      or the level is that minimum, and one level higher the limit would not have been met. */
  ghost predicate Truncated(p0: Accounts, p: Accounts, locals: set<Address>, slots: nat, limit: nat, level: nat) {
    && slots <= level && WaterFilled(p0, p, locals, level)
    && (Total(p) <= limit || level == slots)
    && (Total(p) != Total(p0) ==> Total(p) + |Longer(p0, locals, level)| > limit)
  }

  /** From the level `t` of the search to the final one. */
  lemma Outcome(p0: Accounts, p: Accounts, p': Accounts, locals: set<Address>, slots: nat, limit: nat, t: nat,
                level: nat)
    requires slots <= level && WaterFilled(p0, p', locals, level) && (Total(p') <= limit || level == slots)
    requires p != p0 ==> Total(p) + |Longer(p0, locals, t)| > limit
    requires p' == p0 || (if level == t then p' == p else Total(p') + |Longer(p0, locals, level)| > limit)
    ensures Truncated(p0, p', locals, slots, limit, level)
  {
    hide WaterFilled, Longer, Total;
  }

  lemma SpammerLens(p0: Accounts, p: Accounts, locals: set<Address>, slots: nat, offs: seq<Address>,
                    spammers: set<Address>, t: nat)
    requires Stage(p0, p, locals, slots, offs, spammers, t)
    ensures forall b :: b in spammers ==> b in p && Len(p, b) == Len(p0, b)
  {
    forall b | b in spammers ensures b in p && Len(p, b) == Len(p0, b) {
      assert b in Longer(p0, locals, slots);
      LowestAll(Items(p0, b), t);
    }
  }

  /** `prque.Pop`: an account with a longest list. */
  method PopLongest(p: Accounts, spammers: set<Address>) returns (o: Address)
    requires spammers != {} && spammers <= p.Keys
    ensures o in spammers && forall b :: b in spammers ==> Len(p, b) <= Len(p, o)
  {
    ghost var x :| x in spammers;
    HasLongest(p, spammers, x);
    o :| o in spammers && forall b :: b in spammers ==> Len(p, b) <= Len(p, o);
  }

  lemma FirstStage(p: Accounts, locals: set<Address>, slots: nat)
    ensures Stage(p, p, locals, slots, [], Longer(p, locals, slots), Total(p) + slots)
    ensures AtLevel(p, [], Total(p) + slots)
  {
    hide WaterFilled, Total, Len;
    var t := Total(p) + slots;
    forall a | a in p ensures Len(p, a) <= t {
      LenBounds(p, a);
    }
    assert Members([]) == {};
    AlreadyBelow(p, locals, t);
  }

  lemma LenBounds(p: Accounts, a: Address)
    requires a in p
    ensures Len(p, a) <= Total(p)
  {
    hide Total;
    TotalBounds(p, a);
  }

  /** When every spammer has become an offender, the offenders can be cut down to their slots. */
  lemma LastStage(p0: Accounts, p: Accounts, locals: set<Address>, slots: nat, offs: seq<Address>, t: nat)
    requires Stage(p0, p, locals, slots, offs, {}, t) && AtLevel(p0, offs, t)
    ensures Cuttable(p0, locals, offs, slots, t)
    ensures offs == [] ==> WaterFilled(p0, p, locals, slots)
  {
    forall i | 0 <= i < |offs| ensures offs[i] in p0 && offs[i] !in locals {
      assert offs[i] in Members(offs);
    }
    if offs == [] {
      assert Members(offs) == {};
      LevelDown(p0, p, locals, t, slots);
    }
  }

  /** Raising the level by one adds exactly one transaction for every account that is longer than it. */
  lemma {:induction false} NextLevelTotal(p0: Accounts, p: Accounts, p': Accounts, locals: set<Address>, t: nat)
    requires WaterFilled(p0, p, locals, t) && WaterFilled(p0, p', locals, t + 1)
    ensures Total(p') == Total(p) + |Longer(p0, locals, t)|
    decreases |p0|
  {
    hide WaterFilled, Longer, Total, Lowest;
    if p0 == map[] {
      NoAccounts(p, locals, t, t);
      NoAccounts(p', locals, t + 1, t);
    } else {
      var a :| a in p0;
      WithoutAccount(p0, p, locals, t, a);
      WithoutAccount(p0, p', locals, t + 1, a);
      NextLevelTotal(p0 - {a}, p - {a}, p' - {a}, locals, t);
      TotalWithout(p, a);
      TotalWithout(p', a);
      LowestTwice(Items(p0, a), t, t);
      LowestTwice(Items(p0, a), t + 1, t + 1);
      LongerWithout(p0, locals, t, a);
    }
  }

  lemma NoAccounts(p: Accounts, locals: set<Address>, t: nat, u: nat)
    requires WaterFilled(map[], p, locals, t)
    ensures Total(p) == 0 && Longer(map[], locals, u) == {}
  {
    assert p.Keys == {};
  }

  lemma LongerWithout(p: Accounts, locals: set<Address>, t: nat, a: Address)
    requires a in p
    ensures |Longer(p, locals, t)| == |Longer(p - {a}, locals, t)| + if a !in locals && Len(p, a) > t then 1 else 0
  {
    var rest := Longer(p - {a}, locals, t);
    assert forall b :: b != a ==> Items(p - {a}, b) == Items(p, b);
    assert Longer(p, locals, t) == if a !in locals && Len(p, a) > t then rest + {a} else rest;
  }

  lemma WithoutAccount(p0: Accounts, p: Accounts, locals: set<Address>, t: nat, a: Address)
    requires WaterFilled(p0, p, locals, t) && a in p0
    ensures WaterFilled(p0 - {a}, p - {a}, locals, t)
    ensures a in p && p[a].items == if a in locals then Items(p0, a) else Lowest(Items(p0, a), t)
  {
    hide Lowest;
    assert p[a].items == Items(p, a);
    forall b | b in p0 - {a}
      ensures Items(p - {a}, b) == if b in locals then Items(p0 - {a}, b) else Lowest(Items(p0 - {a}, b), t)
    {
      assert Items(p0 - {a}, b) == Items(p0, b) && Items(p - {a}, b) == Items(p, b);
    }
  }

  // ---------------------------------------------------------------- the queue

  /** Taking one transaction out of one list lowers the total by one. */
  lemma TotalTakeOne(q: Accounts, q': Accounts, a: Address, n: nat)
    requires NoneEmpty(q) && NoneEmpty(q') && SameListsElsewhere(a, q, q')
    requires n in Items(q, a) && Items(q', a) == Items(q, a) - {n}
    ensures Total(q') == Total(q) - 1
  {
    hide Total, SameListsElsewhere;
    TotalAt(q, a);
    TotalAt(q', a);
    TotalElsewhere(q, q', a);
    assert Items(q', a).Keys == Items(q, a).Keys - {n};
  }

  lemma TotalAt(q: Accounts, a: Address)
    ensures Total(q) == |Items(q, a)| + Total(q - {a})
  {
    if a in q {
      TotalWithout(q, a);
    } else {
      assert q - {a} == q;
    }
  }

  lemma TotalElsewhere(q: Accounts, q': Accounts, a: Address)
    requires NoneEmpty(q) && NoneEmpty(q') && SameListsElsewhere(a, q, q')
    ensures Total(q - {a}) == Total(q' - {a})
  {
    var rest, rest' := q - {a}, q' - {a};
    forall b ensures b in rest <==> b in rest' {
      assert b != a ==> Items(q', b) == Items(q, b);
    }
    forall b | b in rest ensures rest[b].items == rest'[b].items {
      assert Items(q', b) == Items(q, b);
    }
    SameTotal(rest, rest');
  }

  /** `part` are transactions of `items` with the highest nonces. */
  ghost predicate Newest(items: map<nat, Tx>, part: map<nat, Tx>) {
    Sub(part, items) && forall n, m :: n in part && m in items && n <= m ==> m in part
  }

  /** Without its lowest nonce a list keeps its newest transactions. */
  lemma WithoutLeast(items: map<nat, Tx>, part: map<nat, Tx>, n: nat)
    requires n in items && part == items - {n} && forall m :: m in items ==> n <= m
    ensures Newest(items, part) && |part| == |items| - 1
  {
    assert part.Keys == items.Keys - {n};
  }

  /** Account `a` lost some of its transactions but not all. */
  ghost predicate Partly(q0: Accounts, q: Accounts, a: Address) {
    Items(q, a) != map[] && Items(q, a) != Items(q0, a)
  }

  /** What `truncateQueue` leaves: the overflow is dropped exactly, only from non-local accounts, from each its
      lowest nonces first, and one account is emptied before the next is touched. */
  ghost predicate QueueCut(q0: Accounts, q: Accounts, locals: set<Address>, limit: nat, done: set<Address>) {
    && (forall a :: a in locals ==> Items(q, a) == Items(q0, a))
    && (forall a :: Newest(Items(q0, a), Items(q, a)))
    && (forall a, b :: Partly(q0, q, a) && Partly(q0, q, b) ==> a == b)
    && (Total(q) == Total(q0) || limit <= Total(q))
    && (Total(q) > limit ==> forall a :: a in done ==> Items(q, a) == map[])
  }

  lemma NothingCut(q: Accounts, locals: set<Address>, limit: nat, done: set<Address>)
    ensures Total(q) <= limit || done == {} ==> QueueCut(q, q, locals, limit, done)
  {
    hide Total;
  }

  lemma NoneLeft(q: Accounts, a: Address)
    ensures Len(q, a) == 0 <==> Items(q, a) == map[]
  {
  }

  /** Cutting the next account, down to the limit or to nothing. */
  lemma CutQueue(q0: Accounts, q: Accounts, q': Accounts, locals: set<Address>, limit: nat, done: set<Address>,
                 a: Address)
    requires QueueCut(q0, q, locals, limit, done) && a !in locals && a !in done && Total(q) > limit
    requires forall b :: b !in done ==> Items(q, b) == Items(q0, b)
    requires SameListsElsewhere(a, q, q') && Newest(Items(q, a), Items(q', a))
    requires limit <= Total(q') && (Total(q') > limit ==> Items(q', a) == map[])
    ensures QueueCut(q0, q', locals, limit, done + {a})
    ensures forall b :: b !in done + {a} ==> Items(q', b) == Items(q0, b)
  {
    hide Total, Newest;
    forall b ensures Newest(Items(q0, b), Items(q', b)) && (Partly(q0, q', b) ==> b == a) {
      assert Newest(Items(q0, b), Items(q, b));
    }
  }

  lemma CutOff(q0: Accounts, q: Accounts, locals: set<Address>, limit: nat, done: set<Address>, all: set<Address>)
    requires QueueCut(q0, q, locals, limit, done) && (Total(q) <= limit || done == all)
    ensures QueueCut(q0, q, locals, limit, all)
  {
    hide Total, Newest, Partly;
  }

  /** Either tier is within its limit, or is over it only by what may not be dropped. */
  ghost predicate WithinLimits(p: Accounts, q: Accounts, locals: set<Address>, floor: nat, slots: nat, queued: nat) {
    && (Total(p) <= slots || forall a :: a !in locals ==> Len(p, a) <= floor)
    && (Total(q) <= queued || forall a :: a !in locals ==> Len(q, a) == 0)
  }

  /** The outcome only depends on the contents of the lists. */
  lemma SameTruncated(p0: Accounts, p: Accounts, p': Accounts, locals: set<Address>, floor: nat, slots: nat, level: nat)
    requires Truncated(p0, p, locals, floor, slots, level)
    requires NoneEmpty(p) && NoneEmpty(p') && forall a :: Items(p', a) == Items(p, a)
    ensures Truncated(p0, p', locals, floor, slots, level)
  {
    hide Total, Longer, WaterFilled, NoneEmpty;
    SameItemsTotal(p, p');
    SameFilled(p0, p, p', locals, level);
  }

  lemma SameFilled(p0: Accounts, p: Accounts, p': Accounts, locals: set<Address>, level: nat)
    requires WaterFilled(p0, p, locals, level) && NoneEmpty(p) && NoneEmpty(p')
    requires forall a :: Items(p', a) == Items(p, a)
    ensures WaterFilled(p0, p', locals, level)
  {
    hide Lowest;
    forall a ensures a in p <==> a in p' {
      assert Items(p', a) == Items(p, a);
    }
  }

  lemma LimitsHold(p0: Accounts, p: Accounts, q: Accounts, q': Accounts, locals: set<Address>,
                   floor: nat, slots: nat, queued: nat, level: nat)
    requires Truncated(p0, p, locals, floor, slots, level) && QueueCut(q, q', locals, queued, q.Keys - locals)
    ensures WithinLimits(p, q', locals, floor, slots, queued)
  {
    hide Total, WaterFilled, Longer, QueueCut, NoneEmpty;
    forall a | a !in locals ensures Len(p, a) <= level {
      LevelledLen(p0, p, locals, level, a);
    }
    QueueLimit(q, q', locals, queued);
  }

  lemma LevelledLen(p0: Accounts, p: Accounts, locals: set<Address>, level: nat, a: Address)
    requires WaterFilled(p0, p, locals, level) && a !in locals
    ensures Len(p, a) <= level
  {
    if a in p0 {
      LowestTwice(Items(p0, a), level, level);
    }
  }

  lemma QueueLimit(q: Accounts, q': Accounts, locals: set<Address>, limit: nat)
    requires QueueCut(q, q', locals, limit, q.Keys - locals)
    ensures Total(q') <= limit || forall a :: a !in locals ==> Len(q', a) == 0
  {
    hide Total;
    forall a | a !in locals && Total(q') > limit ensures Items(q', a) == map[] {
      assert Newest(Items(q, a), Items(q', a));
    }
  }

  lemma SameItemsTotal(p: Accounts, p': Accounts)
    requires NoneEmpty(p) && NoneEmpty(p') && forall a :: Items(p', a) == Items(p, a)
    ensures Total(p) == Total(p')
  {
    forall a ensures a in p <==> a in p' {
      assert Items(p', a) == Items(p, a);
    }
    forall a | a in p ensures p[a].items == p'[a].items {
      assert Items(p', a) == Items(p, a);
    }
    SameTotal(p, p');
  }

  /** Truncation only removes. */
  lemma OnlyShrunk(p0: Accounts, p: Accounts, q: Accounts, q': Accounts, locals: set<Address>,
                   floor: nat, slots: nat, queued: nat, level: nat)
    requires Truncated(p0, p, locals, floor, slots, level) && QueueCut(q, q', locals, queued, q.Keys - locals)
    ensures forall a :: Sub(Items(p, a), Items(p0, a)) && Sub(Items(q', a), Items(q, a))
  {
    hide Total, Longer;
    forall a ensures Sub(Items(p, a), Items(p0, a)) && Sub(Items(q', a), Items(q, a)) {
      LevelledSub(p0, p, locals, level, a);
      assert Newest(Items(q, a), Items(q', a));
    }
  }

  lemma LevelledSub(p0: Accounts, p: Accounts, locals: set<Address>, level: nat, a: Address)
    requires WaterFilled(p0, p, locals, level)
    ensures Sub(Items(p, a), Items(p0, a))
  {
    assert LowestKeys(Items(p0, a).Keys, level) <= Items(p0, a).Keys;
  }
}

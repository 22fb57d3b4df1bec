/**
 Headers linked by parent hashes, the ancestor path of a header, and the canonical index that is
 meant to hold exactly that path.
 */
module ChainIndex {
  import opened Transactions

  /** A header under its own hash. Hash 0 is never used: it stands for an absent entry. */
  datatype Header = Header(hash: Hash, number: nat, parent: Hash, difficulty: nat)

  type Headers = map<Hash, Header>

  /** Every header but the genesis has its parent in the database, one number below; there is one genesis. */
  ghost predicate Rooted(hs: Headers, genesis: Hash) {
    && genesis in hs && hs[genesis].number == 0
    && (forall h :: h in hs ==> h != 0 && hs[h].hash == h)
    && (forall h :: h in hs && h != genesis ==> HasParent(hs, h))
  }

  ghost predicate HasParent(hs: Headers, h: Hash)
    requires h in hs
  {
    hs[h].parent in hs && hs[hs[h].parent].number + 1 == hs[h].number
  }

  /** The ancestor of `h` at number `n`, found by following parent hashes. */
  ghost function Ancestor(hs: Headers, genesis: Hash, h: Hash, n: nat): (a: Hash)
    requires Rooted(hs, genesis) && h in hs && n <= hs[h].number
    ensures a in hs && hs[a].number == n
    ensures n == 0 ==> a == genesis
    decreases hs[h].number
  {
    if n == hs[h].number then
      h
    else
      assert HasParent(hs, h);
      Ancestor(hs, genesis, hs[h].parent, n)
  }

  lemma AncestorStep(hs: Headers, genesis: Hash, h: Hash, n: nat)
    requires Rooted(hs, genesis) && h in hs && n <= hs[h].number
    ensures n < hs[h].number ==>
              HasParent(hs, h) && Ancestor(hs, genesis, h, n) == Ancestor(hs, genesis, hs[h].parent, n)
    ensures n == hs[h].number ==> Ancestor(hs, genesis, h, n) == h
  {
    assert n < hs[h].number ==> HasParent(hs, h);
  }

  /** Consecutive ancestors are parent and child. */
  lemma {:induction false} AncestorLinked(hs: Headers, genesis: Hash, h: Hash, n: nat)
    requires Rooted(hs, genesis) && h in hs && n < hs[h].number
    ensures hs[Ancestor(hs, genesis, h, n + 1)].parent == Ancestor(hs, genesis, h, n)
    decreases hs[h].number
  {
    assert HasParent(hs, h);
    if n + 1 < hs[h].number {
      AncestorLinked(hs, genesis, hs[h].parent, n);
    }
  }

  /** The ancestors of an ancestor are ancestors. */
  lemma {:induction false} AncestorOfAncestor(hs: Headers, genesis: Hash, h: Hash, n: nat, m: nat)
    requires Rooted(hs, genesis) && h in hs && m <= n <= hs[h].number
    ensures Ancestor(hs, genesis, Ancestor(hs, genesis, h, n), m) == Ancestor(hs, genesis, h, m)
    decreases hs[h].number
  {
    if n < hs[h].number {
      assert HasParent(hs, h);
      AncestorOfAncestor(hs, genesis, hs[h].parent, n, m);
    }
  }

  /** Storing more headers does not change the ancestors of those already there. */
  lemma {:induction false} AncestorKept(hs: Headers, hs': Headers, genesis: Hash, h: Hash, n: nat)
    requires Rooted(hs, genesis) && Rooted(hs', genesis) && h in hs && n <= hs[h].number
    requires forall k :: k in hs ==> k in hs' && hs'[k] == hs[k]
    ensures Ancestor(hs', genesis, h, n) == Ancestor(hs, genesis, h, n)
    decreases hs[h].number
  {
    if n < hs[h].number {
      assert HasParent(hs, h);
      AncestorKept(hs, hs', genesis, hs[h].parent, n);
    }
  }

  // ---------------------------------------------------------------- the canonical index

  type Index = map<nat, Hash>

  /** Reading an absent entry gives the zero hash. */
  function Read(c: Index, n: nat): Hash {
    if n in c then c[n] else 0
  }

  /** What the index is meant to hold at number `n` when the head is `head`. */
  ghost function PathAt(hs: Headers, genesis: Hash, head: Hash, n: nat): Hash
    requires Rooted(hs, genesis) && head in hs
  {
    if n <= hs[head].number then Ancestor(hs, genesis, head, n) else 0
  }

  /** A path ends at its head and starts at the genesis. */
  lemma Itself(hs: Headers, genesis: Hash, h: Hash)
    requires Rooted(hs, genesis) && h in hs
    ensures PathAt(hs, genesis, h, hs[h].number) == h && PathAt(hs, genesis, h, 0) == genesis && hs[genesis].number == 0
  {
  }

  /** One step down a path leads to the parent. */
  lemma StepBack(hs: Headers, genesis: Hash, head: Hash, n: nat)
    requires Rooted(hs, genesis) && head in hs && 0 < n <= hs[head].number
    ensures var h := PathAt(hs, genesis, head, n);
            h in hs && HasParent(hs, h) && hs[h].number == n && hs[h].parent == PathAt(hs, genesis, head, n - 1)
  {
    hide Rooted, Ancestor;
    AncestorLinked(hs, genesis, head, n - 1);
    AncestorStep(hs, genesis, Ancestor(hs, genesis, head, n), n - 1);
  }

  /** The index holds exactly the path of `head`, and nothing above it. */
  ghost predicate IsPath(c: Index, hs: Headers, genesis: Hash, head: Hash) {
    && Rooted(hs, genesis) && head in hs
    && forall n: nat :: Read(c, n) == PathAt(hs, genesis, head, n)
  }

  /** A new header whose parent is stored one number below keeps the database rooted. */
  lemma RootedWith(hs: Headers, genesis: Hash, hd: Header)
    requires Rooted(hs, genesis) && hd.hash != 0 && hd.parent in hs && hs[hd.parent].number + 1 == hd.number
    requires hd.hash in hs ==> hs[hd.hash] == hd
    ensures Rooted(hs[hd.hash := hd], genesis)
  {
    var hs' := hs[hd.hash := hd];
    forall h | h in hs' && h != genesis ensures HasParent(hs', h) {
      if h != hd.hash {
        assert HasParent(hs, h);
      }
    }
  }

  /** Storing more headers does not change the path of a head. */
  lemma PathKept(c: Index, hs: Headers, genesis: Hash, head: Hash, hs': Headers)
    requires IsPath(c, hs, genesis, head) && Rooted(hs', genesis)
    requires forall k :: k in hs ==> k in hs' && hs'[k] == hs[k]
    ensures IsPath(c, hs', genesis, head)
  {
    hide Rooted, Ancestor;
    forall n: nat ensures Read(c, n) == PathAt(hs', genesis, head, n) {
      if n <= hs[head].number {
        AncestorKept(hs, hs', genesis, head, n);
      }
    }
  }

  /** Two paths that meet at number `n` agree below it. */
  lemma PathsMeet(hs: Headers, genesis: Hash, a: Hash, b: Hash, n: nat, m: nat)
    requires Rooted(hs, genesis) && a in hs && b in hs && m <= n <= hs[a].number && n <= hs[b].number
    requires Ancestor(hs, genesis, a, n) == Ancestor(hs, genesis, b, n)
    ensures Ancestor(hs, genesis, a, m) == Ancestor(hs, genesis, b, m)
  {
    AncestorOfAncestor(hs, genesis, a, n, m);
    AncestorOfAncestor(hs, genesis, b, n, m);
  }

  /** Deletes entries from `from` upward until the first one that `db` does not have. */
  method DeleteUpward(db: Index, c: Index, from: nat) returns (r: Index, ghost end: nat)
    ensures from <= end && Read(db, end) == 0 && (forall n: nat :: from <= n < end ==> Read(db, n) != 0)
    ensures forall n: nat :: Read(r, n) == if from <= n < end then 0 else Read(c, n)
  {
    r := c;
    var i := from;
    ghost var seen: set<nat> := {};
    while Read(db, i) != 0
      invariant from <= i && (forall n :: n in seen <==> from <= n < i)
      invariant forall n: nat :: from <= n < i ==> Read(db, n) != 0
      invariant forall n: nat :: Read(r, n) == if from <= n < i then 0 else Read(c, n)
      decreases db.Keys - seen
    {
      ghost var before := r;
      r := r - {i};
      assert forall n: nat :: Read(r, n) == if n == i then 0 else Read(before, n);
      seen := seen + {i};
      i := i + 1;
    }
    end := i;
  }

  /** On a path, deleting upward from `from` leaves nothing at or above `from`. */
  method DeleteAbove(db: Index, c: Index, from: nat, ghost hs: Headers, ghost genesis: Hash, ghost head: Hash)
    returns (r: Index)
    requires IsPath(db, hs, genesis, head) && forall n: nat :: n > hs[head].number ==> Read(c, n) == 0 || n < from
    ensures forall n: nat :: Read(r, n) == if n < from then Read(c, n) else 0
  {
    hide Ancestor, HasParent;
    ghost var end;
    r, end := DeleteUpward(db, c, from);
  }

  // ---------------------------------------------------------------- fork choice

  /** Total difficulty decides; of equals the lower number wins, and at the same number a coin. */
  predicate Prefer(newTd: nat, number: nat, td: nat, head: nat, coin: bool) {
    newTd > td || (newTd == td && (number < head || (number == head && coin)))
  }

  /** The total difficulty of a block is that of its parent and its own. */
  ghost predicate AddUp(hs: Headers, genesis: Hash, tds: map<Hash, nat>) {
    tds.Keys == hs.Keys && forall h :: h in hs && h != genesis ==> Adds(hs, tds, h)
  }

  ghost predicate Adds(hs: Headers, tds: map<Hash, nat>, h: Hash)
    requires h in hs && tds.Keys == hs.Keys
  {
    hs[h].parent in tds && tds[h] == tds[hs[h].parent] + hs[h].difficulty
  }
}

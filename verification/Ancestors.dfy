/**
 Fast ancestor lookups: the block hash function of the EVM, which remembers how far it has walked, and
 `GetAncestor`, which jumps along the canonical index. Both agree with walking parent by parent.
 */
module Ancestors {
  import opened Transactions
  import opened ChainIndex

  const TWO_64: int := 0x1_0000_0000_0000_0000

  function U64(n: int): nat {
    n % TWO_64
  }

  /** Headers are found by hash and number together. */
  function GetHeader(hs: Headers, h: Hash, number: nat): Option<Header> {
    if h in hs && hs[h].number == number then Some(hs[h]) else None
  }

  // ---------------------------------------------------------------- block hashes for the EVM

  /** The plain walk: from hash `h` at `number` down to number `n`, or the zero hash if a header is missing. */
  function Walk(hs: Headers, h: Hash, number: nat, n: nat): Hash
    requires n <= number
    decreases number
  {
    if n == number then h
    else
      var header := GetHeader(hs, h, number);
      if header.None? then 0 else Walk(hs, header.value.parent, number - 1, n)
  }

  /** Numbers are 64 bits wide, and the parent of a genesis block is not a block. */
  ghost predicate Numbered(hs: Headers) {
    forall h :: h in hs ==> hs[h].number < TWO_64 && (hs[h].number == 0 ==> hs[h].parent !in hs)
  }

  /** Each entry of the cache is the parent of the header the entry before it names. */
  ghost predicate Chained(hs: Headers, refNumber: nat, refParent: Hash, cache: seq<Hash>) {
    && |cache| <= refNumber + 1 && (cache != [] ==> cache[0] == refParent)
    && forall i :: 0 < i < |cache| ==> Follows(hs, refNumber, cache, i)
  }

  predicate Follows(hs: Headers, refNumber: nat, cache: seq<Hash>, i: nat)
    requires 0 < i < |cache| <= refNumber + 1
  {
    var header := GetHeader(hs, cache[i - 1], refNumber - i);
    header.Some? && header.value.parent == cache[i]
  }

  /** A cached entry is what the plain walk finds, and the walk may start from any entry. */
  lemma {:induction false} WalkFrom(hs: Headers, refNumber: nat, refParent: Hash, cache: seq<Hash>, i: nat, n: nat)
    requires Chained(hs, refNumber, refParent, cache) && i < |cache| && n + i < refNumber
    ensures Walk(hs, refParent, refNumber - 1, n) == Walk(hs, cache[i], refNumber - 1 - i, n)
  {
    if i > 0 {
      WalkFrom(hs, refNumber, refParent, cache, i - 1, n);
      assert Follows(hs, refNumber, cache, i);
    }
  }

  /** Walks on from the last cached entry until number `n` or a missing header. */
  method WalkOn(hs: Headers, refNumber: nat, refParent: Hash, cache0: seq<Hash>, n: nat)
    returns (cache: seq<Hash>, hash: Hash)
    requires refNumber < TWO_64 && Numbered(hs) && (refNumber == 0 ==> refParent !in hs)
    requires Chained(hs, refNumber, refParent, cache0) && cache0 != [] && n < TWO_64
    requires n < refNumber ==> n + |cache0| < refNumber
    ensures Chained(hs, refNumber, refParent, cache) && cache0 <= cache
    ensures n < refNumber ==> hash == Walk(hs, refParent, refNumber - 1, n)
    ensures refNumber <= n < TWO_64 - 1 ==> hash == 0
  {
    cache := cache0;
    var lastHash, lastNumber := cache[|cache| - 1], U64(refNumber - |cache|);
    while true
      invariant Chained(hs, refNumber, refParent, cache) && cache0 <= cache
      invariant lastHash == cache[|cache| - 1] && lastNumber == U64(refNumber - |cache|)
      invariant n < refNumber ==> n + |cache| < refNumber
      decreases refNumber + 1 - |cache|
    {
      if n < refNumber {
        WalkFrom(hs, refNumber, refParent, cache, |cache| - 1, n);
      }
      var header := GetHeader(hs, lastHash, lastNumber);
      if header.None? {
        return cache, 0;
      }
      PastGenesis(hs, refNumber, refParent, cache);
      CacheOne(hs, refNumber, refParent, cache, header.value);
      cache := cache + [header.value.parent];
      lastHash := header.value.parent;
      lastNumber := U64(header.value.number - 1);
      if n == lastNumber {
        return cache, lastHash;
      }
    }
  }

  lemma PastGenesis(hs: Headers, refNumber: nat, refParent: Hash, cache: seq<Hash>)
    requires refNumber < TWO_64 && Numbered(hs) && (refNumber == 0 ==> refParent !in hs)
    requires Chained(hs, refNumber, refParent, cache) && cache != []
    ensures |cache| == refNumber + 1 ==> cache[refNumber] !in hs
  {
    if |cache| == refNumber + 1 && refNumber > 0 {
      assert Follows(hs, refNumber, cache, refNumber);
    }
  }

  lemma CacheOne(hs: Headers, refNumber: nat, refParent: Hash, cache: seq<Hash>, header: Header)
    requires Chained(hs, refNumber, refParent, cache) && cache != [] && |cache| <= refNumber
    requires GetHeader(hs, cache[|cache| - 1], refNumber - |cache|) == Some(header)
    ensures Chained(hs, refNumber, refParent, cache + [header.parent])
  {
    var cache' := cache + [header.parent];
    forall i | 0 < i < |cache'| ensures Follows(hs, refNumber, cache', i) {
      if i < |cache| {
        assert Follows(hs, refNumber, cache, i);
      }
    }
  }

  /** In a rooted database the plain walk finds the ancestor. */
  lemma {:induction false} WalkFindsAncestor(hs: Headers, genesis: Hash, h: Hash, n: nat)
    requires Rooted(hs, genesis) && h in hs && n <= hs[h].number
    ensures Walk(hs, h, hs[h].number, n) == Ancestor(hs, genesis, h, n)
    decreases hs[h].number
  {
    if n < hs[h].number {
      assert HasParent(hs, h);
      WalkFindsAncestor(hs, genesis, hs[h].parent, n);
    }
  }

  class HashFn {
    const headers: Headers
    const refNumber: nat
    const refParent: Hash
    var cache: seq<Hash>

    ghost predicate Valid()
      reads this
    {
      && refNumber < TWO_64 && Numbered(headers) && (refNumber == 0 ==> refParent !in headers)
      && Chained(headers, refNumber, refParent, cache)
    }

    constructor (headers: Headers, refNumber: nat, refParent: Hash)
      requires refNumber < TWO_64 && Numbered(headers) && (refNumber == 0 ==> refParent !in headers)
      ensures Valid() && cache == [] && this.headers == headers && this.refNumber == refNumber
      ensures this.refParent == refParent
    {
      this.headers, this.refNumber, this.refParent, cache := headers, refNumber, refParent, [];
    }

    /** For every number below the reference block the answer is that of the plain walk, whatever was asked before. */
    method Get(n: nat) returns (hash: Hash)
      requires Valid() && n < TWO_64
      modifies this
      ensures Valid() && old(cache) <= cache
      ensures n < refNumber ==> hash == Walk(headers, refParent, refNumber - 1, n)
      ensures refNumber <= n < TWO_64 - 1 ==> hash == 0
    {
      if |cache| == 0 {
        cache := [refParent];
      }
      var idx := U64(refNumber - n - 1);
      if idx < |cache| {
        if n < refNumber {
          WalkFrom(headers, refNumber, refParent, cache, idx, n);
        }
        return cache[idx];
      }
      cache, hash := WalkOn(headers, refNumber, refParent, cache, n);
    }
  }

  // ---------------------------------------------------------------- GetAncestor

  /** The hash reached from `h` by `k` parent steps, or the zero hash if a header is missing. */
  function Steps(hs: Headers, h: Hash, k: nat): Hash
    decreases k
  {
    if k == 0 then h else if h in hs then Steps(hs, hs[h].parent, k - 1) else 0
  }

  lemma {:induction false} StepsReachAncestor(hs: Headers, genesis: Hash, h: Hash, k: nat)
    requires Rooted(hs, genesis) && h in hs && k <= hs[h].number
    ensures Steps(hs, h, k) == PathAt(hs, genesis, h, hs[h].number - k)
    decreases k
  {
    hide Rooted, Ancestor;
    AncestorStep(hs, genesis, h, hs[h].number - k);
    if k > 0 {
      StepsReachAncestor(hs, genesis, hs[h].parent, k - 1);
    }
  }

  /** The canonical index has the path of `h` at number `n`. */
  ghost predicate OnIndex(hs: Headers, genesis: Hash, canon: Index, h: Hash, n: nat)
    requires Rooted(hs, genesis) && h in hs
  {
    Read(canon, n) == PathAt(hs, genesis, h, n)
  }

  /** A budget of `max` single steps is enough: the walk is that short, or meets the index by then. */
  ghost predicate WithinBudget(hs: Headers, genesis: Hash, canon: Index, h: Hash, k: nat, max: nat)
    requires Rooted(hs, genesis) && h in hs && k <= hs[h].number
  {
    k <= max || exists m: nat :: hs[h].number - k < m <= hs[h].number <= m + max && OnIndex(hs, genesis, canon, h, m)
  }

  /** From a block on the index, the index gives every ancestor. */
  lemma Jump(hs: Headers, genesis: Hash, canon: Index, head: Hash, h: Hash, n: nat, k: nat)
    requires IsPath(canon, hs, genesis, head) && h != 0 && Read(canon, n) == h && k <= n
    ensures h in hs && hs[h].number == n && Read(canon, n - k) == Steps(hs, h, k) && Read(canon, n - k) != 0
  {
    hide Rooted, Ancestor;
    assert n <= hs[head].number;
    NotZero(hs, genesis, head, n - k);
    AncestorOfAncestor(hs, genesis, head, n, n - k);
    StepsReachAncestor(hs, genesis, h, k);
  }

  lemma NotZero(hs: Headers, genesis: Hash, h: Hash, n: nat)
    requires Rooted(hs, genesis) && h in hs && n <= hs[h].number
    ensures PathAt(hs, genesis, h, n) != 0
  {
  }

  /** The block asked for is stored under its number. */
  predicate Known(hs: Headers, hash: Hash, number: nat) {
    hash in hs && hs[hash].number == number
  }

  /** The walk has taken `i` single steps without meeting the index. */
  ghost predicate Walked(hs: Headers, genesis: Hash, canon: Index, hash: Hash, number: nat, i: nat, h: Hash) {
    && Rooted(hs, genesis) && Known(hs, hash, number) && i <= number && h == PathAt(hs, genesis, hash, number - i)
    && Known(hs, h, number - i)
    && forall m: nat :: number - i < m <= number ==> !OnIndex(hs, genesis, canon, hash, m)
  }

  lemma WalkedOne(hs: Headers, genesis: Hash, canon: Index, hash: Hash, number: nat, i: nat, h: Hash)
    requires Walked(hs, genesis, canon, hash, number, i, h) && i < number && Read(canon, number - i) != h
    ensures Walked(hs, genesis, canon, hash, number, i + 1, hs[h].parent)
  {
    hide Rooted, Ancestor;
    AncestorLinked(hs, genesis, hash, number - i - 1);
    AncestorStep(hs, genesis, h, number - i - 1);
  }

  /** For the zero hash the empty entries above the head look like a block on the index. */
  ghost predicate PastEnd(hs: Headers, head: Hash, number: nat, ancestor: nat)
    requires head in hs
  {
    0 < ancestor <= number && hs[head].number < number <= hs[head].number + ancestor
  }

  lemma EmptyAbove(hs: Headers, genesis: Hash, canon: Index, head: Hash, n: nat)
    requires IsPath(canon, hs, genesis, head)
    ensures 0 !in hs && head in hs && (Read(canon, n) == 0 <==> hs[head].number < n)
    ensures Read(canon, n) != 0 ==> Known(hs, Read(canon, n), n)
  {
    hide Ancestor;
    assert Read(canon, n) == PathAt(hs, genesis, head, n);
  }

  lemma StepsOn(hs: Headers, h: Hash, k: nat)
    ensures Steps(hs, h, k) == if k == 0 then h else if h in hs then Steps(hs, hs[h].parent, k - 1) else 0
  {
  }

  lemma WalkedKnown(hs: Headers, genesis: Hash, canon: Index, hash: Hash, number: nat, i: nat, h: Hash)
    requires Walked(hs, genesis, canon, hash, number, i, h)
    ensures i <= number && Known(hs, h, number - i)
  {
  }

  /** A walk that meets the index while it has steps left is within its budget. */
  lemma MetIndex(hs: Headers, genesis: Hash, canon: Index, hash: Hash, number: nat, i: nat, h: Hash, k: nat, max: nat)
    requires Walked(hs, genesis, canon, hash, number, i, h) && i < k <= number && i <= max
    requires Read(canon, number - i) == h
    ensures WithinBudget(hs, genesis, canon, hash, k, max)
  {
    hide PathAt, Rooted, Read;
    assert OnIndex(hs, genesis, canon, hash, number - i);
  }

  /** A walk that has no step left and has not met the index is not. */
  lemma RunOut(hs: Headers, genesis: Hash, canon: Index, hash: Hash, number: nat, h: Hash, k: nat, max: nat)
    requires Walked(hs, genesis, canon, hash, number, max + 1, h) && max < k <= number
    ensures !WithinBudget(hs, genesis, canon, hash, k, max)
  {
    hide OnIndex, Rooted;
  }

  lemma Arrived(hs: Headers, genesis: Hash, canon: Index, hash: Hash, number: nat, k: nat, max: nat)
    requires Rooted(hs, genesis) && Known(hs, hash, number) && k <= number && k <= max
    ensures WithinBudget(hs, genesis, canon, hash, k, max)
  {
  }

  /** The walk to the `k`th ancestor takes exactly `i` single steps: it meets the index then and not before, or ends. */
  ghost predicate Took(hs: Headers, genesis: Hash, canon: Index, hash: Hash, k: nat, i: nat)
    requires Rooted(hs, genesis) && hash in hs && k <= hs[hash].number
  {
    && i <= k && (i == k || OnIndex(hs, genesis, canon, hash, hs[hash].number - i))
    && forall m: nat :: hs[hash].number - i < m <= hs[hash].number ==> !OnIndex(hs, genesis, canon, hash, m)
  }

  lemma TookThis(hs: Headers, genesis: Hash, canon: Index, hash: Hash, number: nat, i: nat, h: Hash, k: nat)
    requires Walked(hs, genesis, canon, hash, number, i, h) && i <= k <= number
    requires i == k || Read(canon, number - i) == h
    ensures Took(hs, genesis, canon, hash, k, i)
  {
    hide PathAt, Rooted, Read;
  }

  /** The budget after asking for a block that is not stored: one step at most is tried. */
  ghost predicate OneTried(hs: Headers, head: Hash, hash: Hash, number: nat, ancestor: nat, max: nat, left: nat)
    requires head in hs
  {
    left == if ancestor == 0 || (hash == 0 && hs[head].number < number) || max == 0 then max else max - 1
  }

  /** The loop of `GetAncestor`. */
  method WalkOrJump(hs: Headers, ghost genesis: Hash, canon: Index, ghost head: Hash, hash: Hash, number: nat,
                    ancestor: nat, max: nat)
    returns (r: Hash, n: nat, left: nat)
    requires IsPath(canon, hs, genesis, head) && ancestor <= number
    ensures hash != 0 && r != 0 ==> n + ancestor == number && r == Steps(hs, hash, ancestor)
    ensures Known(hs, hash, number) ==> (r != 0 <==> WithinBudget(hs, genesis, canon, hash, ancestor, max))
    ensures hash != 0 && !Known(hs, hash, number) ==> (r != 0 <==> ancestor == 0)
    ensures hash == 0 ==> (r != 0 <==> PastEnd(hs, head, number, ancestor))
    ensures left <= max && (Known(hs, hash, number) && r == 0 ==> left == 0)
    ensures Known(hs, hash, number) && r != 0 ==> Took(hs, genesis, canon, hash, ancestor, max - left)
    ensures !Known(hs, hash, number) ==> OneTried(hs, head, hash, number, ancestor, max, left)
  {
    hide Rooted, PathAt, HasParent, Read, WithinBudget, Walked, Steps, Took;
    assert Rooted(hs, genesis);
    hide IsPath;
    if Known(hs, hash, number) {
      Start(hs, genesis, canon, hash);
    }
    var h, k: nat := hash, ancestor;
    n, left := number, max;
    while k != 0
      invariant k <= ancestor && n == number - (ancestor - k) && left == max - (ancestor - k)
      invariant Steps(hs, hash, ancestor) == Steps(hs, h, k) && (hash != 0 ==> h != 0)
      invariant Known(hs, hash, number) ==> Walked(hs, genesis, canon, hash, number, ancestor - k, h)
      invariant (k == ancestor ==> h == hash) && (Known(hs, hash, number) || k == ancestor)
      decreases k
    {
      EmptyAbove(hs, genesis, canon, head, n);
      StepsOn(hs, h, k);
      if Read(canon, n) == h {
        EmptyAbove(hs, genesis, canon, head, n - k);
        if h != 0 {
          Jump(hs, genesis, canon, head, h, n, k);
        }
        if Known(hs, hash, number) {
          MetIndex(hs, genesis, canon, hash, number, ancestor - k, h, ancestor, max);
          TookThis(hs, genesis, canon, hash, number, ancestor - k, h, ancestor);
        }
        return Read(canon, n - k), n - k, left;
      }
      if Known(hs, hash, number) {
        WalkedKnown(hs, genesis, canon, hash, number, ancestor - k, h);
        WalkedOne(hs, genesis, canon, hash, number, ancestor - k, h);
      }
      if left == 0 {
        if Known(hs, hash, number) {
          RunOut(hs, genesis, canon, hash, number, hs[h].parent, ancestor, max);
        }
        return 0, 0, left;
      }
      left, k := left - 1, k - 1;
      var header := GetHeader(hs, h, n);
      if header.None? {
        return 0, 0, left;
      }
      ParentNotZero(hs, genesis, h);
      h, n := header.value.parent, n - 1;
    }
    StepsOn(hs, h, 0);
    if Known(hs, hash, number) {
      Arrived(hs, genesis, canon, hash, number, ancestor, max);
      TookThis(hs, genesis, canon, hash, number, ancestor, h, ancestor);
    }
    return h, n, left;
  }

  lemma Start(hs: Headers, genesis: Hash, canon: Index, hash: Hash)
    requires Rooted(hs, genesis) && hash in hs
    ensures hash != 0 && Walked(hs, genesis, canon, hash, hs[hash].number, 0, hash)
  {
  }

  lemma ParentNotZero(hs: Headers, genesis: Hash, h: Hash)
    requires Rooted(hs, genesis) && h in hs
    ensures hs[h].number > 0 ==> hs[h].parent != 0
  {
    assert h != genesis ==> HasParent(hs, h);
  }

  /**
   The `ancestor`th ancestor of a block, jumping along the index once the walk has met it. An answer is
   the hash that many parent steps away. For a known block there is one exactly if the block is that
   high and the single steps do not run out, for an unknown one only if it is the block itself. The zero hash names no
   block; it is answered, with a canonical hash, exactly if its number is above the head but the ancestor's is not.
   The budget left is what the single steps before the index was met did not use; it is used up if there is no answer.
   */
  method GetAncestor(hs: Headers, ghost genesis: Hash, canon: Index, ghost head: Hash, hash: Hash, number: nat,
                     ancestor: nat, maxNonCanonical: nat)
    returns (r: Hash, n: nat, left: nat)
    requires IsPath(canon, hs, genesis, head)
    ensures hash != 0 && r != 0 ==> n + ancestor == number && r == Steps(hs, hash, ancestor)
    ensures Known(hs, hash, number) ==>
              (r != 0 <==> ancestor <= number
                           && (ancestor == 1 || WithinBudget(hs, genesis, canon, hash, ancestor, maxNonCanonical)))
    ensures hash != 0 && !Known(hs, hash, number) ==> (r != 0 <==> ancestor == 0)
    ensures hash == 0 ==> (r != 0 <==> ancestor != 1 && PastEnd(hs, head, number, ancestor))
    ensures ancestor > number || ancestor == 1 ==> left == maxNonCanonical
    ensures ancestor <= number && ancestor != 1 && Known(hs, hash, number) ==>
              if r == 0 then left == 0
              else left <= maxNonCanonical && Took(hs, genesis, canon, hash, ancestor, maxNonCanonical - left)
    ensures ancestor <= number && ancestor != 1 && !Known(hs, hash, number) ==>
              OneTried(hs, head, hash, number, ancestor, maxNonCanonical, left)
  {
    EmptyAbove(hs, genesis, canon, head, number);
    hide Rooted, PathAt, WithinBudget, Took, OneTried;
    left := maxNonCanonical;
    if ancestor > number {
      return 0, 0, left;
    }
    if ancestor == 1 {
      var header := GetHeader(hs, hash, number);
      if header.Some? {
        ParentNotZero(hs, genesis, hash);
        return header.value.parent, number - 1, left;
      }
      return 0, 0, left;
    }
    r, n, left := WalkOrJump(hs, genesis, canon, head, hash, number, ancestor, left);
  }
}

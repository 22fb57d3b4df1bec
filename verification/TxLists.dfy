/**
 `txSortedMap` and `txList`: the nonce map with its heap index and its lazily sorted cache, and
 the list with its cached caps on top. Each method is proved to compute what the plain
 functions of `AccountLists` say, and to keep index and cache consistent with the map.
 */
module TxLists {
  import opened Transactions
  import opened AccountLists
  import Heaps

  function NonceLess(): (nat, nat) -> bool {
    (a: nat, b: nat) => a < b
  }

  // ---------------------------------------------------------------- sorted contents

  ghost predicate Ascending(txs: seq<Tx>) {
    forall i, j :: 0 <= i < j < |txs| ==> txs[i].nonce < txs[j].nonce
  }

  /** `txs` lists exactly the transactions of `items`, by ascending nonce. */
  ghost predicate Lists(txs: seq<Tx>, items: map<nat, Tx>) {
    && WellFiled(items)
    && Ascending(txs)
    && (forall i :: 0 <= i < |txs| ==> txs[i].nonce in items && items[txs[i].nonce] == txs[i])
    && (forall n :: n in items ==> items[n] in txs)
  }

  lemma FirstIsLeast(a: seq<Tx>, items: map<nat, Tx>, n: nat)
    requires Lists(a, items) && n in items
    ensures a != [] && a[0].nonce <= n
  {
    assert items[n] in a;
  }

  lemma DropFirst(a: seq<Tx>, items: map<nat, Tx>)
    requires Lists(a, items) && a != []
    ensures Lists(a[1..], items - {a[0].nonce})
  {
    var rest := items - {a[0].nonce};
    forall n | n in rest ensures rest[n] in a[1..] {
      assert items[n] in a;
      var i :| 0 <= i < |a| && a[i] == items[n];
      assert a[1..][i - 1] == items[n];
    }
  }

  lemma SameFirst(a: seq<Tx>, b: seq<Tx>, items: map<nat, Tx>)
    requires Lists(a, items) && Lists(b, items)
    ensures a == [] <==> b == []
    ensures a != [] ==> a[0] == b[0]
  {
    if a != [] {
      FirstIsLeast(b, items, a[0].nonce);
    }
    if b != [] {
      FirstIsLeast(a, items, b[0].nonce);
    }
  }

  /** A map has only one ascending listing. */
  lemma {:induction false} ListingUnique(a: seq<Tx>, b: seq<Tx>, items: map<nat, Tx>)
    requires Lists(a, items) && Lists(b, items)
    ensures a == b
    decreases |a|
  {
    hide Lists;
    SameFirst(a, b, items);
    if a != [] {
      DropFirst(a, items);
      DropFirst(b, items);
      ListingUnique(a[1..], b[1..], items - {a[0].nonce});
      assert a == [a[0]] + a[1..] && b == [b[0]] + b[1..];
    }
  }

  /** Appending a transaction above all listed ones. */
  lemma AppendListed(txs: seq<Tx>, items: map<nat, Tx>, tx: Tx)
    requires Lists(txs, items)
    requires forall n :: n in items ==> n < tx.nonce
    ensures Lists(txs + [tx], items[tx.nonce := tx])
  {
    var more := items[tx.nonce := tx];
    assert (txs + [tx])[|txs|] == tx;
    forall n | n in more ensures more[n] in txs + [tx] {
    }
  }

  lemma DropLast(a: seq<Tx>, items: map<nat, Tx>, last: nat)
    requires Lists(a, items)
    requires last in items && forall n :: n in items ==> n <= last
    ensures a != [] && Lists(a[..|a| - 1], items - {last})
  {
    var rest := items - {last};
    assert items[last] in a;
    var k :| 0 <= k < |a| && a[k] == items[last];
    assert a[|a| - 1].nonce in items;
    assert k == |a| - 1;
    forall n | n in rest ensures rest[n] in a[..|a| - 1] {
      assert items[n] in a;
      var i :| 0 <= i < |a| && a[i] == items[n];
      assert a[..|a| - 1][i] == items[n];
    }
  }

  /** `txs` lists exactly the transactions of `items`, once each, in any order. */
  ghost predicate Enumerates(txs: seq<Tx>, items: map<nat, Tx>) {
    && WellFiled(items)
    && (forall i, j :: 0 <= i < j < |txs| ==> txs[i].nonce != txs[j].nonce)
    && (forall i :: 0 <= i < |txs| ==> txs[i].nonce in items && items[txs[i].nonce] == txs[i])
    && (forall n :: n in items ==> items[n] in txs)
  }

  lemma AppendEnumerated(txs: seq<Tx>, items: map<nat, Tx>, tx: Tx)
    requires Enumerates(txs, items) && tx.nonce !in items
    ensures Enumerates(txs + [tx], items[tx.nonce := tx])
  {
    var more := items[tx.nonce := tx];
    assert (txs + [tx])[|txs|] == tx;
    forall n | n in more ensures more[n] in txs + [tx] {
    }
  }

  // ---------------------------------------------------------------- the nonce index

  /** `index` is a min-heap holding every nonce of `keys` exactly once, and nothing else. */
  ghost predicate Indexes(index: seq<nat>, keys: set<nat>) {
    && Heaps.IsHeap(index, NonceLess())
    && multiset(index) == multiset(keys)
  }

  lemma NonceOrder()
    ensures Heaps.WeakOrder(NonceLess())
  {
    forall x, y, z ensures Heaps.Chain(NonceLess(), x, y, z) {
    }
  }

  lemma IndexMembers(index: seq<nat>, keys: set<nat>)
    requires Indexes(index, keys)
    ensures |index| == |keys|
    ensures forall i :: 0 <= i < |index| ==> index[i] in keys
    ensures forall n :: n in keys ==> n in index
  {
    assert |multiset(index)| == |index| && |multiset(keys)| == |keys|;
    forall i | 0 <= i < |index| ensures index[i] in keys {
      assert index[i] in multiset(index);
    }
    forall n | n in keys ensures n in index {
      assert n in multiset(index);
    }
  }

  lemma LessOne(index: seq<nat>, keys: set<nat>, n: nat)
    requires n in keys && multiset(keys) == multiset(index) + multiset{n}
    ensures multiset(index) == multiset(keys - {n})
  {
    var a, b := multiset(index), multiset(keys - {n});
    assert multiset(keys) == b + multiset{n};
    assert a == (a + multiset{n}) - multiset{n} && b == (b + multiset{n}) - multiset{n};
  }

  method PushNonce(index0: seq<nat>, ghost keys: set<nat>, n: nat) returns (index: seq<nat>)
    requires Indexes(index0, keys) && n !in keys
    ensures Indexes(index, keys + {n})
  {
    NonceOrder();
    index := Heaps.Push(index0, n, NonceLess());
  }

  method PopNonce(index0: seq<nat>, ghost keys: set<nat>) returns (index: seq<nat>, n: nat)
    requires Indexes(index0, keys) && index0 != []
    ensures n == index0[0] && n in keys && forall k :: k in keys ==> n <= k
    ensures Indexes(index, keys - {n}) && |index| == |index0| - 1
  {
    NonceOrder();
    IndexMembers(index0, keys);
    index, n := Heaps.Pop(index0, NonceLess());
    LessOne(index, keys, n);
  }

  /** Deletes a nonce that is present: finds its position, then repairs the heap. */
  method RemoveNonce(index0: seq<nat>, ghost keys: set<nat>, n: nat) returns (index: seq<nat>)
    requires Indexes(index0, keys) && n in keys
    ensures Indexes(index, keys - {n})
  {
    NonceOrder();
    IndexMembers(index0, keys);
    var i := 0;
    while i < |index0| && index0[i] != n
      invariant 0 <= i <= |index0| && n !in index0[..i]
    {
      i := i + 1;
    }
    assert index0[..|index0|] == index0;
    index := Heaps.Remove(index0, i, NonceLess());
    LessOne(index, keys, n);
  }

  /** `heap.Init` over the nonces of a map, gathered in any order. */
  method BuildIndex(keys: set<nat>) returns (index: seq<nat>)
    ensures Indexes(index, keys)
  {
    NonceOrder();
    var todo := keys;
    index := [];
    while todo != {}
      invariant todo <= keys && multiset(index) == multiset(keys - todo)
      decreases todo
    {
      var n :| n in todo;
      index := index + [n];
      todo := todo - {n};
    }
    index := Heaps.Init(index, NonceLess());
  }

  ghost predicate SortedNonces(s: seq<nat>, keys: set<nat>) {
    && (forall i, j :: 0 <= i < j < |s| ==> s[i] < s[j])
    && (forall i :: 0 <= i < |s| ==> s[i] in keys)
    && (forall n :: n in keys ==> n in s)
  }

  lemma AppendNonce(s: seq<nat>, keys: set<nat>, n: nat)
    requires SortedNonces(s, keys) && forall k :: k in keys ==> k < n
    ensures SortedNonces(s + [n], keys + {n})
  {
    assert (s + [n])[|s|] == n;
  }

  /** Sorts an index. */
  method SortIndex(index: seq<nat>, ghost keys: set<nat>) returns (sorted: seq<nat>)
    requires Indexes(index, keys)
    ensures SortedNonces(sorted, keys)
  {
    var h := index;
    ghost var left := keys;
    sorted := [];
    while h != []
      invariant Indexes(h, left) && left <= keys
      invariant SortedNonces(sorted, keys - left)
      invariant forall k, n :: k in keys - left && n in left ==> k < n
      decreases |h|
    {
      var n;
      h, n := PopNonce(h, left);
      AppendNonce(sorted, keys - left, n);
      assert (keys - left) + {n} == keys - (left - {n});
      sorted := sorted + [n];
      left := left - {n};
    }
    IndexMembers(h, left);
    assert keys - left == keys;
  }

  // ---------------------------------------------------------------- loops over the map

  /** A cache, if there is one, lists the map. */
  ghost predicate Caches(cache: Option<seq<Tx>>, items: map<nat, Tx>) {
    cache.Some? ==> Lists(cache.value, items)
  }

  /** One pop of the index: the lowest transaction leaves the map and the front of any cache. */
  lemma PopFront(items: map<nat, Tx>, n: nat, cache: Option<seq<Tx>>, k: nat)
    requires n in items && (forall m :: m in items ==> n <= m)
    requires cache.Some? ==> k <= |cache.value| && Lists(cache.value[k..], items)
    ensures cache.Some? ==> k < |cache.value| && Lists(cache.value[k + 1..], items - {n})
  {
    if cache.Some? {
      var c := cache.value[k..];
      FirstIsLeast(c, items, n);
      DropFirst(c, items);
      assert c[1..] == cache.value[k + 1..];
    }
  }

  /** The front part `gone` of `all` has been moved out in ascending order, `left` remains. */
  ghost predicate Split(all: map<nat, Tx>, gone: map<nat, Tx>, left: map<nat, Tx>, out: seq<Tx>) {
    && Lists(out, gone) && WellFiled(left)
    && all == gone + left
    && (forall a, b :: a in gone && b in left ==> a < b)
  }

  lemma SplitOne(all: map<nat, Tx>, gone: map<nat, Tx>, left: map<nat, Tx>, out: seq<Tx>, n: nat)
    requires Split(all, gone, left, out)
    requires n in left && forall m :: m in left ==> n <= m
    ensures Split(all, gone[n := left[n]], left - {n}, out + [left[n]])
  {
    AppendListed(out, gone, left[n]);
    assert all == gone[n := left[n]] + (left - {n});
  }

  /** The state of a loop that pops `all` from its lowest nonce on: `out` so far, `left` to go. */
  ghost predicate Popping(all: map<nat, Tx>, gone: map<nat, Tx>, left: map<nat, Tx>, index: seq<nat>,
                          out: seq<Tx>, cache: Option<seq<Tx>>)
  {
    && Split(all, gone, left, out)
    && Indexes(index, left.Keys)
    && (cache.Some? ==> |out| <= |cache.value| && Lists(cache.value[|out|..], left))
  }

  lemma StartPopping(all: map<nat, Tx>, index: seq<nat>, cache: Option<seq<Tx>>)
    requires WellFiled(all) && Indexes(index, all.Keys) && Caches(cache, all)
    ensures Popping(all, map[], all, index, [], cache)
  {
    assert cache.Some? ==> cache.value[0..] == cache.value;
    assert map[] + all == all;
  }

  method PopLowest(ghost all: map<nat, Tx>, ghost gone: map<nat, Tx>, left: map<nat, Tx>, index: seq<nat>,
                   out: seq<Tx>, ghost cache: Option<seq<Tx>>)
    returns (left': map<nat, Tx>, index': seq<nat>, out': seq<Tx>)
    requires Popping(all, gone, left, index, out, cache) && index != []
    ensures index[0] in left && forall m :: m in left ==> index[0] <= m
    ensures left' == left - {index[0]} && out' == out + [left[index[0]]]
    ensures |index'| < |index|
    ensures Popping(all, gone[index[0] := left[index[0]]], left', index', out', cache)
  {
    hide Lists, Split, Indexes;
    var n;
    index', n := PopNonce(index, left.Keys);
    SplitOne(all, gone, left, out, n);
    PopFront(left, n, cache, |out|);
    assert left.Keys - {n} == (left - {n}).Keys;
    left', out' := left - {n}, out + [left[n]];
  }

  /** Moves out everything below `threshold`, lowest nonce first. */
  method PopBelow(items0: map<nat, Tx>, index0: seq<nat>, threshold: nat, ghost cache: Option<seq<Tx>>)
    returns (out: seq<Tx>, items: map<nat, Tx>, index: seq<nat>)
    requires WellFiled(items0) && Indexes(index0, items0.Keys) && Caches(cache, items0)
    ensures items == From(items0, threshold) && Lists(out, Below(items0, threshold))
    ensures Indexes(index, items.Keys)
    ensures cache.Some? ==> |out| <= |cache.value| && Lists(cache.value[|out|..], items)
  {
    hide Lists, Indexes;
    out, items, index := [], items0, index0;
    ghost var gone: map<nat, Tx> := map[];
    StartPopping(items, index, cache);
    while index != [] && index[0] < threshold
      invariant Popping(items0, gone, items, index, out, cache)
      invariant forall n :: n in gone ==> n < threshold
      decreases |index|
    {
      ghost var n := index[0];
      ghost var tx := if n in items then Some(items[n]) else None;
      items, index, out := PopLowest(items0, gone, items, index, out, cache);
      gone := gone[n := tx.value];
    }
    NoneBelow(index, items, threshold);
    assert gone == Below(items0, threshold) && items == From(items0, threshold);
  }

  lemma NoneBelow(index: seq<nat>, items: map<nat, Tx>, threshold: nat)
    requires Indexes(index, items.Keys)
    requires index == [] || threshold <= index[0]
    ensures forall n :: n in items ==> threshold <= n
  {
    NonceOrder();
    IndexMembers(index, items.Keys);
    forall n | n in items ensures threshold <= n {
      var k :| 0 <= k < |index| && index[k] == n;
      Heaps.RootIsLeast(index, NonceLess(), k);
    }
  }

  /** Moves out the run of consecutive nonces starting at the lowest one. */
  method PopRun(items0: map<nat, Tx>, index0: seq<nat>) returns (out: seq<Tx>, items: map<nat, Tx>, index: seq<nat>)
    requires WellFiled(items0) && Indexes(index0, items0.Keys) && items0 != map[] && index0 != []
    ensures var run := Below(items0, RunEnd(items0.Keys, MinNonce(items0.Keys)));
            Lists(out, run) && items == items0 - run.Keys
    ensures Indexes(index, items.Keys)
  {
    out, items, index := [], items0, index0;
    ghost var gone: map<nat, Tx> := map[];
    hide Popping, Indexes;
    StartPopping(items, index, None);
    NoneBelow(index, items, index[0]);
    IndexMembers(index, items.Keys);
    ghost var first := index[0];
    var next := index[0];
    while index != [] && index[0] == next
      invariant Popping(items0, gone, items, index, out, None)
      invariant first <= next && forall n :: first <= n < next ==> n in gone
      invariant forall n :: n in gone ==> n < next
      invariant forall n :: n in items ==> next <= n
      decreases |index|
    {
      ghost var tx := if next in items then Some(items[next]) else None;
      items, index, out := PopLowest(items0, gone, items, index, out, None);
      gone := gone[next := tx.value];
      next := next + 1;
    }
    RunIs(items0, gone, items, index, out, first, next);
  }

  lemma RunIs(all: map<nat, Tx>, gone: map<nat, Tx>, left: map<nat, Tx>, index: seq<nat>, out: seq<Tx>, first: nat,
              next: nat)
    requires Popping(all, gone, left, index, out, None)
    requires first in all && (forall n :: n in all ==> first <= n)
    requires index == [] || index[0] != next
    requires forall n :: n in left ==> next <= n
    requires forall n :: n in gone ==> n < next
    requires first <= next && forall n :: first <= n < next ==> n in gone
    ensures gone == Below(all, RunEnd(all.Keys, MinNonce(all.Keys))) && left == all - gone.Keys
    ensures Lists(out, gone) && Indexes(index, left.Keys)
  {
    hide Lists, Indexes;
    var end := RunEnd(all.Keys, first);
    assert MinNonce(all.Keys) == first;
    if next in left {
      IndexMembers(index, left.Keys);
      NoneBelow(index, left, index[0]);
    }
    assert next !in all;
    assert end == next;
    assert gone == Below(all, end);
    assert left == all - gone.Keys;
  }

  function Matching(items: map<nat, Tx>, p: Tx -> bool): map<nat, Tx> {
    map n | n in items && p(items[n]) :: items[n]
  }

  function Others(items: map<nat, Tx>, p: Tx -> bool): map<nat, Tx> {
    map n | n in items && !p(items[n]) :: items[n]
  }

  /** `filter`: moves out every transaction the predicate holds for, in any order. */
  method TakeMatching(items0: map<nat, Tx>, p: Tx -> bool) returns (out: seq<Tx>, items: map<nat, Tx>)
    requires WellFiled(items0)
    ensures items == Others(items0, p) && Enumerates(out, Matching(items0, p))
    ensures out == [] ==> items == items0
  {
    out, items := [], items0;
    ghost var gone: map<nat, Tx> := map[];
    assert Enumerates(out, gone);
    hide Enumerates;
    var todo := items0.Keys;
    while todo != {}
      invariant todo <= items0.Keys
      invariant gone == map n | n in items0 && n !in todo && p(items0[n]) :: items0[n]
      invariant items == map n | n in items0 && (n in todo || !p(items0[n])) :: items0[n]
      invariant Enumerates(out, gone)
      decreases todo
    {
      var n :| n in todo;
      if p(items[n]) {
        AppendEnumerated(out, gone, items[n]);
        out := out + [items[n]];
        gone := gone[n := items[n]];
        items := items - {n};
      }
      todo := todo - {n};
    }
    assert gone == Matching(items0, p) && items == Others(items0, p);
    if out == [] {
      NothingListed(gone);
      NothingMatches(items0, p);
    }
  }

  lemma NothingMatches(items: map<nat, Tx>, p: Tx -> bool)
    requires Matching(items, p) == map[]
    ensures Others(items, p) == items
  {
    forall n | n in items ensures n in Others(items, p) {
      assert n !in Matching(items, p);
    }
  }

  lemma NothingToList()
    ensures Enumerates([], map[]) && Lists([], map[])
  {
  }

  lemma NothingListed(items: map<nat, Tx>)
    requires Enumerates([], items)
    ensures items == map[]
  {
  }

  /** `items` holds the transactions of `all` under the `size` lowest nonces. */
  ghost predicate Prefix(all: map<nat, Tx>, sorted: seq<nat>, size: nat, items: map<nat, Tx>) {
    && SortedNonces(sorted, all.Keys) && WellFiled(all)
    && size <= |sorted| && |items| == size
    && (forall i :: 0 <= i < |sorted| ==> (sorted[i] in items <==> i < size))
    && (forall n :: n in items ==> n in all && items[n] == all[n])
  }

  lemma ShorterPrefix(all: map<nat, Tx>, sorted: seq<nat>, size: nat, items: map<nat, Tx>)
    requires Prefix(all, sorted, size, items) && 0 < size
    ensures sorted[size - 1] in items && sorted[size - 1] in all && items[sorted[size - 1]] == all[sorted[size - 1]]
    ensures items[sorted[size - 1]].nonce == sorted[size - 1]
    ensures forall n :: n in items ==> n <= sorted[size - 1]
    ensures Prefix(all, sorted, size - 1, items - {sorted[size - 1]})
  {
    var n := sorted[size - 1];
    InPrefix(all, sorted, size, items);
    assert (items - {n}).Keys == items.Keys - {n};
    hide SortedNonces;
  }

  lemma InPrefix(all: map<nat, Tx>, sorted: seq<nat>, size: nat, items: map<nat, Tx>)
    requires Prefix(all, sorted, size, items) && 0 < size
    ensures forall m :: m in items ==> m <= sorted[size - 1]
    ensures forall i :: 0 <= i < |sorted| && i != size - 1 ==> sorted[i] != sorted[size - 1]
  {
    forall m | m in items ensures m <= sorted[size - 1] {
      assert m in sorted;
    }
  }

  /** Everything above the lowest `size` nonces has been dropped, from the map and from any cache. */
  ghost predicate Dropping(all: map<nat, Tx>, sorted: seq<nat>, size: nat, items: map<nat, Tx>, drops: seq<Tx>,
                           cache: Option<seq<Tx>>)
  {
    && Prefix(all, sorted, size, items)
    && Enumerates(drops, all - items.Keys)
    && (cache.Some? ==> |drops| <= |cache.value| && Lists(cache.value[..|cache.value| - |drops|], items))
  }

  lemma DropHighest(all: map<nat, Tx>, sorted: seq<nat>, size: nat, items: map<nat, Tx>, drops: seq<Tx>,
                    cache: Option<seq<Tx>>)
    requires Dropping(all, sorted, size, items, drops, cache) && 0 < size <= |sorted|
    ensures sorted[size - 1] in items
    ensures Dropping(all, sorted, size - 1, items - {sorted[size - 1]}, drops + [items[sorted[size - 1]]], cache)
  {
    hide Lists, Enumerates, Prefix;
    ShorterPrefix(all, sorted, size, items);
    var n := sorted[size - 1];
    assert (items - {n}).Keys == items.Keys - {n};
    AppendEnumerated(drops, all - items.Keys, items[n]);
    assert (all - items.Keys)[n := items[n]] == all - (items.Keys - {n});
    if cache.Some? {
      var c := cache.value[..|cache.value| - |drops|];
      DropLast(c, items, n);
      assert c[..|c| - 1] == cache.value[..|cache.value| - |drops| - 1];
    }
  }

  method DropAbove(items0: map<nat, Tx>, sorted: seq<nat>, threshold: nat, ghost cache: Option<seq<Tx>>)
    returns (drops: seq<Tx>, items: map<nat, Tx>)
    requires SortedNonces(sorted, items0.Keys) && |sorted| == |items0| && threshold <= |items0|
    requires WellFiled(items0) && Caches(cache, items0)
    ensures Dropping(items0, sorted, threshold, items, drops, cache)
  {
    hide Dropping, SortedNonces, WellFiled, Caches;
    drops, items := [], items0;
    var size := |items0|;
    StartDropping(items0, sorted, cache);
    while size > threshold
      invariant threshold <= size <= |sorted|
      invariant Dropping(items0, sorted, size, items, drops, cache)
    {
      DropHighest(items0, sorted, size, items, drops, cache);
      drops := drops + [items[sorted[size - 1]]];
      items := items - {sorted[size - 1]};
      size := size - 1;
    }
  }

  lemma StartDropping(all: map<nat, Tx>, sorted: seq<nat>, cache: Option<seq<Tx>>)
    requires SortedNonces(sorted, all.Keys) && |sorted| == |all| && WellFiled(all) && Caches(cache, all)
    ensures Dropping(all, sorted, |sorted|, all, [], cache)
  {
    assert cache.Some? ==> cache.value[..|cache.value|] == cache.value;
    assert all - all.Keys == map[];
  }

  lemma PrefixIsLowest(all: map<nat, Tx>, sorted: seq<nat>, size: nat, items: map<nat, Tx>)
    requires Prefix(all, sorted, size, items) && size <= |all| && size <= |sorted|
    ensures items == Lowest(all, size)
    ensures multiset(sorted[..size]) == multiset(items.Keys)
  {
    hide Prefix;
    PrefixBelow(all, sorted, size, items);
    PrefixMembers(all, sorted, size, items);
    LowestUnique(all.Keys, size, items.Keys);
    assert items == Lowest(all, size);
  }

  lemma PrefixBelow(all: map<nat, Tx>, sorted: seq<nat>, size: nat, items: map<nat, Tx>)
    requires Prefix(all, sorted, size, items)
    ensures forall n, m :: n in items.Keys && m in all.Keys && m !in items.Keys ==> n < m
    ensures |items| == size && items.Keys <= all.Keys && forall n :: n in items ==> items[n] == all[n]
  {
    forall n, m | n in items.Keys && m in all.Keys && m !in items.Keys ensures n < m {
      assert n in sorted && m in sorted;
    }
  }

  lemma PrefixMembers(all: map<nat, Tx>, sorted: seq<nat>, size: nat, items: map<nat, Tx>)
    requires Prefix(all, sorted, size, items)
    ensures multiset(sorted[..size]) == multiset(items.Keys)
  {
    if size == 0 {
      assert items.Keys == {};
    } else {
      ShorterPrefix(all, sorted, size, items);
      PrefixMembers(all, sorted, size - 1, items - {sorted[size - 1]});
      assert sorted[..size] == sorted[..size - 1] + [sorted[size - 1]];
      assert (items - {sorted[size - 1]}).Keys == items.Keys - {sorted[size - 1]};
    }
  }

  /** The listing of a map along its sorted nonces. */
  method ListAlong(items: map<nat, Tx>, sorted: seq<nat>) returns (txs: seq<Tx>)
    requires WellFiled(items) && SortedNonces(sorted, items.Keys)
    ensures Lists(txs, items) && |txs| == |sorted|
  {
    txs := [];
    for i := 0 to |sorted|
      invariant |txs| == i && forall k :: 0 <= k < i ==> txs[k] == items[sorted[k]]
    {
      txs := txs + [items[sorted[i]]];
    }
    forall n | n in items ensures items[n] in txs {
      var k :| 0 <= k < |sorted| && sorted[k] == n;
      assert txs[k] == items[n];
    }
  }

  /** Sorts the index, drops everything above the `threshold` lowest nonces, and heapifies the rest. */
  method CapItems(items0: map<nat, Tx>, index0: seq<nat>, threshold: nat, ghost cache: Option<seq<Tx>>)
    returns (drops: seq<Tx>, items: map<nat, Tx>, index: seq<nat>)
    requires WellFiled(items0) && Indexes(index0, items0.Keys) && Caches(cache, items0)
    requires threshold < |items0|
    ensures items == Lowest(items0, threshold) && Indexes(index, items.Keys)
    ensures Enumerates(drops, items0 - items.Keys)
    ensures cache.Some? ==> |drops| <= |cache.value| && Lists(cache.value[..|cache.value| - |drops|], items)
  {
    var sorted := SortIndex(index0, items0.Keys);
    SortedSize(sorted, items0.Keys);
    drops, items := DropAbove(items0, sorted, threshold, cache);
    hide Lists, Enumerates, Prefix;
    PrefixIsLowest(items0, sorted, threshold, items);
    NonceOrder();
    index := Heaps.Init(sorted[..threshold], NonceLess());
  }

  // ---------------------------------------------------------------- txSortedMap

  class TxSortedMap {
    var items: map<nat, Tx>
    var index: seq<nat>
    var cache: Option<seq<Tx>>

    ghost predicate Valid()
      reads this
    {
      WellFiled(items) && Indexes(index, items.Keys) && Caches(cache, items)
    }

    constructor ()
      ensures Valid() && items == map[]
    {
      items, index, cache := map[], [], None;
    }

    method Put(tx: Tx)
      requires Valid()
      modifies this
      ensures Valid() && items == old(items)[tx.nonce := tx]
    {
      if tx.nonce !in items {
        index := PushNonce(index, items.Keys, tx.nonce);
        assert items.Keys + {tx.nonce} == items[tx.nonce := tx].Keys;
      } else {
        assert items.Keys == items[tx.nonce := tx].Keys;
      }
      items, cache := items[tx.nonce := tx], None;
    }

    /** Removes everything below the threshold and returns it in nonce order. */
    method Forward(threshold: nat) returns (removed: seq<Tx>)
      requires Valid()
      modifies this
      ensures Valid() && items == From(old(items), threshold)
      ensures Lists(removed, Below(old(items), threshold))
    {
      removed, items, index := PopBelow(items, index, threshold, cache);
      if cache.Some? {
        cache := Some(cache.value[|removed|..]);
      }
    }

    method Reheap()
      requires WellFiled(items)
      modifies this
      ensures Valid() && items == old(items)
    {
      index := BuildIndex(items.Keys);
      cache := None;
    }

    /** `filter`: takes out what the predicate matches and leaves the index to be rebuilt. */
    method TakeOut(p: Tx -> bool) returns (removed: seq<Tx>)
      requires WellFiled(items)
      modifies this
      ensures items == Others(old(items), p) && Enumerates(removed, Matching(old(items), p))
      ensures removed == [] ==> items == old(items) && index == old(index) && cache == old(cache)
    {
      removed, items := TakeMatching(items, p);
      if |removed| > 0 {
        cache := None;
      }
    }

    method Filter(p: Tx -> bool) returns (removed: seq<Tx>)
      requires Valid()
      modifies this
      ensures Valid()
      ensures items == Others(old(items), p) && Enumerates(removed, Matching(old(items), p))
    {
      removed := TakeOut(p);
      if |removed| > 0 {
        Reheap();
      }
    }

    /** Keeps the `threshold` lowest nonces and returns the others. */
    method Cap(threshold: nat) returns (drops: seq<Tx>)
      requires Valid()
      modifies this
      ensures Valid() && items == Lowest(old(items), threshold)
      ensures Enumerates(drops, old(items) - items.Keys)
    {
      hide Lists, Indexes, Enumerates;
      if |items| <= threshold {
        LowestAll(items, threshold);
        assert items - items.Keys == map[];
        NothingToList();
        return [];
      }
      drops, items, index := CapItems(items, index, threshold, cache);
      if cache.Some? {
        cache := Some(cache.value[..|cache.value| - |drops|]);
      }
    }

    method Remove(nonce: nat) returns (found: bool)
      requires Valid()
      modifies this
      ensures Valid() && found == (nonce in old(items)) && items == old(items) - {nonce}
    {
      hide Lists, Indexes;
      if nonce !in items {
        assert items == items - {nonce};
        return false;
      }
      index := RemoveNonce(index, items.Keys, nonce);
      assert (items - {nonce}).Keys == items.Keys - {nonce};
      items, cache := items - {nonce}, None;
      return true;
    }

    /** Takes out the executable run, if the lowest nonce is not above `start`. */
    method Ready(start: nat) returns (ready: seq<Tx>)
      requires Valid()
      modifies this
      ensures Valid() && items == old(items) - ReadyRun(old(items), start).Keys
      ensures Lists(ready, ReadyRun(old(items), start))
    {
      hide Lists, Indexes;
      IndexMembers(index, items.Keys);
      if index == [] || index[0] > start {
        NoneBelow(index, items, if index == [] then 0 else index[0]);
        assert items - ReadyRun(items, start).Keys == items;
        NothingToList();
        return [];
      }
      NoneBelow(index, items, index[0]);
      ready, items, index := PopRun(items, index);
      cache := None;
    }

    method Flatten() returns (txs: seq<Tx>)
      requires Valid()
      modifies this`cache
      ensures Valid() && Lists(txs, items)
    {
      if cache.None? {
        var sorted := SortIndex(index, items.Keys);
        txs := ListAlong(items, sorted);
        cache := Some(txs);
      }
      txs := cache.value;
    }

    method LastElement() returns (tx: Tx)
      requires Valid() && items != map[]
      modifies this`cache
      ensures Valid() && tx.nonce in items && items[tx.nonce] == tx && forall n :: n in items ==> n <= tx.nonce
    {
      var txs := Flatten();
      ghost var n :| n in items;
      FirstIsLeast(txs, items, n);
      tx := txs[|txs| - 1];
      forall n | n in items ensures n <= tx.nonce {
        assert items[n] in txs;
      }
    }
  }

  lemma {:induction false} SortedSize(sorted: seq<nat>, keys: set<nat>)
    requires SortedNonces(sorted, keys)
    ensures |sorted| == |keys|
    decreases |sorted|
  {
    if sorted != [] {
      var n := |sorted| - 1;
      forall k | k in keys - {sorted[n]} ensures k in sorted[..n] {
        assert k in sorted;
      }
      SortedSize(sorted[..n], keys - {sorted[n]});
    } else {
      assert keys == {};
    }
  }

  // ---------------------------------------------------------------- txList

  /** The lowest nonce among the filtered-out transactions. */
  method LowestNonce(txs: seq<Tx>, ghost items: map<nat, Tx>) returns (lowest: nat)
    requires Enumerates(txs, items) && txs != []
    ensures items != map[] && lowest == MinNonce(items.Keys)
  {
    lowest := txs[0].nonce;
    for i := 0 to |txs|
      invariant lowest in items && forall k :: 0 <= k < i ==> lowest <= txs[k].nonce
    {
      if lowest > txs[i].nonce {
        lowest := txs[i].nonce;
      }
    }
    forall n | n in items ensures lowest <= n {
      assert items[n] in txs;
    }
  }

  class TxList {
    const strict: bool
    const txs: TxSortedMap
    var costcap: int
    var gascap: nat

    /** The plain value this list stands for. */
    ghost function View(): AccountTxs
      reads this, txs
    {
      AccountTxs(strict, txs.items, costcap, gascap)
    }

    ghost predicate Valid()
      reads this, txs
    {
      txs.Valid() && Good(View())
    }

    constructor (strict: bool)
      ensures Valid() && View() == Empty(strict) && fresh(txs)
    {
      this.strict := strict;
      txs := new TxSortedMap();
      costcap, gascap := 0, 0;
    }

    method Overlaps(tx: Tx) returns (r: bool)
      ensures r <==> tx.nonce in txs.items
    {
      r := tx.nonce in txs.items;
    }

    method Add(tx: Tx, priceBump: nat) returns (inserted: bool, replaced: Option<Tx>)
      requires Valid()
      modifies this, txs
      ensures Valid()
      ensures match AccountLists.Add(old(View()), tx, priceBump)
              case Rejected => !inserted && View() == old(View())
              case Inserted(r, l) => inserted && replaced == r && View() == l
    {
      hide Lists, Indexes;
      AddKeepsGood(View(), tx, priceBump);
      replaced := None;
      if tx.nonce in txs.items {
        var prev := txs.items[tx.nonce];
        if prev.feeCap >= tx.feeCap || prev.tipCap >= tx.tipCap {
          return false, None;
        }
        var thresholdFeeCap := (100 + priceBump) * prev.feeCap / 100;
        var thresholdTip := (100 + priceBump) * prev.tipCap / 100;
        if tx.feeCap < thresholdFeeCap || tx.tipCap < thresholdTip {
          return false, None;
        }
        replaced := Some(prev);
      }
      txs.Put(tx);
      if costcap < tx.cost {
        costcap := tx.cost;
      }
      if gascap < tx.gas {
        gascap := tx.gas;
      }
      inserted := true;
    }

    method Forward(threshold: nat) returns (removed: seq<Tx>)
      requires Valid()
      modifies txs
      ensures Valid() && View() == AccountLists.Forward(old(View()), threshold)
      ensures Lists(removed, Below(old(View()).items, threshold))
    {
      hide Lists, Indexes;
      removed := txs.Forward(threshold);
    }

    /** Removes and invalidates exactly what `AccountLists.Filter` does, hence what an uncached filter would. */
    method Filter(costLimit: int, gasLimit: nat) returns (removed: seq<Tx>, invalids: seq<Tx>)
      requires Valid()
      modifies this, txs
      ensures Valid()
      ensures var r := AccountLists.Filter(old(View()), costLimit, gasLimit);
              View() == r.list && Enumerates(removed, r.removed) && Enumerates(invalids, r.invalids)
    {
      hide Lists, Indexes, Enumerates;
      ghost var r := AccountLists.Filter(View(), costLimit, gasLimit);
      FilterIsPlain(View(), costLimit, gasLimit);
      NothingToList();
      if costcap <= costLimit && gascap <= gasLimit {
        return [], [];
      }
      costcap, gascap := costLimit, gasLimit;
      var tooHigh := (tx: Tx) => Exceeds(tx, costLimit, gasLimit);
      ghost var before := txs.items;
      removed := txs.Filter(tooHigh);
      assert Matching(before, tooHigh) == r.removed && txs.items == before - r.removed.Keys;
      invalids := [];
      if |removed| == 0 {
        NothingListed(r.removed);
        return;
      }
      SomethingListed(removed, r.removed);
      if strict {
        var lowest := LowestNonce(removed, r.removed);
        var above := (tx: Tx) => tx.nonce > lowest;
        ghost var kept := txs.items;
        invalids := txs.TakeOut(above);
        AboveLowest(kept, r.removed, lowest, above);
      }
      txs.Reheap();
    }

    method Cap(threshold: nat) returns (drops: seq<Tx>)
      requires Valid()
      modifies txs
      ensures Valid() && View() == AccountLists.Cap(old(View()), threshold)
      ensures Enumerates(drops, old(View()).items - View().items.Keys)
    {
      hide Lists, Indexes, Enumerates;
      drops := txs.Cap(threshold);
    }

    method Remove(tx: Tx) returns (found: bool, invalids: seq<Tx>)
      requires Valid()
      modifies txs
      ensures Valid()
      ensures var r := AccountLists.Remove(old(View()), tx.nonce);
              found == r.0 && View() == r.2 && Enumerates(invalids, r.1)
    {
      hide Lists, Indexes, Enumerates;
      NothingToList();
      ghost var before := txs.items;
      var nonce := tx.nonce;
      found := txs.Remove(nonce);
      if !found {
        assert txs.items == before;
        return false, [];
      }
      if strict {
        var above := (t: Tx) => t.nonce > nonce;
        invalids := txs.Filter(above);
        assert Matching(before - {nonce}, above) == Above(before - {nonce}, nonce);
        assert Others(before - {nonce}, above) == Below(before - {nonce}, nonce);
        return true, invalids;
      }
      return true, [];
    }

    method Ready(start: nat) returns (ready: seq<Tx>)
      requires Valid()
      modifies txs
      ensures Valid() && View() == old(View()).(items := old(View()).items - ReadyRun(old(View()).items, start).Keys)
      ensures Lists(ready, ReadyRun(old(View()).items, start))
    {
      hide Lists, Indexes;
      ready := txs.Ready(start);
    }

    method Flatten() returns (out: seq<Tx>)
      requires Valid()
      modifies txs`cache
      ensures Valid() && View() == old(View()) && Lists(out, View().items)
    {
      out := txs.Flatten();
    }
  }

  lemma SomethingListed(txs: seq<Tx>, items: map<nat, Tx>)
    requires Enumerates(txs, items) && txs != []
    ensures items != map[]
  {
    assert txs[0].nonce in items;
  }

  lemma AboveLowest(kept: map<nat, Tx>, removed: map<nat, Tx>, lowest: nat, above: Tx -> bool)
    requires WellFiled(kept) && (forall tx :: above(tx) <==> tx.nonce > lowest)
    requires removed != map[] && lowest == MinNonce(removed.Keys) && kept.Keys !! removed.Keys
    ensures Matching(kept, above) == Above(kept, lowest) && Others(kept, above) == Below(kept, lowest)
  {
    assert lowest !in kept;
  }
}

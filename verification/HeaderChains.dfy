/**
 The header chain: a batch of headers is stored, and if it is heavier than the current chain the
 canonical index is rewritten to lead to its last header.
 */
module HeaderChains {
  import opened Transactions
  import opened ChainIndex

  /** Total difficulties add up along parent links, and every header but the genesis adds to them. */
  ghost predicate Additive(hs: Headers, genesis: Hash, td: map<Hash, nat>) {
    AddUp(hs, genesis, td) && forall h :: h in hs && h != genesis ==> hs[h].difficulty > 0
  }

  ghost predicate Heaviest(td: map<Hash, nat>, head: Hash) {
    head in td && forall h :: h in td ==> td[h] <= td[head]
  }

  /** A validated batch: each header is the child of the one before, and a hash names one header only. */
  ghost predicate Contiguous(hs: Headers, batch: seq<Header>) {
    && (forall i :: 0 <= i < |batch| ==> batch[i].hash != 0 && batch[i].difficulty > 0)
    && (forall i :: 0 < i < |batch| ==> Child(batch, i))
    && (forall i :: 0 <= i < |batch| && batch[i].hash in hs ==> hs[batch[i].hash] == batch[i])
    && (forall i, j :: 0 <= i < j < |batch| ==> batch[i].hash != batch[j].hash)
  }

  predicate Child(batch: seq<Header>, i: nat)
    requires 0 < i < |batch|
  {
    batch[i].parent == batch[i - 1].hash && batch[i].number == batch[i - 1].number + 1
  }

  /** The parent of the batch is known. */
  predicate Attached(hs: Headers, batch: seq<Header>) {
    batch != [] && batch[0].parent in hs && hs[batch[0].parent].number + 1 == batch[0].number
  }

  // ---------------------------------------------------------------- storing the headers

  /** The parent of the header at index `k` of the batch, which is already stored. */
  function ParentAt(batch: seq<Header>, k: nat): Hash
    requires k <= |batch| && batch != []
  {
    if k == 0 then batch[0].parent else batch[k - 1].hash
  }

  /** `hs` and `td` hold what they held before and the first `k` headers of the batch. */
  ghost predicate Grown(hs0: Headers, td0: map<Hash, nat>, batch: seq<Header>, k: nat, hs: Headers, td: map<Hash, nat>)
    requires k <= |batch|
  {
    && (forall h :: h in hs0 ==> h in hs && hs[h] == hs0[h])
    && (forall h :: h in td0 ==> h in td && td[h] == td0[h])
    && (forall h :: h in hs && h !in hs0 ==> exists i :: 0 <= i < k && batch[i].hash == h)
    && (forall i :: 0 <= i < k ==> batch[i].hash in hs && hs[batch[i].hash] == batch[i])
  }

  /** `first` is the first of the first `k` headers that is not in `hs0`, and none after it is; -1 if all are. */
  ghost predicate FirstUnknown(hs0: Headers, batch: seq<Header>, k: nat, first: int)
    requires k <= |batch|
  {
    && -1 <= first < k
    && (forall i :: 0 <= i < k ==> (batch[i].hash in hs0 <==> first < 0 || i < first))
  }

  ghost predicate Stored(hs0: Headers, td0: map<Hash, nat>, genesis: Hash, batch: seq<Header>, k: nat, first: int,
                         hs: Headers, td: map<Hash, nat>)
    requires k <= |batch|
  {
    && Rooted(hs, genesis) && Additive(hs, genesis, td)
    && Grown(hs0, td0, batch, k, hs, td) && FirstUnknown(hs0, batch, k, first)
  }

  lemma StoreHeader(hs: Headers, td: map<Hash, nat>, genesis: Hash, hd: Header, newTd: nat)
    requires Rooted(hs, genesis) && Additive(hs, genesis, td)
    requires hd.hash !in hs && hd.hash != 0 && hd.difficulty > 0
    requires hd.parent in hs && hs[hd.parent].number + 1 == hd.number && newTd == td[hd.parent] + hd.difficulty
    ensures Rooted(hs[hd.hash := hd], genesis) && Additive(hs[hd.hash := hd], genesis, td[hd.hash := newTd])
  {
    var hs', td' := hs[hd.hash := hd], td[hd.hash := newTd];
    RootedWith(hs, genesis, hd);
    forall h | h in hs' && h != genesis ensures Adds(hs', td', h) {
      if h != hd.hash {
        assert HasParent(hs, h) && Adds(hs, td, h);
      }
    }
  }

  /** If the header before it is unknown, so is the header at `k`; a known one already has the right difficulty. */
  lemma KnownPrefix(hs: Headers, td: map<Hash, nat>, genesis: Hash, batch: seq<Header>, k: nat)
    requires Rooted(hs, genesis) && Additive(hs, genesis, td) && Contiguous(hs, batch) && Attached(hs, batch)
    requires k < |batch| && batch[k].hash in hs
    ensures ParentAt(batch, k) in hs && ParentAt(batch, k) in td && batch[k].hash in td
    ensures td[batch[k].hash] == td[ParentAt(batch, k)] + batch[k].difficulty
  {
    assert k > 0 ==> Child(batch, k);
    assert batch[k].hash != genesis;
    assert HasParent(hs, batch[k].hash) && Adds(hs, td, batch[k].hash);
  }

  method Store(hs0: Headers, td0: map<Hash, nat>, ghost genesis: Hash, batch: seq<Header>)
    returns (hs: Headers, td: map<Hash, nat>, newTd: nat, first: int)
    requires Rooted(hs0, genesis) && Additive(hs0, genesis, td0) && Contiguous(hs0, batch) && Attached(hs0, batch)
    ensures Stored(hs0, td0, genesis, batch, |batch|, first, hs, td)
    ensures newTd == td[batch[|batch| - 1].hash]
  {
    hide Rooted, Additive, Contiguous, Grown, FirstUnknown;
    StartStoring(hs0, td0, genesis, batch);
    hs, td, newTd, first := hs0, td0, td0[batch[0].parent], -1;
    var parentKnown := true;
    for i := 0 to |batch|
      invariant Stored(hs0, td0, genesis, batch, i, first, hs, td)
      invariant ParentAt(batch, i) in td && newTd == td[ParentAt(batch, i)]
      invariant (parentKnown <==> first < 0) && first < i
    {
      var header := batch[i];
      newTd := newTd + header.difficulty;
      var known := parentKnown && header.hash in hs0;
      StoreStep(hs0, td0, genesis, batch, i, first, hs, td, newTd);
      if !known {
        td, hs := td[header.hash := newTd], hs[header.hash := header];
        if first < 0 {
          first := i;
        }
      }
      parentKnown := known;
    }
  }

  lemma StoreStep(hs0: Headers, td0: map<Hash, nat>, genesis: Hash, batch: seq<Header>, i: nat, first: int, hs: Headers,
                  td: map<Hash, nat>, newTd: nat)
    requires Rooted(hs0, genesis) && Additive(hs0, genesis, td0) && Contiguous(hs0, batch) && Attached(hs0, batch)
    requires i < |batch| && Stored(hs0, td0, genesis, batch, i, first, hs, td)
    requires ParentAt(batch, i) in td && newTd == td[ParentAt(batch, i)] + batch[i].difficulty
    ensures if first < 0 && batch[i].hash in hs0
            then Stored(hs0, td0, genesis, batch, i + 1, first, hs, td)
                 && batch[i].hash in td && newTd == td[batch[i].hash]
            else Stored(hs0, td0, genesis, batch, i + 1, if first < 0 then i else first, hs[batch[i].hash := batch[i]],
                        td[batch[i].hash := newTd])
  {
    hide Rooted, Additive, Contiguous;
    if batch[i].hash in hs0 {
      KnownPrefix(hs0, td0, genesis, batch, i);
      SameInBatch(hs0, batch, i);
      assert i > 0 ==> batch[i - 1].hash in hs0;
    } else {
      NewHeader(hs0, td0, genesis, batch, i, hs, td);
      StoreHeader(hs, td, genesis, batch[i], newTd);
    }
  }

  lemma StartStoring(hs0: Headers, td0: map<Hash, nat>, genesis: Hash, batch: seq<Header>)
    requires Rooted(hs0, genesis) && Additive(hs0, genesis, td0) && Attached(hs0, batch)
    ensures batch[0].parent in td0 && Stored(hs0, td0, genesis, batch, 0, -1, hs0, td0)
  {
  }

  lemma SameInBatch(hs0: Headers, batch: seq<Header>, i: nat)
    requires Contiguous(hs0, batch) && i < |batch| && batch[i].hash in hs0
    ensures hs0[batch[i].hash] == batch[i]
  {
  }

  lemma NewHeader(hs0: Headers, td0: map<Hash, nat>, genesis: Hash, batch: seq<Header>, i: nat, hs: Headers,
                  td: map<Hash, nat>)
    requires Contiguous(hs0, batch) && Attached(hs0, batch) && i < |batch| && batch[i].hash !in hs0
    requires Grown(hs0, td0, batch, i, hs, td) && Additive(hs0, genesis, td0)
    ensures batch[i].hash !in hs && batch[i].hash !in td0 && batch[i].hash != 0 && batch[i].difficulty > 0
    ensures batch[i].parent == ParentAt(batch, i)
    ensures batch[i].parent in hs && hs[batch[i].parent].number + 1 == batch[i].number
  {
    assert i > 0 ==> Child(batch, i);
  }

  // ---------------------------------------------------------------- rewriting the index

  /** The headers of the batch are stored and linked. */
  ghost predicate Linked(hs: Headers, batch: seq<Header>) {
    && Attached(hs, batch)
    && (forall i :: 0 <= i < |batch| ==> batch[i].hash in hs && hs[batch[i].hash] == batch[i])
    && (forall i :: 0 < i < |batch| ==> Child(batch, i))
  }

  lemma {:induction false} BatchNumbers(batch: seq<Header>, k: nat)
    requires k < |batch| && forall i :: 0 < i < |batch| ==> Child(batch, i)
    ensures batch[k].number == batch[0].number + k
  {
    if k > 0 {
      BatchNumbers(batch, k - 1);
      assert Child(batch, k);
    }
  }

  /** The path of a header of the batch: the batch itself, and below it the path of the batch's parent. */
  lemma {:induction false} BatchPath(hs: Headers, genesis: Hash, batch: seq<Header>, k: nat, n: nat)
    requires Rooted(hs, genesis) && Linked(hs, batch) && k < |batch| && n <= batch[0].number + k
    ensures batch[k].number == batch[0].number + k
    ensures Ancestor(hs, genesis, batch[k].hash, n) ==
            if n >= batch[0].number then batch[n - batch[0].number].hash else Ancestor(hs, genesis, batch[0].parent, n)
  {
    hide Rooted, Ancestor;
    BatchNumbers(batch, k);
    AncestorStep(hs, genesis, batch[k].hash, n);
    if n < batch[k].number && k > 0 {
      assert Child(batch, k);
      BatchPath(hs, genesis, batch, k - 1, n);
    }
  }

  /** Walks back from `p`, writing its path until the index already has it. */
  method OverwriteBack(db: Index, c0: Index, hs: Headers, ghost genesis: Hash, ghost head: Hash, p: Hash)
    returns (c: Index)
    requires IsPath(db, hs, genesis, head) && p in hs
    requires forall k: nat :: k <= hs[p].number ==> Read(c0, k) == Read(db, k)
    ensures forall k: nat :: Read(c, k) == if k <= hs[p].number then PathAt(hs, genesis, p, k) else Read(c0, k)
  {
    hide Rooted, HasParent, PathAt;
    PathSteps(hs, genesis, head, p);
    var h, n := p, hs[p].number;
    c := c0;
    while Read(db, n) != h
      invariant h in hs && n == hs[h].number <= hs[p].number && h == PathAt(hs, genesis, p, n)
      invariant forall k: nat :: Read(c, k) == if n < k <= hs[p].number then PathAt(hs, genesis, p, k) else Read(c0, k)
      decreases n
    {
      WalkBack(db, hs, genesis, head, p, n);
      c := c[n := h];
      h := hs[h].parent;
      n := n - 1;
    }
    RestAgrees(db, hs, genesis, head, p, n);
  }

  lemma PathSteps(hs: Headers, genesis: Hash, head: Hash, p: Hash)
    requires Rooted(hs, genesis) && head in hs && p in hs
    ensures PathAt(hs, genesis, p, hs[p].number) == p && PathAt(hs, genesis, p, 0) == PathAt(hs, genesis, head, 0)
  {
  }

  lemma WalkBack(db: Index, hs: Headers, genesis: Hash, head: Hash, p: Hash, n: nat)
    requires IsPath(db, hs, genesis, head) && p in hs && n <= hs[p].number
    requires Read(db, n) != PathAt(hs, genesis, p, n)
    ensures n > 0 && PathAt(hs, genesis, p, n) in hs
    ensures hs[PathAt(hs, genesis, p, n)].parent == PathAt(hs, genesis, p, n - 1)
    ensures PathAt(hs, genesis, p, n - 1) in hs && hs[PathAt(hs, genesis, p, n - 1)].number == n - 1
  {
    if n > 0 {
      AncestorLinked(hs, genesis, p, n - 1);
    }
  }

  lemma RestAgrees(db: Index, hs: Headers, genesis: Hash, head: Hash, p: Hash, n: nat)
    requires IsPath(db, hs, genesis, head) && p in hs && n <= hs[p].number
    requires Read(db, n) == PathAt(hs, genesis, p, n)
    ensures forall k: nat :: k <= n ==> Read(db, k) == PathAt(hs, genesis, p, k)
  {
    forall k: nat | k <= n ensures Read(db, k) == PathAt(hs, genesis, p, k) {
      assert PathAt(hs, genesis, head, n) != 0;
      PathsMeet(hs, genesis, p, head, n, k);
    }
  }

  /** Writes the markers of a stretch of the batch. */
  method WriteMarkers(c0: Index, batch: seq<Header>, from: nat, to: nat) returns (c: Index)
    requires from <= to <= |batch| && batch != [] && forall i :: 0 < i < |batch| ==> Child(batch, i)
    ensures forall k: nat :: Read(c, k) ==
              if from <= k - batch[0].number < to then batch[k - batch[0].number].hash else Read(c0, k)
  {
    hide Child;
    c := c0;
    for i := from to to
      invariant forall k: nat :: Read(c, k) ==
                  if from <= k - batch[0].number < i then batch[k - batch[0].number].hash else Read(c0, k)
    {
      BatchNumbers(batch, i);
      ghost var before := c;
      c := c[batch[i].number := batch[i].hash];
      assert forall k: nat :: Read(c, k) == if k == batch[0].number + i then batch[i].hash else Read(before, k);
    }
  }

  /** What the markers say after a batch has become canonical. */
  ghost function MarkedAt(db: Index, hs: Headers, genesis: Hash, head: Hash, batch: seq<Header>, first: int,
                          k: nat): Hash
    requires Rooted(hs, genesis) && Linked(hs, batch)
  {
    var start := batch[0].number;
    if first < 0 && batch[0].parent == head then Read(db, k)
    else if k < start then PathAt(hs, genesis, batch[0].parent, k)
    else if k >= start + |batch| then 0
    else if first < 0 then Read(db, k)
    else batch[k - start].hash
  }

  /** Rewrites the markers so that they lead to the batch, the headers from `first` on being new. */
  method Mark(db: Index, hs: Headers, ghost genesis: Hash, head: Hash, batch: seq<Header>, first: int)
    returns (c: Index)
    requires IsPath(db, hs, genesis, head) && Linked(hs, batch) && -1 <= first < |batch|
    requires batch[0].parent == head ==> first <= 0
    ensures forall k: nat :: Read(c, k) == MarkedAt(db, hs, genesis, head, batch, first, k)
  {
    hide Rooted, HasParent, Child, Ancestor;
    c := db;
    if batch[0].parent != head {
      BatchNumbers(batch, |batch| - 1);
      c := DeleteAbove(db, db, batch[|batch| - 1].number + 1, hs, genesis, head);
      c := OverwriteBack(db, c, hs, genesis, head, batch[0].parent);
      if first > 0 {
        c := WriteMarkers(c, batch, 0, first);
      }
    }
    if first >= 0 {
      c := WriteMarkers(c, batch, first, |batch|);
    }
  }

  lemma MarkedIsPath(db: Index, hs: Headers, genesis: Hash, head: Hash, batch: seq<Header>, first: int, k: nat)
    requires Rooted(hs, genesis) && Linked(hs, batch) && 0 <= first
    ensures MarkedAt(db, hs, genesis, head, batch, first, k) == PathAt(hs, genesis, batch[|batch| - 1].hash, k)
  {
    hide Rooted, Ancestor;
    BatchNumbers(batch, |batch| - 1);
    if k <= batch[|batch| - 1].number {
      BatchPath(hs, genesis, batch, |batch| - 1, k);
    }
  }

  // ---------------------------------------------------------------- fork choice

  /** Along the batch the total difficulty rises. */
  lemma {:induction false} BatchWeights(hs: Headers, genesis: Hash, td: map<Hash, nat>, batch: seq<Header>, i: nat,
                                        k: nat)
    requires Rooted(hs, genesis) && Additive(hs, genesis, td) && Linked(hs, batch) && i <= k < |batch|
    ensures batch[i].hash in td && batch[k].hash in td && td[batch[i].hash] <= td[batch[k].hash]
  {
    hide Rooted, Additive;
    Weight(hs, genesis, td, batch[k].hash);
    if i < k {
      BatchWeights(hs, genesis, td, batch, i, k - 1);
      assert Child(batch, k);
    }
  }

  lemma Weight(hs: Headers, genesis: Hash, td: map<Hash, nat>, h: Hash)
    requires Rooted(hs, genesis) && Additive(hs, genesis, td) && h in hs
    ensures h in td && (hs[h].number > 0 ==> HasParent(hs, h) && td[hs[h].parent] < td[h])
  {
    assert h != genesis ==> Adds(hs, td, h);
  }

  /** A proper ancestor is lighter. */
  lemma {:induction false} AncestorLighter(hs: Headers, genesis: Hash, td: map<Hash, nat>, h: Hash, n: nat)
    requires Rooted(hs, genesis) && Additive(hs, genesis, td) && h in hs && n < hs[h].number
    ensures td[Ancestor(hs, genesis, h, n)] < td[h]
    decreases hs[h].number
  {
    hide Rooted, Ancestor;
    Weight(hs, genesis, td, h);
    AncestorStep(hs, genesis, h, n);
    AncestorStep(hs, genesis, hs[h].parent, n);
    if n < hs[h].number - 1 {
      AncestorLighter(hs, genesis, td, hs[h].parent, n);
    }
  }

  lemma HeaviestKept(hs0: Headers, td0: map<Hash, nat>, genesis: Hash, head: Hash, batch: seq<Header>, hs: Headers,
                     td: map<Hash, nat>, newHead: Hash)
    requires Heaviest(td0, head) && Additive(hs0, genesis, td0) && Rooted(hs, genesis) && Additive(hs, genesis, td)
    requires Grown(hs0, td0, batch, |batch|, hs, td) && Linked(hs, batch)
    requires newHead in td && td[newHead] >= td[head] && td[newHead] >= td[batch[|batch| - 1].hash]
    ensures Heaviest(td, newHead)
  {
    hide Rooted, Linked;
    forall h | h in td ensures td[h] <= td[newHead] {
      if h !in hs0 {
        var i :| 0 <= i < |batch| && batch[i].hash == h;
        BatchWeights(hs, genesis, td, batch, i, |batch| - 1);
      }
    }
  }

  /** A child of the heaviest header is new. */
  lemma ChildOfHeadIsNew(hs: Headers, td: map<Hash, nat>, genesis: Hash, head: Hash, batch: seq<Header>)
    requires Rooted(hs, genesis) && Additive(hs, genesis, td) && Heaviest(td, head) && Contiguous(hs, batch)
    requires Attached(hs, batch)
    ensures batch[0].parent == head ==> batch[0].hash !in hs
  {
    if batch[0].parent == head && batch[0].hash in hs {
      KnownPrefix(hs, td, genesis, batch, 0);
      assert false;
    }
  }

  /** What storing a batch leaves in place. */
  lemma AfterStore(hs0: Headers, td0: map<Hash, nat>, genesis: Hash, head: Hash, c: Index, batch: seq<Header>,
                   first: int, hs: Headers, td: map<Hash, nat>)
    requires IsPath(c, hs0, genesis, head) && Additive(hs0, genesis, td0) && Heaviest(td0, head)
    requires Contiguous(hs0, batch) && Attached(hs0, batch)
    requires Stored(hs0, td0, genesis, batch, |batch|, first, hs, td)
    ensures IsPath(c, hs, genesis, head) && Linked(hs, batch) && head in td && td[head] == td0[head]
    ensures -1 <= first < |batch| && (batch[0].parent == head ==> first == 0)
    ensures first >= 0 <==> exists i :: 0 <= i < |batch| && batch[i].hash !in hs0
    ensures batch[|batch| - 1].hash in td && batch[|batch| - 1].hash in hs
    ensures first < 0 ==> td[batch[|batch| - 1].hash] <= td[head]
  {
    hide Rooted;
    PathKept(c, hs0, genesis, head, hs);
    ChildOfHeadIsNew(hs0, td0, genesis, head, batch);
    assert first >= 0 ==> batch[first].hash !in hs0;
  }

  /** If every header of a preferred batch was known, the new markers are exact only if the head stays where it was. */
  lemma AllKnown(hs: Headers, td: map<Hash, nat>, genesis: Hash, head: Hash, db: Index, batch: seq<Header>, c: Index)
    requires IsPath(db, hs, genesis, head) && Additive(hs, genesis, td) && Linked(hs, batch) && head in td
    requires batch[0].parent != head
    requires td[batch[|batch| - 1].hash] == td[head]
    requires forall k: nat :: Read(c, k) == MarkedAt(db, hs, genesis, head, batch, -1, k)
    ensures IsPath(c, hs, genesis, batch[|batch| - 1].hash) <==> batch[|batch| - 1].hash == head
  {
    hide Rooted, Ancestor;
    var last := batch[|batch| - 1];
    BatchNumbers(batch, |batch| - 1);
    AncestorStep(hs, genesis, last.hash, last.number);
    if last.hash == head {
      forall k: nat ensures Read(c, k) == PathAt(hs, genesis, head, k) {
        if k <= last.number {
          BatchPath(hs, genesis, batch, |batch| - 1, k);
        }
      }
    } else if IsPath(c, hs, genesis, last.hash) {
      assert Read(c, last.number) == PathAt(hs, genesis, head, last.number);
      Lighter(hs, genesis, td, head, last.hash);
    }
  }

  /** Moving the head to a preferred batch. */
  lemma MovedHead(hs0: Headers, td0: map<Hash, nat>, genesis: Hash, head: Hash, db: Index, batch: seq<Header>,
                  first: int, hs: Headers, td: map<Hash, nat>, c: Index)
    requires batch != [] && Heaviest(td0, head) && Additive(hs0, genesis, td0)
    requires Grown(hs0, td0, batch, |batch|, hs, td)
    requires IsPath(db, hs, genesis, head) && Additive(hs, genesis, td) && Linked(hs, batch) && head in td
    requires -1 <= first
    requires batch[|batch| - 1].hash in td && td[batch[|batch| - 1].hash] >= td[head]
    requires first < 0 ==> batch[0].parent != head && td[batch[|batch| - 1].hash] == td[head]
    requires forall k: nat :: Read(c, k) == MarkedAt(db, hs, genesis, head, batch, first, k)
    ensures Heaviest(td, batch[|batch| - 1].hash)
    ensures IsPath(c, hs, genesis, batch[|batch| - 1].hash) <==> batch[|batch| - 1].hash == head || first >= 0
  {
    hide Rooted, Additive, Grown, MarkedAt, PathAt, Linked;
    HeaviestKept(hs0, td0, genesis, head, batch, hs, td, batch[|batch| - 1].hash);
    if first < 0 {
      AllKnown(hs, td, genesis, head, db, batch, c);
    } else {
      LastStored(hs, batch);
      forall k: nat ensures Read(c, k) == PathAt(hs, genesis, batch[|batch| - 1].hash, k) {
        MarkedIsPath(db, hs, genesis, head, batch, first, k);
      }
    }
  }

  lemma LastStored(hs: Headers, batch: seq<Header>)
    requires Linked(hs, batch)
    ensures batch[|batch| - 1].hash in hs
  {
  }

  lemma PreferHeavier(newTd: nat, number: nat, td: nat, head: nat, coin: bool)
    ensures if Prefer(newTd, number, td, head, coin) then newTd >= td else newTd <= td
    ensures newTd == td && number == head ==> (Prefer(newTd, number, td, head, coin) <==> coin)
  {
  }

  lemma Lighter(hs: Headers, genesis: Hash, td: map<Hash, nat>, head: Hash, h: Hash)
    requires Rooted(hs, genesis) && Additive(hs, genesis, td) && h in hs && head in hs
    requires PathAt(hs, genesis, head, hs[h].number) == h
    ensures h == head || td[h] < td[head]
  {
    if hs[h].number < hs[head].number {
      AncestorLighter(hs, genesis, td, head, hs[h].number);
    }
  }

  /** The head has the lowest number among the heaviest headers. */
  ghost predicate LowestHead(hs: Headers, td: map<Hash, nat>, head: Hash) {
    head in hs && head in td && forall h :: h in td && h in hs && td[h] == td[head] ==> hs[head].number <= hs[h].number
  }

  lemma LowestKept(hs0: Headers, td0: map<Hash, nat>, genesis: Hash, head: Hash, batch: seq<Header>, hs: Headers,
                   td: map<Hash, nat>, coin: bool)
    requires Heaviest(td0, head) && LowestHead(hs0, td0, head) && Additive(hs0, genesis, td0) && Rooted(hs, genesis)
    requires Additive(hs, genesis, td)
    requires Grown(hs0, td0, batch, |batch|, hs, td) && Linked(hs, batch)
    ensures var last := batch[|batch| - 1];
            && last.hash in td && head in td && head in hs
            && LowestHead(hs, td,
                    if Prefer(td[last.hash], last.number, td[head], hs[head].number, coin) then last.hash else head)
  {
    LastStored(hs, batch);
    var last := batch[|batch| - 1];
    var newHead := if Prefer(td[last.hash], last.number, td[head], hs[head].number, coin) then last.hash else head;
    forall h | h in td && h in hs && td[h] == td[newHead] ensures hs[newHead].number <= hs[h].number {
      if h !in hs0 {
        NewLighter(hs0, td0, genesis, batch, hs, td, h);
      }
    }
  }

  /** Of the new headers, only the last one can be as heavy as the last one. */
  lemma NewLighter(hs0: Headers, td0: map<Hash, nat>, genesis: Hash, batch: seq<Header>, hs: Headers,
                   td: map<Hash, nat>, h: Hash)
    requires Rooted(hs, genesis) && Additive(hs, genesis, td) && Linked(hs, batch)
    requires Grown(hs0, td0, batch, |batch|, hs, td) && h in hs && h !in hs0
    ensures batch[|batch| - 1].hash in td && h in td
    ensures h == batch[|batch| - 1].hash || td[h] < td[batch[|batch| - 1].hash]
  {
    hide Rooted, Linked, Additive, Child;
    var i :| 0 <= i < |batch| && batch[i].hash == h;
    hide Grown;
    BatchWeights(hs, genesis, td, batch, i, |batch| - 1);
    if i < |batch| - 1 {
      LastHeavier(hs, genesis, td, batch, i);
    }
  }

  lemma LastHeavier(hs: Headers, genesis: Hash, td: map<Hash, nat>, batch: seq<Header>, i: nat)
    requires Rooted(hs, genesis) && Additive(hs, genesis, td) && Linked(hs, batch) && i < |batch| - 1
    ensures batch[i].hash in td && batch[|batch| - 1].hash in td && td[batch[i].hash] < td[batch[|batch| - 1].hash]
  {
    hide Rooted, Additive;
    BatchWeights(hs, genesis, td, batch, i, |batch| - 2);
    Weight(hs, genesis, td, batch[|batch| - 1].hash);
    assert Child(batch, |batch| - 1);
  }

  /** Every header of the batch is known, and its last one is preferred to another head. */
  ghost predicate KnownMove(hs: Headers, td: map<Hash, nat>, head: Hash, batch: seq<Header>, coin: bool)
    requires batch != [] && head in hs && head in td
  {
    var last := batch[|batch| - 1];
    && (forall i :: 0 <= i < |batch| ==> batch[i].hash in hs)
    && last.hash in td && last.hash != head && Prefer(td[last.hash], last.number, td[head], hs[head].number, coin)
  }

  lemma KnownMoveIs(hs0: Headers, td0: map<Hash, nat>, genesis: Hash, head: Hash, batch: seq<Header>, first: int,
                    hs: Headers, td: map<Hash, nat>, coin: bool)
    requires batch != [] && Stored(hs0, td0, genesis, batch, |batch|, first, hs, td) && Additive(hs0, genesis, td0)
    requires head in hs0 && head in td0 && batch[|batch| - 1].hash in td && head in td && head in hs
    ensures var last := batch[|batch| - 1];
            KnownMove(hs0, td0, head, batch, coin) <==>
              first < 0 && last.hash != head && Prefer(td[last.hash], last.number, td[head], hs[head].number, coin)
  {
    hide Rooted, Prefer;
    assert first >= 0 ==> batch[first].hash !in hs0;
    assert first < 0 ==> batch[|batch| - 1].hash in hs0;
  }

  class HeaderChain {
    const genesis: Hash
    var headers: Headers
    var tds: map<Hash, nat>
    var canon: Index
    var current: Hash

    /** A chain that holds only its genesis. */
    constructor (genesis: Header)
      requires genesis.hash != 0 && genesis.number == 0
      ensures Valid() && LowestHead(headers, tds, current) && this.genesis == current == genesis.hash
      ensures headers == map[genesis.hash := genesis] && tds == map[genesis.hash := genesis.difficulty]
    {
      this.genesis, current := genesis.hash, genesis.hash;
      headers, tds := map[genesis.hash := genesis], map[genesis.hash := genesis.difficulty];
      canon := map[0 := genesis.hash];
    }

    ghost predicate Weighted()
      reads this
    {
      Rooted(headers, genesis) && Additive(headers, genesis, tds) && Heaviest(tds, current)
    }

    /** The index is exactly the path of the head, and no known header is heavier than the head. */
    ghost predicate Valid()
      reads this
    {
      Weighted() && IsPath(canon, headers, genesis, current)
    }

    /**
     Stores a batch and moves the head to it if it is preferred. The index is exact again, unless every header of the
     batch was known already and the head moves to another one. The head keeps the lowest number among the heaviest.
     */
    method WriteHeaders(batch: seq<Header>, coin: bool) returns (ok: bool, ignored: nat)
      requires Valid() && Contiguous(headers, batch)
      modifies this
      ensures ok <==> batch == [] || Attached(old(headers), batch)
      ensures !ok || batch == [] ==>
                headers == old(headers) && tds == old(tds) && canon == old(canon) && current == old(current)
      ensures Weighted() && tds[current] >= old(tds[current])
      ensures ok && batch != [] ==> Grown(old(headers), old(tds), batch, |batch|, headers, tds)
      ensures ok ==> forall i :: 0 <= i < |batch| ==> (batch[i].hash in old(headers) <==> i < ignored)
      ensures ok && batch != [] ==>
                var last := batch[|batch| - 1];
                && last.hash in tds && old(current) in headers
                && var number := headers[old(current)].number;
                   && current == (if Prefer(tds[last.hash], last.number, old(tds[current]), number, coin) then last.hash
                                  else old(current))
                   && (tds[last.hash] == old(tds[current]) && last.number == number ==>
                         current == if coin then last.hash else old(current))
      ensures ok && batch != [] ==> (Valid() <==> !old(KnownMove(headers, tds, current, batch, coin)))
      ensures old(LowestHead(headers, tds, current)) ==> LowestHead(headers, tds, current)
    {
      hide Rooted, Additive, Contiguous, Grown, HasParent, Child, Linked, MarkedAt, PathAt, Prefer, KnownMove;
      hide LowestHead;
      if batch == [] {
        return true, 0;
      }
      if !(batch[0].parent in headers && headers[batch[0].parent].number + 1 == batch[0].number) {
        return false, 0;
      }
      var hs, td, newTd, first := Store(headers, tds, genesis, batch);
      var head, last := current, batch[|batch| - 1];
      AfterStore(headers, tds, genesis, head, canon, batch, first, hs, td);
      PreferHeavier(newTd, last.number, td[head], hs[head].number, coin);
      KnownMoveIs(headers, tds, genesis, head, batch, first, hs, td, coin);
      if LowestHead(headers, tds, head) {
        LowestKept(headers, tds, genesis, head, batch, hs, td, coin);
      }
      headers, tds := hs, td;
      if Prefer(newTd, last.number, td[head], hs[head].number, coin) {
        canon := Mark(canon, hs, genesis, head, batch, first);
        current := last.hash;
        MovedHead(old(headers), old(tds), genesis, head, old(canon), batch, first, hs, td, canon);
      } else {
        HeaviestKept(old(headers), old(tds), genesis, head, batch, hs, td, head);
      }
      ok, ignored := true, if first < 0 then |batch| else first;
    }
  }

  const ROOT: Header := Header(1, 0, 0, 1)
  const LEFT: Header := Header(2, 1, 1, 1)
  const RIGHT: Header := Header(3, 1, 1, 1)

  lemma StoredOne(hs0: Headers, td0: map<Hash, nat>, hd: Header, hs: Headers, td: map<Hash, nat>)
    requires Grown(hs0, td0, [hd], 1, hs, td) && Additive(hs, 1, td) && td0.Keys == hs0.Keys && 1 in td0
    requires hd.parent == 1 != hd.hash
    ensures hs == hs0[hd.hash := hd] && (hd.hash in td0 ==> td == td0)
    ensures hd.hash !in td0 ==> td == td0[hd.hash := td0[1] + hd.difficulty]
  {
    OneHeader(hs0, td0, hd, hs, td);
    OneWeight(hs, td, hd);
    hide Grown, Additive;
    OneMore(td0, td, hd.hash);
  }

  lemma OneMore(td0: map<Hash, nat>, td: map<Hash, nat>, h: Hash)
    requires td.Keys == td0.Keys + {h} && forall k :: k in td0 ==> td[k] == td0[k]
    ensures td == td0[h := td[h]] && (h in td0 ==> td == td0)
  {
  }

  lemma OneWeight(hs: Headers, td: map<Hash, nat>, hd: Header)
    requires Additive(hs, 1, td) && hd.hash in hs && hs[hd.hash] == hd && hd.parent == 1 != hd.hash
    ensures td.Keys == hs.Keys && 1 in td && td[hd.hash] == td[1] + hd.difficulty
  {
    assert Adds(hs, td, hd.hash);
  }

  lemma OneHeader(hs0: Headers, td0: map<Hash, nat>, hd: Header, hs: Headers, td: map<Hash, nat>)
    requires Grown(hs0, td0, [hd], 1, hs, td)
    ensures hs == hs0[hd.hash := hd] && forall h :: h in td0 ==> h in td && td[h] == td0[h]
  {
    forall h | h in hs && h !in hs0 ensures h == hd.hash {
      var i :| 0 <= i < 1 && [hd][i].hash == h;
    }
    assert [hd][0].hash in hs && hs[[hd][0].hash] == hd;
  }

  lemma OneIsContiguous(hs: Headers, hd: Header)
    requires hd.hash != 0 && hd.difficulty > 0 && (hd.hash in hs ==> hs[hd.hash] == hd)
    ensures Contiguous(hs, [hd])
  {
  }

  /** Two children of the genesis are equally heavy; the second, known by now, is sent again and wins the coin toss. */
  method KnownBatchExample() returns (hc: HeaderChain)
    ensures fresh(hc) && hc.headers == map[1 := ROOT, 2 := LEFT, 3 := RIGHT] && hc.current == 3
    ensures hc.Weighted() && LowestHead(hc.headers, hc.tds, hc.current) && !hc.Valid()
  {
    hide Rooted, Additive, Contiguous, Grown, LowestHead, Heaviest, IsPath;
    hc := new HeaderChain(ROOT);
    OneIsContiguous(hc.headers, LEFT);
    var ok, ignored := hc.WriteHeaders([LEFT], false);
    StoredOne(map[1 := ROOT], map[1 := 1], LEFT, hc.headers, hc.tds);
    OneIsContiguous(hc.headers, RIGHT);
    ok, ignored := hc.WriteHeaders([RIGHT], false);
    StoredOne(map[1 := ROOT, 2 := LEFT], map[1 := 1, 2 := 2], RIGHT, hc.headers, hc.tds);
    OneIsContiguous(hc.headers, RIGHT);
    ok, ignored := hc.WriteHeaders([RIGHT], true);
    StoredOne(map[1 := ROOT, 2 := LEFT, 3 := RIGHT], map[1 := 1, 2 := 2, 3 := 2], RIGHT, hc.headers, hc.tds);
  }
}

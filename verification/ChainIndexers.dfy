/**
 The section indexer: it stores one head hash per section of blocks and compares only the newest with
 the chain. Each stored head leads back to the one before it by parent hashes, so the newest being
 canonical makes all of them canonical.
 */
module ChainIndexers {
  import opened Transactions
  import opened ChainIndex
  import opened Ancestors

  /** What the indexer sees of the chain when it reads one block: the chain may change between reads. */
  datatype View = View(canon: Index, available: set<Hash>, processOk: bool)

  /** From number `from` up, each entry of the index is the child of the entry below. */
  ghost predicate LinkedFrom(canon: Index, world: Headers, from: nat) {
    0 !in world && forall n: nat :: n > from && Read(canon, n) != 0 ==> LinkedAt(canon, world, n)
  }

  ghost predicate LinkedAt(canon: Index, world: Headers, n: nat)
    requires n > 0
  {
    Read(canon, n) in world && world[Read(canon, n)].parent == Read(canon, n - 1)
  }

  /** An index that is exactly the path of a head is linked. */
  lemma PathIsLinked(canon: Index, hs: Headers, genesis: Hash, head: Hash, world: Headers, from: nat)
    requires IsPath(canon, hs, genesis, head) && 0 !in world && forall h :: h in hs ==> h in world && world[h] == hs[h]
    ensures LinkedFrom(canon, world, from)
  {
    hide Rooted, Ancestor;
    forall n: nat | n > from && Read(canon, n) != 0 ensures LinkedAt(canon, world, n) {
      AncestorLinked(hs, genesis, head, n - 1);
    }
  }

  /** Parent steps from an entry of the index follow the index. */
  lemma {:induction false} StepsAlongIndex(canon: Index, world: Headers, from: nat, n: nat, k: nat)
    requires LinkedFrom(canon, world, from) && from + k <= n && Steps(world, Read(canon, n), k) != 0
    ensures Steps(world, Read(canon, n), k) == Read(canon, n - k)
    decreases k
  {
    if k > 0 {
      assert LinkedAt(canon, world, n);
      StepsAlongIndex(canon, world, from, n - 1, k - 1);
    }
  }

  /** The canonical hash of the last block of section `i`. */
  function LastBlock(canon: Index, size: nat, i: nat): Hash
    requires size > 0
  {
    Read(canon, (i + 1) * size - 1)
  }

  // ---------------------------------------------------------------- the stored heads

  /** Beyond the checkpoint every stored section has a head, and each head leads back to the one before. */
  ghost predicate HeadsOk(world: Headers, size: nat, checkpoint: nat, stored: nat, heads: map<nat, Hash>) {
    && (forall i :: i in heads ==> i < stored && heads[i] != 0)
    && (stored > 0 ==> stored - 1 in heads)
    && (forall i: nat :: checkpoint <= i + 1 && i < stored ==> i in heads)
    && (forall i: nat :: checkpoint < i < stored ==> LeadsBack(world, size, heads, i))
  }

  ghost predicate LeadsBack(world: Headers, size: nat, heads: map<nat, Hash>, i: nat) {
    i > 0 && i in heads && i - 1 in heads && Steps(world, heads[i], size) == heads[i - 1]
  }

  /** If the head of section `k` is canonical, so is every stored head from the checkpoint up to it. */
  lemma {:induction false} AllCanonical(world: Headers, size: nat, checkpoint: nat, stored: nat, heads: map<nat, Hash>,
                                        canon: Index, k: nat, i: nat)
    requires size > 0 && HeadsOk(world, size, checkpoint, stored, heads) && checkpoint <= i <= k < stored
    requires LinkedFrom(canon, world, (checkpoint + 1) * size - 1)
    requires heads[k] == LastBlock(canon, size, k)
    ensures heads[i] == LastBlock(canon, size, i)
    decreases k
  {
    if i < k {
      assert LeadsBack(world, size, heads, k);
      var n := (k + 1) * size - 1;
      assert n - size == k * size - 1 && (checkpoint + 1) * size <= k * size;
      StepsAlongIndex(canon, world, (checkpoint + 1) * size - 1, n, size);
      AllCanonical(world, size, checkpoint, stored, heads, canon, k - 1, i);
    }
  }

  /** Dropping sections keeps the heads linked, as long as the checkpoint or nothing is left. */
  lemma DropSections(world: Headers, size: nat, checkpoint: nat, stored: nat, heads: map<nat, Hash>, n: nat,
                     heads': map<nat, Hash>)
    requires HeadsOk(world, size, checkpoint, stored, heads) && n <= stored && (n >= checkpoint || n == 0)
    requires (forall i :: i in heads' <==> i in heads && i < n) && (forall i :: i in heads' ==> heads'[i] == heads[i])
    ensures HeadsOk(world, size, checkpoint, n, heads')
  {
    forall i: nat | checkpoint < i < n ensures LeadsBack(world, size, heads', i) {
      assert LeadsBack(world, size, heads, i);
    }
  }

  /** Storing a section on top of the head it was linked to keeps the heads linked, whatever was stored above. */
  lemma StoreSection(world: Headers, size: nat, checkpoint: nat, stored: nat, heads: map<nat, Hash>, section: nat,
                     head: Hash, heads': map<nat, Hash>)
    requires HeadsOk(world, size, checkpoint, stored, heads) && head != 0
    requires section > 0 ==> section - 1 in heads && Steps(world, head, size) == heads[section - 1]
    requires forall i :: i in heads' <==> i == section || (i in heads && i < section)
    requires forall i :: i in heads' ==> heads'[i] == if i == section then head else heads[i]
    ensures HeadsOk(world, size, checkpoint, section + 1, heads')
  {
    forall i: nat | checkpoint < i < section + 1 ensures LeadsBack(world, size, heads', i) {
      assert i < section ==> LeadsBack(world, size, heads, i);
    }
  }

  // ---------------------------------------------------------------- processing a section

  /** Reading a block works out: it is canonical, available, the child of `parent`, and processed. */
  predicate Reads(world: Headers, v: View, number: nat, parent: Hash) {
    var hash := Read(v.canon, number);
    && hash != 0 && hash in v.available && hash in world && world[hash].number == number && world[hash].parent == parent
    && v.processOk
  }

  /** The hash read last before block `k`. */
  function Before(views: seq<View>, start: nat, lastHead: Hash, k: nat): Hash
    requires k <= |views|
  {
    if k == 0 then lastHead else Read(views[k - 1].canon, start + k - 1)
  }

  /** Block `k` after `start` was read as the child of the block read before it. */
  predicate ReadsAt(world: Headers, views: seq<View>, start: nat, lastHead: Hash, k: nat)
    requires k < |views|
  {
    Reads(world, views[k], start + k, Before(views, start, lastHead, k))
  }

  lemma StepsNone(world: Headers, h: Hash)
    ensures Steps(world, h, 0) == h
  {
  }

  lemma ReadsNeeds(world: Headers, v: View, number: nat, parent: Hash)
    requires Reads(world, v, number, parent)
    ensures v.processOk && Read(v.canon, number) in v.available
  {
  }

  lemma ReadStep(world: Headers, views: seq<View>, start: nat, lastHead: Hash, k: nat)
    requires k < |views| && ReadsAt(world, views, start, lastHead, k)
    requires Steps(world, Before(views, start, lastHead, k), k) == lastHead
    ensures var hash := Read(views[k].canon, start + k);
            hash != 0 && hash in world && world[hash].number == start + k && Steps(world, hash, k + 1) == lastHead
            && hash == Before(views, start, lastHead, k + 1)
  {
  }

  /** Reads blocks from `start` on. The result leads back to `lastHead`, although the chain may have changed in
      between. */
  method ProcessBlocks(world: Headers, start: nat, lastHead: Hash, views: seq<View>) returns (head: Option<Hash>)
    requires views != []
    ensures head.Some? <==> forall k: nat :: k < |views| ==> ReadsAt(world, views, start, lastHead, k)
    ensures head.Some? ==> head.value != 0 && Steps(world, head.value, |views|) == lastHead
    ensures head.Some? ==> head.value in world && world[head.value].number == start + |views| - 1
    ensures head.Some? ==> head.value == Read(views[|views| - 1].canon, start + |views| - 1)
    ensures head.Some? ==> forall k :: 0 <= k < |views| ==>
              views[k].processOk && Read(views[k].canon, start + k) in views[k].available
  {
    hide Reads, Steps, Read;
    var last := lastHead;
    StepsNone(world, lastHead);
    for k := 0 to |views|
      invariant forall j: nat :: j < k ==> ReadsAt(world, views, start, lastHead, j)
      invariant forall j :: 0 <= j < k ==> views[j].processOk && Read(views[j].canon, start + j) in views[j].available
      invariant last == Before(views, start, lastHead, k) && Steps(world, last, k) == lastHead
      invariant k > 0 ==> last != 0 && last in world && world[last].number == start + k - 1
    {
      if !Reads(world, views[k], start + k, last) {
        assert !ReadsAt(world, views, start, lastHead, k);
        return None;
      }
      ReadStep(world, views, start, lastHead, k);
      ReadsNeeds(world, views[k], start + k, last);
      last := Read(views[k].canon, start + k);
    }
    return Some(last);
  }

  method ProcessSection(world: Headers, size: nat, section: nat, lastHead: Hash, views: seq<View>, commitOk: bool)
    returns (head: Option<Hash>)
    requires size > 0 && |views| == size
    ensures head.Some? <==> commitOk && forall k: nat :: k < size ==> ReadsAt(world, views, section * size, lastHead, k)
    ensures head.Some? ==> head.value != 0 && Steps(world, head.value, size) == lastHead
    ensures head.Some? ==> head.value in world && world[head.value].number == section * size + size - 1
    ensures head.Some? ==> head.value == Read(views[size - 1].canon, section * size + size - 1)
  {
    head := ProcessBlocks(world, section * size, lastHead, views);
    if !commitOk {
      head := None;
    }
  }

  // ---------------------------------------------------------------- the indexer

  function Least(a: nat, b: nat): nat {
    if a < b then a else b
  }

  function Most(a: nat, b: nat): nat {
    if a < b then b else a
  }

  /** The head of section `i`, or the zero hash. */
  function HeadIn(heads: map<nat, Hash>, i: nat): Hash {
    if i in heads then heads[i] else 0
  }

  /** Of the sections with the heads `heads`, exactly the first `n` are left: beyond the checkpoint those with a
      canonical head, and up to the checkpoint all. */
  ghost predicate Kept(size: nat, checkpoint: nat, heads: map<nat, Hash>, stored: nat, canon: Index, n: nat)
    requires size > 0
  {
    && n <= stored && (stored <= checkpoint ==> n == stored) && (stored >= checkpoint ==> n >= checkpoint)
    && forall i: nat :: checkpoint <= i < stored ==> (i < n <==> HeadIn(heads, i) == LastBlock(canon, size, i))
  }

  /** Every stored head up to the checkpoint is on the chain `canon`, and if `all` is set every stored head is. */
  ghost predicate OnChain(size: nat, checkpoint: nat, heads: map<nat, Hash>, canon: Index, all: bool)
    requires size > 0
  {
    forall i :: i in heads && (all || i < checkpoint) ==> heads[i] == LastBlock(canon, size, i)
  }

  /** The sections before `n` have the heads they had. */
  ghost predicate SameBelow(n: nat, heads: map<nat, Hash>, heads': map<nat, Hash>) {
    forall i: nat :: i < n ==> HeadIn(heads', i) == HeadIn(heads, i)
  }

  /** The head a round builds on is canonical, and if all heads were, no section was dropped. */
  lemma OldHeadOnChain(world: Headers, size: nat, checkpoint: nat, stored: nat, known: nat, heads: map<nat, Hash>,
                       canon: Index, all: bool, section: nat, oldHead: Hash)
    requires size > 0 && HeadsOk(world, size, checkpoint, stored, heads) && stored < known
    requires Kept(size, checkpoint, heads, stored, canon, section) && OnChain(size, checkpoint, heads, canon, all)
    requires oldHead == (if section == 0 then 0 else HeadIn(heads, section - 1)) && (section > 0 ==> oldHead != 0)
    ensures oldHead == if section == 0 then 0 else LastBlock(canon, size, section - 1)
    ensures section <= stored && (all ==> section == stored)
  {
    hide LastBlock, LeadsBack;
    if all && stored > 0 {
      assert stored - 1 in heads;
    }
  }

  lemma SectionEnds(size: nat, canon: Index, section: nat, known: nat)
    requires size > 0 && section < known
    ensures (section + 1) * size <= known * size
    ensures LastBlock(canon, size, section) == Read(canon, section * size + size - 1)
  {
    assert (section + 1) * size == section * size + size && (section + 1) * size <= known * size;
  }

  /** With the new section on it, every stored head is canonical. */
  lemma NowOnChain(world: Headers, size: nat, checkpoint: nat, stored: nat, heads: map<nat, Hash>, canon: Index,
                   all: bool, section: nat, heads': map<nat, Hash>)
    requires size > 0 && HeadsOk(world, size, checkpoint, section + 1, heads')
    requires Kept(size, checkpoint, heads, stored, canon, section) && OnChain(size, checkpoint, heads, canon, all)
    requires HeadIn(heads', section) == LastBlock(canon, size, section)
    requires SameBelow(section, heads, heads')
    ensures OnChain(size, checkpoint, heads', canon, true)
  {
    hide LastBlock;
    forall i | i in heads' ensures heads'[i] == LastBlock(canon, size, i) {
      if i < section {
        assert HeadIn(heads', i) == HeadIn(heads, i) != 0;
      }
    }
  }

  /** Removes the heads of the sections from `n` up to `stored`. */
  method RemoveHeads(heads0: map<nat, Hash>, stored: nat, n: nat) returns (heads: map<nat, Hash>)
    requires forall i :: i in heads0 ==> i < stored
    ensures forall i :: i in heads <==> i in heads0 && i < n
    ensures forall i :: i in heads ==> heads[i] == heads0[i]
  {
    heads := heads0;
    var s := stored;
    while s > n
      invariant s <= stored && (s >= n || s == stored)
      invariant forall i :: i in heads <==> i in heads0 && i < s
      invariant forall i :: i in heads ==> heads[i] == heads0[i]
    {
      s := s - 1;
      heads := heads - {s};
    }
  }

  /** What others do to the indexer: report a reorganisation or a new head, set a checkpoint, or ask for the
      sections. */
  datatype Event =
    | Reorg(block: nat) | Head(block: nat, canon: Index) | Checkpoint(section: nat, hash: Hash) | Query(canon: Index)

  /** The chain is linked from number `from` up whenever it is asked, and no checkpoint is the zero hash. */
  ghost predicate EventOk(world: Headers, from: nat, e: Event) {
    (e.Checkpoint? ==> e.hash != 0) && (e.Query? ==> LinkedFrom(e.canon, world, from))
  }

  /** What a round of the update loop meets: the chain when it starts and ends, what others do before and after the
      backend is reset, whether it resets and commits, and what is read of each block. */
  datatype Work = Work(start: Index, early: seq<Event>, resetOk: bool, late: seq<Event>, views: seq<View>,
                       commitOk: bool, end: Index)

  ghost predicate EventsOk(world: Headers, from: nat, events: seq<Event>) {
    forall i :: 0 <= i < |events| ==> EventOk(world, from, events[i])
  }

  ghost predicate WorkOk(world: Headers, size: nat, from: nat, w: Work) {
    && LinkedFrom(w.start, world, from) && LinkedFrom(w.end, world, from) && |w.views| == size
    && EventsOk(world, from, w.early) && EventsOk(world, from, w.late)
  }

  /** The blocks of section `section` were all read, each as the child of the one before, from `oldHead` on. */
  ghost predicate Worked(world: Headers, size: nat, w: Work, section: nat, oldHead: Hash) {
    w.resetOk && w.commitOk && |w.views| == size
    && forall k: nat :: k < size ==> ReadsAt(world, w.views, section * size, oldHead, k)
  }

  /** A round on the chain `canon` in which nobody interferes and nothing fails. */
  ghost predicate Smooth(size: nat, canon: Index, w: Work) {
    && w.start == canon && w.early == w.late == [] && w.resetOk && w.commitOk && |w.views| == size
    && forall k :: 0 <= k < size ==>
         w.views[k].canon == canon && w.views[k].processOk && canon.Values <= w.views[k].available
  }

  /** The chain below number `top` is complete: every block is the child of the one before. */
  ghost predicate Complete(world: Headers, canon: Index, top: nat) {
    forall n: nat :: n < top ==> CompleteAt(world, canon, n)
  }

  ghost predicate CompleteAt(world: Headers, canon: Index, n: nat) {
    && n in canon && canon[n] != 0 && canon[n] in world && world[canon[n]].number == n
    && world[canon[n]].parent == if n == 0 then 0 else Read(canon, n - 1)
  }

  lemma SmoothIs(size: nat, canon: Index, w: Work)
    requires Smooth(size, canon, w)
    ensures w.start == canon && w.early == w.late == [] && w.resetOk && w.commitOk && |w.views| == size
    ensures size > 0 ==> w.views[size - 1].canon == canon
  {
  }

  /** Such a round works out for the next section, if it builds on a canonical head. */
  lemma SmoothWorked(world: Headers, size: nat, canon: Index, w: Work, section: nat, oldHead: Hash, top: nat)
    requires size > 0 && Smooth(size, canon, w) && Complete(world, canon, top) && (section + 1) * size <= top
    requires oldHead == if section == 0 then 0 else LastBlock(canon, size, section - 1)
    ensures Worked(world, size, w, section, oldHead)
  {
    var start := section * size;
    forall k: nat | k < size ensures ReadsAt(world, w.views, start, oldHead, k) {
      assert (section + 1) * size == start + size;
      assert CompleteAt(world, canon, start + k);
      assert canon[start + k] in canon.Values;
      assert k == 0 && section > 0 ==> start - 1 == (section - 1 + 1) * size - 1;
    }
  }

  lemma LinkedAbove(canon: Index, world: Headers, from: nat, from': nat)
    requires LinkedFrom(canon, world, from) && from <= from'
    ensures LinkedFrom(canon, world, from')
  {
  }

  /**
   The state of the indexer. `world` holds every header that ever exists: a hash names the same header for ever,
   even after a reorganisation has removed it from the chain. Each method is one step, all but `ResetFailed` under the
   indexer's lock; `Round` is one round of the update loop, with the steps of others while it holds no lock.
   */
  class ChainIndexer {
    const world: Headers
    const size: nat
    const confirms: nat
    var stored: nat
    var known: nat
    var checkpoint: nat
    var checkpointHead: Hash
    var heads: map<nat, Hash>

    ghost predicate Valid()
      reads this
    {
      size > 0 && HeadsOk(world, size, checkpoint, stored, heads)
    }

    constructor (world: Headers, size: nat, confirms: nat)
      requires size > 0
      ensures Valid() && stored == 0 && known == 0 && checkpoint == 0 && heads == map[]
    {
      this.world, this.size, this.confirms := world, size, confirms;
      stored, known, checkpoint, checkpointHead, heads := 0, 0, 0, 0, map[];
    }

    function SectionHead(i: nat): Hash
      reads this
    {
      HeadIn(heads, i)
    }

    method SetValidSections(n: nat)
      requires forall i :: i in heads ==> i < stored
      modifies this`stored, this`heads
      ensures stored == n && (forall i :: i in heads <==> i in old(heads) && i < n)
      ensures forall i :: i in heads ==> heads[i] == old(heads)[i]
    {
      heads := RemoveHeads(heads, stored, n);
      stored := n;
    }

    method AddCheckpoint(section: nat, head: Hash)
      requires Valid() && head != 0
      modifies this`stored, this`heads, this`checkpoint, this`checkpointHead
      ensures Valid()
      ensures section + 1 <= old(checkpoint) || section < old(stored) ==>
                && stored == old(stored) && heads == old(heads)
                && checkpoint == old(checkpoint) && checkpointHead == old(checkpointHead)
      ensures section >= old(checkpoint) && section >= old(stored) ==>
                stored == checkpoint == section + 1 && checkpointHead == head && SectionHead(section) == head
      ensures checkpoint >= old(checkpoint)
    {
      if checkpoint >= section + 1 || section < stored {
        return;
      }
      checkpoint, checkpointHead := section + 1, head;
      heads := heads[section := head];
      stored := section + 1;
    }

    /** A reorganisation back to block `head`. */
    method Reorged(head: nat)
      requires Valid()
      modifies this`stored, this`known, this`heads
      ensures Valid() && Restricted(old(heads), stored, heads)
      ensures stored == Least(old(stored), Most(checkpoint, (head + 1) / size))
      ensures known == Least(old(known), if (head + 1) / size < checkpoint then 0 else (head + 1) / size)
    {
      hide HeadsOk;
      BelowStored(world, size, checkpoint, stored, heads);
      WhollyRestricted(world, size, checkpoint, stored, heads);
      var k := (head + 1) / size;
      var s := if k < checkpoint then checkpoint else k;
      if k < checkpoint {
        k := 0;
      }
      if k < known {
        known := k;
      }
      if s < stored {
        ghost var before := stored;
        SetValidSections(s);
        DropSections(world, size, checkpoint, before, old(heads), s, heads);
      }
    }

    /** A new head block `head` on the chain `canon`. */
    method NewHead(head: nat, canon: Index)
      requires Valid()
      modifies this`known
      ensures Valid()
      ensures var complete := if head < confirms then 0 else (head + 1 - confirms) / size;
              known == if complete > old(known) && complete >= checkpoint
                          && (old(known) < checkpoint ==> LastBlock(canon, size, checkpoint - 1) == checkpointHead)
                       then complete else old(known)
    {
      if head >= confirms {
        var sections := (head + 1 - confirms) / size;
        if sections < checkpoint {
          sections := 0;
        }
        if sections > known {
          if known < checkpoint && Read(canon, checkpoint * size - 1) != checkpointHead {
            return;
          }
          known := sections;
        }
      }
    }

    /**
     Drops sections from the top until the newest head is canonical or only the checkpoint is left. Although
     no other head is compared, every section beyond the checkpoint is then kept exactly if its head is canonical.
     */
    method VerifyLastHead(canon: Index)
      requires Valid() && LinkedFrom(canon, world, (checkpoint + 1) * size - 1)
      modifies this`stored, this`heads
      ensures Valid() && Restricted(old(heads), stored, heads)
      ensures Kept(size, checkpoint, old(heads), old(stored), canon, stored)
    {
      hide HeadsOk, LinkedFrom, LastBlock;
      WhollyRestricted(world, size, checkpoint, stored, heads);
      while stored > 0 && stored > checkpoint
        invariant Valid() && stored <= old(stored) && (stored == old(stored) || stored >= checkpoint)
        invariant Restricted(old(heads), stored, heads)
        invariant forall i: nat :: checkpoint <= i && stored <= i < old(stored) ==>
                  old(SectionHead(i)) != LastBlock(canon, size, i)
        decreases stored
      {
        InHeads(world, size, checkpoint, stored, heads, stored - 1);
        if SectionHead(stored - 1) == LastBlock(canon, size, stored - 1) {
          forall i: nat | checkpoint <= i < stored ensures old(SectionHead(i)) == LastBlock(canon, size, i) {
            InHeads(world, size, checkpoint, stored, heads, i);
            AllCanonical(world, size, checkpoint, stored, heads, canon, stored - 1, i);
          }
          return;
        }
        ghost var before, was := stored, heads;
        BelowStored(world, size, checkpoint, stored, heads);
        SetValidSections(stored - 1);
        DropSections(world, size, checkpoint, before, was, stored, heads);
      }
    }

    /** The update loop takes the next section and the head it builds on, before it lets go of the lock. */
    method Begin(canon: Index) returns (section: nat, oldHead: Hash)
      requires Valid() && LinkedFrom(canon, world, (checkpoint + 1) * size - 1)
      modifies this`stored, this`heads
      ensures Valid() && section == stored && (section > 0 ==> oldHead == SectionHead(section - 1) != 0)
      ensures section == 0 ==> oldHead == 0
      ensures Kept(size, checkpoint, old(heads), old(stored), canon, section) && Restricted(old(heads), section, heads)
    {
      VerifyLastHead(canon);
      section := stored;
      oldHead := if section > 0 then SectionHead(section - 1) else 0;
    }

    /** The backend refused to start: all sections are dropped. */
    method ResetFailed()
      requires Valid()
      modifies this`stored, this`heads
      ensures Valid() && stored == 0 && heads == map[]
    {
      ghost var before := stored;
      SetValidSections(0);
      DropSections(world, size, checkpoint, before, old(heads), 0, heads);
    }

    /**
     Back under the lock: the processed section is stored if the head it builds on is still there, else
     the stored sections are checked again. Anything may have happened to the indexer in between.
     */
    method Commit(section: nat, oldHead: Hash, result: Option<Hash>, canon: Index) returns (done: bool)
      requires Valid() && LinkedFrom(canon, world, (checkpoint + 1) * size - 1)
      requires section > 0 ==> oldHead != 0
      requires result.Some? ==> result.value != 0 && Steps(world, result.value, size) == oldHead
      modifies this`stored, this`heads, this`known
      ensures Valid()
      ensures done <==> result.Some? && (section == 0 || oldHead == old(SectionHead(section - 1)))
      ensures done ==> stored == section + 1 && SectionHead(section) == result.value && known == old(known)
      ensures done ==> SameBelow(section, old(heads), heads)
      ensures !done ==> known == stored <= old(stored) && Restricted(old(heads), stored, heads)
      ensures !done ==> Kept(size, checkpoint, old(heads), old(stored), canon, stored)
    {
      done := result.Some? && (section == 0 || oldHead == SectionHead(section - 1));
      if done {
        ghost var before, was := stored, heads;
        StoreAndDrop(section, result.value);
        StoreSection(world, size, checkpoint, before, was, section, result.value, heads);
      } else {
        VerifyLastHead(canon);
        known := stored;
      }
    }

    /** The first number from which the chain is compared with the heads. */
    function Lowest(): nat
      requires size > 0
      reads this`checkpoint
    {
      (checkpoint + 1) * size - 1
    }

    ghost predicate Same(stored0: nat, known0: nat, checkpoint0: nat, heads0: map<nat, Hash>)
      reads this
    {
      stored == stored0 && known == known0 && checkpoint == checkpoint0 && heads == heads0
    }

    /** Steps of others, in any order. */
    method Happen(events: seq<Event>, ghost from: nat)
      requires Valid() && from <= Lowest() && EventsOk(world, from, events)
      modifies this
      ensures Valid() && checkpoint >= old(checkpoint)
      ensures events == [] ==> Same(old(stored), old(known), old(checkpoint), old(heads))
    {
      hide HeadsOk, LinkedFrom, LastBlock;
      for i := 0 to |events|
        invariant Valid() && checkpoint >= old(checkpoint)
        invariant i == 0 ==> Same(old(stored), old(known), old(checkpoint), old(heads))
      {
        assert EventOk(world, from, events[i]);
        match events[i]
        case Reorg(block) => Reorged(block);
        case Head(block, canon) => NewHead(block, canon);
        case Checkpoint(section, hash) => AddCheckpoint(section, hash);
        case Query(canon) =>
          LowestGrows(from);
          LinkedAbove(canon, world, from, Lowest());
          VerifyLastHead(canon);
      }
    }

    twostate lemma LowestGrows(from: nat)
      requires size > 0 && checkpoint >= old(checkpoint) && from <= old(Lowest())
      ensures from <= Lowest()
    {
      assert (old(checkpoint) + 1) * size <= (checkpoint + 1) * size;
    }

    /**
     One round of the update loop: takes the next section, lets go of the lock while it processes it and others do
     what they like, and stores it if the head it builds on is still there. Whatever happens, the heads stay linked.
     The next section is the first one after those that are canonical in the chain as the round starts.
     */
    method Round(w: Work, ghost from: nat)
      returns (done: bool, ghost section: nat, ghost oldHead: Hash, ghost base: Hash)
      requires Valid() && from <= Lowest() && WorkOk(world, size, from, w)
      modifies this
      ensures Valid() && checkpoint >= old(checkpoint)
      ensures old(known <= stored) ==> !done && Same(old(stored), old(known), old(checkpoint), old(heads))
      ensures old(known > stored) ==> Kept(size, old(checkpoint), old(heads), old(stored), w.start, section)
      ensures old(known > stored) ==> oldHead == if section == 0 then 0 else old(HeadIn(heads, section - 1))
      ensures section > 0 ==> oldHead != 0
      ensures done <==>
                old(known > stored) && Worked(world, size, w, section, oldHead) && (section == 0 || base == oldHead)
      ensures done ==> stored == section + 1 && (section > 0 ==> SectionHead(section - 1) == oldHead)
      ensures done ==> Steps(world, SectionHead(section), size) == oldHead && SectionHead(section) != 0
      ensures done ==> SectionHead(section) == Read(w.views[size - 1].canon, section * size + size - 1)
      ensures w.early == w.late == [] && w.resetOk ==>
                && (section > 0 ==> base == oldHead) && checkpoint == old(checkpoint)
                && (done ==> known == old(known) && SameBelow(section, old(heads), heads))
      ensures !done && old(known > stored) ==>
                && known == stored
                && forall i: nat :: checkpoint <= i < stored ==> SectionHead(i) == LastBlock(w.end, size, i)
    {
      hide HeadsOk, LinkedFrom, LastBlock, Steps, ReadsAt, EventsOk, Read;
      done, section, oldHead, base := false, 0, 0, 0;
      if known <= stored {
        return;
      }
      LinkedAbove(w.start, world, from, Lowest());
      var next, head := Begin(w.start);
      section, oldHead := next, head;
      Happen(w.early, from);
      LowestGrows(from);
      var result := None;
      if w.resetOk {
        result := ProcessSection(world, size, next, head, w.views, w.commitOk);
      } else {
        ResetFailed();
      }
      Happen(w.late, from);
      LowestGrows(from);
      LinkedAbove(w.end, world, from, Lowest());
      base := if section > 0 then SectionHead(section - 1) else 0;
      done := Commit(next, head, result, w.end);
    }

    /** Nobody interferes, nothing fails, and the chain is complete up to the known sections, with the checkpoint. */
    ghost predicate Undisturbed(works: seq<(seq<Event>, Work)>, canon: Index)
      requires size > 0
      reads this
    {
      && (forall i :: 0 <= i < |works| ==> works[i].0 == [] && Smooth(size, canon, works[i].1))
      && Complete(world, canon, known * size) && stored <= known && OnChain(size, checkpoint, heads, canon, false)
    }

    /** The chain is complete up to the known sections, of which some are not stored, and the heads are on it. */
    ghost predicate Behind(canon: Index, all: bool)
      requires size > 0
      reads this
    {
      Complete(world, canon, known * size) && stored < known && OnChain(size, checkpoint, heads, canon, all)
    }

    /** A round in which nobody interferes and nothing fails stores one more section than are canonical. */
    method RoundOn(w: Work, ghost from: nat, ghost canon: Index, ghost all: bool)
      requires Valid() && from <= Lowest() && WorkOk(world, size, from, w)
      modifies this
      ensures Valid() && checkpoint >= old(checkpoint)
      ensures old(known <= stored) ==> Same(old(stored), old(known), old(checkpoint), old(heads))
      ensures Smooth(size, canon, w) && old(Behind(canon, all)) ==>
                && checkpoint == old(checkpoint) && 1 <= stored <= known == old(known)
                && OnChain(size, checkpoint, heads, canon, true)
                && (all ==> stored == old(stored) + 1)
    {
      hide Steps, Complete, LinkedFrom, HeadsOk, LastBlock, Kept, Worked, Smooth, WorkOk, OnChain, Read, HeadIn;
      hide SameBelow;
      ghost var smooth := Smooth(size, canon, w) && Behind(canon, all);
      var done;
      ghost var section, oldHead, base;
      done, section, oldHead, base := Round(w, from);
      if smooth {
        SmoothIs(size, canon, w);
        OldHeadOnChain(world, size, old(checkpoint), old(stored), old(known), old(heads), canon, all, section, oldHead);
        SectionEnds(size, canon, section, old(known));
        SmoothWorked(world, size, canon, w, section, oldHead, old(known) * size);
        NowOnChain(world, size, checkpoint, old(stored), old(heads), canon, all, section, heads);
      }
    }

    /**
     Any number of rounds, with steps of others in between and during them, keeps the heads linked. If nobody
     interferes, nothing fails and the chain is complete up to the known sections, as many rounds as there are known
     sections are enough to store them all.
     */
    method Rounds(works: seq<(seq<Event>, Work)>, ghost from: nat, ghost canon: Index)
      requires Valid() && from <= Lowest()
      requires forall i :: 0 <= i < |works| ==>
                EventsOk(world, from, works[i].0) && WorkOk(world, size, from, works[i].1)
      modifies this
      ensures Valid() && checkpoint >= old(checkpoint)
      ensures old(Undisturbed(works, canon)) ==>
                known == old(known) && stored <= known && (stored == known || |works| <= stored)
    {
      hide HeadsOk, EventsOk, WorkOk, Complete, Smooth, LastBlock, OnChain;
      for i := 0 to |works|
        invariant Valid() && checkpoint >= old(checkpoint)
        invariant old(Undisturbed(works, canon)) ==>
                    && stored <= known == old(known) && Complete(world, canon, known * size)
                    && (stored == known || (i <= stored && OnChain(size, checkpoint, heads, canon, i > 0)))
      {
        LowestGrows(from);
        Happen(works[i].0, from);
        LowestGrows(from);
        RoundOn(works[i].1, from, canon, i > 0);
      }
    }

    method StoreAndDrop(section: nat, head: Hash)
      requires (forall i :: i in heads ==> i < stored) && section <= stored
      modifies this`stored, this`heads
      ensures stored == section + 1
      ensures forall i :: i in heads <==> i == section || (i in old(heads) && i < section)
      ensures forall i :: i in heads ==> heads[i] == if i == section then head else old(heads)[i]
    {
      heads := heads[section := head];
      if stored < section + 1 {
        stored := section + 1;
      }
      SetValidSections(section + 1);
    }
  }

  /** `heads` is what `heads0` says below `n`. */
  ghost predicate Restricted(heads0: map<nat, Hash>, n: nat, heads: map<nat, Hash>) {
    (forall i :: i in heads <==> i in heads0 && i < n) && (forall i :: i in heads ==> heads[i] == heads0[i])
  }

  lemma WhollyRestricted(world: Headers, size: nat, checkpoint: nat, stored: nat, heads: map<nat, Hash>)
    requires HeadsOk(world, size, checkpoint, stored, heads)
    ensures Restricted(heads, stored, heads)
  {
  }

  lemma InHeads(world: Headers, size: nat, checkpoint: nat, stored: nat, heads: map<nat, Hash>, i: nat)
    requires HeadsOk(world, size, checkpoint, stored, heads) && checkpoint <= i < stored
    ensures i in heads
  {
  }

  lemma BelowStored(world: Headers, size: nat, checkpoint: nat, stored: nat, heads: map<nat, Hash>)
    requires HeadsOk(world, size, checkpoint, stored, heads)
    ensures forall i :: i in heads ==> i < stored
  {
  }
}

/**
 Rewinding the chain: `SetHead` walks the head header back to a target number, takes the head block
 and the head fast block along, and deletes everything above.
 */
module Rewinding {
  import opened Transactions
  import opened ChainIndex

  /** The blocks whose body is stored: `GetBlock` finds a block only with its header and body. */
  ghost predicate Bodied(hs: Headers, bodies: set<Hash>, genesis: Hash) {
    bodies <= hs.Keys && genesis in bodies
  }

  /** The block is stored, on the path of `header`, and has state unless it is the genesis. */
  ghost predicate Settled(hs: Headers, genesis: Hash, bodies: set<Hash>, stateful: set<Hash>, header: Hash, block: Hash)
  {
    && Rooted(hs, genesis) && header in hs && block in hs && block in bodies && hs[block].number <= hs[header].number
    && (block in stateful || block == genesis) && block == PathAt(hs, genesis, header, hs[block].number)
  }

  /** The path of `from` reaches a block with state at `n`: no block above it has state, all bodies down to it are
      stored, and it is not below the pivot. */
  ghost predicate ReachesState(hs: Headers, bodies: set<Hash>, stateful: set<Hash>, genesis: Hash, pivot: Option<nat>,
                               from: Hash, n: nat)
  {
    && Rooted(hs, genesis) && from in hs && n <= hs[from].number && PathAt(hs, genesis, from, n) in stateful
    && forall k :: n < k <= hs[from].number ==> Skipped(hs, bodies, stateful, genesis, pivot, from, k)
  }

  /** The rewind passes the block at number `k` and finds its parent. */
  ghost predicate Skipped(hs: Headers, bodies: set<Hash>, stateful: set<Hash>, genesis: Hash, pivot: Option<nat>,
                          from: Hash, k: nat)
    requires Rooted(hs, genesis) && from in hs && k > 0
  {
    && PathAt(hs, genesis, from, k) !in stateful && (pivot.Some? ==> k > pivot.value)
    && PathAt(hs, genesis, from, k - 1) in bodies
  }

  /** Where the head block lands when the head header is `h`: at `h` if its block has state, else where it lands from
      the parent; a missing body or a passed pivot leads to the genesis. */
  ghost function Landing(hs: Headers, bodies: set<Hash>, stateful: set<Hash>, genesis: Hash, pivot: Option<nat>,
                         h: Hash): (b: Hash)
    requires Rooted(hs, genesis) && h in hs
    ensures b in hs && hs[b].number <= hs[h].number
    decreases hs[h].number
  {
    if h !in bodies then genesis
    else if h in stateful then h
    else if hs[h].number == 0 || (pivot.Some? && hs[h].number <= pivot.value) then genesis
    else
      assert HasParent(hs, h);
      Landing(hs, bodies, stateful, genesis, pivot, hs[h].parent)
  }

  lemma LandingStep(hs: Headers, bodies: set<Hash>, stateful: set<Hash>, genesis: Hash, pivot: Option<nat>, h: Hash)
    requires Rooted(hs, genesis) && h in hs
    ensures var b := Landing(hs, bodies, stateful, genesis, pivot, h);
            && (h !in bodies ==> b == genesis)
            && (h in bodies && h in stateful ==> b == h)
            && (h in bodies && h !in stateful ==>
                  if hs[h].number == 0 || (pivot.Some? && hs[h].number <= pivot.value) then b == genesis
                  else HasParent(hs, h) && b == Landing(hs, bodies, stateful, genesis, pivot, hs[h].parent))
  {
    assert h != genesis ==> HasParent(hs, h);
  }

  /** Walks back from a block to the first one with state; a missing body or a passed pivot leads to the genesis. */
  method Rewind(hs: Headers, bodies: set<Hash>, stateful: set<Hash>, genesis: Hash, pivot: Option<nat>, from: Hash)
    returns (b: Hash)
    requires Rooted(hs, genesis) && Bodied(hs, bodies, genesis) && from in bodies
    ensures Settled(hs, genesis, bodies, stateful, from, b)
    ensures forall n :: ReachesState(hs, bodies, stateful, genesis, pivot, from, n) ==>
              b == PathAt(hs, genesis, from, n)
    ensures (forall n :: !ReachesState(hs, bodies, stateful, genesis, pivot, from, n)) ==> b == genesis
    ensures b == Landing(hs, bodies, stateful, genesis, pivot, from)
  {
    hide Rooted, PathAt, ReachesState, Landing;
    Itself(hs, genesis, from);
    b := from;
    while b !in stateful
      invariant b in bodies && hs[b].number <= hs[from].number && b == PathAt(hs, genesis, from, hs[b].number)
      invariant forall k :: hs[b].number < k <= hs[from].number ==>
                Skipped(hs, bodies, stateful, genesis, pivot, from, k)
      invariant Landing(hs, bodies, stateful, genesis, pivot, b) == Landing(hs, bodies, stateful, genesis, pivot, from)
      decreases hs[b].number
    {
      LandingStep(hs, bodies, stateful, genesis, pivot, b);
      StopsAt(hs, bodies, stateful, genesis, pivot, from, hs[b].number);
      if pivot.Some? && hs[b].number <= pivot.value {
        return genesis;
      }
      if hs[b].number == 0 {
        return genesis;
      }
      StepBack(hs, genesis, from, hs[b].number);
      if hs[b].parent !in bodies {
        LandingStep(hs, bodies, stateful, genesis, pivot, hs[b].parent);
        return genesis;
      }
      b := hs[b].parent;
    }
    LandingStep(hs, bodies, stateful, genesis, pivot, b);
    StateAt(hs, bodies, stateful, genesis, pivot, from, hs[b].number);
  }

  /** A rewind that cannot pass number `k` reaches no state. */
  lemma StopsAt(hs: Headers, bodies: set<Hash>, stateful: set<Hash>, genesis: Hash, pivot: Option<nat>, from: Hash,
                k: nat)
    requires Rooted(hs, genesis) && from in hs && k <= hs[from].number && PathAt(hs, genesis, from, k) !in stateful
    requires forall j :: k < j <= hs[from].number ==> Skipped(hs, bodies, stateful, genesis, pivot, from, j)
    ensures k == 0 || !Skipped(hs, bodies, stateful, genesis, pivot, from, k) ==>
              forall n :: !ReachesState(hs, bodies, stateful, genesis, pivot, from, n)
  {
    hide Rooted, PathAt;
    assert forall j: nat :: j > 0 && Skipped(hs, bodies, stateful, genesis, pivot, from, j) ==>
              PathAt(hs, genesis, from, j) !in stateful;
  }

  /** A rewind that gets down to a block with state stops there. */
  lemma StateAt(hs: Headers, bodies: set<Hash>, stateful: set<Hash>, genesis: Hash, pivot: Option<nat>, from: Hash,
                k: nat)
    requires Rooted(hs, genesis) && from in hs && k <= hs[from].number && PathAt(hs, genesis, from, k) in stateful
    requires forall j :: k < j <= hs[from].number ==> Skipped(hs, bodies, stateful, genesis, pivot, from, j)
    ensures ReachesState(hs, bodies, stateful, genesis, pivot, from, k)
    ensures forall n :: ReachesState(hs, bodies, stateful, genesis, pivot, from, n) ==> n == k
  {
    hide Rooted, PathAt;
    assert forall j: nat :: j > 0 && Skipped(hs, bodies, stateful, genesis, pivot, from, j) ==>
              PathAt(hs, genesis, from, j) !in stateful;
  }

  function HashesAt(hs: Headers, n: nat): set<Hash> {
    set h | h in hs && hs[h].number == n
  }

  function HashesAbove(hs: Headers, n: nat): set<Hash> {
    set h | h in hs && hs[h].number > n
  }

  /** Collects the headers at the numbers above `n` until the first number without any; these are all headers above
      `n`. */
  method LeftoverAbove(hs: Headers, ghost genesis: Hash, n: nat) returns (dead: set<Hash>, end: nat)
    requires Rooted(hs, genesis)
    ensures dead == HashesAbove(hs, n) && n < end && HashesAbove(hs, end - 1) == {}
  {
    hide Rooted;
    dead, end := {}, n + 1;
    while HashesAt(hs, end) != {}
      invariant n < end && dead == set h | h in hs && n < hs[h].number < end
      decreases HashesAbove(hs, end - 1)
    {
      dead := dead + HashesAt(hs, end);
      var h :| h in HashesAt(hs, end);
      assert h in HashesAbove(hs, end - 1) && h !in HashesAbove(hs, end);
      end := end + 1;
    }
    if HashesAbove(hs, end - 1) != {} {
      var h :| h in HashesAbove(hs, end - 1);
      NoGap(hs, genesis, h, end);
    }
    forall h | h in HashesAbove(hs, n) ensures h in dead {
      assert h !in HashesAbove(hs, end - 1);
    }
  }

  /** Below any header there is a header at every number. */
  lemma NoGap(hs: Headers, genesis: Hash, h: Hash, n: nat)
    requires Rooted(hs, genesis) && h in hs && n <= hs[h].number
    ensures HashesAt(hs, n) != {}
  {
    assert Ancestor(hs, genesis, h, n) in HashesAt(hs, n);
  }

  // ---------------------------------------------------------------- the heads

  /** Every entry of the index names a stored header at its number. */
  ghost predicate Sound(canon: Index, hs: Headers) {
    forall n :: n in canon ==> canon[n] in hs && hs[canon[n]].number == n
  }

  /** The head block after the header head has moved down to `header`: unchanged and below it, or settled on its
      path. */
  ghost predicate BlockFollows(hs: Headers, genesis: Hash, bodies: set<Hash>, stateful: set<Hash>, header: Hash,
                               block0: Hash, block: Hash)
  {
    && Rooted(hs, genesis) && header in hs && block in hs && block in bodies
    && (|| (block == block0 && hs[block].number < hs[header].number)
        || Settled(hs, genesis, bodies, stateful, header, block))
  }

  lemma FollowsDown(hs: Headers, genesis: Hash, bodies: set<Hash>, stateful: set<Hash>, header: Hash, block0: Hash,
                    block: Hash)
    requires BlockFollows(hs, genesis, bodies, stateful, header, block0, block) && hs[header].number > 0
    ensures HasParent(hs, header)
    ensures hs[block].number < hs[header].number - 1 ==>
              BlockFollows(hs, genesis, bodies, stateful, hs[header].parent, block0, block)
  {
    AncestorStep(hs, genesis, header, hs[header].number - 1);
    if hs[block].number < hs[header].number - 1 {
      AncestorStep(hs, genesis, header, hs[block].number);
    }
  }

  /** The rewind gets past the block at number `k` of the path of `header0`: its body is stored, and it has state or the
      pivot is not reached. */
  ghost predicate Passes(hs: Headers, genesis: Hash, bodies: set<Hash>, stateful: set<Hash>, pivot: Option<nat>,
                         header0: Hash, k: nat)
    requires Rooted(hs, genesis) && header0 in hs
  {
    var b := PathAt(hs, genesis, header0, k);
    b in bodies && (b in stateful || pivot.None? || k > pivot.value)
  }

  /** The first number at which the head block is moved. */
  function FirstMove(hs: Headers, header0: Hash, block0: Hash): int
    requires header0 in hs && block0 in hs
  {
    if hs[block0].number < hs[header0].number then hs[block0].number else hs[header0].number - 1
  }

  /** The rewind gets past every block between `low` and the first one to which the head block is moved. */
  ghost predicate Clear(hs: Headers, genesis: Hash, bodies: set<Hash>, stateful: set<Hash>, pivot: Option<nat>,
                        header0: Hash, block0: Hash, low: nat)
    requires Rooted(hs, genesis) && header0 in hs && block0 in hs
  {
    forall k: nat :: low < k <= FirstMove(hs, header0, block0) ==>
      Passes(hs, genesis, bodies, stateful, pivot, header0, k)
  }

  /** Where the head block is once the header head is at `header`, at or below it: where it lands from there, unless the
      rewind was stopped above; then it is the genesis. */
  ghost predicate Lands(hs: Headers, genesis: Hash, bodies: set<Hash>, stateful: set<Hash>, pivot: Option<nat>,
                        header0: Hash, block0: Hash, header: Hash, block: Hash)
  {
    && Rooted(hs, genesis) && header0 in hs && block0 in hs && header in hs
    && block == if Clear(hs, genesis, bodies, stateful, pivot, header0, block0, hs[header].number)
                then Landing(hs, bodies, stateful, genesis, pivot, header) else genesis
  }

  lemma ClearOne(hs: Headers, genesis: Hash, bodies: set<Hash>, stateful: set<Hash>, pivot: Option<nat>,
                 header0: Hash, block0: Hash, low: nat)
    requires Rooted(hs, genesis) && header0 in hs && block0 in hs && 0 < low <= FirstMove(hs, header0, block0)
    ensures Clear(hs, genesis, bodies, stateful, pivot, header0, block0, low - 1) <==>
              && Clear(hs, genesis, bodies, stateful, pivot, header0, block0, low)
              && Passes(hs, genesis, bodies, stateful, pivot, header0, low)
  {
    hide Rooted, Passes;
  }

  lemma GenesisLands(hs: Headers, bodies: set<Hash>, stateful: set<Hash>, genesis: Hash, pivot: Option<nat>, h: Hash)
    requires Rooted(hs, genesis) && h in hs && hs[h].number == 0
    ensures h == genesis && Landing(hs, bodies, stateful, genesis, pivot, h) == genesis
  {
    assert h != genesis ==> HasParent(hs, h);
  }

  /** Rewinding step by step comes to the same as one rewind from the last header, unless it was stopped on the way. */
  lemma LandsOne(hs: Headers, genesis: Hash, bodies: set<Hash>, stateful: set<Hash>, pivot: Option<nat>,
                 header0: Hash, block0: Hash, header: Hash, block: Hash, block': Hash)
    requires Lands(hs, genesis, bodies, stateful, pivot, header0, block0, header, block) && hs[header].number > 0
    requires hs[header].number <= FirstMove(hs, header0, block0) && HasParent(hs, header)
    requires header == PathAt(hs, genesis, header0, hs[header].number)
    requires block in hs
    requires block' == if hs[header].number - 1 <= hs[block].number
                       then Landing(hs, bodies, stateful, genesis, pivot, hs[header].parent) else block
    ensures Lands(hs, genesis, bodies, stateful, pivot, header0, block0, hs[header].parent, block')
  {
    hide PathAt, Rooted, Clear, Landing;
    var n, parent := hs[header].number, hs[header].parent;
    ClearOne(hs, genesis, bodies, stateful, pivot, header0, block0, n);
    LandingStep(hs, bodies, stateful, genesis, pivot, header);
    LandingStep(hs, bodies, stateful, genesis, pivot, parent);
    Itself(hs, genesis, header);
    if n == 1 {
      GenesisLands(hs, bodies, stateful, genesis, pivot, parent);
    }
  }

  /** The head block while the header head is at `header`: as it was until the rewind comes down to where it moves. */
  ghost predicate BlockAt(hs: Headers, genesis: Hash, bodies: set<Hash>, stateful: set<Hash>, pivot: Option<nat>,
                          header0: Hash, block0: Hash, header: Hash, block: Hash)
  {
    && header0 in hs && block0 in hs && header in hs
    && if hs[header].number > FirstMove(hs, header0, block0) then block == block0
       else Lands(hs, genesis, bodies, stateful, pivot, header0, block0, header, block)
  }

  lemma BlockStep(hs: Headers, genesis: Hash, bodies: set<Hash>, stateful: set<Hash>, pivot: Option<nat>,
                  header0: Hash, block0: Hash, header: Hash, block: Hash, block': Hash)
    requires Rooted(hs, genesis) && BlockAt(hs, genesis, bodies, stateful, pivot, header0, block0, header, block)
    requires 0 < hs[header].number <= hs[header0].number && HasParent(hs, header) && block in hs
    requires header == PathAt(hs, genesis, header0, hs[header].number)
    requires block' == if hs[header].number - 1 <= hs[block].number
                       then Landing(hs, bodies, stateful, genesis, pivot, hs[header].parent) else block
    ensures BlockAt(hs, genesis, bodies, stateful, pivot, header0, block0, hs[header].parent, block')
  {
    if hs[header].number <= FirstMove(hs, header0, block0) {
      hide Rooted, PathAt, Lands, Landing;
      LandsOne(hs, genesis, bodies, stateful, pivot, header0, block0, header, block, block');
    } else {
      hide Rooted, PathAt, Passes, Landing;
    }
  }

  /** If a rewind from `h` reaches a block with state, that is where it lands. */
  lemma {:induction false} LandingReaches(hs: Headers, bodies: set<Hash>, stateful: set<Hash>, genesis: Hash,
                                          pivot: Option<nat>, h: Hash, n: nat)
    requires h in bodies && ReachesState(hs, bodies, stateful, genesis, pivot, h, n)
    ensures Landing(hs, bodies, stateful, genesis, pivot, h) == PathAt(hs, genesis, h, n)
    decreases hs[h].number
  {
    hide Rooted, Ancestor, Landing;
    LandingStep(hs, bodies, stateful, genesis, pivot, h);
    AncestorStep(hs, genesis, h, n);
    if n < hs[h].number {
      ParentPath(hs, genesis, h, n);
      assert Skipped(hs, bodies, stateful, genesis, pivot, h, hs[h].number);
      ReachesOn(hs, bodies, stateful, genesis, pivot, h, n);
      LandingReaches(hs, bodies, stateful, genesis, pivot, hs[h].parent, n);
    }
  }

  lemma ParentPath(hs: Headers, genesis: Hash, h: Hash, k: nat)
    requires Rooted(hs, genesis) && h in hs && k < hs[h].number
    ensures HasParent(hs, h) && PathAt(hs, genesis, hs[h].parent, k) == PathAt(hs, genesis, h, k)
    ensures PathAt(hs, genesis, h, hs[h].number) == h && PathAt(hs, genesis, h, hs[h].number - 1) == hs[h].parent
  {
    AncestorStep(hs, genesis, h, k);
    AncestorStep(hs, genesis, h, hs[h].number - 1);
    AncestorStep(hs, genesis, hs[h].parent, hs[h].number - 1);
  }

  /** A rewind that passes `h` reaches what the rewind from its parent reaches. */
  lemma ReachesOn(hs: Headers, bodies: set<Hash>, stateful: set<Hash>, genesis: Hash, pivot: Option<nat>, h: Hash,
                  n: nat)
    requires Rooted(hs, genesis) && h in hs && n < hs[h].number
    ensures HasParent(hs, h)
    ensures ReachesState(hs, bodies, stateful, genesis, pivot, h, n) <==>
              && Skipped(hs, bodies, stateful, genesis, pivot, h, hs[h].number)
              && ReachesState(hs, bodies, stateful, genesis, pivot, hs[h].parent, n)
  {
    hide Rooted, PathAt;
    ParentPath(hs, genesis, h, n);
    var parent := hs[h].parent;
    forall k: nat | 0 < k < hs[h].number
      ensures Skipped(hs, bodies, stateful, genesis, pivot, h, k) <==>
              Skipped(hs, bodies, stateful, genesis, pivot, parent, k)
    {
      ParentPath(hs, genesis, h, k);
      ParentPath(hs, genesis, h, k - 1);
    }
  }

  /** If it reaches none, it lands at the genesis. */
  lemma {:induction false} LandingNone(hs: Headers, bodies: set<Hash>, stateful: set<Hash>, genesis: Hash,
                                       pivot: Option<nat>, h: Hash)
    requires Rooted(hs, genesis) && h in hs
    requires h !in bodies || forall n :: !ReachesState(hs, bodies, stateful, genesis, pivot, h, n)
    ensures Landing(hs, bodies, stateful, genesis, pivot, h) == genesis
    decreases hs[h].number
  {
    hide Rooted, Ancestor, Landing;
    LandingStep(hs, bodies, stateful, genesis, pivot, h);
    if h in bodies {
      AncestorStep(hs, genesis, h, hs[h].number);
      assert h in stateful ==> ReachesState(hs, bodies, stateful, genesis, pivot, h, hs[h].number);
      if hs[h].number > 0 && (pivot.Some? ==> hs[h].number > pivot.value) {
        ParentPath(hs, genesis, h, 0);
        var parent := hs[h].parent;
        if parent in bodies {
          forall n: nat ensures !ReachesState(hs, bodies, stateful, genesis, pivot, parent, n) {
            if n < hs[h].number {
              ReachesOn(hs, bodies, stateful, genesis, pivot, h, n);
            }
          }
        }
        LandingNone(hs, bodies, stateful, genesis, pivot, parent);
      }
    }
  }

  /**
   Where a rewind to `header` leaves a head block that was not below it. If a block that it passes on the way has no
   body, or has no state and is not above the pivot, that is the genesis. Otherwise it is the highest block with state
   that the walk from `header` reaches, and the genesis if it reaches none.
   */
  ghost predicate HeadBlockIs(hs: Headers, genesis: Hash, bodies: set<Hash>, stateful: set<Hash>, pivot: Option<nat>,
                              header0: Hash, block0: Hash, header: Hash, block: Hash)
    requires Rooted(hs, genesis) && header0 in hs && block0 in hs && header in hs
  {
    if !Clear(hs, genesis, bodies, stateful, pivot, header0, block0, hs[header].number) || header !in bodies then
      block == genesis
    else
      && (forall n: nat :: ReachesState(hs, bodies, stateful, genesis, pivot, header, n) ==>
            block == PathAt(hs, genesis, header0, n))
      && ((forall n: nat :: !ReachesState(hs, bodies, stateful, genesis, pivot, header, n)) ==> block == genesis)
  }

  lemma LandsMeans(hs: Headers, genesis: Hash, bodies: set<Hash>, stateful: set<Hash>, pivot: Option<nat>,
                   header0: Hash, block0: Hash, header: Hash, block: Hash)
    requires Lands(hs, genesis, bodies, stateful, pivot, header0, block0, header, block)
    requires hs[header].number <= hs[header0].number && header == PathAt(hs, genesis, header0, hs[header].number)
    ensures HeadBlockIs(hs, genesis, bodies, stateful, pivot, header0, block0, header, block)
    ensures block == header <==>
              || hs[header].number == 0
              || (&& Clear(hs, genesis, bodies, stateful, pivot, header0, block0, hs[header].number)
                  && header in bodies && header in stateful)
  {
    hide Rooted, Clear, Landing, Ancestor;
    LandingStep(hs, bodies, stateful, genesis, pivot, header);
    if hs[header].number == 0 {
      GenesisLands(hs, bodies, stateful, genesis, pivot, header);
    }
    Itself(hs, genesis, header);
    hide PathAt;
    if header in bodies {
      forall n: nat | ReachesState(hs, bodies, stateful, genesis, pivot, header, n)
        ensures Landing(hs, bodies, stateful, genesis, pivot, header) == PathAt(hs, genesis, header0, n)
      {
        LandingReaches(hs, bodies, stateful, genesis, pivot, header, n);
        SamePath(hs, genesis, header0, hs[header].number, n);
      }
      if forall n: nat :: !ReachesState(hs, bodies, stateful, genesis, pivot, header, n) {
        LandingNone(hs, bodies, stateful, genesis, pivot, header);
      }
    }
  }

  lemma SamePath(hs: Headers, genesis: Hash, h: Hash, n: nat, m: nat)
    requires Rooted(hs, genesis) && h in hs && m <= n <= hs[h].number
    ensures PathAt(hs, genesis, h, n) in hs
    ensures PathAt(hs, genesis, PathAt(hs, genesis, h, n), m) == PathAt(hs, genesis, h, m)
  {
    AncestorOfAncestor(hs, genesis, h, n, m);
  }

  /** The callback of the header rewind: takes the head block and the head fast block down to `header`. */
  method UpdateHeads(hs: Headers, genesis: Hash, bodies: set<Hash>, stateful: set<Hash>, pivot: Option<nat>,
                     header: Hash, block0: Hash, fast0: Hash)
    returns (block: Hash, fast: Hash)
    requires Rooted(hs, genesis) && Bodied(hs, bodies, genesis) && header in hs && block0 in bodies && fast0 in bodies
    ensures if hs[header].number <= hs[block0].number then Settled(hs, genesis, bodies, stateful, header, block)
            else block == block0
    ensures block == if hs[header].number <= hs[block0].number
                     then Landing(hs, bodies, stateful, genesis, pivot, header) else block0
    ensures fast in bodies && hs[fast].number <= hs[header].number
    ensures fast == if hs[fast0].number <= hs[header].number then fast0
                    else if header in bodies then header else genesis
  {
    hide Rooted, PathAt;
    block, fast := block0, fast0;
    Itself(hs, genesis, header);
    if hs[header].number <= hs[block0].number {
      if header in bodies {
        block := Rewind(hs, bodies, stateful, genesis, pivot, header);
      } else {
        block := genesis;
      }
    }
    if hs[header].number < hs[fast0].number {
      fast := if header in bodies then header else genesis;
    }
  }

  /** The head fast block after the header head has moved from `header0` down to `header`: unchanged if not above it,
      else
      `header` itself if all blocks passed since then have their bodies, and the genesis if one has not. */
  ghost predicate FastFollows(hs: Headers, genesis: Hash, bodies: set<Hash>, header0: Hash, fast0: Hash, header: Hash,
                              fast: Hash)
  {
    && Rooted(hs, genesis) && header0 in hs && header in hs && fast0 in hs
    && fast == if hs[fast0].number <= hs[header].number then fast0
               else if Passable(hs, genesis, bodies, header0, fast0, hs[header].number) then header else genesis
  }

  /** Every block that the fast head passes on its way down to number `n` has its body. */
  ghost predicate Passable(hs: Headers, genesis: Hash, bodies: set<Hash>, header0: Hash, fast0: Hash, n: nat)
    requires Rooted(hs, genesis) && header0 in hs && fast0 in hs
  {
    forall k: nat :: n <= k < hs[fast0].number && k < hs[header0].number ==> PathAt(hs, genesis, header0, k) in bodies
  }

  /** One step of the header head down to its parent, seen by the fast head. */
  lemma FastStep(hs: Headers, genesis: Hash, bodies: set<Hash>, header0: Hash, fast0: Hash, header: Hash, fast: Hash,
                 fast': Hash)
    requires Rooted(hs, genesis) && header0 in hs && fast0 in hs && header in hs && hs[header].number > 0
    requires HasParent(hs, header)
    requires hs[header].number <= hs[header0].number
    requires hs[header].parent == PathAt(hs, genesis, header0, hs[header].number - 1)
    requires FastFollows(hs, genesis, bodies, header0, fast0, header, fast) || (header == header0 && fast == fast0)
    requires fast in hs
    requires fast' == if hs[fast].number < hs[header].number then fast
                      else if hs[header].parent in bodies then hs[header].parent else genesis
    ensures FastFollows(hs, genesis, bodies, header0, fast0, hs[header].parent, fast')
  {
    hide PathAt, Rooted;
    if hs[fast0].number > hs[header].number - 1 {
      PassOne(hs, genesis, bodies, header0, fast0, hs[header].number - 1);
      Itself(hs, genesis, header);
    }
  }

  lemma PassOne(hs: Headers, genesis: Hash, bodies: set<Hash>, header0: Hash, fast0: Hash, n: nat)
    requires Rooted(hs, genesis) && header0 in hs && fast0 in hs && n < hs[fast0].number && n < hs[header0].number
    ensures Passable(hs, genesis, bodies, header0, fast0, n) <==>
              PathAt(hs, genesis, header0, n) in bodies && Passable(hs, genesis, bodies, header0, fast0, n + 1)
  {
    hide PathAt, Rooted;
  }

  /** A restriction to the headers up to number `n` is still rooted. */
  lemma RootedBelow(hs: Headers, genesis: Hash, n: nat)
    requires Rooted(hs, genesis)
    ensures Rooted(hs - HashesAbove(hs, n), genesis)
  {
    var hs' := hs - HashesAbove(hs, n);
    forall h | h in hs' && h != genesis ensures HasParent(hs', h) {
      assert HasParent(hs, h);
    }
  }

  // ---------------------------------------------------------------- the rewind

  /** What the rewind has reached at `header`: everything above it is marked for deletion, and the heads have
      followed. */
  ghost predicate Rewound(hs: Headers, genesis: Hash, bodies: set<Hash>, stateful: set<Hash>, canon0: Index,
                          header0: Hash, block0: Hash,
                          header: Hash, block: Hash, fast: Hash, dead: set<Hash>, canon: Index) {
    && Rooted(hs, genesis) && header0 in hs && block0 in hs && header in hs
    && hs[header].number <= hs[header0].number && header == PathAt(hs, genesis, header0, hs[header].number)
    && Cut(hs, hs[header].number, canon0, dead, canon)
    && fast in bodies && fast in hs && hs[fast].number <= hs[header].number
    && BlockFollows(hs, genesis, bodies, stateful, header, block0, block)
    && (hs[header].number <= hs[block0].number ==> Settled(hs, genesis, bodies, stateful, header, block))
  }

  /** `dead` are the headers above number `n`, and `canon` is what `canon0` says up to `n`. */
  ghost predicate Cut(hs: Headers, n: nat, canon0: Index, dead: set<Hash>, canon: Index) {
    && dead == HashesAbove(hs, n)
    && (forall k :: k in canon <==> k in canon0 && k <= n) && (forall k :: k in canon ==> canon[k] == canon0[k])
  }

  lemma CutOne(hs: Headers, n: nat, canon0: Index, dead: set<Hash>, canon: Index)
    requires Cut(hs, n, canon0, dead, canon) && n > 0
    ensures Cut(hs, n - 1, canon0, dead + HashesAt(hs, n), canon - {n})
  {
    assert HashesAbove(hs, n - 1) == HashesAbove(hs, n) + HashesAt(hs, n);
  }

  /** The first step also clears whatever lies above the head header. */
  method CutLeftover(hs: Headers, ghost genesis: Hash, n: nat, canon0: Index) returns (dead: set<Hash>, canon: Index)
    requires Rooted(hs, genesis) && Sound(canon0, hs)
    ensures Cut(hs, n, canon0, dead, canon)
  {
    hide Rooted;
    var end;
    dead, end := LeftoverAbove(hs, genesis, n);
    canon := canon0 - set k | k in canon0 && n < k < end;
    forall k | k in canon ensures k <= n {
      assert canon0[k] in HashesAbove(hs, end - 1) || k < end;
    }
  }

  /** One step of the rewind keeps the heads right. */
  lemma RewindOne(hs: Headers, genesis: Hash, bodies: set<Hash>, stateful: set<Hash>, canon0: Index, header0: Hash,
                  block0: Hash,
                  header: Hash, block: Hash, dead: set<Hash>, canon: Index, block': Hash, fast': Hash)
    requires Rooted(hs, genesis) && header0 in hs && block0 in hs && header in hs && hs[header].number > 0
    requires hs[header].number <= hs[header0].number && header == PathAt(hs, genesis, header0, hs[header].number)
    requires Cut(hs, hs[header].number, canon0, dead, canon) && block in bodies && block in hs
    requires block == block0 || BlockFollows(hs, genesis, bodies, stateful, header, block0, block)
    requires HasParent(hs, header) && fast' in bodies && fast' in hs && hs[fast'].number <= hs[header].number - 1
    requires if hs[header].number - 1 <= hs[block].number
             then Settled(hs, genesis, bodies, stateful, hs[header].parent, block') else block' == block
    ensures Rewound(hs, genesis, bodies, stateful, canon0, header0, block0, hs[header].parent, block', fast',
                    dead + HashesAt(hs, hs[header].number), canon - {hs[header].number})
  {
    hide Rooted, PathAt;
    StepBack(hs, genesis, header0, hs[header].number);
    CutOne(hs, hs[header].number, canon0, dead, canon);
    if block != block0 {
      FollowsDown(hs, genesis, bodies, stateful, header, block0, block);
    }
  }

  /** The loop of the rewind: steps the header head down to `target`, collecting what to delete. */
  method RewindTo(hs: Headers, genesis: Hash, bodies: set<Hash>, stateful: set<Hash>, pivot: Option<nat>, canon0: Index,
                  header0: Hash, block0: Hash, fast0: Hash, target: nat)
    returns (header: Hash, block: Hash, fast: Hash, dead: set<Hash>, canon: Index)
    requires Rooted(hs, genesis) && Bodied(hs, bodies, genesis) && Sound(canon0, hs)
    requires header0 in hs && block0 in bodies && fast0 in bodies && hs[header0].number > target
    ensures Rewound(hs, genesis, bodies, stateful, canon0, header0, block0, header, block, fast, dead, canon)
    ensures hs[header].number == target && FastFollows(hs, genesis, bodies, header0, fast0, header, fast)
    ensures if hs[block0].number < target then block == block0
            else Lands(hs, genesis, bodies, stateful, pivot, header0, block0, header, block)
  {
    hide Rooted, PathAt, Cut, Sound, BlockFollows, Settled, FastFollows, Lands, Landing;
    header, block, fast := header0, block0, fast0;
    Itself(hs, genesis, header0);
    dead, canon := {}, canon0;
    var origin := true;
    while hs[header].number > target
      invariant header in hs && target <= hs[header].number && block in bodies && fast in bodies
      invariant origin ==> header == header0 && block == block0 && fast == fast0 && canon == canon0
      invariant !origin ==> FastFollows(hs, genesis, bodies, header0, fast0, header, fast)
      invariant BlockAt(hs, genesis, bodies, stateful, pivot, header0, block0, header, block)
      invariant !origin ==>
                Rewound(hs, genesis, bodies, stateful, canon0, header0, block0, header, block, fast, dead, canon)
      decreases hs[header].number
    {
      StepBack(hs, genesis, header0, hs[header].number);
      var num, parent := hs[header].number, hs[header].parent;
      var block', fast' := UpdateHeads(hs, genesis, bodies, stateful, pivot, parent, block, fast);
      FastStep(hs, genesis, bodies, header0, fast0, header, fast, fast');
      BlockStep(hs, genesis, bodies, stateful, pivot, header0, block0, header, block, block');
      if origin {
        dead, canon := CutLeftover(hs, genesis, num, canon0);
        origin := false;
      }
      RewindOne(hs, genesis, bodies, stateful, canon0, header0, block0, header, block, dead, canon, block', fast');
      header, block, fast := parent, block', fast';
      dead, canon := dead + HashesAt(hs, num), canon - {num};
      InRewound(hs, genesis, bodies, stateful, canon0, header0, block0, header, block, fast, dead, canon);
    }
  }

  lemma InRewound(hs: Headers, genesis: Hash, bodies: set<Hash>, stateful: set<Hash>, canon0: Index, header0: Hash,
                  block0: Hash,
                  header: Hash, block: Hash, fast: Hash, dead: set<Hash>, canon: Index)
    requires Rewound(hs, genesis, bodies, stateful, canon0, header0, block0, header, block, fast, dead, canon)
    ensures header in hs && block in bodies && fast in bodies
  {
  }

  /** Deleting everything above the target leaves a database of the same form, with all heads in it. */
  lemma CutDatabase(hs: Headers, genesis: Hash, bodies: set<Hash>, stateful: set<Hash>, canon0: Index, header0: Hash,
                    block0: Hash,
                    header: Hash, block: Hash, fast: Hash, dead: set<Hash>, canon: Index)
    requires Bodied(hs, bodies, genesis) && Sound(canon0, hs)
    requires Rewound(hs, genesis, bodies, stateful, canon0, header0, block0, header, block, fast, dead, canon)
    ensures Rooted(hs - dead, genesis) && Bodied(hs - dead, bodies - dead, genesis) && Sound(canon, hs - dead)
    ensures header in hs - dead && block in bodies - dead && fast in bodies - dead
  {
    hide HasParent, PathAt;
    RootedBelow(hs, genesis, hs[header].number);
  }

  /** The index stays exact: what is left of the old head's path is the path of the new head. */
  lemma PathBelow(hs: Headers, genesis: Hash, canon0: Index, header0: Hash, n: nat, dead: set<Hash>, canon: Index)
    requires IsPath(canon0, hs, genesis, header0) && n <= hs[header0].number && Cut(hs, n, canon0, dead, canon)
    requires Rooted(hs - dead, genesis)
    ensures IsPath(canon, hs - dead, genesis, PathAt(hs, genesis, header0, n))
  {
    hide Rooted, Ancestor;
    var hs', header := hs - dead, PathAt(hs, genesis, header0, n);
    forall m: nat ensures Read(canon, m) == PathAt(hs', genesis, header, m) {
      assert hs'[header].number == n && Read(canon0, m) == PathAt(hs, genesis, header0, m);
      if m <= n {
        AncestorOfAncestor(hs, genesis, header0, n, m);
        AncestorKept(hs', hs, genesis, header, m);
      }
    }
  }

  class ChainDb {
    const genesis: Hash
    const pivot: Option<nat>
    const stateful: set<Hash>
    var headers: Headers
    var tds: map<Hash, nat>
    var bodies: set<Hash>
    var canon: Index
    var header: Hash
    var block: Hash
    var fast: Hash

    /** A chain that holds only its genesis. */
    constructor (genesis: Header, pivot: Option<nat>, stateful: set<Hash>)
      requires genesis.hash != 0 && genesis.number == 0
      ensures Valid() && headers == map[genesis.hash := genesis] && header == block == fast == genesis.hash
    {
      this.genesis, this.pivot, this.stateful := genesis.hash, pivot, stateful;
      headers, tds, bodies := map[genesis.hash := genesis], map[genesis.hash := genesis.difficulty], {genesis.hash};
      canon, header, block, fast := map[0 := genesis.hash], genesis.hash, genesis.hash, genesis.hash;
    }

    /** A chain as its database has it. */
    constructor Load(genesis: Hash, pivot: Option<nat>, stateful: set<Hash>, headers: Headers, tds: map<Hash, nat>,
                     bodies: set<Hash>, canon: Index, header: Hash, block: Hash, fast: Hash)
      requires Rooted(headers, genesis) && Bodied(headers, bodies, genesis) && Sound(canon, headers)
      requires tds.Keys == headers.Keys
      requires header in headers && block in bodies && fast in bodies
      ensures Valid() && this.genesis == genesis && this.pivot == pivot && this.stateful == stateful
      ensures this.headers == headers && this.tds == tds && this.bodies == bodies && this.canon == canon
      ensures this.header == header && this.block == block && this.fast == fast
    {
      this.genesis, this.pivot, this.stateful := genesis, pivot, stateful;
      this.headers, this.tds, this.bodies, this.canon := headers, tds, bodies, canon;
      this.header, this.block, this.fast := header, block, fast;
    }

    /** The head block can be built on: it has state, or is the genesis. */
    ghost predicate HeadUsable()
      reads this
    {
      block in stateful || block == genesis
    }

    ghost predicate Valid()
      reads this
    {
      && Rooted(headers, genesis) && Bodied(headers, bodies, genesis) && Sound(canon, headers)
      && tds.Keys == headers.Keys
      && header in headers && block in bodies && fast in bodies
    }

    /**
     Rewinds to the header of number `target`: it becomes the head header, every header, total difficulty,
     body and marker above it is gone, and all others are as they were; an exact index stays exact. A block head
     below the target stays where it was. Any other moves to the highest block with state at or below the new head
     header, or to the genesis if it is stopped by a missing body or the pivot; it ends at the new head header itself
     exactly if that has a body and state and nothing above stops it. A target that is not below the head header
     changes nothing. So the head block is usable afterwards if and only if it was before, or the head header was above
     the target and the head block not below it.
     */
    method SetHead(target: nat)
      requires Valid()
      modifies this
      ensures Valid()
      ensures old(headers[header].number) <= target ==>
                && headers == old(headers) && tds == old(tds) && bodies == old(bodies) && canon == old(canon)
                && header == old(header) && block == old(block) && fast == old(fast)
      ensures old(headers[header].number) > target ==>
                && header == PathAt(old(headers), genesis, old(header), target) && headers[header].number == target
                && headers == old(headers) - HashesAbove(old(headers), target)
                && tds == old(tds) - HashesAbove(old(headers), target)
                && bodies == old(bodies) - HashesAbove(old(headers), target)
                && Cut(old(headers), target, old(canon), HashesAbove(old(headers), target), canon)
                && headers[fast].number <= target && headers[block].number <= target
                && FastFollows(old(headers), genesis, old(bodies), old(header), old(fast), header, fast)
                && if old(headers[block].number) < target then block == old(block)
                   else && Settled(old(headers), genesis, old(bodies), stateful, header, block)
                        && HeadBlockIs(old(headers), genesis, old(bodies), stateful, pivot, old(header), old(block),
                                       header, block)
      ensures old(headers[block].number) >= target && old(headers[header].number) > target ==>
                (block == header <==>
                   || target == 0
                   || (&& Clear(old(headers), genesis, old(bodies), stateful, pivot, old(header), old(block), target)
                       && header in old(bodies) && header in stateful))
      ensures HeadUsable() <==>
                old(HeadUsable() || (headers[header].number > target && headers[block].number >= target))
      ensures HashesAbove(headers, target) == {} <==>
                old(headers[header].number > target || HashesAbove(headers, target) == {})
      ensures old(IsPath(canon, headers, genesis, header)) ==> IsPath(canon, headers, genesis, header)
    {
      hide Rooted, PathAt, Sound, Bodied, Cut, IsPath, FastFollows, Lands, HeadBlockIs, Clear;
      if headers[header].number > target {
        var hs, bs, c, dead := headers, bodies, canon, {};
        ghost var header0, block0 := header, block;
        header, block, fast, dead, canon := RewindTo(hs, genesis, bs, stateful, pivot, c, header, block, fast, target);
        if hs[block0].number >= target {
          LandsMeans(hs, genesis, bs, stateful, pivot, header0, block0, header, block);
        }
        CutDatabase(hs, genesis, bs, stateful, c, header0, block0, header, block, fast, dead, canon);
        DeadAbove(hs, target, c, dead, canon);
        headers, tds, bodies := hs - dead, tds - dead, bs - dead;
        if IsPath(c, hs, genesis, header0) {
          PathBelow(hs, genesis, c, header0, target, dead, canon);
        }
      }
    }
  }

  /** Header `h` of a single chain without forks. */
  function Link(h: Hash): Header
    requires h > 0
  {
    Header(h, h - 1, h - 1, 1)
  }

  function FourLinks(): Headers {
    map[1 := Link(1), 2 := Link(2), 3 := Link(3), 4 := Link(4)]
  }

  lemma FourRooted()
    ensures Rooted(FourLinks(), 1)
  {
    forall h | h in FourLinks() && h != 1 ensures HasParent(FourLinks(), h) {
    }
  }

  /** Loads a chain of four headers. */
  method LoadFour(bodies: set<Hash>, stateful: set<Hash>, header: Hash, block: Hash) returns (db: ChainDb)
    requires 1 in bodies && bodies <= FourLinks().Keys && header in FourLinks() && block in bodies
    ensures fresh(db) && db.Valid() && db.headers == FourLinks() && db.genesis == 1 && db.stateful == stateful
    ensures db.header == header && db.block == block && db.bodies == bodies && db.pivot == None
  {
    FourRooted();
    var hs := FourLinks();
    db := new ChainDb.Load(1, None, stateful, hs, map h | h in hs :: h, bodies, map[0 := 1], header, block, 1);
  }

  lemma FourCut(hs: Headers, header: Hash)
    requires hs == FourLinks() - HashesAbove(FourLinks(), 2) && header in hs && hs[header].number == 2
    ensures hs.Keys == {1, 2, 3} && header == 3
  {
  }

  /** A head block without state below the target stays the head: from number 3 back to 2, the head block keeps number
      1. */
  method StatelessHeadExample() returns (db: ChainDb)
    ensures fresh(db) && db.headers.Keys == {1, 2, 3} && db.header == 3 && db.block == 2 && !db.HeadUsable()
  {
    hide Settled, FastFollows, Cut, PathAt, IsPath, Rooted, Sound, Bodied;
    db := LoadFour({1, 2, 3, 4}, {1}, 4, 2);
    assert db.headers[4].number == 3 && db.headers[2].number == 1;
    db.SetHead(2);
    FourCut(db.headers, db.header);
  }

  lemma FourPath()
    ensures Rooted(FourLinks(), 1) && PathAt(FourLinks(), 1, 4, 2) == 3 && PathAt(FourLinks(), 1, 4, 1) == 2
  {
    FourRooted();
    StepBack(FourLinks(), 1, 4, 3);
    StepBack(FourLinks(), 1, 4, 2);
    Itself(FourLinks(), 1, 4);
  }

  lemma NotClear()
    ensures Rooted(FourLinks(), 1) && PathAt(FourLinks(), 1, 4, 1) == 2
    ensures !Clear(FourLinks(), 1, {1, 2, 4}, {1, 2, 3, 4}, None, 4, 4, 1)
  {
    FourPath();
    hide Rooted, PathAt;
    assert !Passes(FourLinks(), 1, {1, 2, 4}, {1, 2, 3, 4}, None, 4, 2);
  }

  /** A missing body above the target sends the head block to the genesis, although the target has body and state. */
  method StoppedAboveExample() returns (db: ChainDb)
    ensures fresh(db) && db.header == 2 && 2 in db.bodies && 2 in db.stateful && db.block == db.genesis == 1
  {
    hide Settled, FastFollows, PathAt, IsPath, Rooted, Sound, Bodied, Clear;
    db := LoadFour({1, 2, 4}, {1, 2, 3, 4}, 4, 4);
    assert db.headers[4].number == 3;
    NotClear();
    db.SetHead(1);
    assert 2 !in HashesAbove(FourLinks(), 1);
  }

  /** A header above the head stays if the target is not below the head. */
  method LeftoverExample() returns (db: ChainDb)
    ensures fresh(db) && db.header == 2 && db.headers == FourLinks() && {3, 4} <= HashesAbove(db.headers, 1)
  {
    hide Settled, FastFollows, Cut, PathAt, IsPath, ChainDb.Valid;
    db := LoadFour({1, 2, 3, 4}, {1}, 2, 1);
    assert db.headers[2].number == 1;
    db.SetHead(1);
  }

  lemma DeadAbove(hs: Headers, n: nat, canon0: Index, dead: set<Hash>, canon: Index)
    requires Cut(hs, n, canon0, dead, canon)
    ensures dead == HashesAbove(hs, n)
  {
  }
}

/**
 The binary heap that `container/heap` maintains over a slice, as the nonce index and the
 two price heaps of the transaction pool use it. A heap is a sequence ordered by a `less`
 relation that is handed in; every operation is the library's loop of swaps.
 */
module Heaps {

  /** `less` is a strict weak order: irreflexive, asymmetric, and "not less" is transitive. */
  ghost predicate WeakOrder<T(!new)>(less: (T, T) -> bool) {
    && (forall x :: !less(x, x))
    && (forall x, y :: less(x, y) ==> !less(y, x))
    && (forall x, y, z :: Chain(less, x, y, z))
  }

  ghost predicate Chain<T>(less: (T, T) -> bool, x: T, y: T, z: T) {
    !less(x, y) && !less(y, z) ==> !less(x, z)
  }

  function Parent(j: nat): nat
    requires 0 < j
  {
    (j - 1) / 2
  }

  ghost predicate IsHeap<T>(h: seq<T>, less: (T, T) -> bool) {
    forall j :: 0 < j < |h| ==> !less(h[j], h[Parent(j)])
  }

  /** The heap property for the children of positions from `lo` on, within the first `n` elements. */
  ghost predicate HeapFrom<T>(h: seq<T>, less: (T, T) -> bool, lo: nat, n: nat)
    requires n <= |h|
  {
    forall j :: 0 < j < n && lo <= Parent(j) ==> !less(h[j], h[Parent(j)])
  }

  /** Only the edge from position `k` up to its parent may be out of order. */
  ghost predicate HeapExceptUp<T>(h: seq<T>, less: (T, T) -> bool, k: nat)
    requires k < |h|
  {
    && (forall j :: 0 < j < |h| && j != k ==> !less(h[j], h[Parent(j)]))
    && (forall j :: 0 < j < |h| && Parent(j) == k && 0 < k ==> !less(h[j], h[Parent(k)]))
  }

  /** Among the edges whose parent is at `lo` or later, only those below `k` (and, if `up`, the
      one above `k`) may be out of order, and the children of `k` respect its parent. */
  ghost predicate HeapExcept<T>(h: seq<T>, less: (T, T) -> bool, lo: nat, k: nat, n: nat, up: bool)
    requires n <= |h|
  {
    && (forall j :: 0 < j < n && lo <= Parent(j) != k && (up ==> j != k) ==> !less(h[j], h[Parent(j)]))
    && (forall j :: 0 < j < n && Parent(j) == k && 0 < k && lo <= Parent(k) ==> !less(h[j], h[Parent(k)]))
  }

  /** The root of a heap is a least element. */
  lemma {:induction false} RootIsLeast<T(!new)>(h: seq<T>, less: (T, T) -> bool, k: nat)
    requires WeakOrder(less) && IsHeap(h, less)
    requires k < |h|
    ensures !less(h[k], h[0])
  {
    if k > 0 {
      RootIsLeast(h, less, Parent(k));
      assert Chain(less, h[k], h[Parent(k)], h[0]);
    }
  }

  lemma SwapKeepsMultiset<T>(h: seq<T>, i: nat, j: nat)
    requires i < |h| && j < |h|
    ensures multiset(h[i := h[j]][j := h[i]]) == multiset(h)
  {
  }

  /** Swapping `j` with its greater parent moves the disorder up to the parent. */
  lemma SwapUp<T(!new)>(h: seq<T>, less: (T, T) -> bool, j: nat)
    requires WeakOrder(less)
    requires 0 < j < |h|
    requires HeapExceptUp(h, less, j) && less(h[j], h[Parent(j)])
    ensures HeapExceptUp(h[Parent(j) := h[j]][j := h[Parent(j)]], less, Parent(j))
  {
    var i := Parent(j);
    var g := h[i := h[j]][j := h[i]];
    forall c | 0 < c < |g| && c != i
      ensures !less(g[c], g[Parent(c)])
    {
      if Parent(c) == i && c != j {
        assert Chain(less, h[c], h[i], h[j]);
      } else if Parent(c) != j && c != j {
        assert g[c] == h[c] && g[Parent(c)] == h[Parent(c)];
      }
    }
    forall c | 0 < c < |g| && Parent(c) == i && 0 < i
      ensures !less(g[c], g[Parent(i)])
    {
      assert g[Parent(i)] == h[Parent(i)];
      if c != j {
        assert Chain(less, h[c], h[i], h[Parent(i)]);
      }
    }
  }

  method Up<T(!new)>(h0: seq<T>, j0: nat, less: (T, T) -> bool) returns (h: seq<T>)
    requires WeakOrder(less)
    requires j0 < |h0| && HeapExceptUp(h0, less, j0)
    ensures IsHeap(h, less)
    ensures |h| == |h0| && multiset(h) == multiset(h0)
  {
    h := h0;
    var j := j0;
    while 0 < j && less(h[j], h[Parent(j)])
      invariant 0 <= j < |h| == |h0|
      invariant HeapExceptUp(h, less, j)
      invariant multiset(h) == multiset(h0)
    {
      var i := Parent(j);
      SwapKeepsMultiset(h, i, j);
      SwapUp(h, less, j);
      h := h[i := h[j]][j := h[i]];
      j := i;
    }
  }

  /** Swapping `i` with its lesser child `j` moves the disorder from `i` to `j`. */
  lemma SwapDown<T(!new)>(h: seq<T>, less: (T, T) -> bool, lo: nat, i: nat, j: nat, n: nat, up: bool)
    requires WeakOrder(less)
    requires lo <= i < j < n <= |h|
    requires HeapExcept(h, less, lo, i, n, up)
    requires Parent(j) == i && less(h[j], h[i])
    requires forall c :: 0 < c < n && Parent(c) == i ==> !less(h[c], h[j])
    ensures HeapExcept(h[i := h[j]][j := h[i]], less, lo, j, n, false)
  {
    var g := h[i := h[j]][j := h[i]];
    forall c | 0 < c < n && lo <= Parent(c) != j
      ensures !less(g[c], g[Parent(c)])
    {
      if c != i && Parent(c) != i {
        assert g[c] == h[c] && g[Parent(c)] == h[Parent(c)];
      }
    }
    forall c | 0 < c < n && Parent(c) == j && lo <= Parent(j)
      ensures !less(g[c], g[Parent(j)])
    {
      assert g[c] == h[c] && g[i] == h[j] && c != i && Parent(c) != i;
    }
  }

  /** The child of `i` that `heap.down` compares with `i`: the right one only if strictly less. */
  function LesserChild<T(!new)>(h: seq<T>, less: (T, T) -> bool, i: nat, n: nat): (j: nat)
    requires 2 * i + 1 < n <= |h|
    requires WeakOrder(less)
    ensures i < j < n && Parent(j) == i
    ensures forall c :: 0 < c < n && Parent(c) == i ==> !less(h[c], h[j])
  {
    var j := 2 * i + 1;
    if j + 1 < n && less(h[j + 1], h[j]) then j + 1 else j
  }

  /** Every edge with its parent at `lo` or later is in order, except possibly the one above `k`. */
  ghost predicate HeapButAbove<T>(h: seq<T>, less: (T, T) -> bool, lo: nat, k: nat, n: nat)
    requires n <= |h|
  {
    forall j :: 0 < j < n && lo <= Parent(j) && j != k ==> !less(h[j], h[Parent(j)])
  }

  lemma SiftStops<T(!new)>(h: seq<T>, less: (T, T) -> bool, lo: nat, i: nat, n: nat, up: bool)
    requires WeakOrder(less)
    requires lo <= i < n <= |h|
    requires HeapExcept(h, less, lo, i, n, up)
    requires 2 * i + 1 < n ==> !less(h[LesserChild(h, less, i, n)], h[i])
    ensures HeapButAbove(h, less, lo, i, n)
    ensures !up ==> HeapFrom(h, less, lo, n)
  {
    if 2 * i + 1 < n {
      var j := LesserChild(h, less, i, n);
      forall c | 0 < c < n && Parent(c) == i ensures !less(h[c], h[i]) {
        assert Chain(less, h[c], h[j], h[i]);
      }
    }
  }

  /** Sifts the element at `i0` down among the first `n` elements. */
  method Down<T(!new)>(h0: seq<T>, ghost lo: nat, i0: nat, n: nat, less: (T, T) -> bool)
    returns (h: seq<T>, moved: bool)
    requires WeakOrder(less)
    requires lo <= i0 < n <= |h0|
    requires HeapExcept(h0, less, lo, i0, n, true)
    ensures |h| == |h0| && multiset(h) == multiset(h0)
    ensures forall m :: n <= m < |h| ==> h[m] == h0[m]
    ensures if moved then HeapFrom(h, less, lo, n) else h == h0 && HeapButAbove(h, less, lo, i0, n)
  {
    h := h0;
    var i := i0;
    while 2 * i + 1 < n && less(h[LesserChild(h, less, i, n)], h[i])
      invariant i0 <= i < n <= |h| == |h0|
      invariant HeapExcept(h, less, lo, i, n, i == i0)
      invariant multiset(h) == multiset(h0)
      invariant forall m :: n <= m < |h| ==> h[m] == h0[m]
      invariant i == i0 ==> h == h0
      decreases n - i
    {
      var j := LesserChild(h, less, i, n);
      SwapKeepsMultiset(h, i, j);
      SwapDown(h, less, lo, i, j, n, i == i0);
      h := h[i := h[j]][j := h[i]];
      i := j;
    }
    SiftStops(h, less, lo, i, n, i == i0);
    moved := i > i0;
  }

  method Init<T(!new)>(h0: seq<T>, less: (T, T) -> bool) returns (h: seq<T>)
    requires WeakOrder(less)
    ensures IsHeap(h, less)
    ensures |h| == |h0| && multiset(h) == multiset(h0)
  {
    h := h0;
    var i := |h| / 2;
    while 0 < i
      invariant 0 <= i <= |h| / 2 && |h| == |h0|
      invariant HeapFrom(h, less, i, |h|)
      invariant multiset(h) == multiset(h0)
    {
      i := i - 1;
      var moved;
      h, moved := Down(h, i, i, |h|, less);
    }
  }

  method Push<T(!new)>(h0: seq<T>, x: T, less: (T, T) -> bool) returns (h: seq<T>)
    requires WeakOrder(less) && IsHeap(h0, less)
    ensures IsHeap(h, less)
    ensures |h| == |h0| + 1 && multiset(h) == multiset(h0) + multiset{x}
  {
    h := Up(h0 + [x], |h0|, less);
  }

  method Pop<T(!new)>(h0: seq<T>, less: (T, T) -> bool) returns (h: seq<T>, x: T)
    requires WeakOrder(less) && IsHeap(h0, less)
    requires h0 != []
    ensures IsHeap(h, less)
    ensures |h| == |h0| - 1 && multiset(h0) == multiset(h) + multiset{x}
    ensures x == h0[0] && forall y :: y in h0 ==> !less(y, x)
  {
    var n := |h0| - 1;
    x := h0[0];
    SwapKeepsMultiset(h0, 0, n);
    var g := h0[0 := h0[n]][n := h0[0]];
    if n > 0 {
      var moved;
      g, moved := Down(g, 0, 0, n, less);
    }
    h := g[..n];
    assert g == h + [x];
    forall y | y in h0 ensures !less(y, x) {
      var k :| 0 <= k < |h0| && h0[k] == y;
      RootIsLeast(h0, less, k);
    }
  }

  /** Filling position `i` with the last element leaves disorder only around `i`. */
  lemma FillHole<T(!new)>(h: seq<T>, i: nat, less: (T, T) -> bool)
    requires WeakOrder(less) && IsHeap(h, less)
    requires i < |h| - 1
    ensures HeapExcept(h[..|h| - 1][i := h[|h| - 1]], less, 0, i, |h| - 1, true)
    ensures multiset(h) == multiset(h[..|h| - 1][i := h[|h| - 1]]) + multiset{h[i]}
  {
    var n := |h| - 1;
    var g := h[..n][i := h[n]];
    forall c | 0 < c < n && Parent(c) == i && 0 < i ensures !less(g[c], g[Parent(i)]) {
      assert Chain(less, h[c], h[i], h[Parent(i)]);
    }
    assert h == h[..n] + [h[n]];
  }

  /** Restores the heap when only the element at `i` is out of place: down, or else up. */
  method Fix<T(!new)>(h0: seq<T>, i: nat, less: (T, T) -> bool) returns (h: seq<T>)
    requires WeakOrder(less)
    requires i < |h0| && HeapExcept(h0, less, 0, i, |h0|, true)
    ensures IsHeap(h, less)
    ensures |h| == |h0| && multiset(h) == multiset(h0)
  {
    var moved;
    h, moved := Down(h0, 0, i, |h0|, less);
    if !moved {
      h := Up(h, i, less);
    }
  }

  method Remove<T(!new)>(h0: seq<T>, i: nat, less: (T, T) -> bool) returns (h: seq<T>)
    requires WeakOrder(less) && IsHeap(h0, less)
    requires i < |h0|
    ensures IsHeap(h, less)
    ensures |h| == |h0| - 1 && multiset(h0) == multiset(h) + multiset{h0[i]}
  {
    var n := |h0| - 1;
    if n == i {
      h := h0[..n];
      assert h0 == h + [h0[n]];
    } else {
      FillHole(h0, i, less);
      h := Fix(h0[..n][i := h0[n]], i, less);
    }
  }
}

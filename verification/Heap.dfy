/** Binary heaps in a list, as the pool's index structures use them: the least element first.
    `lt` is the strict order of the heap; it need only be a weak order. */
module Heap {

  /** `lt` is a strict weak order. */
  ghost predicate Weak<T(!new)>(lt: (T, T) -> bool) {
    && (forall x, y :: lt(x, y) ==> !lt(y, x))
    && (forall x, y, z :: !lt(x, y) && !lt(y, z) ==> !lt(x, z))
  }

  function ParentOf(i: nat): nat
    requires i > 0
  {
    (i - 1) / 2
  }

  /** No element is below its parent, for positions up to `n`. */
  ghost predicate HeapTo<T>(lt: (T, T) -> bool, h: seq<T>, n: nat)
    requires n <= |h|
  {
    forall i {:trigger ParentOf(i)} | 0 < i < n :: !lt(h[i], h[ParentOf(i)])
  }

  /** The same, only for elements whose parent is at `lo` or later. */
  ghost predicate HeapFrom<T>(lt: (T, T) -> bool, h: seq<T>, lo: nat, n: nat)
    requires n <= |h|
  {
    forall i {:trigger ParentOf(i)} | 0 < i < n && lo <= ParentOf(i) :: !lt(h[i], h[ParentOf(i)])
  }

  ghost predicate IsHeap<T>(lt: (T, T) -> bool, h: seq<T>) {
    HeapTo(lt, h, |h|)
  }

  function Swapped<T>(h: seq<T>, i: nat, j: nat): (r: seq<T>)
    requires i < |h| && j < |h|
    ensures |r| == |h|
  {
    h[i := h[j]][j := h[i]]
  }

  lemma SwappedMultiset<T>(h: seq<T>, i: nat, j: nat)
    requires i < |h| && j < |h|
    ensures multiset(Swapped(h, i, j)) == multiset(h)
  {
  }

  /** The root of a heap is least. */
  lemma {:induction false} RootLeast<T(!new)>(lt: (T, T) -> bool, h: seq<T>, n: nat, i: nat)
    requires Weak(lt) && n <= |h| && HeapTo(lt, h, n) && i < n
    ensures !lt(h[i], h[0])
    decreases i
  {
    if i > 0 {
      RootLeast(lt, h, n, ParentOf(i));
    } else if lt(h[0], h[0]) {
      assert false;
    }
  }

  /** All heap relations up to `n` hold but the one of `j` with its parent, and the children of `j`
      are not below that parent either. */
  ghost predicate HeapButUp<T>(lt: (T, T) -> bool, h: seq<T>, n: nat, j: nat)
    requires j < n <= |h|
  {
    && (forall i {:trigger ParentOf(i)} | 0 < i < n && i != j :: !lt(h[i], h[ParentOf(i)]))
    && (forall i {:trigger ParentOf(i)} | 0 < i < n && ParentOf(i) == j && j > 0 :: !lt(h[i], h[ParentOf(j)]))
  }

  /** All heap relations from `lo` up to `n` hold but those of `j` with its children, and the children
      are not below the parent of `j`. */
  ghost predicate HeapButDown<T>(lt: (T, T) -> bool, h: seq<T>, lo: nat, n: nat, j: nat)
    requires n <= |h|
  {
    && (forall i {:trigger ParentOf(i)} | 0 < i < n && lo <= ParentOf(i) && ParentOf(i) != j ::
        !lt(h[i], h[ParentOf(i)]))
    && (forall i {:trigger ParentOf(i)} | 0 < i < n && ParentOf(i) == j && j > 0 && lo <= ParentOf(j) ::
        !lt(h[i], h[ParentOf(j)]))
  }

  lemma UpStep<T(!new)>(lt: (T, T) -> bool, h: seq<T>, n: nat, j: nat)
    requires Weak(lt) && 0 < j < n <= |h| && HeapButUp(lt, h, n, j) && lt(h[j], h[ParentOf(j)])
    ensures HeapButUp(lt, Swapped(h, ParentOf(j), j), n, ParentOf(j))
  {
  }

  lemma DownStep<T(!new)>(lt: (T, T) -> bool, h: seq<T>, lo: nat, n: nat, i: nat, j: nat)
    requires Weak(lt) && lo <= i < j < n <= |h| && HeapButDown(lt, h, lo, n, i) && LeastChild(lt, h, n, i, j)
             && lt(h[j], h[i])
    ensures HeapButDown(lt, Swapped(h, i, j), lo, n, j)
  {
  }

  /** Moves element `j0` up to its place. */
  method Up<T(!new)>(lt: (T, T) -> bool, h0: seq<T>, n: nat, j0: nat) returns (h: seq<T>)
    requires Weak(lt) && j0 < n <= |h0| && HeapButUp(lt, h0, n, j0)
    ensures |h| == |h0| && HeapTo(lt, h, n) && multiset(h) == multiset(h0) && h[n..] == h0[n..]
  {
    h := h0;
    var j: nat := j0;
    while j > 0
      invariant |h| == |h0| && j < n && HeapButUp(lt, h, n, j)
      invariant multiset(h) == multiset(h0) && h[n..] == h0[n..]
    {
      var i := ParentOf(j);
      if !lt(h[j], h[i]) {
        return;
      }
      UpStep(lt, h, n, j);
      SwappedMultiset(h, i, j);
      h := Swapped(h, i, j);
      j := i;
    }
  }

  /** `j` is the least child of `i` among the first `n`, if there is one. */
  ghost predicate LeastChild<T>(lt: (T, T) -> bool, h: seq<T>, n: nat, i: nat, j: nat)
    requires n <= |h|
  {
    && i < j < n && ParentOf(j) == i
    && forall k {:trigger ParentOf(k)} | 0 < k < n && ParentOf(k) == i :: !lt(h[k], h[j])
  }

  method Child<T(!new)>(lt: (T, T) -> bool, h: seq<T>, n: nat, i: nat) returns (j: nat)
    requires Weak(lt) && n <= |h|
    ensures j < n ==> LeastChild(lt, h, n, i, j)
    ensures j >= n ==> forall k | 0 < k < n :: ParentOf(k) != i
  {
    j := 2 * i + 1;
    if j + 1 < n && lt(h[j + 1], h[j]) {
      j := j + 1;
    }
  }

  lemma DownDone<T(!new)>(lt: (T, T) -> bool, h: seq<T>, lo: nat, n: nat, i: nat, j: nat)
    requires Weak(lt) && n <= |h| && HeapButDown(lt, h, lo, n, i) && LeastChild(lt, h, n, i, j) && !lt(h[j], h[i])
    ensures HeapFrom(lt, h, lo, n)
  {
    forall k {:trigger ParentOf(k)} | 0 < k < n && lo <= ParentOf(k) ensures !lt(h[k], h[ParentOf(k)]) {
    }
  }

  /** Moves element `i0` down to its place, among the first `n`. Reports whether it moved. */
  method Down<T(!new)>(lt: (T, T) -> bool, h0: seq<T>, ghost lo: nat, n: nat, i0: nat) returns (h: seq<T>, moved: bool)
    requires Weak(lt) && n <= |h0| && lo <= i0 && HeapButDown(lt, h0, lo, n, i0)
    ensures |h| == |h0| && HeapFrom(lt, h, lo, n) && multiset(h) == multiset(h0) && h[n..] == h0[n..]
    ensures !moved ==> h == h0
  {
    h := h0;
    var i: nat := i0;
    while true
      invariant |h| == |h0| && i0 <= i && HeapButDown(lt, h, lo, n, i)
      invariant multiset(h) == multiset(h0) && h[n..] == h0[n..]
      invariant i == i0 ==> h == h0
      decreases n - i
    {
      var j := Child(lt, h, n, i);
      if j >= n {
        break;
      }
      if !lt(h[j], h[i]) {
        DownDone(lt, h, lo, n, i, j);
        break;
      }
      DownStep(lt, h, lo, n, i, j);
      SwappedMultiset(h, i, j);
      h := Swapped(h, i, j);
      i := j;
    }
    moved := i > i0;
  }

  method Push<T(!new)>(lt: (T, T) -> bool, h0: seq<T>, x: T) returns (h: seq<T>)
    requires Weak(lt) && IsHeap(lt, h0)
    ensures IsHeap(lt, h) && multiset(h) == multiset(h0) + multiset{x}
  {
    h := h0 + [x];
    h := Up(lt, h, |h|, |h0|);
  }

  /** Takes out the least element. */
  method Pop<T(!new)>(lt: (T, T) -> bool, h0: seq<T>) returns (x: T, h: seq<T>)
    requires Weak(lt) && IsHeap(lt, h0) && h0 != []
    ensures x == h0[0] && IsHeap(lt, h) && multiset(h0) == multiset(h) + multiset{x} && |h| == |h0| - 1
    ensures forall i | 0 <= i < |h0| :: !lt(h0[i], x)
  {
    var n := |h0| - 1;
    SwappedMultiset(h0, 0, n);
    var moved;
    h := Swapped(h0, 0, n);
    PopButDown(lt, h0);
    h, moved := Down(lt, h, 0, n, 0);
    x := h[n];
    assert h == h[..n] + [x];
    h := h[..n];
    forall i | 0 <= i < |h0| ensures !lt(h0[i], x) {
      RootLeast(lt, h0, |h0|, i);
    }
  }

  lemma PopButDown<T(!new)>(lt: (T, T) -> bool, h: seq<T>)
    requires Weak(lt) && IsHeap(lt, h) && h != []
    ensures HeapButDown(lt, Swapped(h, 0, |h| - 1), 0, |h| - 1, 0)
  {
  }

  /** Restores the order after the last element of `h0` was swapped into position `i`: down, or if it
      does not move down, up. An element below its parent cannot be above its children. */
  method Fix<T(!new)>(lt: (T, T) -> bool, h0: seq<T>, i: nat) returns (h: seq<T>)
    requires Weak(lt) && IsHeap(lt, h0) && i < |h0| - 1
    ensures |h| == |h0| && HeapTo(lt, h, |h0| - 1) && multiset(h) == multiset(h0) && h[|h0| - 1] == h0[i]
  {
    var n := |h0| - 1;
    SwappedMultiset(h0, i, n);
    h := Swapped(h0, i, n);
    ghost var tail := h[n..];
    var moved := false;
    if i == 0 || !lt(h[i], h[ParentOf(i)]) {
      RemoveButDown(lt, h0, i);
      h, moved := Down(lt, h, 0, n, i);
    } else {
      RemoveButUp(lt, h0, i);
    }
    if !moved {
      h := Up(lt, h, n, i);
    }
    assert h[n] == h[n..][0] == tail[0];
  }

  /** Takes out the element at position `i`. */
  method RemoveAt<T(!new)>(lt: (T, T) -> bool, h0: seq<T>, i: nat) returns (h: seq<T>)
    requires Weak(lt) && IsHeap(lt, h0) && i < |h0|
    ensures IsHeap(lt, h) && multiset(h0) == multiset(h) + multiset{h0[i]} && |h| == |h0| - 1
  {
    var n := |h0| - 1;
    h := h0;
    if n != i {
      h := Fix(lt, h, i);
    }
    assert h == h[..n] + [h[n]];
    h := h[..n];
  }

  lemma RemoveButDown<T(!new)>(lt: (T, T) -> bool, h0: seq<T>, i: nat)
    requires Weak(lt) && IsHeap(lt, h0) && i < |h0| - 1
    requires i == 0 || !lt(h0[|h0| - 1], h0[ParentOf(i)])
    ensures HeapButDown(lt, Swapped(h0, i, |h0| - 1), 0, |h0| - 1, i)
  {
  }

  lemma RemoveButUp<T(!new)>(lt: (T, T) -> bool, h0: seq<T>, i: nat)
    requires Weak(lt) && IsHeap(lt, h0) && 0 < i < |h0| - 1
    requires lt(h0[|h0| - 1], h0[ParentOf(i)])
    ensures HeapButUp(lt, Swapped(h0, i, |h0| - 1), |h0| - 1, i)
  {
  }

  /** Establishes the heap order. */
  method Init<T(!new)>(lt: (T, T) -> bool, h0: seq<T>) returns (h: seq<T>)
    requires Weak(lt)
    ensures IsHeap(lt, h) && multiset(h) == multiset(h0) && |h| == |h0|
  {
    h := h0;
    var n := |h0|;
    var i := n / 2;
    while i > 0
      invariant 0 <= i <= n / 2 && |h| == n && HeapFrom(lt, h, i, n) && multiset(h) == multiset(h0)
    {
      i := i - 1;
      var moved;
      h, moved := Down(lt, h, i, n, i);
    }
  }
}

/** Sets of nonces, and lists of nonces that enumerate or deplete them. */
module Nonces {
  ghost predicate Least(s: set<nat>, m: nat) {
    m in s && forall k | k in s :: m <= k
  }

  ghost predicate Greatest(s: set<nat>, m: nat) {
    m in s && forall k | k in s :: k <= m
  }

  function Elems(ns: seq<nat>): set<nat> {
    set n | n in ns
  }

  ghost predicate Distinct(ns: seq<nat>) {
    forall i, j | 0 <= i < j < |ns| :: ns[i] != ns[j]
  }

  /** Strictly increasing. */
  ghost predicate Rising(ns: seq<nat>) {
    forall i, j | 0 <= i < j < |ns| :: ns[i] < ns[j]
  }

  /** Strictly decreasing. */
  ghost predicate Falling(ns: seq<nat>) {
    forall i, j | 0 <= i < j < |ns| :: ns[i] > ns[j]
  }

  /** `ns` is all of `s`, in increasing order. */
  ghost predicate Lists(s: set<nat>, ns: seq<nat>) {
    Rising(ns) && Elems(ns) == s
  }

  /** Taking the elements of `ns` out of `was`, each once, leaves `kept`. */
  ghost predicate Removes(was: set<nat>, kept: set<nat>, ns: seq<nat>) {
    Distinct(ns) && Elems(ns) !! kept && was == kept + Elems(ns)
  }

  lemma RisingIndex(ns: seq<nat>, i: nat, j: nat)
    requires Rising(ns) && i < |ns| && j < |ns| && ns[i] < ns[j]
    ensures i < j
  {
  }

  lemma ElemsPush(ns: seq<nat>, n: nat)
    ensures Elems(ns + [n]) == Elems(ns) + {n}
  {
  }

  lemma RemovesNothing(was: set<nat>)
    ensures Removes(was, was, [])
  {
  }

  lemma RemovesMore(was: set<nat>, kept: set<nat>, ns: seq<nat>, n: nat)
    requires Removes(was, kept, ns) && n in kept
    ensures Removes(was, kept - {n}, ns + [n])
  {
    ElemsPush(ns, n);
    assert n !in ns by { assert n !in Elems(ns); }
  }

  /** What comes off in increasing order stays below what is left. */
  ghost predicate AllBelow(a: set<nat>, b: set<nat>) {
    forall x, y | x in a && y in b :: x < y
  }

  ghost predicate Under(s: set<nat>, n: nat) {
    forall k | k in s :: k < n
  }

  ghost predicate Over(s: set<nat>, n: nat) {
    forall k | k in s :: k >= n
  }

  lemma PushLeast(kept: set<nat>, ns: seq<nat>, m: nat)
    requires Rising(ns) && AllBelow(Elems(ns), kept) && Least(kept, m)
    ensures Rising(ns + [m]) && AllBelow(Elems(ns + [m]), kept - {m})
  {
    ElemsPush(ns, m);
    forall i | 0 <= i < |ns| ensures ns[i] < m {
      assert ns[i] in Elems(ns);
    }
  }

  lemma {:induction false} DistinctCount(ns: seq<nat>)
    requires Distinct(ns)
    ensures |Elems(ns)| == |ns|
  {
    if ns != [] {
      var t, n := ns[..|ns| - 1], ns[|ns| - 1];
      assert ns == t + [n];
      DistinctCount(t);
      ElemsPush(t, n);
      assert n !in t;
    }
  }

  /** The least element is at the front. */
  lemma ListsFront(s: set<nat>, ns: seq<nat>, m: nat)
    requires Lists(s, ns) && Least(s, m)
    ensures ns != [] && ns[0] == m && Lists(s - {m}, ns[1..])
  {
    assert m in ns;
    assert ns[0] in s;
    assert ns == [ns[0]] + ns[1..];
    assert m !in ns[1..];
  }

  /** The greatest element is at the back. */
  lemma ListsBack(s: set<nat>, ns: seq<nat>, m: nat)
    requires Lists(s, ns) && Greatest(s, m)
    ensures ns != [] && ns[|ns| - 1] == m && Lists(s - {m}, ns[..|ns| - 1])
  {
    assert m in ns;
    assert ns[|ns| - 1] in s;
    assert ns == ns[..|ns| - 1] + [ns[|ns| - 1]];
    assert m !in ns[..|ns| - 1];
  }

  /** There is only one listing. */
  lemma {:induction false} ListsUnique(s: set<nat>, a: seq<nat>, b: seq<nat>)
    requires Lists(s, a) && Lists(s, b)
    ensures a == b
  {
    DistinctCount(a);
    DistinctCount(b);
    if a != [] {
      var m := a[|a| - 1];
      assert Greatest(s, m);
      ListsBack(s, a, m);
      ListsBack(s, b, m);
      ListsUnique(s - {m}, a[..|a| - 1], b[..|b| - 1]);
      assert a == a[..|a| - 1] + [m];
      assert b == b[..|b| - 1] + [m];
    }
  }

  /** Sorting distinct nonces lists them. */
  lemma SortedLists(ns: seq<nat>, sorted: seq<nat>)
    requires Distinct(ns) && multiset(sorted) == multiset(ns)
    requires forall i, j | 0 <= i < j < |sorted| :: sorted[i] <= sorted[j]
    ensures Lists(Elems(ns), sorted)
  {
    DistinctCount(ns);
    forall n ensures n in ns <==> n in sorted {
      assert n in multiset(ns) <==> n in multiset(sorted);
    }
    assert Elems(sorted) == Elems(ns);
    assert |multiset(ns)| == |ns| && |multiset(sorted)| == |sorted|;
    FullDistinct(sorted);
  }

  /** A list with as many elements as entries repeats nothing. */
  lemma {:induction false} FullDistinct(ns: seq<nat>)
    requires |Elems(ns)| == |ns|
    ensures Distinct(ns)
  {
    if ns != [] {
      var t, n := ns[..|ns| - 1], ns[|ns| - 1];
      assert ns == t + [n];
      ElemsPush(t, n);
      ElemsBound(t);
      FullDistinct(t);
      assert n !in Elems(t);
      forall i | 0 <= i < |t| ensures ns[i] != n {
        assert t[i] in Elems(t);
      }
    }
  }

  lemma {:induction false} ElemsBound(ns: seq<nat>)
    ensures |Elems(ns)| <= |ns|
  {
    if ns != [] {
      var t, n := ns[..|ns| - 1], ns[|ns| - 1];
      assert ns == t + [n];
      ElemsPush(t, n);
      ElemsBound(t);
    }
  }

  lemma {:induction false} DistinctMultiset(ns: seq<nat>)
    requires Distinct(ns)
    ensures multiset(ns) == multiset(Elems(ns))
  {
    if ns != [] {
      var t, n := ns[..|ns| - 1], ns[|ns| - 1];
      assert ns == t + [n];
      DistinctMultiset(t);
      ElemsPush(t, n);
      assert n !in t;
      assert multiset(Elems(t) + {n}) == multiset(Elems(t)) + multiset{n};
    }
  }

  /** A list with the nonces of a set, each once. */
  lemma MultisetDistinct(ns: seq<nat>, s: set<nat>)
    requires multiset(ns) == multiset(s)
    ensures Distinct(ns) && Elems(ns) == s
  {
    forall n: nat ensures n in ns <==> n in s {
      assert n in multiset(ns) <==> n in multiset(s);
    }
    assert Elems(ns) == s;
    assert |multiset(ns)| == |ns| && |multiset(s)| == |s|;
    FullDistinct(ns);
  }

  lemma {:induction false} LeastExists(s: set<nat>) returns (m: nat)
    requires s != {}
    ensures Least(s, m)
    decreases |s|
  {
    m :| m in s;
    if s != {m} {
      var k := LeastExists(s - {m});
      forall j | j in s ensures (if m < k then m else k) <= j {
        if j != m { assert j in s - {m}; }
      }
      m := if m < k then m else k;
    }
  }

  lemma {:induction false} GreatestExists(s: set<nat>) returns (m: nat)
    requires s != {}
    ensures Greatest(s, m)
    decreases |s|
  {
    m :| m in s;
    if s != {m} {
      var k := GreatestExists(s - {m});
      forall j | j in s ensures j <= (if m < k then k else m) {
        if j != m { assert j in s - {m}; }
      }
      m := if m < k then k else m;
    }
  }

  ghost predicate Consecutive(ns: seq<nat>, n: nat) {
    forall i | 0 <= i < |ns| :: ns[i] == n + i
  }

  /** `ns` is the unbroken run of `s` that starts at `n`. */
  ghost predicate RunOf(s: set<nat>, n: nat, ns: seq<nat>) {
    Consecutive(ns, n) && Elems(ns) <= s && n + |ns| !in s
  }

  /** A run ends before any gap. */
  lemma RunBefore(s: set<nat>, n: nat, ns: seq<nat>, gap: nat)
    requires Consecutive(ns, n) && Elems(ns) <= s && n <= gap && gap !in s
    ensures n + |ns| <= gap
  {
    var k: nat := gap - n;
    if k < |ns| {
      ElemAt(ns, k);
      assert false;
    }
  }

  lemma ElemAt(ns: seq<nat>, i: nat)
    requires i < |ns|
    ensures ns[i] in Elems(ns)
  {
  }

  lemma RunUnique(s: set<nat>, n: nat, a: seq<nat>, b: seq<nat>)
    requires RunOf(s, n, a) && RunOf(s, n, b)
    ensures a == b
  {
    RunBefore(s, n, a, n + |b|);
    RunBefore(s, n, b, n + |a|);
  }
}

/** Sums of weights over multisets and lists. */
module Weights {
  /** The sum of the weights of all elements. */
  ghost function Weigh<T(!new)>(m: multiset<T>, w: T -> nat): nat
    decreases |m|
  {
    if m == multiset{} then 0
    else
      var x :| x in m;
      w(x) + Weigh(m - multiset{x}, w)
  }

  lemma {:induction false} WeighOut<T(!new)>(m: multiset<T>, w: T -> nat, x: T)
    requires x in m
    ensures Weigh(m, w) == w(x) + Weigh(m - multiset{x}, w)
    decreases |m|
  {
    var y :| y in m && Weigh(m, w) == w(y) + Weigh(m - multiset{y}, w);
    if x != y {
      WeighOut(m - multiset{y}, w, x);
      WeighOut(m - multiset{x}, w, y);
      assert m - multiset{x} - multiset{y} == m - multiset{y} - multiset{x};
    }
  }

  lemma WeighIn<T(!new)>(m: multiset<T>, w: T -> nat, x: T)
    ensures Weigh(m + multiset{x}, w) == w(x) + Weigh(m, w)
  {
    WeighOut(m + multiset{x}, w, x);
    assert m + multiset{x} - multiset{x} == m;
  }

  ghost function Total<T>(s: seq<T>, w: T -> nat): nat {
    if s == [] then 0 else Total(s[..|s| - 1], w) + w(s[|s| - 1])
  }

  lemma TotalPush<T>(s: seq<T>, w: T -> nat, x: T)
    ensures Total(s + [x], w) == Total(s, w) + w(x)
  {
    assert (s + [x])[..|s|] == s;
  }

  lemma {:induction false} TotalAgree<T>(s: seq<T>, w: T -> nat, v: T -> nat)
    requires forall x | x in s :: w(x) == v(x)
    ensures Total(s, w) == Total(s, v)
  {
    if s != [] {
      TotalAgree(s[..|s| - 1], w, v);
    }
  }

  lemma {:induction false} WeighSeq<T(!new)>(m: multiset<T>, s: seq<T>, w: T -> nat)
    ensures Weigh(m + multiset(s), w) == Weigh(m, w) + Total(s, w)
  {
    if s == [] {
      assert m + multiset(s) == m;
    } else {
      var t, x := s[..|s| - 1], s[|s| - 1];
      assert s == t + [x];
      WeighSeq(m, t, w);
      WeighIn(m + multiset(t), w, x);
      assert m + multiset(s) == m + multiset(t) + multiset{x};
    }
  }

  /** Weights that agree on the elements give the same sum. */
  lemma {:induction false} WeighAgree<T(!new)>(m: multiset<T>, w: T -> nat, v: T -> nat)
    requires forall x | x in m :: w(x) == v(x)
    ensures Weigh(m, w) == Weigh(m, v)
    decreases |m|
  {
    if m != multiset{} {
      var x :| x in m;
      WeighOut(m, w, x);
      WeighOut(m, v, x);
      WeighAgree(m - multiset{x}, w, v);
    }
  }

  lemma {:induction false} WeighLess<T(!new)>(m: multiset<T>, v: T -> nat, w: T -> nat)
    requires forall x | x in m :: v(x) <= w(x)
    ensures Weigh(m, v) <= Weigh(m, w)
    decreases |m|
  {
    if m != multiset{} {
      var x :| x in m;
      WeighOut(m, v, x);
      WeighOut(m, w, x);
      WeighLess(m - multiset{x}, v, w);
    }
  }

  /** Weights that add up give sums that add up. */
  lemma {:induction false} WeighAdd<T(!new)>(m: multiset<T>, v: T -> nat, w: T -> nat, u: T -> nat)
    requires forall x | x in m :: u(x) == v(x) + w(x)
    ensures Weigh(m, u) == Weigh(m, v) + Weigh(m, w)
    decreases |m|
  {
    if m != multiset{} {
      var x :| x in m;
      WeighOut(m, v, x);
      WeighOut(m, w, x);
      WeighOut(m, u, x);
      WeighAdd(m - multiset{x}, v, w, u);
    }
  }

  /** Changing one weight changes the sum by as much. */
  lemma WeighChange<T(!new)>(s: set<T>, w: T -> nat, v: T -> nat, x: T)
    requires x in s && forall y | y in s && y != x :: w(y) == v(y)
    ensures Weigh(multiset(s), v) == Weigh(multiset(s), w) - w(x) + v(x)
  {
    WeighOut(multiset(s), w, x);
    WeighOut(multiset(s), v, x);
    assert multiset(s) - multiset{x} == multiset(s - {x});
    WeighAgree(multiset(s) - multiset{x}, w, v);
  }
}

/**
 * Bringing the number of pending transactions under the global limit (truncatePending), over any kind of
 * list that has a length and whose last entry can be cut off.
 */
module Truncation {
  import opened Weights

  /** How many entries a list has, and the list without its last one. */
  datatype Ops<!L> = Ops(len: L -> nat, cut: L -> L)

  ghost predicate Cutting<L(!new)>(ops: Ops<L>) {
    forall x | ops.len(x) > 0 :: ops.len(ops.cut(x)) == ops.len(x) - 1
  }

  /** `x` with its last `n` entries cut off. */
  ghost function Cuts<L>(ops: Ops<L>, x: L, n: nat): L {
    if n == 0 then x else ops.cut(Cuts(ops, x, n - 1))
  }

  /** `y` is `x` with some last entries cut off. */
  ghost predicate Trimmed<L>(ops: Ops<L>, x: L, y: L) {
    ops.len(y) <= ops.len(x) && y == Cuts(ops, x, ops.len(x) - ops.len(y))
  }

  lemma TrimmedMore<L(!new)>(ops: Ops<L>, x: L, y: L)
    requires Cutting(ops) && Trimmed(ops, x, y) && ops.len(y) > 0
    ensures Trimmed(ops, x, ops.cut(y))
  {
  }

  function LenOf<A(==), L>(ops: Ops<L>, lists: map<A, L>, a: A): nat {
    if a in lists then ops.len(lists[a]) else 0
  }

  ghost function LenAt<A, L>(ops: Ops<L>, lists: map<A, L>): A -> nat {
    (a: A) => LenOf(ops, lists, a)
  }

  /** The number of entries of all lists. */
  ghost function Size<A(!new), L(!new)>(ops: Ops<L>, lists: map<A, L>): nat {
    Weigh(multiset(lists.Keys), LenAt(ops, lists))
  }

  lemma SizeCut<A(!new), L(!new)>(ops: Ops<L>, lists: map<A, L>, a: A)
    requires Cutting(ops) && a in lists && ops.len(lists[a]) > 0
    ensures Size(ops, lists[a := ops.cut(lists[a])]) == Size(ops, lists) - 1
  {
    var next := lists[a := ops.cut(lists[a])];
    assert next.Keys == lists.Keys;
    WeighChange(lists.Keys, LenAt(ops, lists), LenAt(ops, next), a);
  }

  method CountAll<A(!new, ==), L(!new)>(ops: Ops<L>, lists: map<A, L>) returns (total: nat)
    ensures total == Size(ops, lists)
  {
    total := 0;
    var todo := lists.Keys;
    while todo != {}
      invariant todo <= lists.Keys
      invariant total + Weigh(multiset(todo), LenAt(ops, lists)) == Size(ops, lists)
    {
      var a :| a in todo;
      WeighOut(multiset(todo), LenAt(ops, lists), a);
      assert multiset(todo) - multiset{a} == multiset(todo - {a});
      total, todo := total + ops.len(lists[a]), todo - {a};
    }
    assert multiset(todo) == multiset{};
  }

  ghost predicate Distinct<A>(s: seq<A>) {
    forall i, j | 0 <= i < j < |s| :: s[i] != s[j]
  }

  /** The offenders from `lo` to `hi` are there and have exactly `n` entries. */
  ghost predicate LevelIn<A, L>(ops: Ops<L>, lists: map<A, L>, offenders: seq<A>, lo: nat, hi: nat, n: nat)
    requires hi <= |offenders|
  {
    forall i | lo <= i < hi :: offenders[i] in lists && ops.len(lists[offenders[i]]) == n
  }

  ghost predicate Level<A, L>(ops: Ops<L>, lists: map<A, L>, offenders: seq<A>, n: nat) {
    LevelIn(ops, lists, offenders, 0, |offenders|, n)
  }

  /** Each list is trimmed from what it was, and only the lists of offenders are. */
  ghost predicate Cut<A, L>(ops: Ops<L>, was: map<A, L>, lists: map<A, L>, offenders: seq<A>) {
    && lists.Keys == was.Keys
    && (forall a | a in was :: Trimmed(ops, was[a], lists[a]))
    && (forall a | a in was && a !in offenders :: lists[a] == was[a])
  }

  lemma CutMore<A(!new), L(!new)>(ops: Ops<L>, was: map<A, L>, lists: map<A, L>, offenders: seq<A>, a: A)
    requires Cutting(ops) && Cut(ops, was, lists, offenders) && a in offenders && a in lists && ops.len(lists[a]) > 0
    ensures Cut(ops, was, lists[a := ops.cut(lists[a])], offenders)
  {
    TrimmedMore(ops, was[a], lists[a]);
  }

  ghost predicate Same<A, L>(was: map<A, L>, lists: map<A, L>, but: seq<A>) {
    forall a | a in was && a !in but :: a in lists && lists[a] == was[a]
  }

  /** The first `i` of `k` offenders lost one of their `n` entries. */
  ghost predicate Rounding<A, L>(ops: Ops<L>, lists0: map<A, L>, lists: map<A, L>, offenders: seq<A>, i: nat, k: nat,
                                 n: nat)
    requires i <= k <= |offenders| && n > 0
  {
    && LevelIn(ops, lists, offenders, 0, i, n - 1) && LevelIn(ops, lists, offenders, i, k, n)
    && Same(lists0, lists, offenders[..k])
  }

  lemma RoundMore<A(!new), L(!new)>(ops: Ops<L>, lists0: map<A, L>, lists: map<A, L>, offenders: seq<A>, i: nat, k: nat,
                                    n: nat)
    requires Cutting(ops) && Distinct(offenders) && n > 0 && i < k <= |offenders|
    requires Rounding(ops, lists0, lists, offenders, i, k, n)
    ensures offenders[i] in lists && ops.len(lists[offenders[i]]) == n
    ensures Rounding(ops, lists0, lists[offenders[i] := ops.cut(lists[offenders[i]])], offenders, i + 1, k, n)
  {
    var a := offenders[i];
    var next := lists[a := ops.cut(lists[a])];
    assert offenders[..k][i] == a;
    assert ops.len(next[a]) == n - 1;
    forall j | 0 <= j < i + 1 ensures offenders[j] in next && ops.len(next[offenders[j]]) == n - 1 {
      assert j < i ==> offenders[j] != a;
    }
  }

  /** Cut the last entry off the lists of the first `k` offenders. */
  method Round<A(!new, ==), L(!new)>(ops: Ops<L>, ghost was: map<A, L>, lists0: map<A, L>, offenders: seq<A>, k: nat,
                                     ghost n: nat)
      returns (lists: map<A, L>)
    requires Cutting(ops) && Distinct(offenders) && n > 0 && k <= |offenders|
             && LevelIn(ops, lists0, offenders, 0, k, n)
    requires Cut(ops, was, lists0, offenders)
    ensures Cut(ops, was, lists, offenders) && LevelIn(ops, lists, offenders, 0, k, n - 1)
    ensures Same(lists0, lists, offenders[..k])
    ensures Size(ops, lists) == Size(ops, lists0) - k
  {
    lists := lists0;
    for i := 0 to k
      invariant Cut(ops, was, lists, offenders) && Size(ops, lists) == Size(ops, lists0) - i
      invariant Rounding(ops, lists0, lists, offenders, i, k, n)
    {
      var a := offenders[i];
      RoundMore(ops, lists0, lists, offenders, i, k, n);
      SizeCut(ops, lists, a);
      CutMore(ops, was, lists, offenders, a);
      lists := lists[a := ops.cut(lists[a])];
    }
  }

  /** Rounds over the first `k` offenders until the total fits or they are down to `floor`. */
  method CutDown<A(!new, ==), L(!new)>(ops: Ops<L>, ghost was: map<A, L>, lists0: map<A, L>, offenders: seq<A>, k: nat,
                                       floor: nat,
                                       limit: nat, total0: nat, ghost n: nat)
      returns (lists: map<A, L>, total: nat, ghost m: nat)
    requires Cutting(ops) && Distinct(offenders) && 0 < k <= |offenders| && floor <= n
    requires Cut(ops, was, lists0, offenders) && LevelIn(ops, lists0, offenders, 0, k, n) && total0 == Size(ops, lists0)
    ensures Cut(ops, was, lists, offenders) && LevelIn(ops, lists, offenders, 0, k, m) && total == Size(ops, lists)
    ensures floor <= m <= n && Same(lists0, lists, offenders[..k])
    ensures total <= limit || m == floor
    ensures total0 + k > limit ==> total + k > limit
    ensures total0 <= limit ==> lists == lists0
  {
    lists, total, m := lists0, total0, n;
    while total > limit && ops.len(lists[offenders[k - 1]]) > floor
      invariant Cut(ops, was, lists, offenders) && LevelIn(ops, lists, offenders, 0, k, m) && total == Size(ops, lists)
      invariant floor <= m <= n && Same(lists0, lists, offenders[..k])
      invariant total0 + k > limit ==> total + k > limit
      invariant total0 <= limit ==> lists == lists0
      decreases m
    {
      ghost var before := lists;
      lists := Round(ops, was, lists, offenders, k, m);
      total, m := total - k, m - 1;
    }
  }

  /** Non-local accounts with more than their allowance. */
  function Spammers<A(==), L>(ops: Ops<L>, lists: map<A, L>, locals: set<A>, allowance: nat): set<A> {
    set a | a in lists && a !in locals && ops.len(lists[a]) > allowance
  }

  /** Lists that were cut have `n` entries, and no other non-local list has more. */
  ghost predicate Fair<A, L>(ops: Ops<L>, was: map<A, L>, lists: map<A, L>, locals: set<A>, n: nat)
    requires lists.Keys == was.Keys
  {
    forall a | a in was :: (lists[a] != was[a] ==> ops.len(lists[a]) == n) && (a !in locals ==> ops.len(lists[a]) <= n)
  }

  /** The spammers split into those already chosen, in order, and the rest. */
  ghost predicate Chosen<A>(spam: set<A>, offenders: seq<A>, rest: set<A>) {
    && Distinct(offenders)
    && rest <= spam
    && (forall a | a in offenders :: a in spam && a !in rest)
    && (forall a | a in spam :: a in rest || a in offenders)
  }

  lemma ChosenMore<A>(spam: set<A>, offenders: seq<A>, rest: set<A>, o: A)
    requires Chosen(spam, offenders, rest) && o in rest
    ensures Chosen(spam, offenders + [o], rest - {o})
  {
  }

  lemma {:induction false} ChosenCount<A>(spam: set<A>, offenders: seq<A>, rest: set<A>)
    requires Chosen(spam, offenders, rest)
    ensures |spam| == |offenders| + |rest|
    decreases |offenders|
  {
    if offenders == [] {
      assert spam == rest;
    } else {
      var t, o := offenders[..|offenders| - 1], offenders[|offenders| - 1];
      assert offenders == t + [o];
      assert o !in t;
      ChosenCount(spam, t, rest + {o});
    }
  }

  lemma {:induction false} MaxExists<A(!new)>(s: set<A>, w: A -> nat) returns (a: A)
    requires s != {}
    ensures a in s && forall b | b in s :: w(b) <= w(a)
    decreases |s|
  {
    a :| a in s;
    if s != {a} {
      var b := MaxExists(s - {a}, w);
      assert s == (s - {a}) + {a};
      a := if w(a) < w(b) then b else a;
    }
  }

  /** An entry of the highest priority; ties are broken arbitrarily. */
  method PopMax<A(!new, ==), L>(ops: Ops<L>, lists: map<A, L>, spammers: set<A>) returns (a: A)
    requires spammers != {} && spammers <= lists.Keys
    ensures a in spammers && forall b | b in spammers :: ops.len(lists[b]) <= ops.len(lists[a])
  {
    ghost var c := MaxExists(spammers, LenAt(ops, lists));
    assert forall b | b in spammers :: LenOf(ops, lists, b) <= LenOf(ops, lists, c);
    a :| a in spammers && forall b | b in spammers :: LenOf(ops, lists, b) <= LenOf(ops, lists, a);
  }

  lemma CutWiden<A, L>(ops: Ops<L>, was: map<A, L>, lists: map<A, L>, offenders: seq<A>, o: A)
    requires Cut(ops, was, lists, offenders)
    ensures Cut(ops, was, lists, offenders + [o])
  {
  }

  /** Cutting the chosen offenders down to `m`, at or above everybody else, is fair. */
  lemma FairAfter<A, L>(ops: Ops<L>, was: map<A, L>, lists0: map<A, L>, lists: map<A, L>, locals: set<A>,
                        offenders: seq<A>, k: nat, m: nat)
    requires k <= |offenders| && Cut(ops, was, lists, offenders) && LevelIn(ops, lists, offenders, 0, k, m)
    requires lists0.Keys == was.Keys && Same(lists0, lists, offenders[..k])
    requires forall a | a in was && a !in offenders[..k] :: lists0[a] == was[a]
                                                            && (a !in locals ==> ops.len(was[a]) <= m)
    ensures Fair(ops, was, lists, locals, m)
  {
    forall a | a in was
      ensures (lists[a] != was[a] ==> ops.len(lists[a]) == m) && (a !in locals ==> ops.len(lists[a]) <= m)
    {
      if a in offenders[..k] {
        var i :| 0 <= i < k && offenders[i] == a;
      }
    }
  }

  /** Where the gathering of offenders stands: `n` is the length of the lists cut so far. */
  ghost predicate Gathering<A, L>(ops: Ops<L>, was: map<A, L>, lists: map<A, L>, locals: set<A>, allowance: nat,
                                  offenders: seq<A>, rest: set<A>, n: nat) {
    && Chosen(Spammers(ops, was, locals, allowance), offenders, rest)
    && Cut(ops, was, lists, offenders)
    && (offenders == [] ==> lists == was)
    && (offenders != [] ==> n > allowance && Fair(ops, was, lists, locals, n))
  }

  /** `o` is a longest list of the rest. */
  ghost predicate Longest<A, L>(ops: Ops<L>, lists: map<A, L>, rest: set<A>, o: A)
    requires rest <= lists.Keys
  {
    o in rest && forall b | b in rest :: ops.len(lists[b]) <= ops.len(lists[o])
  }

  /** The next offender was not cut yet, is over the allowance and not longer than those chosen before, and nobody who
      is not chosen is longer. */
  lemma Popped<A, L>(ops: Ops<L>, was: map<A, L>, lists: map<A, L>, locals: set<A>, allowance: nat, offenders: seq<A>,
                     rest: set<A>, n: nat, o: A)
    requires Gathering(ops, was, lists, locals, allowance, offenders, rest, n)
    requires rest <= lists.Keys && Longest(ops, lists, rest, o)
    ensures o !in offenders && o in was && lists[o] == was[o] && ops.len(was[o]) > allowance
    ensures offenders != [] ==> ops.len(was[o]) <= n
    ensures forall a | a in was && a !in offenders :: lists[a] == was[a]
    ensures forall a | a in was && a !in offenders && a !in locals :: ops.len(was[a]) <= ops.len(was[o])
  {
    forall a | a in was && a !in offenders && a !in locals ensures ops.len(was[a]) <= ops.len(was[o]) {
      if a in rest {
        assert ops.len(lists[a]) <= ops.len(lists[o]);
      } else {
        assert a !in Spammers(ops, was, locals, allowance);
      }
    }
  }

  /** The first offender. */
  lemma GatherFirst<A, L>(ops: Ops<L>, was: map<A, L>, locals: set<A>, allowance: nat, rest: set<A>, n: nat, o: A)
    requires Gathering(ops, was, was, locals, allowance, [], rest, n)
    requires rest <= was.Keys && Longest(ops, was, rest, o)
    ensures Gathering(ops, was, was, locals, allowance, [o], rest - {o}, ops.len(was[o]))
    ensures Level(ops, was, [o], ops.len(was[o]))
  {
    Popped(ops, was, was, locals, allowance, [], rest, n, o);
    ChosenMore(Spammers(ops, was, locals, allowance), [], rest, o);
    assert [] + [o] == [o];
  }

  /** A further offender, once the earlier ones came down to `m`. */
  lemma GatherMore<A, L>(ops: Ops<L>, was: map<A, L>, lists0: map<A, L>, lists: map<A, L>, locals: set<A>,
                         allowance: nat, offenders: seq<A>, rest: set<A>, n: nat, o: A, m: nat)
    requires Gathering(ops, was, lists0, locals, allowance, offenders, rest, n) && offenders != []
    requires rest <= lists0.Keys && Longest(ops, lists0, rest, o) && ops.len(lists0[o]) <= m
    requires Cut(ops, was, lists, offenders + [o]) && LevelIn(ops, lists, offenders + [o], 0, |offenders|, m)
    requires Same(lists0, lists, offenders)
    ensures Gathering(ops, was, lists, locals, allowance, offenders + [o], rest - {o}, m)
    ensures m == ops.len(lists0[o]) ==> Level(ops, lists, offenders + [o], m)
  {
    Popped(ops, was, lists0, locals, allowance, offenders, rest, n, o);
    ChosenMore(Spammers(ops, was, locals, allowance), offenders, rest, o);
    assert (offenders + [o])[..|offenders|] == offenders;
    FairAfter(ops, was, lists0, lists, locals, offenders + [o], |offenders|, m);
  }

  lemma RestListed<A, L>(ops: Ops<L>, was: map<A, L>, lists: map<A, L>, locals: set<A>, allowance: nat,
                         offenders: seq<A>, rest: set<A>, n: nat)
    requires Gathering(ops, was, lists, locals, allowance, offenders, rest, n)
    ensures rest <= lists.Keys
  {
  }

  /** Bring the earlier offenders down to the next one, `o`. */
  method LevelDown<A(!new, ==), L(!new)>(ops: Ops<L>, ghost was: map<A, L>, lists0: map<A, L>, ghost locals: set<A>,
                                         ghost allowance: nat, limit: nat, offenders: seq<A>, ghost rest: set<A>, o: A,
                                         total0: nat, ghost n: nat)
      returns (lists: map<A, L>, total: nat, ghost m: nat)
    requires Cutting(ops) && Gathering(ops, was, lists0, locals, allowance, offenders, rest, n) && offenders != []
    requires rest <= lists0.Keys && Longest(ops, lists0, rest, o)
    requires total0 == Size(ops, lists0) && total0 > limit && Level(ops, lists0, offenders, n)
    ensures Gathering(ops, was, lists, locals, allowance, offenders + [o], rest - {o}, m)
    ensures total == Size(ops, lists) && total + |offenders| > limit
    ensures total > limit ==> Level(ops, lists, offenders + [o], m)
  {
    Popped(ops, was, lists0, locals, allowance, offenders, rest, n, o);
    ChosenMore(Spammers(ops, was, locals, allowance), offenders, rest, o);
    CutWiden(ops, was, lists0, offenders, o);
    assert (offenders + [o])[..|offenders|] == offenders;
    lists, total, m := CutDown(ops, was, lists0, offenders + [o], |offenders|, ops.len(lists0[o]), limit, total0, n);
    GatherMore(ops, was, lists0, lists, locals, allowance, offenders, rest, n, o, m);
  }

  /** Take in the next offender and bring the earlier ones down to it. */
  method AddOffender<A(!new, ==), L(!new)>(ops: Ops<L>, ghost was: map<A, L>, lists0: map<A, L>, ghost locals: set<A>,
                                           ghost allowance: nat, limit: nat, offenders0: seq<A>, rest0: set<A>,
                                           total0: nat, ghost n0: nat)
      returns (lists: map<A, L>, offenders: seq<A>, rest: set<A>, total: nat, ghost n: nat)
    requires Cutting(ops) && Gathering(ops, was, lists0, locals, allowance, offenders0, rest0, n0)
    requires total0 == Size(ops, lists0) && total0 > limit && rest0 != {}
             && (offenders0 != [] ==> Level(ops, lists0, offenders0, n0))
    ensures Gathering(ops, was, lists, locals, allowance, offenders, rest, n) && offenders != []
            && |rest| == |rest0| - 1
    ensures total == Size(ops, lists) && total + |offenders| > limit
    ensures total > limit ==> Level(ops, lists, offenders, n)
  {
    RestListed(ops, was, lists0, locals, allowance, offenders0, rest0, n0);
    var o := PopMax(ops, lists0, rest0);
    if |offenders0| == 0 {
      GatherFirst(ops, was, locals, allowance, rest0, n0, o);
      offenders, lists, total, n := [o], lists0, total0, ops.len(lists0[o]);
    } else {
      lists, total, n := LevelDown(ops, was, lists0, locals, allowance, limit, offenders0, rest0, o, total0, n0);
      offenders := offenders0 + [o];
    }
    rest := rest0 - {o};
  }

  /** What truncation promises: only the ends of over-long non-local lists go, never below the allowance, the longest
      lists first; the total fits or nobody is over the allowance; and it stops within one round of the limit. */
  ghost predicate Truncated<A(!new), L(!new)>(ops: Ops<L>, was: map<A, L>, lists: map<A, L>, locals: set<A>, limit: nat,
                                              allowance: nat) {
    && Trims(ops, was, lists)
    && Spares(ops, was, lists, locals, allowance)
    && (Size(ops, lists) <= limit || NoneOver(ops, lists, locals, allowance))
    && (Size(ops, was) <= limit ==> lists == was)
    && (Size(ops, was) > limit ==> Size(ops, lists) + |Spammers(ops, was, locals, allowance)| > limit)
  }

  /** Lists only lose their ends. */
  ghost predicate Trims<A, L>(ops: Ops<L>, was: map<A, L>, lists: map<A, L>) {
    lists.Keys == was.Keys && forall a | a in was :: Trimmed(ops, was[a], lists[a])
  }

  /** Local lists are spared, nobody is cut below the allowance, and no other non-local list is longer than a cut
      one. */
  ghost predicate Spares<A, L>(ops: Ops<L>, was: map<A, L>, lists: map<A, L>, locals: set<A>, allowance: nat)
    requires lists.Keys == was.Keys
  {
    && (forall a | a in was && lists[a] != was[a] :: a !in locals && ops.len(lists[a]) >= allowance)
    && (forall a, b | a in was && b in was && lists[a] != was[a] && b !in locals ::
        ops.len(lists[b]) <= ops.len(lists[a]))
  }

  ghost predicate NoneOver<A, L>(ops: Ops<L>, lists: map<A, L>, locals: set<A>, allowance: nat) {
    forall a | a in lists && a !in locals :: ops.len(lists[a]) <= allowance
  }

  lemma GatheredTruncated<A(!new), L(!new)>(ops: Ops<L>, was: map<A, L>, lists: map<A, L>, locals: set<A>, limit: nat,
                                            allowance: nat,
                                           offenders: seq<A>, rest: set<A>, n: nat)
    requires Chosen(Spammers(ops, was, locals, allowance), offenders, rest) && Cut(ops, was, lists, offenders)
    requires offenders == [] ==> lists == was
    requires offenders != [] ==> n >= allowance && Fair(ops, was, lists, locals, n)
    requires Size(ops, was) > limit && Size(ops, lists) + |offenders| > limit
    requires Size(ops, lists) <= limit || (rest == {} && (offenders != [] ==> n == allowance))
    ensures Truncated(ops, was, lists, locals, limit, allowance)
  {
    var spam := Spammers(ops, was, locals, allowance);
    ChosenCount(spam, offenders, rest);
    if offenders == [] {
      assert forall a | a in was && a !in locals :: a in spam || ops.len(was[a]) <= allowance;
    }
  }

  /** Truncate the lists of all accounts. */
  method Truncate<A(!new, ==), L(!new)>(ops: Ops<L>, was: map<A, L>, locals: set<A>, limit: nat, allowance: nat)
    returns (lists: map<A, L>)
    requires Cutting(ops)
    ensures Truncated(ops, was, lists, locals, limit, allowance)
  {
    var total := CountAll(ops, was);
    lists := was;
    if total <= limit {
      return;
    }
    var rest := Spammers(ops, was, locals, allowance);
    var offenders: seq<A> := [];
    ghost var n := 0;
    while total > limit && rest != {}
      invariant Gathering(ops, was, lists, locals, allowance, offenders, rest, n)
      invariant total == Size(ops, lists) && total + |offenders| > limit
      invariant total > limit && offenders != [] ==> Level(ops, lists, offenders, n)
      decreases |rest|
    {
      lists, offenders, rest, total, n := AddOffender(ops, was, lists, locals, allowance, limit, offenders, rest, total,
                                                      n);
    }
    if total > limit && |offenders| > 0 {
      ghost var before := lists;
      lists, total, n := CutDown(ops, was, lists, offenders, |offenders|, allowance, limit, total, n);
      assert offenders[..|offenders|] == offenders;
      FairAfter(ops, was, before, lists, locals, offenders, |offenders|, n);
    }
    GatheredTruncated(ops, was, lists, locals, limit, allowance, offenders, rest, n);
  }
}

/**
 * The nonce-sorted transaction map (txSortedMap): a map from nonces, a heap of the same nonces and an
 * optional cached listing.  Every operation is specified on the plain map alone.
 */
module SortedMap {
  import opened Util
  import opened Nonces
  import opened Txs
  import Heap

  predicate NonceLt(a: nat, b: nat) { a < b }

  ghost predicate Indexed(items: Items, index: seq<nat>) {
    multiset(index) == multiset(items.Keys)
  }

  lemma IndexEntry(items: Items, index: seq<nat>, n: nat)
    requires Indexed(items, index)
    ensures n in index <==> n in items
    ensures |index| == |items|
  {
    assert n in multiset(index) <==> n in multiset(items.Keys);
  }

  /** The heap's root is the least nonce. */
  lemma RootIsLeast(items: Items, index: seq<nat>)
    requires Indexed(items, index) && Heap.IsHeap(NonceLt, index) && index != []
    ensures Least(items.Keys, index[0])
  {
    IndexEntry(items, index, index[0]);
    forall k | k in items ensures index[0] <= k {
      IndexEntry(items, index, k);
      var i: nat :| i < |index| && index[i] == k;
      Heap.RootLeast(NonceLt, index, |index|, i);
    }
  }

  lemma NoneBelow(items: Items, index: seq<nat>, n: nat)
    requires Indexed(items, index) && Heap.IsHeap(NonceLt, index)
    requires index == [] || index[0] >= n
    ensures Over(items.Keys, n)
  {
    if index == [] {
      IndexEntry(items, index, 0);
      assert items.Keys == {};
    } else {
      RootIsLeast(items, index);
    }
  }

  lemma IndexedDrop(items: Items, index: seq<nat>, index': seq<nat>, n: nat)
    requires Indexed(items, index) && n in items
    requires multiset(index) == multiset(index') + multiset{n}
    ensures Indexed(items - {n}, index')
  {
    var rest := items - {n};
    assert rest.Keys == items.Keys - {n};
    assert multiset(items.Keys) == multiset(rest.Keys) + multiset{n};
    forall k ensures multiset(index')[k] == multiset(rest.Keys)[k] {
      assert multiset(index)[k] == multiset(index')[k] + multiset{n}[k];
    }
    assert multiset(index') == multiset(rest.Keys);
  }

  lemma IndexedAdd(items: Items, index: seq<nat>, index': seq<nat>, tx: Tx)
    requires Indexed(items, index) && tx.nonce !in items
    requires multiset(index') == multiset(index) + multiset{tx.nonce}
    ensures Indexed(items[tx.nonce := tx], index')
  {
    var more := items[tx.nonce := tx];
    assert more.Keys == items.Keys + {tx.nonce};
    assert multiset(more.Keys) == multiset(items.Keys) + multiset{tx.nonce};
  }

  /** What `drop` leaves. */
  ghost function Keep(items: Items, drop: Tx -> bool): Items {
    map n | n in items && !drop(items[n]) :: items[n]
  }

  /** `removed` came off in increasing order, and `now` is what is left. */
  ghost predicate Popped(was: Items, now: Items, removed: seq<Tx>) {
    Dropped(was, now, removed) && Rising(Of(removed)) && AllBelow(Elems(Of(removed)), now.Keys)
  }

  lemma PoppedMore(was: Items, now: Items, removed: seq<Tx>, tx: Tx)
    requires Popped(was, now, removed) && Least(now.Keys, tx.nonce) && now[tx.nonce] == tx
    ensures Popped(was, now - {tx.nonce}, removed + [tx])
  {
    DroppedMore(was, now, removed, tx);
    PushLeast(now.Keys, Of(removed), tx.nonce);
    OfPush(removed, tx);
    assert (now - {tx.nonce}).Keys == now.Keys - {tx.nonce};
  }

  /** The cache without its first `k` entries lists what is left. */
  ghost predicate Shifted(cache: Option<seq<Tx>>, k: nat, now: Items) {
    cache.Some? ==> k <= |cache.value| && Listing(now, cache.value[k..])
  }

  lemma ShiftedMore(cache: Option<seq<Tx>>, k: nat, now: Items, m: nat)
    requires Shifted(cache, k, now) && Least(now.Keys, m)
    ensures Shifted(cache, k + 1, now - {m})
  {
    if cache.Some? {
      var left := cache.value[k..];
      ListingFront(now, left, m);
      assert left[1..] == cache.value[k + 1..];
    }
  }

  /** Popping in order up to a threshold splits the map there. */
  lemma ForwardDone(was: Items, now: Items, removed: seq<Tx>, threshold: nat)
    requires Popped(was, now, removed)
    requires Under(Elems(Of(removed)), threshold) && Over(now.Keys, threshold)
    ensures now == From(was, threshold) && Listing(Below(was, threshold), removed)
  {
    var below, from, ns := Below(was, threshold), From(was, threshold), Of(removed);
    assert below.Keys == Elems(ns);
    assert from.Keys == now.Keys;
    SubmapIs(now, was, from);
    forall i | 0 <= i < |removed| ensures removed[i].nonce in below && below[removed[i].nonce] == removed[i] {
      assert ns[i] in Elems(ns);
    }
  }

  ghost predicate SortedBy<T>(key: T -> nat, s: seq<T>) {
    forall i, j | 0 <= i < j < |s| :: key(s[i]) <= key(s[j])
  }

  method InsertBy<T(==)>(key: T -> nat, s: seq<T>, x: T) returns (r: seq<T>)
    requires SortedBy(key, s)
    ensures SortedBy(key, r) && multiset(r) == multiset(s) + multiset{x} && |r| == |s| + 1
  {
    var p := 0;
    while p < |s| && key(s[p]) <= key(x)
      invariant 0 <= p <= |s|
      invariant forall i | 0 <= i < p :: key(s[i]) <= key(x)
    {
      p := p + 1;
    }
    InsertMultiset(s, p, x);
    r := s[..p] + [x] + s[p..];
  }

  /** Insertion sort by a key. */
  method SortBy<T(==)>(key: T -> nat, s: seq<T>) returns (r: seq<T>)
    ensures SortedBy(key, r) && multiset(r) == multiset(s) && |r| == |s|
  {
    r := [];
    for k := 0 to |s|
      invariant SortedBy(key, r) && multiset(r) == multiset(s[..k]) && |r| == k
    {
      assert s[..k + 1] == s[..k] + [s[k]];
      r := InsertBy(key, r, s[k]);
    }
    assert s[..|s|] == s;
  }

  lemma InsertMultiset<T>(r: seq<T>, p: nat, x: T)
    requires p <= |r|
    ensures multiset(r[..p] + [x] + r[p..]) == multiset(r) + multiset{x}
  {
    assert r == r[..p] + r[p..];
  }

  ghost predicate Stored(items: Items, index: seq<nat>) {
    Keyed(items) && Indexed(items, index) && Heap.IsHeap(NonceLt, index)
  }

  /** Pop the least nonce off both the heap and the map. */
  method PopLeast(items: Items, index: seq<nat>) returns (tx: Tx, items': Items, index': seq<nat>)
    requires Stored(items, index) && index != []
    ensures Stored(items', index') && |index'| == |index| - 1
    ensures tx.nonce == index[0] && Least(items.Keys, tx.nonce) && tx == items[tx.nonce]
    ensures items' == items - {tx.nonce}
  {
    RootIsLeast(items, index);
    var nonce, h := Heap.Pop(NonceLt, index);
    IndexedDrop(items, index, h, nonce);
    tx, items', index' := items[nonce], items - {nonce}, h;
  }

  /** Pop while the least nonce is below the threshold. */
  method PopBelow(was: Items, index0: seq<nat>, ghost cache: Option<seq<Tx>>, threshold: nat)
      returns (removed: seq<Tx>, items: Items, index: seq<nat>)
    requires Stored(was, index0) && Shifted(cache, 0, was)
    ensures Stored(items, index) && Popped(was, items, removed) && Shifted(cache, |removed|, items)
    ensures Under(Elems(Of(removed)), threshold) && Over(items.Keys, threshold)
  {
    removed, items, index := [], was, index0;
    DroppedNothing(was);
    while index != [] && index[0] < threshold
      invariant Stored(items, index) && Popped(was, items, removed) && Shifted(cache, |removed|, items)
      invariant Under(Elems(Of(removed)), threshold)
      decreases |index|
    {
      var tx, rest, h := PopLeast(items, index);
      ShiftedMore(cache, |removed|, items, tx.nonce);
      PoppedMore(was, items, removed, tx);
      OfPush(removed, tx);
      ElemsPush(Of(removed), tx.nonce);
      removed, items, index := removed + [tx], rest, h;
    }
    NoneBelow(items, index, threshold);
  }

  /** Delete, in any order, what `drop` selects. */
  method FilterOut(was: Items, drop: Tx -> bool) returns (removed: seq<Tx>, items: Items)
    requires Keyed(was)
    ensures items == Keep(was, drop) && Dropped(was, items, removed)
  {
    removed, items := [], was;
    var todo := was.Keys;
    DroppedNothing(was);
    while todo != {}
      invariant todo <= items.Keys && Dropped(was, items, removed)
      invariant forall n | n in was :: n in todo || (n in items <==> !drop(was[n]))
    {
      var n :| n in todo;
      if drop(items[n]) {
        DroppedMore(was, items, removed, items[n]);
        removed, items := removed + [items[n]], items - {n};
      }
      todo := todo - {n};
    }
    SubmapIs(items, was, Keep(was, drop));
  }

  /** The nonces of a map, in some order. */
  method Enumerate(s: set<nat>) returns (ns: seq<nat>)
    ensures multiset(ns) == multiset(s) && Distinct(ns) && Elems(ns) == s
  {
    ns := [];
    var todo := s;
    RemovesNothing(s);
    while todo != {}
      invariant Removes(s, todo, ns)
    {
      var n :| n in todo;
      RemovesMore(s, todo, ns, n);
      ns, todo := ns + [n], todo - {n};
    }
    DistinctMultiset(ns);
  }

  /** What a hard limit of `threshold` leaves and drops, highest nonce first. */
  ghost predicate Capped(was: Items, kept: Items, drops: seq<Tx>, threshold: nat) {
    && Dropped(was, kept, drops)
    && |kept| == Min(|was|, threshold)
    && AllBelow(kept.Keys, Elems(Of(drops)))
    && Falling(Of(drops))
  }

  /** The cache without its last `k` entries lists what is left. */
  ghost predicate Docked(cache: Option<seq<Tx>>, k: nat, now: Items) {
    cache.Some? ==> k <= |cache.value| && Listing(now, cache.value[..|cache.value| - k])
  }

  lemma DockedStart(cache: Option<seq<Tx>>, now: Items)
    requires cache.Some? ==> Listing(now, cache.value)
    ensures Docked(cache, 0, now)
  {
    if cache.Some? { assert cache.value[..|cache.value| - 0] == cache.value; }
  }

  lemma DockedMore(cache: Option<seq<Tx>>, k: nat, now: Items, m: nat)
    requires Docked(cache, k, now) && Greatest(now.Keys, m)
    ensures Docked(cache, k + 1, now - {m})
  {
    if cache.Some? {
      var left := cache.value[..|cache.value| - k];
      ListingBack(now, left, m);
      assert left[..|left| - 1] == cache.value[..|cache.value| - (k + 1)];
    }
  }

  lemma PushGreatest(kept: set<nat>, ns: seq<nat>, m: nat)
    requires Falling(ns) && AllBelow(kept, Elems(ns)) && Greatest(kept, m)
    ensures Falling(ns + [m]) && AllBelow(kept - {m}, Elems(ns + [m]))
  {
    ElemsPush(ns, m);
    forall i | 0 <= i < |ns| ensures ns[i] > m {
      assert ns[i] in Elems(ns);
    }
  }

  lemma SortedTop(s: set<nat>, sorted: seq<nat>, size: nat)
    requires 0 < size <= |sorted| && Lists(s, sorted[..size])
    ensures Greatest(s, sorted[size - 1]) && Lists(s - {sorted[size - 1]}, sorted[..size - 1])
  {
    var ns := sorted[..size];
    assert ns[size - 1] in Elems(ns);
    forall k | k in s ensures k <= sorted[size - 1] {
      assert k in ns;
    }
    ListsBack(s, ns, sorted[size - 1]);
    assert ns[..size - 1] == sorted[..size - 1];
  }

  /** Drop from the top of the sorted index until `threshold` are left. */
  method DropHighest(was: Items, sorted: seq<nat>, ghost cache: Option<seq<Tx>>, threshold: nat)
      returns (drops: seq<Tx>, items: Items)
    requires Keyed(was) && Lists(was.Keys, sorted) && threshold <= |sorted| && Docked(cache, 0, was)
    ensures Dropped(was, items, drops) && Lists(items.Keys, sorted[..threshold])
    ensures AllBelow(items.Keys, Elems(Of(drops))) && Falling(Of(drops))
    ensures Docked(cache, |drops|, items)
  {
    drops, items := [], was;
    var size := |sorted|;
    DroppedNothing(was);
    assert sorted[..size] == sorted;
    while size > threshold
      invariant threshold <= size <= |sorted| && Dropped(was, items, drops)
      invariant Lists(items.Keys, sorted[..size]) && Docked(cache, |drops|, items)
      invariant AllBelow(items.Keys, Elems(Of(drops))) && Falling(Of(drops))
    {
      var n := sorted[size - 1];
      SortedTop(items.Keys, sorted, size);
      DockedMore(cache, |drops|, items, n);
      DroppedMore(was, items, drops, items[n]);
      PushGreatest(items.Keys, Of(drops), n);
      OfPush(drops, items[n]);
      assert (items - {n}).Keys == items.Keys - {n};
      drops, items, size := drops + [items[n]], items - {n}, size - 1;
    }
  }

  /** What is ready at `start`: nothing if all nonces are beyond it, otherwise the run from the least nonce. */
  ghost predicate ReadyIs(items: Items, start: nat, r: seq<Tx>) {
    && (Over(items.Keys, start + 1) ==> r == [])
    && forall m: nat | Least(items.Keys, m) && m <= start :: IsRun(items, m, r)
  }

  /** The same under the same condition, except that the run is from `start` and stops below the top nonce. */
  ghost predicate PeekIs(items: Items, start: nat, r: seq<Tx>) {
    if Over(items.Keys, start + 1) then r == [] else IsRun(Below(items, MAX_UINT64), start, r)
  }

  /** Every nonce from `start` to the top is there. */
  ghost predicate RunsToTop(s: set<nat>, start: nat) {
    forall k | start <= k <= MAX_UINT64 :: k in s
  }

  lemma PeekNonces(s: set<nat>, start: nat, a: seq<nat>, b: seq<nat>)
    requires Under(s, MAX_UINT64 + 1) && start <= MAX_UINT64
    requires RunOf(s, start, a) && RunOf(s - {MAX_UINT64}, start, b)
    ensures a == b <==> !RunsToTop(s, start)
  {
    RunBefore(s - {MAX_UINT64}, start, b, MAX_UINT64);
    if !RunsToTop(s, start) {
      var gap :| start <= gap <= MAX_UINT64 && gap !in s;
      RunBefore(s, start, a, gap);
      assert MAX_UINT64 !in Elems(a);
      RunUnique(s - {MAX_UINT64}, start, a, b);
    }
  }

  lemma SameTxs(items: Items, small: Items, r: seq<Tx>, p: seq<Tx>)
    requires Submap(small, items) && Members(items, r) && Members(small, p) && Of(r) == Of(p)
    ensures r == p
  {
    forall i | 0 <= i < |r| ensures r[i] == p[i] {
      assert Of(r)[i] == Of(p)[i];
    }
  }

  /** Peeking agrees with taking exactly if no nonce is below `start` and the run stops before the top. */
  lemma PeekMatchesReady(items: Items, start: nat, r: seq<Tx>, p: seq<Tx>)
    requires Keyed(items) && start <= MAX_UINT64 && ReadyIs(items, start, r) && PeekIs(items, start, p)
    ensures r == p <==> Over(items.Keys, start) && !RunsToTop(items.Keys, start)
  {
    var below := Below(items, MAX_UINT64);
    if Over(items.Keys, start + 1) {
      assert start !in items.Keys;
    } else {
      var m := LeastExists(items.Keys);
      assert below.Keys == items.Keys - {MAX_UINT64};
      if m < start {
        assert r != [] && Of(r)[0] == m;
        assert p != [] ==> Of(p)[0] == start;
      } else {
        PeekNonces(items.Keys, start, Of(r), Of(p));
        if Of(r) == Of(p) { SameTxs(items, below, r, p); }
      }
    }
  }

  /** It does not with a nonce below `start`. */
  lemma PeekFallsShort(t0: Tx, t1: Tx, r: seq<Tx>, p: seq<Tx>)
    requires t0.nonce == 0 && t1.nonce == 1
    requires ReadyIs(map[0 := t0, 1 := t1], 1, r) && PeekIs(map[0 := t0, 1 := t1], 1, p)
    ensures r != p
  {
    var items: Items := map[0 := t0, 1 := t1];
    PeekMatchesReady(items, 1, r, p);
    assert 0 in items.Keys;
  }

  /** The transactions from `start` on, up to a gap or the top nonce. */
  method PeekRun(items: Items, start: nat) returns (ready: seq<Tx>)
    requires Keyed(items) && start <= MAX_UINT64
    ensures IsRun(Below(items, MAX_UINT64), start, ready)
  {
    ready := [];
    var next := start;
    ghost var below := Below(items, MAX_UINT64);
    while next < MAX_UINT64 && next in items
      invariant start <= next <= MAX_UINT64 && next == start + |ready|
      invariant Members(below, ready) && Consecutive(Of(ready), start)
    {
      OfPush(ready, items[next]);
      MembersPush(below, ready, items[next]);
      ready := ready + [items[next]];
      next := next + 1;
    }
    MembersNonces(below, ready);
  }

  lemma ReadyFrom(items: Items, start: nat, m: nat, r: seq<Tx>)
    requires Least(items.Keys, m) && m <= start && IsRun(items, m, r)
    ensures ReadyIs(items, start, r)
  {
    assert !Over(items.Keys, start + 1);
  }

  lemma CapIndexed(items: Items, ns: seq<nat>)
    requires Lists(items.Keys, ns)
    ensures Indexed(items, ns) && |ns| == |items|
  {
    DistinctMultiset(ns);
    DistinctCount(ns);
  }

  lemma NoneLeft(items: Items, index: seq<nat>)
    requires Stored(items, index) && Over(items.Keys, MAX_UINT64 + 1)
    ensures index == []
  {
    if index != [] {
      IndexEntry(items, index, index[0]);
      assert false;
    }
  }

  lemma RunDone(was: Items, items: Items, index: seq<nat>, ready: seq<Tx>, n: nat)
    requires Stored(items, index) && Dropped(was, items, ready) && Consecutive(Of(ready), n)
    requires Over(items.Keys, n + |ready|) && (index == [] || index[0] != n + |ready|)
    ensures IsRun(was, n, ready)
  {
    if index != [] { IndexEntry(items, index, index[0]); }
    NoneBelow(items, index, n + |ready| + 1);
    assert n + |ready| !in Elems(Of(ready));
  }

  /** The run from `n` has come off so far. */
  ghost predicate Running(was: Items, items: Items, index: seq<nat>, ready: seq<Tx>, n: nat) {
    && Stored(items, index)
    && Dropped(was, items, ready)
    && Consecutive(Of(ready), n)
    && Over(items.Keys, n + |ready|)
  }

  lemma RunningMore(was: Items, items: Items, ready: seq<Tx>, n: nat, tx: Tx)
    requires Dropped(was, items, ready) && Consecutive(Of(ready), n) && Over(items.Keys, n + |ready|)
    requires tx.nonce == n + |ready| && tx.nonce in items && items[tx.nonce] == tx
    ensures Dropped(was, items - {tx.nonce}, ready + [tx]) && Consecutive(Of(ready + [tx]), n)
    ensures Over((items - {tx.nonce}).Keys, n + |ready + [tx]|)
  {
    DroppedMore(was, items, ready, tx);
    OfPush(ready, tx);
    assert (items - {tx.nonce}).Keys == items.Keys - {tx.nonce};
  }

  method RunStep(ghost was: Items, items: Items, index: seq<nat>, ready: seq<Tx>, ghost n: nat)
      returns (ready': seq<Tx>, items': Items, index': seq<nat>)
    requires Running(was, items, index, ready, n) && index != [] && index[0] == n + |ready|
    ensures Running(was, items', index', ready', n) && |ready'| == |ready| + 1 && |index'| == |index| - 1
    ensures index[0] == MAX_UINT64 ==> index' == []
  {
    var tx, rest, h := PopLeast(items, index);
    RunningMore(was, items, ready, n, tx);
    if index[0] == MAX_UINT64 { NoneLeft(rest, h); }
    ready', items', index' := ready + [tx], rest, h;
  }

  /** Pop while the least nonce is the next one; the counter wraps around at 64 bits. */
  method PopRun(was: Items, index0: seq<nat>) returns (ready: seq<Tx>, items: Items, index: seq<nat>)
    requires Stored(was, index0) && index0 != []
    ensures Stored(items, index) && Dropped(was, items, ready) && IsRun(was, index0[0], ready)
  {
    ready, items, index := [], was, index0;
    var next := index[0];
    DroppedNothing(was);
    RootIsLeast(items, index);
    while index != [] && index[0] == next
      invariant Running(was, items, index, ready, index0[0])
      invariant index == [] || next == index0[0] + |ready|
      decreases |index|
    {
      ready, items, index := RunStep(was, items, index, ready, index0[0]);
      next := if next == MAX_UINT64 then 0 else next + 1;
    }
    RunDone(was, items, index, ready, index0[0]);
  }

  /** The transactions of a map, in some order. */
  method Collect(items: Items) returns (s: seq<Tx>)
    requires Keyed(items)
    ensures Members(items, s) && Removes(items.Keys, {}, Of(s))
  {
    s := [];
    var todo := items.Keys;
    RemovesNothing(todo);
    while todo != {}
      invariant todo <= items.Keys && Members(items, s) && Removes(items.Keys, todo, Of(s))
    {
      var n :| n in todo;
      RemovesMore(items.Keys, todo, Of(s), n);
      OfPush(s, items[n]);
      MembersPush(items, s, items[n]);
      s, todo := s + [items[n]], todo - {n};
    }
  }

  lemma SameMembers(items: Items, s: seq<Tx>, sorted: seq<Tx>)
    requires Members(items, s) && multiset(sorted) == multiset(s)
    ensures Members(items, sorted) && Elems(Of(sorted)) <= Elems(Of(s))
  {
    forall i | 0 <= i < |sorted| ensures sorted[i] in s {
      assert sorted[i] in multiset(sorted);
    }
    forall i | 0 <= i < |sorted| ensures Of(sorted)[i] in Elems(Of(s)) {
      var j :| 0 <= j < |s| && s[j] == sorted[i];
      assert Of(s)[j] == Of(sorted)[i];
    }
  }

  lemma SortedListing(items: Items, s: seq<Tx>, sorted: seq<Tx>)
    requires Members(items, s) && Removes(items.Keys, {}, Of(s))
    requires multiset(sorted) == multiset(s) && |sorted| == |s| && SortedBy((tx: Tx) => tx.nonce, sorted)
    ensures Listing(items, sorted)
  {
    var ms := Of(sorted);
    SameMembers(items, s, sorted);
    SameMembers(items, sorted, s);
    DistinctCount(Of(s));
    assert Elems(ms) == Elems(Of(s));
    FullDistinct(ms);
    assert Rising(ms) by {
      forall i, j | 0 <= i < j < |ms| ensures ms[i] < ms[j] {
        assert sorted[i].nonce <= sorted[j].nonce;
      }
    }
  }

  lemma ListingSize(items: Items, s: seq<Tx>)
    requires Listing(items, s)
    ensures |s| == |items|
  {
    DistinctCount(Of(s));
  }

  lemma ListingEnds(items: Items, s: seq<Tx>)
    requires Listing(items, s) && s != []
    ensures Least(items.Keys, s[0].nonce) && s[0] == items[s[0].nonce]
    ensures Greatest(items.Keys, s[|s| - 1].nonce) && s[|s| - 1] == items[s[|s| - 1].nonce]
  {
    var ns := Of(s);
    forall k | k in items.Keys ensures ns[0] <= k <= ns[|s| - 1] {
      var i :| 0 <= i < |ns| && ns[i] == k;
    }
  }

  /** Sort the index, drop the highest nonces, and make the rest a heap again. */
  method CapItems(was: Items, index0: seq<nat>, ghost cache: Option<seq<Tx>>, threshold: nat)
      returns (drops: seq<Tx>, items: Items, index: seq<nat>)
    requires Stored(was, index0) && threshold < |was| && Docked(cache, 0, was)
    ensures Stored(items, index) && Capped(was, items, drops, threshold) && Docked(cache, |drops|, items)
  {
    MultisetDistinct(index0, was.Keys);
    var sorted := SortBy(n => n, index0);
    SortedLists(index0, sorted);
    CapIndexed(was, sorted);
    drops, items := DropHighest(was, sorted, cache, threshold);
    CapIndexed(items, sorted[..threshold]);
    index := Heap.Init(NonceLt, sorted[..threshold]);
  }

  class SortedMap {
    var items: Items
    var index: seq<nat>
    var cache: Option<seq<Tx>>

    ghost predicate Valid()
      reads this
    {
      && Stored(items, index)
      && (cache.Some? ==> Listing(items, cache.value))
    }

    constructor ()
      ensures Valid() && items == map[]
    {
      items, index, cache := map[], [], None;
    }

    method Get(nonce: nat) returns (r: Option<Tx>)
      ensures r == if nonce in items then Some(items[nonce]) else None
    {
      r := if nonce in items then Some(items[nonce]) else None;
    }

    /** Insert or overwrite. */
    method Put(tx: Tx)
      requires Valid() && tx.nonce <= MAX_UINT64
      modifies this
      ensures Valid() && items == old(items)[tx.nonce := tx]
    {
      if tx.nonce !in items {
        var h := Heap.Push(NonceLt, index, tx.nonce);
        IndexedAdd(items, index, h, tx);
        index := h;
      } else {
        assert items[tx.nonce := tx].Keys == items.Keys;
      }
      items, cache := items[tx.nonce := tx], None;
    }

    /** Remove, in order, everything below the threshold. */
    method Forward(threshold: nat) returns (removed: seq<Tx>)
      requires Valid()
      modifies this
      ensures Valid() && items == From(old(items), threshold)
      ensures Listing(Below(old(items), threshold), removed)
    {
      ghost var was := items;
      removed, items, index := PopBelow(items, index, cache, threshold);
      ForwardDone(was, items, removed, threshold);
      if cache.Some? {
        cache := Some(cache.value[|removed|..]);
      }
    }

    /** Rebuild the heap from the map. */
    method Reheap()
      requires Keyed(items)
      modifies `index, `cache
      ensures Valid()
    {
      var ns := Enumerate(items.Keys);
      index := Heap.Init(NonceLt, ns);
      cache := None;
    }

    /** Delete without rebuilding the heap. */
    method FilterOnly(drop: Tx -> bool) returns (removed: seq<Tx>)
      requires Keyed(items) && (cache.Some? ==> Listing(items, cache.value))
      modifies `items, `cache
      ensures items == Keep(old(items), drop) && Dropped(old(items), items, removed)
      ensures cache.Some? ==> Listing(items, cache.value)
      ensures removed == [] ==> items == old(items)
    {
      ghost var was := items;
      removed, items := FilterOut(items, drop);
      if |removed| > 0 {
        cache := None;
      } else {
        SubmapIs(items, was, was);
      }
    }

    /** Remove everything that `drop` selects. */
    method Filter(drop: Tx -> bool) returns (removed: seq<Tx>)
      requires Valid()
      modifies this
      ensures Valid() && items == Keep(old(items), drop) && Dropped(old(items), items, removed)
    {
      removed := FilterOnly(drop);
      if |removed| > 0 {
        Reheap();
      }
    }

    /** Keep the `threshold` lowest nonces. */
    method Cap(threshold: nat) returns (drops: seq<Tx>)
      requires Valid()
      modifies this
      ensures Valid() && Capped(old(items), items, drops, threshold)
    {
      if |items| <= threshold {
        DroppedNothing(items);
        return [];
      }
      DockedStart(cache, items);
      drops, items, index := CapItems(items, index, cache, threshold);
      if cache.Some? {
        cache := Some(cache.value[..|cache.value| - |drops|]);
      }
    }

    method Remove(nonce: nat) returns (ok: bool)
      requires Valid()
      modifies this
      ensures Valid() && ok == (nonce in old(items)) && items == old(items) - {nonce}
    {
      if nonce !in items {
        return false;
      }
      IndexEntry(items, index, nonce);
      var i := 0;
      while index[i] != nonce
        invariant 0 <= i < |index| && nonce in index[i..]
        decreases |index| - i
      {
        i := i + 1;
      }
      var h := Heap.RemoveAt(NonceLt, index, i);
      IndexedDrop(items, index, h, nonce);
      items, index, cache := items - {nonce}, h, None;
      return true;
    }

    /** Take the run that is ready at `start`. */
    method Ready(start: nat) returns (ready: seq<Tx>)
      requires Valid()
      modifies this
      ensures Valid() && ReadyIs(old(items), start, ready) && Dropped(old(items), items, ready)
    {
      if index == [] || index[0] > start {
        NoneBelow(items, index, start + 1);
        DroppedNothing(items);
        return [];
      }
      RootIsLeast(items, index);
      ghost var was, m := items, index[0];
      ready, items, index := PopRun(items, index);
      ReadyFrom(was, start, m, ready);
      cache := None;
    }

    /** The run that is ready at `start`, left in place. */
    method PeekReady(start: nat) returns (ready: seq<Tx>)
      requires Valid() && start <= MAX_UINT64
      ensures PeekIs(items, start, ready)
    {
      if index == [] || index[0] > start {
        NoneBelow(items, index, start + 1);
        return [];
      }
      RootIsLeast(items, index);
      ready := PeekRun(items, start);
    }

    /** The listing, computed once and then cached. */
    method Flatten() returns (txs: seq<Tx>)
      requires Valid()
      modifies `cache
      ensures Valid() && Listing(items, txs)
    {
      if cache.None? {
        var all := Collect(items);
        var sorted := SortBy((tx: Tx) => tx.nonce, all);
        SortedListing(items, all, sorted);
        cache := Some(sorted);
      }
      txs := cache.value;
    }

    /** The transaction with the least nonce, if any. */
    method FirstElement() returns (r: Option<Tx>)
      requires Valid()
      modifies `cache
      ensures Valid() && (r.None? <==> items == map[])
      ensures r.Some? ==> Least(items.Keys, r.value.nonce) && r.value == items[r.value.nonce]
    {
      var s := Flatten();
      if s == [] {
        ListingSize(items, s);
        return None;
      }
      ListingEnds(items, s);
      return Some(s[0]);
    }

    /** The transaction with the greatest nonce. */
    method LastElement() returns (tx: Tx)
      requires Valid() && items != map[]
      modifies `cache
      ensures Valid() && Greatest(items.Keys, tx.nonce) && tx == items[tx.nonce]
    {
      var s := Flatten();
      ListingSize(items, s);
      ListingEnds(items, s);
      return s[|s| - 1];
    }
  }
}

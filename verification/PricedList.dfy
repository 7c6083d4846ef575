/**
 * The price-sorted index of remote transactions (txPricedList): an urgent and a floating heap, in which
 * entries that left the pool stay behind as stale ones until they come up.
 */
module PricedList {
  import opened Util
  import opened Txs
  import opened Weights
  import Heap

  const URGENT_RATIO := 4
  const FLOATING_RATIO := 1

  // The account of one discarding run.

  /** Every entry is still tracked, or was dropped live, or was thrown away stale. */
  ghost predicate Accounted<T>(was: multiset<T>, u: seq<T>, f: seq<T>, drop: seq<T>, gone: seq<T>, live: T -> bool) {
    && was == multiset(u) + multiset(f) + multiset(drop) + multiset(gone)
    && (forall x | x in drop :: live(x))
    && (forall x | x in gone :: !live(x))
  }

  /** The weight of an entry that still counts. */
  function LiveSlots<T>(live: T -> bool, slots: T -> nat): T -> nat {
    (x: T) => if live(x) then slots(x) else 0
  }

  /** Weighs the stale entries. */
  function Stale<T>(live: T -> bool): T -> nat {
    (x: T) => if live(x) then 0 else 1
  }

  lemma {:induction false} TotalLive<T>(s: seq<T>, live: T -> bool, slots: T -> nat)
    ensures (forall x | x in s :: live(x)) ==> Total(s, LiveSlots(live, slots)) == Total(s, slots)
                                               && Total(s, Stale(live)) == 0
    ensures (forall x | x in s :: !live(x)) ==> Total(s, LiveSlots(live, slots)) == 0 && Total(s, Stale(live)) == |s|
  {
    if s != [] {
      var t := s[..|s| - 1];
      assert s == t + [s[|s| - 1]];
      TotalLive(t, live, slots);
    }
  }

  /** The live slots that are no longer tracked are the dropped ones, and the stale entries that are no longer
      tracked are the ones thrown away. */
  lemma AccountedWeights<T(!new)>(was: multiset<T>, u: seq<T>, f: seq<T>, drop: seq<T>, gone: seq<T>,
                                  live: T -> bool, slots: T -> nat)
    requires Accounted(was, u, f, drop, gone, live)
    ensures Weigh(was, LiveSlots(live, slots)) == Weigh(multiset(u) + multiset(f), LiveSlots(live, slots))
            + Total(drop, slots)
    ensures Weigh(was, Stale(live)) == Weigh(multiset(u) + multiset(f), Stale(live)) + |gone|
  {
    var rest := multiset(u) + multiset(f);
    TotalLive(drop, live, slots);
    TotalLive(gone, live, slots);
    WeighSeq(rest, drop, LiveSlots(live, slots));
    WeighSeq(rest + multiset(drop), gone, LiveSlots(live, slots));
    WeighSeq(rest, drop, Stale(live));
    WeighSeq(rest + multiset(drop), gone, Stale(live));
  }

  /** A live entry that was not dropped is still tracked as often as before. */
  lemma LiveKept<T>(was: multiset<T>, u: seq<T>, f: seq<T>, drop: seq<T>, gone: seq<T>, live: T -> bool, x: T)
    requires Accounted(was, u, f, drop, gone, live) && live(x)
    ensures was[x] == (multiset(u) + multiset(f))[x] + multiset(drop)[x]
  {
    assert x !in gone;
    assert multiset(gone)[x] == 0;
  }

  /** Pop the urgent heap; a live entry moves to the floating heap, a stale one is thrown away. */
  method Demote<T(!new, ==)>(ltU: (T, T) -> bool, ltF: (T, T) -> bool, live: T -> bool, u: seq<T>, f: seq<T>,
                             ghost was: multiset<T>, ghost drop: seq<T>, ghost gone: seq<T>)
      returns (u': seq<T>, f': seq<T>, stale: bool, ghost gone': seq<T>)
    requires Heap.Weak(ltU) && Heap.Weak(ltF) && Heap.IsHeap(ltU, u) && Heap.IsHeap(ltF, f)
    requires u != [] && Accounted(was, u, f, drop, gone, live)
    ensures Heap.IsHeap(ltU, u') && Heap.IsHeap(ltF, f') && Accounted(was, u', f', drop, gone', live)
    ensures |gone'| == |gone| + if stale then 1 else 0
    ensures |u'| == |u| - 1 && |f'| <= |f| + 1
  {
    var x, h := Heap.Pop(ltU, u);
    stale := !live(x);
    if stale {
      u', f', gone' := h, f, gone + [x];
    } else {
      var g := Heap.Push(ltF, f, x);
      assert |multiset(g)| == |g| && |multiset(f)| == |f|;
      u', f', gone' := h, g, gone;
    }
  }

  /** Pop the floating heap; a live entry is dropped, a stale one is thrown away. */
  method Evict<T(!new, ==)>(ltF: (T, T) -> bool, live: T -> bool, f: seq<T>, drop: seq<T>,
                            ghost was: multiset<T>, ghost u: seq<T>, ghost gone: seq<T>)
      returns (f': seq<T>, drop': seq<T>, stale: bool, ghost gone': seq<T>)
    requires Heap.Weak(ltF) && Heap.IsHeap(ltF, f)
    requires f != [] && Accounted(was, u, f, drop, gone, live)
    ensures Heap.IsHeap(ltF, f') && Accounted(was, u, f', drop', gone', live) && |f'| == |f| - 1
    ensures stale ==> |gone'| == |gone| + 1 && drop' == drop
    ensures !stale ==> gone' == gone && drop' == drop + [f[0]]
    ensures forall y | y in f' :: !ltF(y, f[0])
  {
    var x, h := Heap.Pop(ltF, f);
    forall y | y in h ensures !ltF(y, x) {
      assert y in multiset(h);
      assert y in multiset(f);
    }
    stale := !live(x);
    if stale {
      f', drop', gone' := h, drop, gone + [x];
    } else {
      f', drop', gone' := h, drop + [x], gone;
    }
  }

  /** Pop entries until `need` slots are dropped or both heaps are empty, from whichever heap is over its share. */
  method Collect<T(!new, ==)>(ltU: (T, T) -> bool, ltF: (T, T) -> bool, live: T -> bool, slots: T -> nat,
                              u0: seq<T>, f0: seq<T>, need: nat)
      returns (u: seq<T>, f: seq<T>, drop: seq<T>, left: int, stales: nat, ghost gone: seq<T>)
    requires Heap.Weak(ltU) && Heap.Weak(ltF) && Heap.IsHeap(ltU, u0) && Heap.IsHeap(ltF, f0)
    ensures Heap.IsHeap(ltU, u) && Heap.IsHeap(ltF, f)
    ensures Accounted(multiset(u0) + multiset(f0), u, f, drop, gone, live) && stales == |gone|
    ensures left == need - Total(drop, slots) && (left > 0 ==> u == [] && f == [])
    ensures drop != [] ==> Total(drop[..|drop| - 1], slots) < need
    ensures drop != [] ==> forall y | y in f :: !ltF(y, drop[|drop| - 1])
  {
    u, f, drop, left, stales, gone := u0, f0, [], need, 0, [];
    ghost var was := multiset(u0) + multiset(f0);
    var stale;
    while left > 0
      invariant Heap.IsHeap(ltU, u) && Heap.IsHeap(ltF, f)
      invariant Accounted(was, u, f, drop, gone, live) && stales == |gone|
      invariant left == need - Total(drop, slots)
      invariant drop != [] ==> Total(drop[..|drop| - 1], slots) < need
      invariant drop != [] && left <= 0 ==> forall y | y in f :: !ltF(y, drop[|drop| - 1])
      decreases 2 * |u| + |f|
    {
      if |u| * FLOATING_RATIO > |f| * URGENT_RATIO || FLOATING_RATIO == 0 {
        u, f, stale, gone := Demote(ltU, ltF, live, u, f, was, drop, gone);
        stales := stales + if stale then 1 else 0;
      } else {
        if |f| == 0 {
          break;
        }
        var x, before := f[0], drop;
        f, drop, stale, gone := Evict(ltF, live, f, drop, was, u, gone);
        if stale {
          stales := stales + 1;
        } else {
          TotalPush(before, slots, x);
          assert drop[..|drop| - 1] == before;
          left := left - slots(x);
        }
      }
    }
  }

  /** Put the dropped entries back. */
  method PutBack<T(!new, ==)>(lt: (T, T) -> bool, u0: seq<T>, drop: seq<T>) returns (u: seq<T>)
    requires Heap.Weak(lt) && Heap.IsHeap(lt, u0)
    ensures Heap.IsHeap(lt, u) && multiset(u) == multiset(u0) + multiset(drop)
  {
    u := u0;
    for i := 0 to |drop|
      invariant Heap.IsHeap(lt, u) && multiset(u) == multiset(u0) + multiset(drop[..i])
    {
      assert drop[..i + 1] == drop[..i] + [drop[i]];
      u := Heap.Push(lt, u, drop[i]);
    }
    assert drop[..|drop|] == drop;
  }

  /** One discarding run: collect, and put everything live back if it falls short and is not forced. */
  method DiscardFrom<T(!new, ==)>(ltU: (T, T) -> bool, ltF: (T, T) -> bool, live: T -> bool, slots: T -> nat,
                                  u0: seq<T>, f0: seq<T>, need: nat, force: bool)
      returns (u: seq<T>, f: seq<T>, drop: seq<T>, ok: bool, stales: nat, ghost gone: seq<T>)
    requires Heap.Weak(ltU) && Heap.Weak(ltF) && Heap.IsHeap(ltU, u0) && Heap.IsHeap(ltF, f0)
    ensures Heap.IsHeap(ltU, u) && Heap.IsHeap(ltF, f)
    ensures Accounted(multiset(u0) + multiset(f0), u, f, drop, gone, live) && stales == |gone|
    ensures ok <==> force || Weigh(multiset(u0) + multiset(f0), LiveSlots(live, slots)) >= need
    ensures !ok ==> drop == []
    ensures ok ==> Total(drop, slots) >= need || (u == [] && f == [])
    ensures drop != [] ==> Total(drop[..|drop| - 1], slots) < need
    ensures drop != [] ==> forall y | y in f :: !ltF(y, drop[|drop| - 1])
    ensures Weigh(multiset(u0) + multiset(f0), Stale(live)) == Weigh(multiset(u) + multiset(f), Stale(live)) + stales
  {
    var left;
    u, f, drop, left, stales, gone := Collect(ltU, ltF, live, slots, u0, f0, need);
    Covered(multiset(u0) + multiset(f0), u, f, drop, gone, live, slots);
    ok := !(left > 0 && !force);
    if !ok {
      var v := PutBack(ltU, u, drop);
      AccountedBack(multiset(u0) + multiset(f0), u, v, f, drop, gone, live);
      u, drop := v, [];
    }
    AccountedWeights(multiset(u0) + multiset(f0), u, f, drop, gone, live, slots);
  }

  lemma Covered<T(!new)>(was: multiset<T>, u: seq<T>, f: seq<T>, drop: seq<T>, gone: seq<T>, live: T -> bool,
                         slots: T -> nat)
    requires Accounted(was, u, f, drop, gone, live)
    ensures Weigh(was, LiveSlots(live, slots)) >= Total(drop, slots)
    ensures u == [] && f == [] ==> Weigh(was, LiveSlots(live, slots)) == Total(drop, slots)
  {
    AccountedWeights(was, u, f, drop, gone, live, slots);
    if u == [] && f == [] { assert multiset(u) + multiset(f) == multiset{}; }
  }

  lemma AccountedBack<T>(was: multiset<T>, u: seq<T>, v: seq<T>, f: seq<T>, drop: seq<T>, gone: seq<T>, live: T -> bool)
    requires Accounted(was, u, f, drop, gone, live) && multiset(v) == multiset(u) + multiset(drop)
    ensures Accounted(was, v, f, [], gone, live)
  {
  }

  /** Throw away stale entries at the top. */
  method Purge<T(!new, ==)>(lt: (T, T) -> bool, live: T -> bool, h0: seq<T>)
    returns (h: seq<T>, stales: nat, ghost gone: seq<T>)
    requires Heap.Weak(lt) && Heap.IsHeap(lt, h0)
    ensures Heap.IsHeap(lt, h) && Accounted(multiset(h0), h, [], [], gone, live) && stales == |gone|
    ensures h != [] ==> live(h[0]) && forall i | 0 <= i < |h| :: !lt(h[i], h[0])
  {
    h, stales, gone := h0, 0, [];
    while |h| > 0 && !live(h[0])
      invariant Heap.IsHeap(lt, h) && Accounted(multiset(h0), h, [], [], gone, live) && stales == |gone|
      decreases |h|
    {
      var x, r := Heap.Pop(lt, h);
      h, stales, gone := r, stales + 1, gone + [x];
    }
    forall i | 0 <= i < |h| ensures !lt(h[i], h[0]) {
      Heap.RootLeast(lt, h, |h|, i);
    }
  }

  /** Build both heaps from scratch; the floating one gets its share of the cheapest. */
  method Rebuild<T(!new, ==)>(ltU: (T, T) -> bool, ltF: (T, T) -> bool, all: seq<T>) returns (u: seq<T>, f: seq<T>)
    requires Heap.Weak(ltU) && Heap.Weak(ltF)
    ensures Heap.IsHeap(ltU, u) && Heap.IsHeap(ltF, f) && multiset(u) + multiset(f) == multiset(all)
    ensures |f| == |all| * FLOATING_RATIO / (URGENT_RATIO + FLOATING_RATIO)
    ensures forall x, y | x in f && y in u :: !ltU(y, x)
  {
    u := Heap.Init(ltU, all);
    var count := |u| * FLOATING_RATIO / (URGENT_RATIO + FLOATING_RATIO);
    f := [];
    for i := 0 to count
      invariant Heap.IsHeap(ltU, u) && |u| == |all| - i && |f| == i && multiset(u) + multiset(f) == multiset(all)
      invariant forall x, y | x in f && y in u :: !ltU(y, x)
    {
      var x, h := Heap.Pop(ltU, u);
      forall y | y in h ensures y in u && !ltU(y, x) {
        assert y in multiset(h);
        assert y in multiset(u);
      }
      u, f := h, f + [x];
    }
    ghost var g := f;
    f := Heap.Init(ltF, f);
    forall x | x in f ensures x in g {
      assert x in multiset(f);
      assert x in multiset(g);
    }
  }

  // Prices.

  /** What a block producer would earn per unit of gas at a base fee; without one, the tip. */
  function EffectiveTip(tx: Tx, baseFee: Option<nat>): int {
    if baseFee.None? then tx.inner.tipCap
    else if tx.inner.tipCap <= tx.inner.feeCap - baseFee.value then tx.inner.tipCap
    else tx.inner.feeCap - baseFee.value
  }

  /** The first price difference decides: effective tip (if there is a base fee), fee cap, tip. Negative if `a` is
      cheaper. */
  function PriceCmp(baseFee: Option<nat>, a: Tx, b: Tx): int {
    if baseFee.Some? && EffectiveTip(a, baseFee) != EffectiveTip(b, baseFee) then
      EffectiveTip(a, baseFee) - EffectiveTip(b, baseFee)
    else if a.inner.feeCap != b.inner.feeCap then a.inner.feeCap - b.inner.feeCap
    else a.inner.tipCap - b.inner.tipCap
  }

  /** The heap order: cheaper first and, at the same price, the higher nonce first. */
  function PriceLt(baseFee: Option<nat>): (Tx, Tx) -> bool {
    (a: Tx, b: Tx) => PriceCmp(baseFee, a, b) < 0 || (PriceCmp(baseFee, a, b) == 0 && a.nonce > b.nonce)
  }

  lemma PriceLtWeak(baseFee: Option<nat>)
    ensures Heap.Weak(PriceLt(baseFee))
  {
  }

  /** `a` pays no more than `b`. At a base fee, what counts first is the smaller of the tip cap and of the fee cap less
      the base fee; then the fee cap; then the tip cap. */
  predicate PaysNoMore(fee: Option<nat>, a: Tx, b: Tx) {
    if fee.Some? && Min(a.inner.tipCap, a.inner.feeCap - fee.value) != Min(b.inner.tipCap,
        b.inner.feeCap - fee.value) then
      Min(a.inner.tipCap, a.inner.feeCap - fee.value) < Min(b.inner.tipCap, b.inner.feeCap - fee.value)
    else if a.inner.feeCap != b.inner.feeCap then a.inner.feeCap < b.inner.feeCap
    else a.inner.tipCap <= b.inner.tipCap
  }

  /** The heap order puts first what pays less. */
  lemma PriceOrder(fee: Option<nat>, a: Tx, b: Tx)
    ensures PriceCmp(fee, a, b) >= 0 <==> PaysNoMore(fee, b, a)
    ensures !PriceLt(fee)(b, a) ==> PaysNoMore(fee, a, b)
  {
  }

  /** Nothing is cheaper than `tx` if the least entry is not. */
  lemma NoneCheaper(fee: Option<nat>, h: seq<Tx>, tx: Tx)
    requires h != [] && forall i | 0 <= i < |h| :: !PriceLt(fee)(h[i], h[0])
    ensures PriceCmp(fee, h[0], tx) >= 0 <==> NotDearer(fee, tx, h)
  {
    forall i | 0 <= i < |h| && PriceCmp(fee, h[0], tx) >= 0 ensures PriceCmp(fee, h[i], tx) >= 0 {
      PriceCmpChain(fee, h[i], h[0], tx);
    }
  }

  lemma PriceCmpChain(fee: Option<nat>, a: Tx, b: Tx, c: Tx)
    requires PriceCmp(fee, a, b) >= 0 && PriceCmp(fee, b, c) >= 0
    ensures PriceCmp(fee, a, c) >= 0
  {
  }

  /** `tx` costs no more than any entry. */
  ghost predicate NotDearer(fee: Option<nat>, tx: Tx, h: seq<Tx>) {
    forall i | 0 <= i < |h| :: PriceCmp(fee, h[i], tx) >= 0
  }

  /** The lower fee cap, or the same and a tip cap that is not higher. */
  predicate Cheaper(d: Tx, y: Tx) {
    d.inner.feeCap < y.inner.feeCap || (d.inner.feeCap == y.inner.feeCap && d.inner.tipCap <= y.inner.tipCap)
  }

  /** Nothing that is left is cheaper than the last one dropped. */
  ghost predicate NoneCheaperLeft(drop: seq<Tx>, left: seq<Tx>) {
    drop != [] ==> forall y | y in left :: Cheaper(drop[|drop| - 1], y)
  }

  lemma CheapestPays(d: Tx, h: seq<Tx>)
    requires forall y | y in h :: !PriceLt(None)(y, d)
    ensures forall y | y in h :: Cheaper(d, y)
  {
    forall y | y in h ensures Cheaper(d, y) {
      PriceOrder(None, d, y);
    }
  }

  /** `count` counts the stale entries. */
  ghost predicate CountsStale(u: seq<Tx>, f: seq<Tx>, remotes: map<nat, Tx>, count: int) {
    count == Weigh(multiset(u) + multiset(f), Stale(Live(remotes)))
  }

  method DiscardIn(fee: Option<nat>, remotes: map<nat, Tx>, u0: seq<Tx>, f0: seq<Tx>, stales0: int, slots: nat,
                   force: bool)
      returns (u: seq<Tx>, f: seq<Tx>, drop: seq<Tx>, ok: bool, stales: int, ghost gone: seq<Tx>)
    requires Heap.IsHeap(PriceLt(fee), u0) && Heap.IsHeap(PriceLt(None), f0)
    ensures Heap.IsHeap(PriceLt(fee), u) && Heap.IsHeap(PriceLt(None), f)
    ensures Accounted(multiset(u0) + multiset(f0), u, f, drop, gone, Live(remotes)) && stales == stales0 - |gone|
    ensures ok <==> force || Weigh(multiset(u0) + multiset(f0), LiveSlots(Live(remotes), Slots)) >= slots
    ensures !ok ==> drop == []
    ensures ok ==> Total(drop, Slots) >= slots || (u == [] && f == [])
    ensures drop != [] ==> Total(drop[..|drop| - 1], Slots) < slots
    ensures NoneCheaperLeft(drop, f)
    ensures CountsStale(u0, f0, remotes, stales0) ==> CountsStale(u, f, remotes, stales)
  {
    PriceLtWeak(fee);
    PriceLtWeak(None);
    var n;
    u, f, drop, ok, n, gone := DiscardFrom(PriceLt(fee), PriceLt(None), Live(remotes), Slots, u0, f0, slots, force);
    stales := stales0 - n;
    if drop != [] {
      CheapestPays(drop[|drop| - 1], f);
    }
  }

  lemma NotDearerPays(fee: Option<nat>, tx: Tx, h: seq<Tx>)
    ensures NotDearer(fee, tx, h) <==> forall y | y in h :: PaysNoMore(fee, tx, y)
  {
    forall y ensures PriceCmp(fee, y, tx) >= 0 <==> PaysNoMore(fee, tx, y) {
      PriceOrder(fee, y, tx);
    }
  }

  method UnderpricedFor(fee: Option<nat>, remotes: map<nat, Tx>, h0: seq<Tx>, tx: Tx)
      returns (r: bool, h: seq<Tx>, stales: nat, ghost gone: seq<Tx>)
    requires Heap.IsHeap(PriceLt(fee), h0)
    ensures Heap.IsHeap(PriceLt(fee), h) && Accounted(multiset(h0), h, [], [], gone, Live(remotes)) && stales == |gone|
    ensures r <==> h != [] && NotDearer(fee, tx, h)
  {
    PriceLtWeak(fee);
    h, stales, gone := Purge(PriceLt(fee), Live(remotes), h0);
    if h == [] {
      return false, h, stales, gone;
    }
    NoneCheaper(fee, h, tx);
    return PriceCmp(fee, h[0], tx) >= 0, h, stales, gone;
  }

  method UnderpricedIn(fee: Option<nat>, remotes: map<nat, Tx>, u0: seq<Tx>, f0: seq<Tx>, tx: Tx)
      returns (r: bool, u: seq<Tx>, f: seq<Tx>, stales: nat, ghost gone: seq<Tx>)
    requires Heap.IsHeap(PriceLt(fee), u0) && Heap.IsHeap(PriceLt(None), f0)
    ensures Heap.IsHeap(PriceLt(fee), u) && Heap.IsHeap(PriceLt(None), f)
    ensures Accounted(multiset(u0) + multiset(f0), u, f, [], gone, Live(remotes)) && stales == |gone|
    ensures r <==> (u != [] || f != []) && NotDearer(fee, tx, u) && NotDearer(None, tx, f)
    ensures Weigh(multiset(u0) + multiset(f0), Stale(Live(remotes))) ==
            Weigh(multiset(u) + multiset(f), Stale(Live(remotes))) + stales
  {
    var cheap, n;
    ghost var more;
    cheap, u, stales, gone := UnderpricedFor(fee, remotes, u0, tx);
    f := f0;
    r := cheap || |u| == 0;
    if r {
      cheap, f, n, more := UnderpricedFor(None, remotes, f0, tx);
      r, stales, gone := (cheap || |f| == 0) && (|u| != 0 || |f| != 0), stales + n, gone + more;
    }
    AccountedWeights(multiset(u0) + multiset(f0), u, f, [], gone, Live(remotes), Slots);
  }

  class PricedList {
    var remotes: map<nat, Tx>
    var urgent: seq<Tx>
    var floating: seq<Tx>
    var baseFee: Option<nat>
    var stales: int

    ghost predicate Valid()
      reads this
    {
      && Heap.IsHeap(PriceLt(baseFee), urgent)
      && Heap.IsHeap(PriceLt(None), floating)
      && forall h | h in remotes :: remotes[h].hash == h
    }

    /** All entries of both heaps. */
    ghost function Tracked(): multiset<Tx>
      reads this
    {
      multiset(urgent) + multiset(floating)
    }

    /** The counter is the number of stale entries. */
    ghost predicate Counted()
      reads this
    {
      CountsStale(urgent, floating, remotes, stales)
    }

    /** Every remote transaction is tracked once, and nothing else. */
    ghost predicate Exact()
      reads this
    {
      forall tx :: Tracked()[tx] == if tx.hash in remotes && remotes[tx.hash] == tx then 1 else 0
    }

    constructor ()
      ensures Valid() && Exact() && Counted() && Tracked() == multiset{} && stales == 0 && remotes == map[]
    {
      remotes, urgent, floating, baseFee, stales := map[], [], [], None, 0;
    }

    /** Local transactions are not tracked. */
    method Put(tx: Tx, local: bool)
      requires Valid()
      modifies `urgent
      ensures Valid() && Tracked() == old(Tracked()) + if local then multiset{} else multiset{tx}
      ensures old(Counted()) && tx.hash in remotes ==> Counted()
    {
      if local {
        return;
      }
      PriceLtWeak(baseFee);
      WeighIn(Tracked(), Stale(Live(remotes)), tx);
      urgent := Heap.Push(PriceLt(baseFee), urgent, tx);
      assert Tracked() == old(Tracked()) + multiset{tx};
    }

    /** Make room for `slots`. Success drops live entries that cover it, or with force all there are; it fails exactly
        if there is too little to drop and no force. */
    method Discard(slots: nat, force: bool) returns (drop: seq<Tx>, ok: bool, ghost gone: seq<Tx>)
      requires Valid()
      modifies `urgent, `floating, `stales
      ensures Valid() && Accounted(old(Tracked()), urgent, floating, drop, gone, Live(remotes))
              && stales == old(stales) - |gone|
      ensures ok <==> force || Weigh(old(Tracked()), LiveSlots(Live(remotes), Slots)) >= slots
      ensures !ok ==> drop == []
      ensures ok ==> Total(drop, Slots) >= slots || (urgent == [] && floating == [])
      ensures drop != [] ==> Total(drop[..|drop| - 1], Slots) < slots
      ensures NoneCheaperLeft(drop, floating)
      ensures old(Counted()) ==> Counted()
    {
      urgent, floating, drop, ok, stales, gone :=
        DiscardIn(baseFee, remotes, urgent, floating, stales, slots, force);
    }

    /** Whether `tx` is no better than the worst entry of every non-empty heap; stale entries on top come off on the
        way. */
    method Underpriced(tx: Tx) returns (r: bool, ghost gone: seq<Tx>)
      requires Valid()
      modifies `urgent, `floating, `stales
      ensures Valid() && Accounted(old(Tracked()), urgent, floating, [], gone, Live(remotes))
              && stales == old(stales) - |gone|
      ensures r <==> && (urgent != [] || floating != [])
                     && (forall y | y in urgent :: PaysNoMore(baseFee, tx, y))
                     && (forall y | y in floating :: PaysNoMore(None, tx, y))
      ensures old(Counted()) ==> Counted()
    {
      var n;
      r, urgent, floating, n, gone := UnderpricedIn(baseFee, remotes, urgent, floating, tx);
      stales := stales - n;
      NotDearerPays(baseFee, tx, urgent);
      NotDearerPays(None, tx, floating);
    }

    /** Rebuild both heaps from the remote transactions. */
    method Reheap()
      requires Valid()
      modifies `urgent, `floating, `stales
      ensures Valid() && stales == 0 && Counted() && Exact()
      ensures |floating| == |remotes| / 5 && |urgent| == |remotes| - |remotes| / 5
      ensures forall x, y | x in floating && y in urgent :: PaysNoMore(baseFee, x, y)
    {
      stales := 0;
      PriceLtWeak(baseFee);
      PriceLtWeak(None);
      var all := ListRemotes(remotes);
      urgent, floating := Rebuild(PriceLt(baseFee), PriceLt(None), all);
      AllLive(remotes, all, Tracked());
      forall x, y | x in floating && y in urgent ensures PaysNoMore(baseFee, x, y) {
        PriceOrder(baseFee, x, y);
      }
    }

    /** Note that `count` entries went stale; rebuild once more than a quarter of all entries are. If these are all the
        stale entries that were not counted yet, the counter is exact again. */
    method Removed(count: nat)
      requires Valid()
      modifies `urgent, `floating, `stales
      ensures Valid()
      ensures old(stales) + count <= |old(Tracked())| / 4 ==> stales == old(stales) + count
                                                              && Tracked() == old(Tracked())
      ensures old(stales) + count > |old(Tracked())| / 4 ==> stales == 0 && Counted() && Exact()
      ensures old(stales) + count == Weigh(old(Tracked()), Stale(Live(remotes))) ==> Counted()
    {
      stales := stales + count;
      if stales <= (|urgent| + |floating|) / 4 {
        return;
      }
      Reheap();
    }

    /** Transactions leave the pool and `count` of them are reported. An exact counter stays exact if just as many
        tracked entries went stale, or if the heaps are rebuilt, and in no other case. */
    method RemoveRemotes(hashes: set<nat>, count: nat)
      requires Valid()
      modifies `remotes, `urgent, `floating, `stales
      ensures Valid() && remotes == old(remotes) - hashes
      ensures old(Counted()) ==>
                (Counted() <==> count == Weigh(old(Tracked()), Leaves(old(remotes), remotes))
                                || old(stales) + count > |old(Tracked())| / 4)
    {
      ghost var was := remotes;
      remotes := remotes - hashes;
      StaleGrows(Tracked(), was, remotes);
      Removed(count);
    }

    method SetBaseFee(fee: Option<nat>)
      requires Valid()
      modifies `urgent, `floating, `stales, `baseFee
      ensures Valid() && baseFee == fee && stales == 0 && Counted() && Exact()
    {
      baseFee, urgent, floating := fee, [], [];
      Reheap();
    }
  }

  method ListRemotes(remotes: map<nat, Tx>) returns (all: seq<Tx>)
    ensures |all| == |remotes|
    ensures (forall h | h in remotes :: remotes[h].hash == h) ==>
      forall tx :: multiset(all)[tx] == if tx.hash in remotes && remotes[tx.hash] == tx then 1 else 0
  {
    all := [];
    var todo := remotes.Keys;
    while todo != {}
      invariant todo <= remotes.Keys && |all| + |todo| == |remotes|
      invariant (forall h | h in remotes :: remotes[h].hash == h) ==>
        forall tx :: multiset(all)[tx] == if tx.hash in remotes && tx.hash !in todo && remotes[tx.hash] == tx then 1
            else 0
    {
      var h :| h in todo;
      all, todo := all + [remotes[h]], todo - {h};
    }
  }

  lemma AllLive(remotes: map<nat, Tx>, all: seq<Tx>, tracked: multiset<Tx>)
    requires tracked == multiset(all)
    requires forall tx :: multiset(all)[tx] == if tx.hash in remotes && remotes[tx.hash] == tx then 1 else 0
    ensures Weigh(tracked, Stale(Live(remotes))) == 0
  {
    forall x | x in all ensures Live(remotes)(x) {
      assert x in multiset(all);
    }
    TotalLive(all, Live(remotes), Slots);
    WeighSeq(multiset{}, all, Stale(Live(remotes)));
    assert multiset{} + multiset(all) == tracked;
  }

  /** Weighs the entries that are live in `was` and stale in `now`. */
  function Leaves(was: map<nat, Tx>, now: map<nat, Tx>): Tx -> nat {
    (tx: Tx) => if tx.hash in was && tx.hash !in now then 1 else 0
  }

  lemma StaleGrows(tracked: multiset<Tx>, was: map<nat, Tx>, now: map<nat, Tx>)
    requires now.Keys <= was.Keys
    ensures Weigh(tracked, Stale(Live(now))) == Weigh(tracked, Stale(Live(was))) + Weigh(tracked, Leaves(was, now))
  {
    WeighAdd(tracked, Stale(Live(was)), Leaves(was, now), Stale(Live(now)));
  }

  function Slots(tx: Tx): nat { tx.inner.slots }

  /** What is dropped is measured in the slots that transactions take. */
  lemma SlotsTaken(txs: seq<Tx>)
    ensures Total(txs, Slots) == Total(txs, (tx: Tx) => tx.inner.slots)
  {
    TotalAgree(txs, Slots, (tx: Tx) => tx.inner.slots);
  }

  function Live(remotes: map<nat, Tx>): Tx -> bool {
    (tx: Tx) => tx.hash in remotes
  }
}

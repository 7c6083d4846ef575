/**
 * Demoting pending transactions that their sponsors cannot serve yet (normalizeSponsoredPending): per account,
 * everything from the first transaction at or beyond its sponsor's frontier goes back to the queue.
 */
module Demotion {
  import opened Util
  import opened Nonces
  import opened Txs
  import opened Sponsors
  import SM = SortedMap
  import TL = TxList

  /** Every list is filed under its sender, by nonce. */
  ghost predicate WellFormed(m: Lists) {
    forall a: Addr {:trigger Filed(ItemsOf(m, a), a)} :: Filed(ItemsOf(m, a), a)
  }

  ghost predicate Filed(items: Items, a: Addr) {
    Keyed(items) && forall n | n in items :: items[n].inner.from == a
  }

  /** At or beyond the frontier of its sponsor. */
  function Gap(front: Addr -> nat): Tx -> bool {
    (tx: Tx) => tx.inner.sponsor.Some? && tx.inner.sponsor.value.nonce >= front(tx.inner.sponsor.value.addr)
  }

  /** What stays pending. */
  ghost function Kept(items: Items, front: Addr -> nat): Items {
    TL.KeepPrefix(items, Gap(front))
  }

  /** A transaction stays just when its sponsor, and that of each one before it, is past its sponsor nonce. */
  lemma KeptExactly(items: Items, front: Addr -> nat, n: nat)
    ensures n in Kept(items, front) <==>
              n in items && forall m | m in items && m <= n :: PastBy(items[m].inner.sponsor, front)
  {
    assert forall m | m in items :: Gap(front)(items[m]) <==> !PastBy(items[m].inner.sponsor, front);
  }

  ghost predicate PastBy(sponsor: Option<Sponsor>, front: Addr -> nat) {
    match sponsor
    case None => true
    case Some(Sponsor(addr, nonce)) => nonce < front(addr)
  }

  /** What is demoted. */
  ghost function Gone(items: Items, front: Addr -> nat): Items {
    items - Kept(items, front).Keys
  }

  /** What the queue holds once the transactions of `d` are offered to it. */
  ghost function Merge(q: Items, d: Items, bump: nat): Items {
    map n | n in q.Keys + d.Keys :: if n in d && (n !in q || TL.Outbids(q[n], d[n], bump)) then d[n] else q[n]
  }

  /** The first transaction, by nonce, at or beyond its sponsor's frontier. */
  method FirstGap(items: Items, front: Addr -> nat) returns (r: Option<Tx>)
    requires Keyed(items)
    ensures r.None? ==> Kept(items, front) == items
    ensures r.Some? ==> r.value.nonce in items && items[r.value.nonce] == r.value
    ensures r.Some? ==> Kept(items, front) == Below(items, r.value.nonce) && Gap(front)(r.value)
  {
    var all := SM.Collect(items);
    var txs := SM.SortBy((tx: Tx) => tx.nonce, all);
    SM.SortedListing(items, all, txs);
    for i := 0 to |txs|
      invariant forall j | 0 <= j < i :: !Gap(front)(txs[j])
    {
      if Gap(front)(txs[i]) {
        GapFound(items, front, txs, i);
        return Some(txs[i]);
      }
    }
    NoGap(items, front, txs);
    return None;
  }

  lemma ListedAt(items: Items, txs: seq<Tx>, n: nat) returns (i: nat)
    requires Listing(items, txs) && n in items
    ensures i < |txs| && txs[i] == items[n] && txs[i].nonce == n
  {
    assert n in Elems(Of(txs));
    i :| i < |txs| && Of(txs)[i] == n;
  }

  lemma NoGap(items: Items, front: Addr -> nat, txs: seq<Tx>)
    requires Listing(items, txs) && forall j | 0 <= j < |txs| :: !Gap(front)(txs[j])
    ensures Kept(items, front) == items
  {
    forall n | n in items ensures !Gap(front)(items[n]) {
      var i := ListedAt(items, txs, n);
    }
  }

  lemma GapFound(items: Items, front: Addr -> nat, txs: seq<Tx>, i: nat)
    requires Listing(items, txs) && i < |txs| && Gap(front)(txs[i]) && forall j | 0 <= j < i :: !Gap(front)(txs[j])
    ensures Kept(items, front) == Below(items, txs[i].nonce)
  {
    var g := txs[i].nonce;
    forall n | n in items && n < g ensures !Gap(front)(items[n]) {
      var j := ListedAt(items, txs, n);
      RisingIndex(Of(txs), j, i);
    }
    KeptBelow(items, front, g);
  }

  lemma KeptBelow(items: Items, front: Addr -> nat, g: nat)
    requires g in items && Gap(front)(items[g]) && forall n | n in items && n < g :: !Gap(front)(items[n])
    ensures Kept(items, front) == Below(items, g)
  {
    forall n | n in items ensures TL.AllPass(items, Gap(front), n) <==> n < g {
    }
  }

  /** Offer one transaction to its sender's queue. */
  method Enqueue(queue: Lists, tx: Tx, bump: nat) returns (queue': Lists, ok: bool)
    ensures var q := ItemsOf(queue, tx.inner.from);
      && (ok <==> tx.nonce !in q || TL.Outbids(q[tx.nonce], tx, bump))
      && queue' == if ok then queue[tx.inner.from := q[tx.nonce := tx]] else queue
  {
    var q: Items := ItemsOf(queue, tx.inner.from);
    ok := tx.nonce !in q || TL.Outbids(q[tx.nonce], tx, bump);
    if ok {
      q := q[tx.nonce := tx];
      queue' := queue[tx.inner.from := q];
    } else {
      queue' := queue;
    }
  }

  /** Offer all transactions of `d`, which are from `a`, to the queue. */
  method EnqueueAll(queue0: Lists, a: Addr, d: Items, bump: nat) returns (queue: Lists)
    requires Filed(d, a)
    ensures ItemsOf(queue, a) == Merge(ItemsOf(queue0, a), d, bump)
    ensures forall b: Addr | b != a :: ItemsOf(queue, b) == ItemsOf(queue0, b)
  {
    queue := queue0;
    ghost var q := ItemsOf(queue0, a);
    var todo := d.Keys;
    while todo != {}
      invariant todo <= d.Keys
      invariant ItemsOf(queue, a) == Merge(q, d - todo, bump)
      invariant forall b: Addr | b != a :: ItemsOf(queue, b) == ItemsOf(queue0, b)
    {
      var n :| n in todo;
      var ok;
      ghost var before := queue;
      queue, ok := Enqueue(queue, d[n], bump);
      MergeMore(q, d, todo, n, bump);
      todo := todo - {n};
    }
    assert d - todo == d;
  }

  lemma MergeMore(q: Items, d: Items, todo: set<nat>, n: nat, bump: nat)
    requires n in todo && todo <= d.Keys
    ensures var m := Merge(q, d - todo, bump);
      && (n in m <==> n in q) && (n in q ==> m[n] == q[n])
      && Merge(q, d - (todo - {n}), bump) == if n !in q || TL.Outbids(q[n], d[n], bump) then m[n := d[n]] else m
  {
  }

  // What demotion conserves.

  function Copies(p: Items, q: Items, n: nat): nat {
    (if n in p then 1 else 0) + (if n in q then 1 else 0)
  }

  ghost predicate Present(p: Items, q: Items, tx: Tx) {
    (tx.nonce in p && p[tx.nonce] == tx) || (tx.nonce in q && q[tx.nonce] == tx)
  }

  /** An account keeps as many transactions at each nonce exactly if no demoted nonce was queued already. */
  lemma DemoteConserves(p: Items, q: Items, front: Addr -> nat, bump: nat)
    ensures (forall n: nat :: Copies(Kept(p, front), Merge(q, Gone(p, front), bump), n) == Copies(p, q, n))
            <==> Gone(p, front).Keys !! q.Keys
  {
    var k, g := Kept(p, front), Gone(p, front);
    var m := Merge(q, g, bump);
    if g.Keys !! q.Keys {
      forall n: nat ensures Copies(k, m, n) == Copies(p, q, n) {
        assert n in p <==> n in k || n in g;
      }
    } else {
      var n :| n in g && n in q;
      assert Copies(k, m, n) == 1 && Copies(p, q, n) == 2;
    }
  }

  /** In that case it keeps the very same transactions. */
  lemma DemoteKeeps(p: Items, q: Items, front: Addr -> nat, bump: nat, tx: Tx)
    requires Gone(p, front).Keys !! q.Keys
    ensures Present(Kept(p, front), Merge(q, Gone(p, front), bump), tx) <==> Present(p, q, tx)
  {
    assert tx.nonce in p <==> tx.nonce in Kept(p, front) || tx.nonce in Gone(p, front);
  }

  /** A queued transaction at a demoted nonce costs one of the two. */
  lemma DemotionLoses(front: Addr -> nat, bump: nat)
    requires front(8) == 0
    ensures var p, q := map[0 := Sponsored(1, 0, 8, 5)], map[0 := Sponsored(1, 0, 8, 6)];
      Copies(p, q, 0) == 2 && Copies(Kept(p, front), Merge(q, Gone(p, front), bump), 0) == 1
  {
    var p: Items := map[0 := Sponsored(1, 0, 8, 5)];
    assert Gap(front)(p[0]);
    assert Kept(p, front) == map[];
  }

  // What demotion achieves.

  /** `front` is every sponsor's frontier. */
  ghost predicate FrontiersAre(pending: Lists, chain: Addr -> nat, front: Addr -> nat) {
    forall sp: Addr {:trigger front(sp)} :: FrontierIs(pending, chain(sp), sp, front(sp))
  }

  /** `kept` is what one pass over all accounts leaves pending. */
  ghost predicate AllKept(pending: Lists, front: Addr -> nat, kept: Lists) {
    forall a: Addr {:trigger ItemsOf(kept, a)} {:trigger ItemsOf(pending, a)} ::
        ItemsOf(kept, a) == Kept(ItemsOf(pending, a), front)
  }

  /** Every sponsored transaction is below its sponsor's frontier. */
  ghost predicate NoneBeyond(pending: Lists, front: Addr -> nat) {
    forall a: Addr, n: nat, sp: Addr, k: nat {:trigger Slot(pending, a, n, sp, k)} | Slot(pending, a, n, sp, k) ::
        k < front(sp)
  }

  /** Account `a` demotes the transaction at `n`, which uses nonce `k` of `sp`. */
  ghost predicate Lost(pending: Lists, front: Addr -> nat, a: Addr, n: nat, sp: Addr, k: nat) {
    n in Gone(ItemsOf(pending, a), front) && Uses(ItemsOf(pending, a)[n], sp, k)
  }

  /** Account `a` keeps the transaction at `n`, which uses nonce `k` of `sp`. */
  ghost predicate Stays(pending: Lists, front: Addr -> nat, a: Addr, n: nat, sp: Addr, k: nat) {
    n in Kept(ItemsOf(pending, a), front) && Uses(ItemsOf(pending, a)[n], sp, k)
  }

  ghost predicate StillUsed(pending: Lists, front: Addr -> nat, sp: Addr, k: nat) {
    exists a: Addr, n: nat :: Stays(pending, front, a, n, sp, k)
  }

  /** The transactions to be demoted leave no hole below one that stays: a sponsor nonce between the chain's and that of
      a transaction that stays is demoted only if another that stays uses it. */
  ghost predicate NoHole(pending: Lists, chain: Addr -> nat, front: Addr -> nat) {
    forall a: Addr, n: nat, sp: Addr, j: nat, k: nat
      {:trigger Lost(pending, front, a, n, sp, j), StillUsed(pending, front, sp, k)} |
      Lost(pending, front, a, n, sp, j) && StillUsed(pending, front, sp, k) && chain(sp) <= j < k ::
          StillUsed(pending, front, sp, j)
  }

  /** No follower of a demoted transaction was itself below its sponsor's frontier. */
  ghost predicate NoGoodFollower(pending: Lists, front: Addr -> nat) {
    forall a: Addr, n: nat, sp: Addr, k: nat {:trigger Lost(pending, front, a, n, sp, k)} |
        Lost(pending, front, a, n, sp, k) :: k >= front(sp)
  }

  lemma KeptOrLost(pending: Lists, front: Addr -> nat, kept: Lists, a: Addr, n: nat, sp: Addr, k: nat)
    requires AllKept(pending, front, kept)
    ensures Slot(pending, a, n, sp, k) <==> Slot(kept, a, n, sp, k) || Lost(pending, front, a, n, sp, k)
    ensures Slot(kept, a, n, sp, k) <==> Stays(pending, front, a, n, sp, k)
    ensures Slot(kept, a, n, sp, k) ==> k < front(sp)
  {
  }

  /** What is in use after one pass is decided before it. */
  lemma StillUsedHeld(pending: Lists, front: Addr -> nat, kept: Lists, sp: Addr, k: nat)
    requires AllKept(pending, front, kept)
    ensures StillUsed(pending, front, sp, k) <==> Held(kept, sp, k)
  {
    if Held(kept, sp, k) {
      var a: Addr, n: nat :| Slot(kept, a, n, sp, k);
      KeptOrLost(pending, front, kept, a, n, sp, k);
    }
    if StillUsed(pending, front, sp, k) {
      var a: Addr, n: nat :| Stays(pending, front, a, n, sp, k);
      KeptOrLost(pending, front, kept, a, n, sp, k);
    }
  }

  /** Without a hole, every nonce from the chain's up to that of a kept transaction is still in use. */
  lemma HeldUpTo(pending: Lists, chain: Addr -> nat, front: Addr -> nat, kept: Lists, sp: Addr, k: nat, j: nat)
    requires FrontiersAre(pending, chain, front) && AllKept(pending, front, kept) && NoHole(pending, chain, front)
    requires Held(kept, sp, k) && chain(sp) <= j <= k
    ensures Held(kept, sp, j)
  {
    var b: Addr, m: nat :| Slot(kept, b, m, sp, k);
    KeptOrLost(pending, front, kept, b, m, sp, k);
    assert Held(pending, sp, j);
    var a: Addr, n: nat :| Slot(pending, a, n, sp, j);
    KeptOrLost(pending, front, kept, a, n, sp, j);
    StillUsedHeld(pending, front, kept, sp, j);
    StillUsedHeld(pending, front, kept, sp, k);
  }

  /** One pass leaves nothing at or beyond the new frontiers exactly if it leaves no hole. */
  lemma OnePassEnough(pending: Lists, chain: Addr -> nat, front: Addr -> nat, kept: Lists, front': Addr -> nat)
    requires FrontiersAre(pending, chain, front) && AllKept(pending, front, kept) && FrontiersAre(kept, chain, front')
    ensures NoneBeyond(kept, front') <==> NoHole(pending, chain, front)
  {
    if NoHole(pending, chain, front) {
      forall a: Addr, n: nat, sp: Addr, k: nat | Slot(kept, a, n, sp, k) ensures k < front'(sp) {
        if k >= front'(sp) {
          HeldUpTo(pending, chain, front, kept, sp, k, front'(sp));
          assert false;
        }
      }
    }
    if NoneBeyond(kept, front') {
      forall sp: Addr, j: nat, k: nat | StillUsed(pending, front, sp, k) && chain(sp) <= j < k
        ensures StillUsed(pending, front, sp, j) {
        StillUsedHeld(pending, front, kept, sp, k);
        StillUsedHeld(pending, front, kept, sp, j);
        var b: Addr, m: nat :| Slot(kept, b, m, sp, k);
        assert FrontierIs(kept, chain(sp), sp, front'(sp));
      }
    }
  }

  /** In particular if no follower of a demoted transaction was below its sponsor's frontier. */
  lemma OnePassSuffices(pending: Lists, chain: Addr -> nat, front: Addr -> nat, kept: Lists, front': Addr -> nat)
    requires FrontiersAre(pending, chain, front) && AllKept(pending, front, kept) && FrontiersAre(kept, chain, front')
    requires NoGoodFollower(pending, front)
    ensures NoneBeyond(kept, front')
  {
    forall sp: Addr, k: nat | StillUsed(pending, front, sp, k) ensures k < front(sp) {
      var b: Addr, m: nat :| Stays(pending, front, b, m, sp, k);
      KeptOrLost(pending, front, kept, b, m, sp, k);
    }
    OnePassEnough(pending, chain, front, kept, front');
  }

  function Sponsored(from: Addr, nonce: nat, sp: Addr, k: nat): Tx {
    Tx(10 * from + nonce, nonce, TxData(from, OtherTx, 0, 0, 0, 0, 0, 1, Some(Sponsor(sp, k))))
  }

  /** One pass can fall short. Account 1 waits for sponsor 8 and takes along a transaction with nonce 0 of sponsor 9;
      account 2 keeps one with nonce 1 of sponsor 9, now beyond the frontier. */
  lemma OnePassFallsShort(pending: Lists, chain: Addr -> nat, front: Addr -> nat, kept: Lists, front': Addr -> nat)
    requires pending == map[1 := map[0 := Sponsored(1, 0, 8, 5), 1 := Sponsored(1, 1, 9, 0)],
                            2 := map[0 := Sponsored(2, 0, 9, 1)]]
    requires kept == map[2 := map[0 := Sponsored(2, 0, 9, 1)]]
    requires forall sp: Addr :: chain(sp) == 0 && front(sp) == (if sp == 9 then 2 else 0) && front'(sp) == 0
    ensures FrontiersAre(pending, chain, front) && AllKept(pending, front, kept) && FrontiersAre(kept, chain, front')
    ensures !NoneBeyond(kept, front')
  {
    assert Slot(kept, 2, 0, 9, 1);
    ShortFrontiers(pending, chain, front);
    forall sp: Addr ensures FrontierIs(kept, chain(sp), sp, front'(sp)) {
    }
    assert Gap(front)(ItemsOf(pending, 1)[0]);
    assert Kept(ItemsOf(pending, 1), front) == map[];
    assert Kept(ItemsOf(pending, 2), front) == ItemsOf(pending, 2);
  }

  lemma ShortFrontiers(pending: Lists, chain: Addr -> nat, front: Addr -> nat)
    requires pending == map[1 := map[0 := Sponsored(1, 0, 8, 5), 1 := Sponsored(1, 1, 9, 0)],
                            2 := map[0 := Sponsored(2, 0, 9, 1)]]
    requires forall sp: Addr :: chain(sp) == 0 && front(sp) == (if sp == 9 then 2 else 0)
    ensures FrontiersAre(pending, chain, front)
  {
    assert Slot(pending, 1, 1, 9, 0) && Slot(pending, 2, 0, 9, 1);
    assert Held(pending, 9, 0) && Held(pending, 9, 1);
    forall sp: Addr ensures FrontierIs(pending, chain(sp), sp, front(sp)) {
    }
  }
}

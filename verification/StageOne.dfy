/**
 * The first stage of promotion for one account (promoteExecutables): the ready run leaves the queue, its public
 * transactions become pending, and its sponsored ones go back.
 */
module StageOne {
  import opened Util
  import opened Nonces
  import opened Txs
  import opened Sponsors
  import opened Demotion
  import opened Promotion
  import SM = SortedMap

  predicate Public(items: Items, n: nat) {
    n in items && items[n].inner.sponsor.None?
  }

  /** Where nonce `n` of an account ends up after the first `i` of `k` ready transactions, which start at `m`: a public
      one placed so far is pending, one not placed yet is nowhere, and the rest is where it was. */
  ghost predicate PlacedAt(p: Items, q: Items, p': Items, q': Items, m: nat, k: nat, i: nat, n: nat) {
    if n in q && m <= n < m + k then
      && (n in q' <==> n < m + i && !Public(q, n)) && (n in q' ==> q'[n] == q[n])
      && (n in p' <==> n < m + i && Public(q, n)) && (n in p' ==> p'[n] == q[n])
    else
      && (n in q' <==> n in q) && (n in q' ==> q'[n] == q[n])
      && (n in p' <==> n in p) && (n in p' ==> p'[n] == p[n])
  }

  ghost predicate Placed(p: Items, q: Items, p': Items, q': Items, m: nat, k: nat, i: nat) {
    forall n: nat {:trigger PlacedAt(p, q, p', q', m, k, i, n)} :: PlacedAt(p, q, p', q', m, k, i, n)
  }

  /** `n` is one past the last public nonce from `m` to `hi`, or still `next` if there is none. */
  ghost predicate NextIs(items: Items, next: nat, m: nat, hi: nat, n: nat) {
    || (n == next && NonePublic(items, m, hi))
    || (m < n <= hi && Public(items, n - 1) && NonePublic(items, n, hi))
  }

  ghost predicate NonePublic(items: Items, lo: nat, hi: nat) {
    forall j: nat {:trigger Public(items, j)} | lo <= j < hi :: !Public(items, j)
  }

  lemma NextMore(items: Items, next: nat, m: nat, i: nat, n: nat)
    requires NextIs(items, next, m, m + i, n)
    ensures NextIs(items, next, m, m + i + 1, if Public(items, m + i) then m + i + 1 else n)
  {
  }

  /** The least nonce of a non-empty map. */
  method LeastNonce(items: Items) returns (m: nat)
    requires items != map[]
    ensures Least(items.Keys, m)
  {
    ghost var l := LeastExists(items.Keys);
    m :| m in items && forall k | k in items :: m <= k;
  }

  ghost predicate Run(items: Items, m: nat, r: seq<Tx>) {
    forall i: nat | i < |r| :: r[i].nonce == m + i && r[i].nonce in items && items[r[i].nonce] == r[i]
  }

  /** The run that is ready at `start`, and where it begins. */
  method ReadyRun(items: Items, start: nat) returns (m: nat, ready: seq<Tx>)
    requires Keyed(items)
    ensures SM.ReadyIs(items, start, ready) && Run(items, m, ready)
    ensures if ready == [] then Over(items.Keys, start + 1) else ReadyAt(items, start, m, |ready|)
  {
    m, ready := 0, [];
    if items == map[] {
      return;
    }
    m := LeastNonce(items);
    if m > start {
      return;
    }
    var next := m;
    while next in items
      invariant m <= next && next == m + |ready| && Members(items, ready) && Consecutive(Of(ready), m)
      invariant Run(items, m, ready)
      decreases MAX_UINT64 + 1 - next
    {
      OfPush(ready, items[next]);
      MembersPush(items, ready, items[next]);
      ready, next := ready + [items[next]], next + 1;
    }
    MembersNonces(items, ready);
    SM.ReadyFrom(items, start, m, ready);
    RunEnds(items, m, ready);
  }

  /** The first `i` of the `k` ready transactions of account `a`, which start at `m`, are placed. */
  ghost predicate Staged(p: Pool, q: Pool, c: Chain, a: Addr, m: nat, k: nat, i: nat) {
    && Placed(ItemsOf(p.pending, a), ItemsOf(p.queue, a), ItemsOf(q.pending, a), ItemsOf(q.queue, a), m, k, i)
    && NextIs(ItemsOf(p.queue, a), Next(p, c, a), m, m + i, Next(q, c, a))
  }

  /** Everything but the nonces from `m` to `m + k`. */
  function Others(items: Items, m: nat, k: nat): Items {
    map n | n in items && !(m <= n < m + k) :: items[n]
  }

  method TakeOut(p: Pool, ghost c: Chain, a: Addr, m: nat, k: nat) returns (q: Pool)
    requires ItemsOf(p.pending, a).Keys !! ItemsOf(p.queue, a).Keys
    ensures Staged(p, q, c, a, m, k, 0) && OthersLeft(p, q, c, a) && q.sponsors == p.sponsors
  {
    q := p.(queue := WithItems(p.queue, a, Others(ItemsOf(p.queue, a), m, k)));
    StagedStart(p, c, a, m, k);
    forall b: Addr | b != a ensures Untouched(p, q, c, b) {
      WithItemsOf(p.queue, a, Others(ItemsOf(p.queue, a), m, k), b);
    }
  }

  lemma PlacedStart(p: Items, q: Items, m: nat, k: nat)
    requires p.Keys !! q.Keys
    ensures Placed(p, q, p, Others(q, m, k), m, k, 0)
  {
  }

  lemma StagedStart(p: Pool, c: Chain, a: Addr, m: nat, k: nat)
    requires ItemsOf(p.pending, a).Keys !! ItemsOf(p.queue, a).Keys
    ensures Staged(p, p.(queue := WithItems(p.queue, a, Others(ItemsOf(p.queue, a), m, k))), c, a, m, k, 0)
  {
    var rest := Others(ItemsOf(p.queue, a), m, k);
    WithItemsOf(p.queue, a, rest, a);
    PlacedStart(ItemsOf(p.pending, a), ItemsOf(p.queue, a), m, k);
  }

  method StageStep(ghost p: Pool, q0: Pool, c: Chain, a: Addr, tx: Tx, bump: nat, ghost m: nat, ghost k: nat,
                   ghost i: nat) returns (q: Pool)
    requires Staged(p, q0, c, a, m, k, i) && i < k
    requires tx.nonce == m + i && tx.nonce in ItemsOf(p.queue, a) && ItemsOf(p.queue, a)[tx.nonce] == tx
    ensures Staged(p, q, c, a, m, k, i + 1) && OthersLeft(q0, q, c, a) && q.sponsors == q0.sponsors
  {
    PlacedMore(ItemsOf(p.pending, a), ItemsOf(p.queue, a), ItemsOf(q0.pending, a), ItemsOf(q0.queue, a), m, k, i,
               tx.nonce);
    NextMore(ItemsOf(p.queue, a), Next(p, c, a), m, i, Next(q0, c, a));
    q := Place(q0, c, a, tx, bump);
  }

  /** One ready transaction: back to the queue if sponsored, otherwise pending. */
  method Place(p: Pool, c: Chain, a: Addr, tx: Tx, bump: nat) returns (q: Pool)
    requires tx.nonce !in ItemsOf(p.queue, a) && tx.nonce !in ItemsOf(p.pending, a)
    ensures ItemsOf(q.queue, a) == if tx.inner.sponsor.Some? then ItemsOf(p.queue, a)[tx.nonce := tx]
            else ItemsOf(p.queue, a)
    ensures ItemsOf(q.pending, a) == if tx.inner.sponsor.Some? then ItemsOf(p.pending, a)
            else ItemsOf(p.pending, a)[tx.nonce := tx]
    ensures Next(q, c, a) == if tx.inner.sponsor.Some? then Next(p, c, a) else tx.nonce + 1
    ensures OthersLeft(p, q, c, a) && q.sponsors == p.sponsors
  {
    if tx.inner.sponsor.Some? {
      var items: Items := ItemsOf(p.queue, a);
      items := items[tx.nonce := tx];
      q := p.(queue := p.queue[a := items]);
    } else {
      var ok;
      q, ok := PromoteTx(p, a, tx, bump);
    }
  }

  lemma PlacedMore(p: Items, q: Items, p': Items, q': Items, m: nat, k: nat, i: nat, n: nat)
    requires Placed(p, q, p', q', m, k, i) && i < k && n == m + i && n in q
    ensures n !in q' && n !in p'
    ensures Public(q, n) ==> Placed(p, q, p'[n := q[n]], q', m, k, i + 1)
    ensures !Public(q, n) ==> Placed(p, q, p', q'[n := q[n]], m, k, i + 1)
  {
    assert PlacedAt(p, q, p', q', m, k, i, n);
    var next := i + 1;
    if Public(q, n) {
      var p'' := p'[n := q[n]];
      forall j: nat ensures PlacedAt(p, q, p'', q', m, k, next, j) {
        assert PlacedAt(p, q, p', q', m, k, i, j);
      }
    } else {
      var q'' := q'[n := q[n]];
      forall j: nat ensures PlacedAt(p, q, p', q'', m, k, next, j) {
        assert PlacedAt(p, q, p', q', m, k, i, j);
      }
    }
  }

  lemma RunEnds(items: Items, m: nat, ready: seq<Tx>)
    requires Run(items, m, ready)
    ensures forall n | m <= n < m + |ready| :: n in items
  {
    forall n | m <= n < m + |ready| ensures n in items {
      assert ready[n - m].nonce == n;
    }
  }

  lemma OthersLeftAgain(p: Pool, q: Pool, r: Pool, c: Chain, a: Addr)
    requires OthersLeft(p, q, c, a) && OthersLeft(q, r, c, a)
    ensures OthersLeft(p, r, c, a)
  {
    forall b: Addr | b != a ensures Untouched(p, r, c, b) {
      assert Untouched(p, q, c, b) && Untouched(q, r, c, b);
    }
  }

  /** Place all transactions of the run. */
  method PlaceAll(p: Pool, c: Chain, a: Addr, bump: nat, m: nat, ready: seq<Tx>) returns (q: Pool)
    requires Run(ItemsOf(p.queue, a), m, ready) && ItemsOf(p.pending, a).Keys !! ItemsOf(p.queue, a).Keys
    ensures Staged(p, q, c, a, m, |ready|, |ready|) && OthersLeft(p, q, c, a) && q.sponsors == p.sponsors
  {
    q := TakeOut(p, c, a, m, |ready|);
    var i: nat := 0;
    while i < |ready|
      invariant i <= |ready| && Staged(p, q, c, a, m, |ready|, i) && OthersLeft(p, q, c, a) && q.sponsors == p.sponsors
    {
      ghost var before := q;
      q := StageStep(p, q, c, a, ready[i], bump, m, |ready|, i);
      OthersLeftAgain(p, before, q, c, a);
      i := i + 1;
    }
  }

  /** Take the ready run of account `a` and place each of its transactions; nothing else changes. */
  method PromotePublic(p: Pool, c: Chain, a: Addr, bump: nat) returns (q: Pool, m: nat, k: nat)
    requires Keyed(ItemsOf(p.queue, a)) && ItemsOf(p.pending, a).Keys !! ItemsOf(p.queue, a).Keys
    ensures Staged(p, q, c, a, m, k, k) && OthersLeft(p, q, c, a) && q.sponsors == p.sponsors
    ensures if k == 0 then Over(ItemsOf(p.queue, a).Keys, Next(p, c, a) + 1)
            else ReadyAt(ItemsOf(p.queue, a), Next(p, c, a), m, k)
    ensures Disjoint(p) ==> Disjoint(q) && SameTxs(p, q) && (Contiguous(p, c) ==> Contiguous(q, c))
  {
    var ready;
    m, ready := ReadyRun(ItemsOf(p.queue, a), Next(p, c, a));
    k := |ready|;
    q := PlaceAll(p, c, a, bump, m, ready);
    if Disjoint(p) {
      StagedDisjoint(p, q, c, a, m, k);
      if Contiguous(p, c) {
        StagedContiguous(p, q, c, a, m, k);
      }
    }
  }

  /** Only transactions without a sponsor become pending. */
  lemma StagedSlot(p: Pool, q: Pool, c: Chain, a: Addr, m: nat, k: nat, b: Addr, n: nat, sp: Addr, l: nat)
    requires Disjoint(p) && Staged(p, q, c, a, m, k, k) && OthersLeft(p, q, c, a)
    ensures Slot(q.pending, b, n, sp, l) <==> Slot(p.pending, b, n, sp, l)
  {
    assert ItemsOf(p.pending, a).Keys !! ItemsOf(p.queue, a).Keys;
    assert PlacedAt(ItemsOf(p.pending, a), ItemsOf(p.queue, a), ItemsOf(q.pending, a), ItemsOf(q.queue, a), m, k, k, n);
    assert b != a ==> Untouched(p, q, c, b);
  }

  /** So the sponsors' runs are as before. */
  lemma StagedContiguous(p: Pool, q: Pool, c: Chain, a: Addr, m: nat, k: nat)
    requires Disjoint(p) && Staged(p, q, c, a, m, k, k) && OthersLeft(p, q, c, a) && q.sponsors == p.sponsors
    requires Contiguous(p, c)
    ensures Contiguous(q, c)
  {
    forall b: Addr, n: nat, sp: Addr, l: nat
      ensures Slot(q.pending, b, n, sp, l) <==> Slot(p.pending, b, n, sp, l)
    {
      StagedSlot(p, q, c, a, m, k, b, n, sp, l);
    }
    forall sp: Addr ensures Front(q, c, sp) == Front(p, c, sp) >= c.sponsor(sp) {
    }
    forall sp: Addr, l: nat | Held(p.pending, sp, l) ensures Held(q.pending, sp, l) {
      var b: Addr, n: nat :| Slot(p.pending, b, n, sp, l);
      assert Slot(q.pending, b, n, sp, l);
    }
  }

  /** The stage keeps pending and queued nonces apart, and keeps every transaction. */
  lemma StagedDisjoint(p: Pool, q: Pool, c: Chain, a: Addr, m: nat, k: nat)
    requires Disjoint(p) && Staged(p, q, c, a, m, k, k) && OthersLeft(p, q, c, a)
    ensures Disjoint(q) && SameTxs(p, q)
  {
    forall b: Addr ensures ItemsOf(q.pending, b).Keys !! ItemsOf(q.queue, b).Keys {
      assert ItemsOf(p.pending, b).Keys !! ItemsOf(p.queue, b).Keys;
      if b == a {
        PlacedDisjoint(ItemsOf(p.pending, a), ItemsOf(p.queue, a), ItemsOf(q.pending, a), ItemsOf(q.queue, a), m, k);
      } else {
        assert Untouched(p, q, c, b);
      }
    }
    forall b: Addr, tx: Tx
      ensures Present(ItemsOf(p.pending, b), ItemsOf(p.queue, b), tx) <==>
                Present(ItemsOf(q.pending, b), ItemsOf(q.queue, b), tx)
    {
      assert ItemsOf(p.pending, b).Keys !! ItemsOf(p.queue, b).Keys;
      if b == a {
        PlacedPresent(ItemsOf(p.pending, a), ItemsOf(p.queue, a), ItemsOf(q.pending, a), ItemsOf(q.queue, a), m, k, tx);
      } else {
        assert Untouched(p, q, c, b);
      }
    }
  }

  lemma PlacedDisjoint(p: Items, q: Items, p': Items, q': Items, m: nat, k: nat)
    requires p.Keys !! q.Keys && Placed(p, q, p', q', m, k, k)
    ensures p'.Keys !! q'.Keys
  {
    forall n: nat | n in p' ensures n !in q' {
      assert PlacedAt(p, q, p', q', m, k, k, n);
    }
  }

  lemma PlacedPresent(p: Items, q: Items, p': Items, q': Items, m: nat, k: nat, tx: Tx)
    requires p.Keys !! q.Keys && Placed(p, q, p', q', m, k, k)
    ensures Present(p, q, tx) <==> Present(p', q', tx)
  {
    assert PlacedAt(p, q, p', q', m, k, k, tx.nonce);
  }

  /** The `k` nonces from the least one, `m`, are an unbroken run, and `m` is not beyond `start`. */
  ghost predicate ReadyAt(items: Items, start: nat, m: nat, k: nat) {
    && Least(items.Keys, m) && m <= start
    && (forall n | m <= n < m + k :: n in items)
    && m + k !in items
  }

  /** The pending nonces are exactly those from the chain's up to the next one. */
  ghost predicate Executable(pending: set<nat>, chain: nat, next: nat) {
    forall n: nat :: n in pending <==> chain <= n < next
  }

  /** No public transaction of the run follows a sponsored one. */
  ghost predicate PublicFirst(items: Items, m: nat, k: nat) {
    forall i: nat, j: nat | m <= i < j < m + k && Public(items, j) :: Public(items, i)
  }

  /** The stage keeps an account's pending nonces unbroken exactly if no public transaction of the ready run follows a
      sponsored one. */
  lemma StageKeepsExecutable(p: Pool, q: Pool, c: Chain, a: Addr, m: nat, k: nat)
    requires Staged(p, q, c, a, m, k, k) && k > 0 && ReadyAt(ItemsOf(p.queue, a), Next(p, c, a), m, k)
    requires Executable(ItemsOf(p.pending, a).Keys, c.nonce(a), Next(p, c, a)) && c.nonce(a) <= Next(p, c, a)
    requires ItemsOf(p.pending, a).Keys !! ItemsOf(p.queue, a).Keys && Over(ItemsOf(p.queue, a).Keys, c.nonce(a))
    ensures m == Next(p, c, a)
    ensures Executable(ItemsOf(q.pending, a).Keys, c.nonce(a), Next(q, c, a)) <==>
              PublicFirst(ItemsOf(p.queue, a), m, k)
  {
    PlacedExecutable(ItemsOf(p.pending, a), ItemsOf(p.queue, a), ItemsOf(q.pending, a), ItemsOf(q.queue, a),
                     c.nonce(a), Next(p, c, a), m, k, Next(q, c, a));
  }

  lemma PlacedExecutable(p: Items, q: Items, p': Items, q': Items, chain: nat, next: nat, m: nat, k: nat, next': nat)
    requires Placed(p, q, p', q', m, k, k) && NextIs(q, next, m, m + k, next')
    requires Executable(p.Keys, chain, next) && chain <= next && k > 0 && ReadyAt(q, next, m, k)
    requires p.Keys !! q.Keys && Over(q.Keys, chain)
    ensures m == next
    ensures Executable(p'.Keys, chain, next') <==> PublicFirst(q, m, k)
  {
    assert m in p.Keys <==> chain <= m < next;
    forall n: nat ensures n in p' <==> chain <= n < next || (m <= n < m + k && Public(q, n)) {
      assert PlacedAt(p, q, p', q', m, k, k, n);
      assert n in p.Keys <==> chain <= n < next;
    }
    if PublicFirst(q, m, k) {
      forall n: nat ensures n in p' <==> chain <= n < next' {
      }
    }
    if Executable(p'.Keys, chain, next') {
      forall i: nat, j: nat | m <= i < j < m + k && Public(q, j) ensures Public(q, i) {
        assert j in p'.Keys;
        assert i in p'.Keys;
      }
    }
  }

  /** It can happen that it breaks them: a sponsored transaction with a public one behind it. The public one becomes
      pending alone, at nonce 1, and the next nonce is 2. */
  lemma SponsoredFirst(p: Pool, q: Pool, c: Chain, a: Addr, m: nat, k: nat, tx: Tx)
    requires tx.nonce == 1 && tx.inner.sponsor.None? && c.nonce(a) == Next(p, c, a) == 0
    requires ItemsOf(p.pending, a) == map[] && ItemsOf(p.queue, a) == map[0 := Sponsored(1, 0, 8, 5), 1 := tx]
    requires Staged(p, q, c, a, m, k, k)
    requires if k == 0 then Over(ItemsOf(p.queue, a).Keys, Next(p, c, a) + 1)
             else ReadyAt(ItemsOf(p.queue, a), Next(p, c, a), m, k)
    ensures m == 0 && k == 2 && !PublicFirst(ItemsOf(p.queue, a), m, k)
    ensures ItemsOf(q.pending, a).Keys == {1} && Next(q, c, a) == 2
    ensures Executable(ItemsOf(p.pending, a).Keys, 0, Next(p, c, a))
            && !Executable(ItemsOf(q.pending, a).Keys, 0, Next(q, c, a))
  {
    var items := ItemsOf(p.queue, a);
    assert 0 in items && 1 in items && 2 !in items;
    assert Public(items, 1) && !Public(items, 0);
    forall n: nat ensures n in ItemsOf(q.pending, a) <==> n == 1 {
      assert PlacedAt(ItemsOf(p.pending, a), items, ItemsOf(q.pending, a), ItemsOf(q.queue, a), m, k, k, n);
    }
    assert 0 !in ItemsOf(q.pending, a).Keys;
  }
}

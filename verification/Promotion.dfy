/**
 * Promoting queued transactions until none is ready and served by its sponsor (the fixed-point loop of
 * promoteExecutables).
 */
module Promotion {
  import opened Util
  import opened Nonces
  import opened Txs
  import opened Sponsors
  import opened Demotion
  import opened Weights
  import SM = SortedMap
  import TL = TxList

  /** The lists of the pool and the nonces it tracks: the next one of each account and of each sponsor. */
  datatype Pool = Pool(pending: Lists, queue: Lists, nonces: map<Addr, nat>, sponsors: map<Addr, nat>)

  /** The nonces in the chain state, for accounts and for sponsors. */
  datatype Chain = Chain(nonce: Addr -> nat, sponsor: Addr -> nat)

  function Next(p: Pool, c: Chain, a: Addr): nat { Look(p.nonces, c.nonce, a) }

  function Front(p: Pool, c: Chain, sp: Addr): nat { Look(p.sponsors, c.sponsor, sp) }

  /** The sponsor, if any, is up to this transaction. */
  predicate Served(p: Pool, c: Chain, tx: Tx) {
    tx.inner.sponsor.Some? ==> tx.inner.sponsor.value.nonce == Front(p, c, tx.inner.sponsor.value.addr)
  }

  /** No account has a nonce both pending and queued. */
  ghost predicate Disjoint(p: Pool) {
    forall a: Addr {:trigger ItemsOf(p.pending, a)} {:trigger ItemsOf(p.queue, a)} ::
        ItemsOf(p.pending, a).Keys !! ItemsOf(p.queue, a).Keys
  }

  /** Each sponsor's pending nonces are exactly those from the chain's up to its frontier, each used once. */
  ghost predicate Contiguous(p: Pool, c: Chain) {
    && (forall sp: Addr {:trigger Front(p, c, sp)} :: c.sponsor(sp) <= Front(p, c, sp))
    && (forall a: Addr, n: nat, sp: Addr, k: nat {:trigger Slot(p.pending, a, n, sp, k)} |
          Slot(p.pending, a, n, sp, k) ::
          c.sponsor(sp) <= k < Front(p, c, sp))
    && (forall sp: Addr, k: nat {:trigger Held(p.pending, sp, k)} | c.sponsor(sp) <= k < Front(p, c, sp) ::
        Held(p.pending, sp, k))
    && (forall a: Addr, n: nat, b: Addr, m: nat, sp: Addr, k: nat
          {:trigger Slot(p.pending, a, n, sp, k), Slot(p.pending, b, m, sp, k)} |
          Slot(p.pending, a, n, sp, k) && Slot(p.pending, b, m, sp, k) :: a == b && n == m)
  }

  /** The pools hold the same transactions. */
  ghost predicate SameTxs(p: Pool, q: Pool) {
    forall a: Addr, tx: Tx {:trigger Present(ItemsOf(q.pending, a), ItemsOf(q.queue, a), tx)} ::
      Present(ItemsOf(p.pending, a), ItemsOf(p.queue, a), tx) <==>
          Present(ItemsOf(q.pending, a), ItemsOf(q.queue, a), tx)
  }

  /** The next transaction of an account is in the queue. */
  predicate Ready(p: Pool, c: Chain, a: Addr) {
    Next(p, c, a) in ItemsOf(p.queue, a) && Next(p, c, a) < MAX_UINT64
  }

  /** The next transaction of an account cannot be promoted: it is not there, or its sponsor is not up to it. */
  predicate Blocked(p: Pool, c: Chain, a: Addr) {
    Ready(p, c, a) ==> !Served(p, c, ItemsOf(p.queue, a)[Next(p, c, a)])
  }

  /** The pool after `tx` went from the queue of `a` to its pending list. */
  function Moved(p: Pool, a: Addr, tx: Tx): Pool {
    var items: Items := ItemsOf(p.pending, a);
    Pool(p.pending[a := items[tx.nonce := tx]],
         WithItems(p.queue, a, ItemsOf(p.queue, a) - {tx.nonce}),
         p.nonces[a := tx.nonce + 1],
         if tx.inner.sponsor.Some? then p.sponsors[tx.inner.sponsor.value.addr := tx.inner.sponsor.value.nonce + 1]
             else p.sponsors)
  }

  lemma MovedPending(p: Pool, a: Addr, tx: Tx, b: Addr)
    ensures ItemsOf(Moved(p, a, tx).pending, b) == if a == b then ItemsOf(p.pending, a)[tx.nonce := tx]
            else ItemsOf(p.pending, b)
    ensures ItemsOf(Moved(p, a, tx).queue, b) == if a == b then ItemsOf(p.queue, a) - {tx.nonce}
            else ItemsOf(p.queue, b)
  {
    WithItemsOf(p.queue, a, ItemsOf(p.queue, a) - {tx.nonce}, b);
  }

  lemma MovedDisjoint(p: Pool, a: Addr, tx: Tx)
    requires Disjoint(p) && tx.nonce in ItemsOf(p.queue, a) && ItemsOf(p.queue, a)[tx.nonce] == tx
    ensures Disjoint(Moved(p, a, tx)) && SameTxs(p, Moved(p, a, tx))
  {
    var q := Moved(p, a, tx);
    forall b: Addr ensures ItemsOf(q.pending, b).Keys !! ItemsOf(q.queue, b).Keys {
      MovedPending(p, a, tx, b);
      assert ItemsOf(p.pending, b).Keys !! ItemsOf(p.queue, b).Keys;
    }
    forall b: Addr, t: Tx
      ensures Present(ItemsOf(p.pending, b), ItemsOf(p.queue, b), t) <==>
                Present(ItemsOf(q.pending, b), ItemsOf(q.queue, b), t)
    {
      MovedPending(p, a, tx, b);
      assert ItemsOf(p.pending, b).Keys !! ItemsOf(p.queue, b).Keys;
    }
  }

  /** A promotion adds one slot at most. */
  lemma MovedSlot(p: Pool, a: Addr, tx: Tx, b: Addr, n: nat, sp: Addr, k: nat)
    requires tx.nonce !in ItemsOf(p.pending, a)
    ensures Slot(Moved(p, a, tx).pending, b, n, sp, k) <==> Slot(p.pending, b, n, sp, k)
                                                            || (a == b && n == tx.nonce && Uses(tx, sp, k))
  {
    MovedPending(p, a, tx, b);
  }

  /** Promoting a served transaction moves its sponsor's frontier by one, and no other. */
  lemma MovedFront(p: Pool, c: Chain, a: Addr, tx: Tx, sp: Addr)
    requires Served(p, c, tx)
    ensures Front(Moved(p, a, tx), c, sp) == Front(p, c, sp) + if Uses(tx, sp, Front(p, c, sp)) then 1 else 0
    ensures forall k: nat | Uses(tx, sp, k) :: k == Front(p, c, sp)
  {
  }

  lemma MovedHeld(p: Pool, c: Chain, a: Addr, tx: Tx, sp: Addr, k: nat)
    requires Contiguous(p, c) && tx.nonce !in ItemsOf(p.pending, a) && Served(p, c, tx)
    requires c.sponsor(sp) <= k < Front(Moved(p, a, tx), c, sp)
    ensures Held(Moved(p, a, tx).pending, sp, k)
  {
    MovedFront(p, c, a, tx, sp);
    if Uses(tx, sp, k) {
      MovedSlot(p, a, tx, a, tx.nonce, sp, k);
    } else {
      assert Held(p.pending, sp, k);
      var b: Addr, n: nat :| Slot(p.pending, b, n, sp, k);
      MovedSlot(p, a, tx, b, n, sp, k);
    }
  }

  /** Promoting a served transaction extends its sponsor's run by one. */
  lemma MovedContiguous(p: Pool, c: Chain, a: Addr, tx: Tx)
    requires Contiguous(p, c) && tx.nonce !in ItemsOf(p.pending, a) && Served(p, c, tx)
    ensures Contiguous(Moved(p, a, tx), c)
  {
    var q := Moved(p, a, tx);
    forall sp: Addr ensures c.sponsor(sp) <= Front(p, c, sp) <= Front(q, c, sp) {
      MovedFront(p, c, a, tx, sp);
    }
    forall b: Addr, n: nat, sp: Addr, k: nat | Slot(q.pending, b, n, sp, k)
      ensures c.sponsor(sp) <= k < Front(q, c, sp) {
      MovedSlot(p, a, tx, b, n, sp, k);
      MovedFront(p, c, a, tx, sp);
    }
    forall sp: Addr, k: nat | c.sponsor(sp) <= k < Front(q, c, sp) ensures Held(q.pending, sp, k) {
      MovedHeld(p, c, a, tx, sp, k);
    }
    forall b: Addr, n: nat, d: Addr, m: nat, sp: Addr, k: nat | Slot(q.pending, b, n, sp, k)
        && Slot(q.pending, d, m, sp, k)
      ensures b == d && n == m
    {
      MovedSlot(p, a, tx, b, n, sp, k);
      MovedSlot(p, a, tx, d, m, sp, k);
      MovedFront(p, c, a, tx, sp);
    }
  }

  /** Account `a` has the same lists and next nonce. */
  ghost predicate Untouched(p: Pool, q: Pool, c: Chain, a: Addr) {
    ItemsOf(q.pending, a) == ItemsOf(p.pending, a) && ItemsOf(q.queue, a) == ItemsOf(p.queue, a)
        && Next(q, c, a) == Next(p, c, a)
  }

  /** So has every account but `a`. */
  ghost predicate OthersLeft(p: Pool, q: Pool, c: Chain, a: Addr) {
    forall b: Addr {:trigger Untouched(p, q, c, b)} | b != a :: Untouched(p, q, c, b)
  }

  /** Insert into the pending list unless a better transaction is there. */
  method PromoteTx(p: Pool, a: Addr, tx: Tx, bump: nat) returns (q: Pool, ok: bool)
    ensures ok <==> tx.nonce !in ItemsOf(p.pending, a) || TL.Outbids(ItemsOf(p.pending, a)[tx.nonce], tx, bump)
    ensures !ok ==> q == p
    ensures ok ==> q == Moved(p, a, tx).(queue := p.queue)
  {
    var items: Items := ItemsOf(p.pending, a);
    ok := tx.nonce !in items || TL.Outbids(items[tx.nonce], tx, bump);
    q := p;
    if ok {
      items := items[tx.nonce := tx];
      q := q.(pending := p.pending[a := items], nonces := p.nonces[a := tx.nonce + 1]);
      if tx.inner.sponsor.Some? {
        var s := tx.inner.sponsor.value;
        q := q.(sponsors := p.sponsors[s.addr := s.nonce + 1]);
      }
    }
  }

  // What promotion moves.

  /** The run of nonces from `from` up to `to` went from the queue to the pending list, and nothing else did. */
  ghost predicate RunMoved(p: Items, q: Items, p': Items, q': Items, from: nat, to: nat) {
    && from <= to && (forall n: nat | from <= n < to :: n in q)
    && q' == (map n | n in q && !(from <= n < to) :: q[n])
    && p' == p + (map n | n in q && from <= n < to :: q[n])
  }

  /** Of account `a`, exactly the run of queued transactions between its old and its new next nonce was promoted. */
  ghost predicate Shifted(p: Pool, q: Pool, c: Chain, a: Addr) {
    RunMoved(ItemsOf(p.pending, a), ItemsOf(p.queue, a), ItemsOf(q.pending, a), ItemsOf(q.queue, a),
             Next(p, c, a), Next(q, c, a))
  }

  /** The promoted transaction of `a` at `n` uses nonce `k` of `sp`. */
  ghost predicate Took(p: Pool, q: Pool, c: Chain, a: Addr, n: nat, sp: Addr, k: nat) {
    Next(p, c, a) <= n < Next(q, c, a) && Slot(p.queue, a, n, sp, k)
  }

  /** The frontier of `sp` moved over exactly the nonces that promoted transactions use. */
  ghost predicate FrontShifted(p: Pool, q: Pool, c: Chain, sp: Addr) {
    && Front(p, c, sp) <= Front(q, c, sp)
    && (forall k: nat {:trigger TakenBy(p, q, c, sp, k)} ::
          TakenBy(p, q, c, sp, k) <==> Front(p, c, sp) <= k < Front(q, c, sp))
  }

  ghost predicate TakenBy(p: Pool, q: Pool, c: Chain, sp: Addr, k: nat) {
    exists a: Addr, n: nat :: Took(p, q, c, a, n, sp, k)
  }

  /** Promotions, and nothing else, lead from `p` to `q`. */
  ghost predicate Advanced(p: Pool, q: Pool, c: Chain) {
    && (forall a: Addr {:trigger Shifted(p, q, c, a)} :: Shifted(p, q, c, a))
    && (forall sp: Addr {:trigger FrontShifted(p, q, c, sp)} :: FrontShifted(p, q, c, sp))
    && TakenOnce(p, q, c)
  }

  /** No two promoted transactions use the same sponsor nonce. */
  ghost predicate TakenOnce(p: Pool, q: Pool, c: Chain) {
    forall a: Addr, n: nat, b: Addr, m: nat, sp: Addr, k: nat
      {:trigger Took(p, q, c, a, n, sp, k), Took(p, q, c, b, m, sp, k)} |
      Took(p, q, c, a, n, sp, k) && Took(p, q, c, b, m, sp, k) :: a == b && n == m
  }

  /** Two runs, one behind the other, are one. */
  lemma Runs(q: Items, q': Items, from: nat, mid: nat, to: nat)
    requires from <= mid <= to && q' == map n | n in q && !(from <= n < mid) :: q[n]
    requires (forall n: nat | from <= n < mid :: n in q) && (forall n: nat | mid <= n < to :: n in q')
    ensures forall n: nat | from <= n < to :: n in q
    ensures (map n | n in q' && !(mid <= n < to) :: q'[n]) == (map n | n in q && !(from <= n < to) :: q[n])
    ensures (map n | n in q && from <= n < mid :: q[n]) + (map n | n in q' && mid <= n < to :: q'[n]) ==
            (map n | n in q && from <= n < to :: q[n])
  {
    forall n: nat | from <= n < to ensures n in q {
      assert n >= mid ==> n in q';
    }
  }

  lemma RunMovedChain(p: Items, q: Items, p': Items, q': Items, p'': Items, q'': Items, from: nat, mid: nat, to: nat)
    requires RunMoved(p, q, p', q', from, mid) && RunMoved(p', q', p'', q'', mid, to)
    ensures RunMoved(p, q, p'', q'', from, to)
  {
    Runs(q, q', from, mid, to);
    var first, second := map n | n in q && from <= n < mid :: q[n], map n | n in q' && mid <= n < to :: q'[n];
    assert (p + first) + second == p + (first + second);
  }

  lemma RunMovedOne(p: Items, q: Items, n: nat)
    requires n in q
    ensures RunMoved(p, q, p[n := q[n]], q - {n}, n, n + 1)
  {
  }

  lemma RunMovedNone(p: Items, q: Items, n: nat)
    ensures RunMoved(p, q, p, q, n, n)
  {
  }

  lemma TookChain(p: Pool, q: Pool, r: Pool, c: Chain, a: Addr, n: nat, sp: Addr, k: nat)
    requires Shifted(p, q, c, a) && Shifted(q, r, c, a)
    ensures Took(p, r, c, a, n, sp, k) <==> Took(p, q, c, a, n, sp, k) || Took(q, r, c, a, n, sp, k)
  {
  }

  lemma TakenChain(p: Pool, q: Pool, r: Pool, c: Chain, sp: Addr, k: nat)
    requires Advanced(p, q, c) && Advanced(q, r, c)
    ensures TakenBy(p, r, c, sp, k) <==> TakenBy(p, q, c, sp, k) || TakenBy(q, r, c, sp, k)
  {
    forall a: Addr, n: nat
      ensures Took(p, r, c, a, n, sp, k) <==> Took(p, q, c, a, n, sp, k) || Took(q, r, c, a, n, sp, k)
    {
      assert Shifted(p, q, c, a) && Shifted(q, r, c, a);
      TookChain(p, q, r, c, a, n, sp, k);
    }
    if TakenBy(p, q, c, sp, k) {
      var a: Addr, n: nat :| Took(p, q, c, a, n, sp, k);
      assert Took(p, r, c, a, n, sp, k);
    }
    if TakenBy(q, r, c, sp, k) {
      var a: Addr, n: nat :| Took(q, r, c, a, n, sp, k);
      assert Took(p, r, c, a, n, sp, k);
    }
  }

  lemma AdvancedChain(p: Pool, q: Pool, r: Pool, c: Chain)
    requires Advanced(p, q, c) && Advanced(q, r, c)
    ensures Advanced(p, r, c)
  {
    forall a: Addr ensures Shifted(p, r, c, a) {
      assert Shifted(p, q, c, a) && Shifted(q, r, c, a);
      RunMovedChain(ItemsOf(p.pending, a), ItemsOf(p.queue, a), ItemsOf(q.pending, a), ItemsOf(q.queue, a),
                    ItemsOf(r.pending, a), ItemsOf(r.queue, a), Next(p, c, a), Next(q, c, a), Next(r, c, a));
    }
    forall sp: Addr ensures FrontShifted(p, r, c, sp) {
      assert FrontShifted(p, q, c, sp) && FrontShifted(q, r, c, sp);
      forall k: nat ensures TakenBy(p, r, c, sp, k) <==> Front(p, c, sp) <= k < Front(r, c, sp) {
        TakenChain(p, q, r, c, sp, k);
        assert TakenBy(p, q, c, sp, k) <==> Front(p, c, sp) <= k < Front(q, c, sp);
        assert TakenBy(q, r, c, sp, k) <==> Front(q, c, sp) <= k < Front(r, c, sp);
      }
    }
    TakenOnceChain(p, q, r, c);
  }

  /** What is taken first is below the frontier in between, and what is taken later is not. */
  lemma TookSide(p: Pool, q: Pool, r: Pool, c: Chain, a: Addr, n: nat, sp: Addr, k: nat)
    requires Advanced(p, q, c) && Advanced(q, r, c) && Took(p, r, c, a, n, sp, k)
    ensures if k < Front(q, c, sp) then Took(p, q, c, a, n, sp, k) else Took(q, r, c, a, n, sp, k)
  {
    assert Shifted(p, q, c, a) && Shifted(q, r, c, a);
    TookChain(p, q, r, c, a, n, sp, k);
    assert FrontShifted(p, q, c, sp) && FrontShifted(q, r, c, sp);
    assert Took(p, q, c, a, n, sp, k) ==> TakenBy(p, q, c, sp, k);
    assert Took(q, r, c, a, n, sp, k) ==> TakenBy(q, r, c, sp, k);
  }

  lemma TakenOnceChain(p: Pool, q: Pool, r: Pool, c: Chain)
    requires Advanced(p, q, c) && Advanced(q, r, c)
    ensures TakenOnce(p, r, c)
  {
    forall a: Addr, n: nat, b: Addr, m: nat, sp: Addr, k: nat
      | Took(p, r, c, a, n, sp, k) && Took(p, r, c, b, m, sp, k)
      ensures a == b && n == m
    {
      TookSide(p, q, r, c, a, n, sp, k);
      TookSide(p, q, r, c, b, m, sp, k);
    }
  }

  lemma AdvancedSame(p: Pool, c: Chain)
    ensures Advanced(p, p, c)
  {
    forall a: Addr ensures Shifted(p, p, c, a) {
    }
    forall sp: Addr ensures FrontShifted(p, p, c, sp) {
    }
  }

  lemma MovedShifted(p: Pool, c: Chain, a: Addr, tx: Tx, b: Addr)
    requires tx.nonce == Next(p, c, a) && tx.nonce in ItemsOf(p.queue, a) && ItemsOf(p.queue, a)[tx.nonce] == tx
    ensures Shifted(p, Moved(p, a, tx), c, b)
    ensures Next(Moved(p, a, tx), c, b) == if a == b then tx.nonce + 1 else Next(p, c, b)
  {
    MovedPending(p, a, tx, b);
    if a == b {
      RunMovedOne(ItemsOf(p.pending, a), ItemsOf(p.queue, a), tx.nonce);
    } else {
      RunMovedNone(ItemsOf(p.pending, b), ItemsOf(p.queue, b), Next(p, c, b));
    }
  }

  /** Promoting the next, served transaction of an account. */
  lemma MovedAdvanced(p: Pool, c: Chain, a: Addr, tx: Tx)
    requires tx.nonce == Next(p, c, a) && tx.nonce in ItemsOf(p.queue, a) && ItemsOf(p.queue, a)[tx.nonce] == tx
    requires Served(p, c, tx)
    ensures Advanced(p, Moved(p, a, tx), c)
  {
    var q := Moved(p, a, tx);
    forall b: Addr ensures Shifted(p, q, c, b) {
      MovedShifted(p, c, a, tx, b);
    }
    forall sp: Addr ensures FrontShifted(p, q, c, sp) {
      MovedFront(p, c, a, tx, sp);
      forall k: nat ensures TakenBy(p, q, c, sp, k) <==> Front(p, c, sp) <= k < Front(q, c, sp) {
        MovedTaken(p, c, a, tx, sp, k);
      }
    }
    forall b: Addr, n: nat, sp: Addr, k: nat | Took(p, q, c, b, n, sp, k) ensures b == a && n == tx.nonce {
      MovedShifted(p, c, a, tx, b);
    }
  }

  lemma MovedTaken(p: Pool, c: Chain, a: Addr, tx: Tx, sp: Addr, k: nat)
    requires tx.nonce == Next(p, c, a) && tx.nonce in ItemsOf(p.queue, a) && ItemsOf(p.queue, a)[tx.nonce] == tx
    ensures TakenBy(p, Moved(p, a, tx), c, sp, k) <==> Uses(tx, sp, k)
  {
    var q := Moved(p, a, tx);
    if TakenBy(p, q, c, sp, k) {
      var b: Addr, n: nat :| Took(p, q, c, b, n, sp, k);
      MovedShifted(p, c, a, tx, b);
    }
    if Uses(tx, sp, k) {
      MovedShifted(p, c, a, tx, a);
      assert Took(p, q, c, a, tx.nonce, sp, k);
    }
  }

  /** Nothing but account `a` changed, and its queue only lost nonces. */
  ghost predicate OnlyAt(p: Pool, q: Pool, c: Chain, a: Addr) {
    OthersLeft(p, q, c, a) && Submap(ItemsOf(q.queue, a), ItemsOf(p.queue, a))
  }

  /** What promotion from one queue, or many, does and keeps, if it starts with no nonce both pending and queued. */
  ghost predicate Progressed(p: Pool, q: Pool, c: Chain) {
    Disjoint(p) ==> Disjoint(q) && SameTxs(p, q) && Advanced(p, q, c) && (Contiguous(p, c) ==> Contiguous(q, c))
  }

  lemma ProgressedChain(p: Pool, q: Pool, r: Pool, c: Chain)
    requires Progressed(p, q, c) && Progressed(q, r, c)
    ensures Progressed(p, r, c)
  {
    if Disjoint(p) {
      forall a: Addr, tx: Tx
        ensures Present(ItemsOf(p.pending, a), ItemsOf(p.queue, a), tx) <==>
                  Present(ItemsOf(r.pending, a), ItemsOf(r.queue, a), tx)
      {
        assert Present(ItemsOf(q.pending, a), ItemsOf(q.queue, a), tx)
               || !Present(ItemsOf(q.pending, a), ItemsOf(q.queue, a), tx);
      }
      AdvancedChain(p, q, r, c);
    }
  }

  /** Lists are filed by sender and nonce, and next nonces have 64 bits. */
  ghost predicate Sane(p: Pool, c: Chain) {
    WellFormed(p.pending) && WellFormed(p.queue) && forall a: Addr {:trigger Next(p, c, a)} ::
        Next(p, c, a) <= MAX_UINT64
  }

  lemma MovedSane(p: Pool, q: Pool, c: Chain, a: Addr, tx: Tx)
    requires Sane(p, c) && tx.nonce in ItemsOf(p.queue, a) && ItemsOf(p.queue, a)[tx.nonce] == tx
             && tx.nonce < MAX_UINT64
    requires q.queue == Moved(p, a, tx).queue
    requires || (q.pending == p.pending && q.nonces == p.nonces)
             || (q.pending == Moved(p, a, tx).pending && q.nonces == Moved(p, a, tx).nonces)
    ensures Sane(q, c)
  {
    forall b: Addr ensures Filed(ItemsOf(q.pending, b), b) && Filed(ItemsOf(q.queue, b), b) {
      MovedPending(p, a, tx, b);
      assert Filed(ItemsOf(p.pending, b), b) && Filed(ItemsOf(p.queue, b), b) && Filed(ItemsOf(p.queue, a), a);
    }
    forall b: Addr ensures Next(q, c, b) <= MAX_UINT64 {
      assert Next(p, c, b) <= MAX_UINT64;
    }
  }

  /** Take one transaction out of the queue and promote it. */
  method MoveOne(p: Pool, c: Chain, a: Addr, tx: Tx, bump: nat) returns (q: Pool, ok: bool)
    requires tx.nonce in ItemsOf(p.queue, a) && ItemsOf(p.queue, a)[tx.nonce] == tx
    requires Sane(p, c) && tx.nonce < MAX_UINT64
    ensures Sane(q, c) && OnlyAt(p, q, c, a) && ItemsOf(q.queue, a) == ItemsOf(p.queue, a) - {tx.nonce}
    ensures ok <==> tx.nonce !in ItemsOf(p.pending, a) || TL.Outbids(ItemsOf(p.pending, a)[tx.nonce], tx, bump)
    ensures ok ==> q == Moved(p, a, tx)
    ensures Disjoint(p) ==> ok
  {
    var less := p.(queue := WithItems(p.queue, a, ItemsOf(p.queue, a) - {tx.nonce}));
    q, ok := PromoteTx(less, a, tx, bump);
    MovedSane(p, q, c, a, tx);
    MovedOnly(p, q, c, a, tx);
    DisjointAt(p, a, tx.nonce);
  }

  lemma DisjointAt(p: Pool, a: Addr, n: nat)
    requires n in ItemsOf(p.queue, a)
    ensures Disjoint(p) ==> n !in ItemsOf(p.pending, a)
  {
    if Disjoint(p) {
      assert ItemsOf(p.pending, a).Keys !! ItemsOf(p.queue, a).Keys;
    }
  }

  lemma MovedOnly(p: Pool, q: Pool, c: Chain, a: Addr, tx: Tx)
    requires q.queue == Moved(p, a, tx).queue
    requires || (q.pending == p.pending && q.nonces == p.nonces)
             || (q.pending == Moved(p, a, tx).pending && q.nonces == Moved(p, a, tx).nonces)
    ensures OnlyAt(p, q, c, a) && ItemsOf(q.queue, a) == ItemsOf(p.queue, a) - {tx.nonce}
  {
    MovedPending(p, a, tx, a);
    forall b: Addr | b != a ensures Untouched(p, q, c, b) {
      MovedPending(p, a, tx, b);
    }
  }

  /** Promoting the next, served transaction of an account is progress. */
  lemma MovedProgressed(p: Pool, c: Chain, a: Addr, tx: Tx)
    requires tx.nonce == Next(p, c, a) && tx.nonce in ItemsOf(p.queue, a) && ItemsOf(p.queue, a)[tx.nonce] == tx
    requires Served(p, c, tx) && Disjoint(p)
    ensures Progressed(p, Moved(p, a, tx), c)
  {
    assert ItemsOf(p.pending, a).Keys !! ItemsOf(p.queue, a).Keys;
    MovedDisjoint(p, a, tx);
    MovedAdvanced(p, c, a, tx);
    if Contiguous(p, c) {
      MovedContiguous(p, c, a, tx);
    }
  }

  /** The queue without its first `i` ready transactions. */
  ghost predicate Consumed(was: Items, now: Items, start: nat, i: nat) {
    now == map n | n in was && !(start <= n < start + i) :: was[n]
  }

  /** The first `i` ready transactions of `a` are dealt with. */
  ghost predicate Promoting(p: Pool, q: Pool, c: Chain, a: Addr, start: nat, i: nat, progress: bool) {
    && Sane(q, c) && OnlyAt(p, q, c, a) && Progressed(p, q, c)
    && Consumed(ItemsOf(p.queue, a), ItemsOf(q.queue, a), start, i)
    && (i == 0 ==> q == p && !progress)
    && (Disjoint(p) && i > 0 ==> progress)
    && (Disjoint(p) ==> Next(q, c, a) == start + i)
  }

  lemma OnlyAtChain(p: Pool, q: Pool, r: Pool, c: Chain, a: Addr)
    requires OnlyAt(p, q, c, a) && OnlyAt(q, r, c, a)
    ensures OnlyAt(p, r, c, a)
  {
    forall b: Addr | b != a ensures Untouched(p, r, c, b) {
      assert Untouched(p, q, c, b) && Untouched(q, r, c, b);
    }
  }

  lemma ConsumedMore(was: Items, now: Items, start: nat, i: nat)
    requires Consumed(was, now, start, i)
    ensures Consumed(was, now - {start + i}, start, i + 1)
  {
  }

  method ReadyStep(ghost p: Pool, q0: Pool, c: Chain, a: Addr, tx: Tx, bump: nat, ghost start: nat, ghost i: nat,
                   progress0: bool)
      returns (q: Pool, progress: bool)
    requires Promoting(p, q0, c, a, start, i, progress0) && Served(q0, c, tx)
    requires tx.nonce == start + i && tx.nonce in ItemsOf(p.queue, a) && ItemsOf(p.queue, a)[tx.nonce] == tx
             && tx.nonce < MAX_UINT64
    ensures Promoting(p, q, c, a, start, i + 1, progress)
  {
    var ok;
    q, ok := MoveOne(q0, c, a, tx, bump);
    if Disjoint(p) {
      MovedProgressed(q0, c, a, tx);
      ProgressedChain(p, q0, q, c);
    }
    OnlyAtChain(p, q0, q, c, a);
    ConsumedMore(ItemsOf(p.queue, a), ItemsOf(q0.queue, a), start, i);
    progress := progress0 || ok;
  }

  lemma SameIsProgress(p: Pool, c: Chain)
    ensures Progressed(p, p, c)
  {
    AdvancedSame(p, c);
  }

  /** Promote the run that is ready in the queue of `a`, up to the first transaction that its sponsor is not up to. */
  method PromoteReadies(p: Pool, c: Chain, a: Addr, bump: nat) returns (q: Pool, progress: bool)
    requires Sane(p, c)
    ensures Sane(q, c) && OnlyAt(p, q, c, a) && Progressed(p, q, c)
    ensures progress ==> |ItemsOf(q.queue, a)| < |ItemsOf(p.queue, a)|
    ensures Disjoint(p) ==> Blocked(q, c, a) && (!progress ==> q == p)
  {
    var items, start := ItemsOf(p.queue, a), Next(p, c, a);
    assert Filed(items, a);
    var readies := Readies(items, start);
    q, progress := p, false;
    PromotingStart(p, c, a);
    var i: nat := 0;
    while i < |readies| && Served(q, c, readies[i])
      invariant i <= |readies| && Promoting(p, q, c, a, start, i, progress)
    {
      q, progress := ReadyStep(p, q, c, a, readies[i], bump, start, i, progress);
      i := i + 1;
    }
    ReadiesEnd(p, q, c, a, readies, i, progress);
  }

  lemma PromotingStart(p: Pool, c: Chain, a: Addr)
    requires Sane(p, c)
    ensures Promoting(p, p, c, a, Next(p, c, a), 0, false)
  {
    SameIsProgress(p, c);
  }

  /** The run is promoted, or the next of it is not served. */
  lemma ReadiesEnd(p: Pool, q: Pool, c: Chain, a: Addr, readies: seq<Tx>, i: nat, progress: bool)
    requires RunFrom(ItemsOf(p.queue, a), Next(p, c, a), readies) && i <= |readies|
    requires Promoting(p, q, c, a, Next(p, c, a), i, progress) && (i < |readies| ==> !Served(q, c, readies[i]))
    ensures progress ==> |ItemsOf(q.queue, a)| < |ItemsOf(p.queue, a)|
    ensures Disjoint(p) ==> Blocked(q, c, a) && (!progress ==> q == p)
  {
    if i > 0 {
      assert readies[0].nonce == Next(p, c, a);
      ConsumedLess(ItemsOf(p.queue, a), ItemsOf(q.queue, a), Next(p, c, a), i);
    }
    if i < |readies| {
      assert readies[i].nonce == Next(p, c, a) + i;
    }
  }

  lemma ConsumedLess(was: Items, now: Items, start: nat, i: nat)
    requires Consumed(was, now, start, i) && i > 0 && start in was
    ensures |now| < |was|
  {
    SubsetSize(now.Keys, was.Keys - {start});
  }

  lemma {:induction false} SubsetSize(s: set<nat>, t: set<nat>)
    requires s <= t
    ensures |s| <= |t|
  {
    if s != {} {
      var x :| x in s;
      SubsetSize(s - {x}, t - {x});
    }
  }

  /** `r` is the part of `items` that starts at `start`, in order, and stays below the top nonce. */
  ghost predicate RunFrom(items: Items, start: nat, r: seq<Tx>) {
    && (forall i: nat | i < |r| :: r[i].nonce == start + i && r[i].nonce in items && items[r[i].nonce] == r[i]
                                   && r[i].nonce < MAX_UINT64)
    && !(start + |r| in items && start + |r| < MAX_UINT64)
  }

  lemma RunFacts(items: Items, start: nat, r: seq<Tx>)
    requires IsRun(Below(items, MAX_UINT64), start, r)
    ensures RunFrom(items, start, r)
  {
    forall i: nat | i < |r| ensures r[i].nonce == start + i {
      assert Of(r)[i] == start + i;
    }
  }

  /** What is ready at `start`: a run of the queue, empty exactly if the next nonce is not there. */
  method Readies(items: Items, start: nat) returns (r: seq<Tx>)
    requires Keyed(items) && start <= MAX_UINT64
    ensures SM.PeekIs(items, start, r) && RunFrom(items, start, r)
  {
    if forall n | n in items :: n > start {
      return [];
    }
    r := SM.PeekRun(items, start);
    RunFacts(items, start, r);
  }

  function ListLen(m: Lists): Addr -> nat {
    (a: Addr) => |ItemsOf(m, a)|
  }

  lemma {:induction false} TotalLess(s: seq<Addr>, v: Addr -> nat, w: Addr -> nat)
    requires forall a | a in s :: v(a) <= w(a)
    ensures Total(s, v) <= Total(s, w)
    ensures (exists a | a in s :: v(a) < w(a)) ==> Total(s, v) < Total(s, w)
  {
    if s != [] {
      var t := s[..|s| - 1];
      assert s == t + [s[|s| - 1]];
      TotalLess(t, v, w);
    }
  }

  /** The queues only lost nonces. */
  ghost predicate Drained(p: Pool, q: Pool) {
    forall a: Addr {:trigger ItemsOf(q.queue, a)} :: Submap(ItemsOf(q.queue, a), ItemsOf(p.queue, a))
  }

  /** Some listed queue is shorter. */
  ghost predicate Shrunk(p: Pool, q: Pool, accounts: seq<Addr>) {
    exists a | a in accounts :: |ItemsOf(q.queue, a)| < |ItemsOf(p.queue, a)|
  }

  ghost predicate AllBlocked(p: Pool, c: Chain, accounts: seq<Addr>) {
    forall a | a in accounts :: Blocked(p, c, a)
  }

  lemma SubmapLen(small: Items, big: Items)
    requires Submap(small, big)
    ensures |small| <= |big|
  {
    SubsetSize(small.Keys, big.Keys);
  }

  lemma DrainedLess(p: Pool, q: Pool, accounts: seq<Addr>)
    requires Drained(p, q)
    ensures Total(accounts, ListLen(q.queue)) <= Total(accounts, ListLen(p.queue))
    ensures Shrunk(p, q, accounts) ==>
              Total(accounts, ListLen(q.queue)) < Total(accounts, ListLen(p.queue))
  {
    forall a | a in accounts ensures ListLen(q.queue)(a) <= ListLen(p.queue)(a) {
      SubmapLen(ItemsOf(q.queue, a), ItemsOf(p.queue, a));
    }
    TotalLess(accounts, ListLen(q.queue), ListLen(p.queue));
  }

  /** Only listed accounts changed. */
  ghost predicate UnlistedLeft(p: Pool, q: Pool, c: Chain, accounts: seq<Addr>) {
    forall a: Addr {:trigger Untouched(p, q, c, a)} | a !in accounts :: Untouched(p, q, c, a)
  }

  /** What any number of promotions from listed accounts keep. */
  ghost predicate Passed(p: Pool, q: Pool, c: Chain, accounts: seq<Addr>) {
    Sane(q, c) && Drained(p, q) && Progressed(p, q, c) && UnlistedLeft(p, q, c, accounts)
  }

  /** The first `i` accounts of a pass are dealt with. */
  ghost predicate Passing(p: Pool, q: Pool, c: Chain, accounts: seq<Addr>, i: nat, progress: bool)
    requires i <= |accounts|
  {
    && Passed(p, q, c, accounts)
    && (progress ==> Shrunk(p, q, accounts))
    && (Disjoint(p) && !progress ==> q == p && AllBlocked(p, c, accounts[..i]))
  }

  lemma PassedSame(p: Pool, c: Chain, accounts: seq<Addr>)
    requires Sane(p, c)
    ensures Passed(p, p, c, accounts)
  {
    SameIsProgress(p, c);
  }

  lemma PassedChain(p: Pool, q: Pool, r: Pool, c: Chain, accounts: seq<Addr>)
    requires Passed(p, q, c, accounts) && Passed(q, r, c, accounts)
    ensures Passed(p, r, c, accounts)
  {
    ProgressedChain(p, q, r, c);
    forall a: Addr | a !in accounts ensures Untouched(p, r, c, a) {
      assert Untouched(p, q, c, a) && Untouched(q, r, c, a);
    }
  }

  lemma OnlyAtPassed(p: Pool, q: Pool, c: Chain, a: Addr, accounts: seq<Addr>)
    requires Sane(q, c) && OnlyAt(p, q, c, a) && Progressed(p, q, c) && a in accounts
    ensures Passed(p, q, c, accounts)
  {
    forall b: Addr ensures Submap(ItemsOf(q.queue, b), ItemsOf(p.queue, b)) {
      assert b != a ==> Untouched(p, q, c, b);
    }
  }

  lemma BlockedMore(p: Pool, c: Chain, accounts: seq<Addr>, i: nat)
    requires i < |accounts| && AllBlocked(p, c, accounts[..i]) && Blocked(p, c, accounts[i])
    ensures AllBlocked(p, c, accounts[..i + 1])
  {
    assert accounts[..i + 1] == accounts[..i] + [accounts[i]];
  }

  /** One account of a pass. */
  method PassStep(ghost p: Pool, q0: Pool, c: Chain, accounts: seq<Addr>, bump: nat, i: nat, progress0: bool)
      returns (q: Pool, progress: bool)
    requires i < |accounts| && Passing(p, q0, c, accounts, i, progress0)
    ensures Passing(p, q, c, accounts, i + 1, progress)
  {
    var more;
    q, more := PromoteReadies(q0, c, accounts[i], bump);
    OnlyAtPassed(q0, q, c, accounts[i], accounts);
    PassedChain(p, q0, q, c, accounts);
    ShrunkMore(p, q0, q, accounts[i], accounts);
    progress := progress0 || more;
    if Disjoint(p) && !progress {
      BlockedMore(p, c, accounts, i);
    }
  }

  /** One pass over the accounts. */
  method Pass(p: Pool, c: Chain, accounts: seq<Addr>, bump: nat) returns (q: Pool, progress: bool)
    requires Sane(p, c)
    ensures Passed(p, q, c, accounts)
    ensures progress ==> Shrunk(p, q, accounts)
    ensures Disjoint(p) && !progress ==> q == p && AllBlocked(p, c, accounts)
  {
    q, progress := p, false;
    PassedSame(p, c, accounts);
    for i := 0 to |accounts|
      invariant Passing(p, q, c, accounts, i, progress)
    {
      q, progress := PassStep(p, q, c, accounts, bump, i, progress);
    }
    assert accounts[..|accounts|] == accounts;
  }

  lemma ShrunkMore(p: Pool, q: Pool, r: Pool, a: Addr, accounts: seq<Addr>)
    requires Drained(p, q) && Drained(q, r) && a in accounts
    ensures |ItemsOf(r.queue, a)| < |ItemsOf(q.queue, a)| || Shrunk(p, q, accounts) ==> Shrunk(p, r, accounts)
  {
    SubmapLen(ItemsOf(q.queue, a), ItemsOf(p.queue, a));
    if Shrunk(p, q, accounts) {
      var b :| b in accounts && |ItemsOf(q.queue, b)| < |ItemsOf(p.queue, b)|;
      SubmapLen(ItemsOf(r.queue, b), ItemsOf(q.queue, b));
    }
  }

  /** The next transaction of `a`, if it is there, waits for its sponsor: the sponsor nonce it uses is not the least one
      from the chain's on that no pending transaction uses. */
  ghost predicate Waits(p: Pool, c: Chain, a: Addr) {
    Next(p, c, a) in ItemsOf(p.queue, a) && Next(p, c, a) < MAX_UINT64 ==>
      var s := ItemsOf(p.queue, a)[Next(p, c, a)].inner.sponsor;
      s.Some? && !FrontierIs(p.pending, c.sponsor(s.value.addr), s.value.addr, s.value.nonce)
  }

  /** With unbroken runs, a blocked account waits for a sponsor. */
  lemma BlockedWaits(p: Pool, c: Chain, a: Addr)
    requires Contiguous(p, c) && Blocked(p, c, a)
    ensures Waits(p, c, a)
  {
    if Next(p, c, a) in ItemsOf(p.queue, a) && Next(p, c, a) < MAX_UINT64 {
      var s := ItemsOf(p.queue, a)[Next(p, c, a)].inner.sponsor;
      if s.Some? && FrontierIs(p.pending, c.sponsor(s.value.addr), s.value.addr, s.value.nonce) {
        FrontierIsFront(p, c, s.value.addr);
        FrontierUnique(p.pending, c.sponsor(s.value.addr), s.value.addr, s.value.nonce, Front(p, c, s.value.addr));
      }
    }
  }

  lemma FrontierIsFront(p: Pool, c: Chain, sp: Addr)
    requires Contiguous(p, c)
    ensures FrontierIs(p.pending, c.sponsor(sp), sp, Front(p, c, sp))
  {
    forall a: Addr, n: nat ensures !Slot(p.pending, a, n, sp, Front(p, c, sp)) {
    }
    assert c.sponsor(sp) <= Front(p, c, sp);
  }

  /** Passes until one makes no progress. With no nonce both pending and queued, exactly the runs between the old and
      the new next nonces are promoted, each transaction with its sponsor up to it, and no listed account has another.
      */
  method PromoteSponsored(p: Pool, c: Chain, accounts: seq<Addr>, bump: nat) returns (q: Pool)
    requires Sane(p, c)
    ensures Sane(q, c) && Drained(p, q) && Progressed(p, q, c) && UnlistedLeft(p, q, c, accounts)
    ensures Disjoint(p) ==> AllBlocked(q, c, accounts)
    ensures Disjoint(p) && Contiguous(p, c) ==> forall a | a in accounts :: Waits(q, c, a)
  {
    q := p;
    var progress := true;
    PassedSame(p, c, accounts);
    while progress
      invariant Passed(p, q, c, accounts)
      invariant Disjoint(p) && !progress ==> AllBlocked(q, c, accounts)
      decreases Total(accounts, ListLen(q.queue)), progress
    {
      ghost var before := q;
      q, progress := Pass(q, c, accounts, bump);
      DrainedLess(before, q, accounts);
      PassedChain(p, before, q, c, accounts);
    }
    if Disjoint(p) && Contiguous(p, c) {
      forall a | a in accounts ensures Waits(q, c, a) {
        BlockedWaits(q, c, a);
      }
    }
  }
}

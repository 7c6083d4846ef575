/**
 * The pool's pending and queued lists with the nonces tracked beside them, and the operations on them that sponsored
 * transactions complicate: promotion, demotion and truncation.
 */
module TxPool {
  import opened Util
  import opened Nonces
  import opened Txs
  import opened Sponsors
  import opened Demotion
  import opened Promotion
  import opened Weights
  import opened Truncation
  import TL = TxList

  /** The frontier of every sponsor. */
  function FrontOf(sponsors: map<Addr, nat>, chain: Addr -> nat): Addr -> nat {
    (sp: Addr) => Look(sponsors, chain, sp)
  }

  // Demotion, account by account.

  /** The next nonce of an account is lowered to the first demoted one. */
  ghost predicate NextAfter(was: nat, now: nat, gone: Items) {
    if gone == map[] then now == was else exists m: nat :: Least(gone.Keys, m) && now == Min(was, m)
  }

  ghost predicate DemotedAt(p: Pool, q: Pool, c: Chain, front: Addr -> nat, bump: nat, a: Addr) {
    && ItemsOf(q.pending, a) == Kept(ItemsOf(p.pending, a), front)
    && ItemsOf(q.queue, a) == Merge(ItemsOf(p.queue, a), Gone(ItemsOf(p.pending, a), front), bump)
    && NextAfter(Next(p, c, a), Next(q, c, a), Gone(ItemsOf(p.pending, a), front))
  }

  lemma NothingToDemote(p: Pool, q: Pool, c: Chain, front: Addr -> nat, bump: nat, a: Addr)
    requires Untouched(p, q, c, a) && Kept(ItemsOf(p.pending, a), front) == ItemsOf(p.pending, a)
    ensures DemotedAt(p, q, c, front, bump, a)
  {
    assert Gone(ItemsOf(p.pending, a), front) == map[];
  }

  lemma GoneFrom(items: Items, front: Addr -> nat, g: nat)
    requires g in items && Kept(items, front) == Below(items, g)
    ensures From(items, g) == Gone(items, front) && Least(From(items, g).Keys, g)
  {
    assert Gone(items, front).Keys == items.Keys - Below(items, g).Keys;
  }

  lemma DemotedWith(p: Pool, c: Chain, front: Addr -> nat, bump: nat, a: Addr, g: nat, queue: Lists)
    requires var items := ItemsOf(p.pending, a);
      g in items && Kept(items, front) == Below(items, g)
          && ItemsOf(queue, a) == Merge(ItemsOf(p.queue, a), From(items, g), bump)
    ensures DemotedAt(p, Pool(WithItems(p.pending, a, Below(ItemsOf(p.pending, a), g)), queue,
                              p.nonces[a := Min(Next(p, c, a), g)], p.sponsors),
                      c, front, bump, a)
  {
    GoneFrom(ItemsOf(p.pending, a), front, g);
    WithItemsOf(p.pending, a, Below(ItemsOf(p.pending, a), g), a);
  }

  lemma OthersLeftWith(p: Pool, c: Chain, a: Addr, items: Items, queue: Lists, n: nat)
    requires forall b: Addr | b != a :: ItemsOf(queue, b) == ItemsOf(p.queue, b)
    ensures OthersLeft(p, Pool(WithItems(p.pending, a, items), queue, p.nonces[a := n], p.sponsors), c, a)
  {
    var q := Pool(WithItems(p.pending, a, items), queue, p.nonces[a := n], p.sponsors);
    forall b: Addr | b != a ensures Untouched(p, q, c, b) {
      WithItemsOf(p.pending, a, items, b);
    }
  }

  /** Demote what account `a` has at or behind its first gap. */
  method DemoteAccount(p: Pool, c: Chain, front: Addr -> nat, a: Addr, bump: nat) returns (q: Pool, any: bool)
    requires Filed(ItemsOf(p.pending, a), a)
    ensures DemotedAt(p, q, c, front, bump, a)
    ensures OthersLeft(p, q, c, a)
    ensures q.sponsors == p.sponsors && q.pending.Keys <= p.pending.Keys && (!any ==> q == p)
  {
    var items := ItemsOf(p.pending, a);
    var gap := FirstGap(items, front);
    if gap.None? {
      NothingToDemote(p, p, c, front, bump, a);
      return p, false;
    }
    var g := gap.value.nonce;
    var gone := From(items, g);
    var queue := EnqueueAll(p.queue, a, gone, bump);
    var nonces := p.nonces[a := Min(Next(p, c, a), g)];
    DemotedWith(p, c, front, bump, a, g, queue);
    OthersLeftWith(p, c, a, Below(items, g), queue, Min(Next(p, c, a), g));
    q := Pool(WithItems(p.pending, a, Below(items, g)), queue, nonces, p.sponsors);
    any := true;
  }

  /** The accounts in `todo` are untouched, all others are demoted. */
  ghost predicate DemotedBut(p: Pool, q: Pool, c: Chain, front: Addr -> nat, bump: nat, todo: set<Addr>) {
    forall a: Addr {:trigger DemotedAt(p, q, c, front, bump, a)} {:trigger Untouched(p, q, c, a)} ::
      if a in todo then Untouched(p, q, c, a) else DemotedAt(p, q, c, front, bump, a)
  }

  lemma DemotedMore(p: Pool, q: Pool, r: Pool, c: Chain, front: Addr -> nat, bump: nat, todo: set<Addr>, a: Addr)
    requires DemotedBut(p, q, c, front, bump, todo) && a in todo
    requires DemotedAt(q, r, c, front, bump, a) && OthersLeft(q, r, c, a)
    ensures DemotedBut(p, r, c, front, bump, todo - {a})
  {
    forall b: Addr ensures if b in todo - {a} then Untouched(p, r, c, b) else DemotedAt(p, r, c, front, bump, b) {
      assert b != a ==> Untouched(q, r, c, b);
      assert b in todo ==> Untouched(p, q, c, b);
      assert b !in todo ==> DemotedAt(p, q, c, front, bump, b);
    }
  }

  lemma DemotedStart(p: Pool, q: Pool, c: Chain, front: Addr -> nat, bump: nat)
    requires q == p.(sponsors := q.sponsors)
    ensures DemotedBut(p, q, c, front, bump, p.pending.Keys)
  {
    forall a: Addr ensures if a in p.pending then Untouched(p, q, c, a) else DemotedAt(p, q, c, front, bump, a) {
      if a !in p.pending { NothingToDemote(p, q, c, front, bump, a); }
    }
  }

  /** One demoting pass over all accounts, in any order. */
  method DemotePass(p: Pool, c: Chain, sponsors: map<Addr, nat>, bump: nat) returns (q: Pool, any: bool)
    requires WellFormed(p.pending)
    ensures DemotedBut(p, q, c, FrontOf(sponsors, c.sponsor), bump, {}) && q.sponsors == sponsors
    ensures !any ==> q.pending == p.pending
  {
    q, any := p.(sponsors := sponsors), false;
    var todo := p.pending.Keys;
    DemotedStart(p, q, c, FrontOf(sponsors, c.sponsor), bump);
    while todo != {}
      invariant DemotedBut(p, q, c, FrontOf(sponsors, c.sponsor), bump, todo) && q.sponsors == sponsors
      invariant !any ==> q.pending == p.pending
    {
      var a :| a in todo;
      assert Untouched(p, q, c, a) && Filed(ItemsOf(p.pending, a), a);
      ghost var before := q;
      var more;
      q, more := DemoteAccount(q, c, FrontOf(sponsors, c.sponsor), a, bump);
      DemotedMore(p, before, q, c, FrontOf(sponsors, c.sponsor), bump, todo, a);
      any, todo := any || more, todo - {a};
    }
  }

  lemma FrontsFrom(pending: Lists, chain: Addr -> nat, nonces: map<Addr, nat>)
    requires forall sp: Addr :: FrontierIs(pending, chain(sp), sp, Look(nonces, chain, sp))
    ensures FrontiersAre(pending, chain, FrontOf(nonces, chain))
  {
  }

  /** What normalisation does, relative to the frontiers it starts by computing. */
  ghost predicate Normalized(p: Pool, q: Pool, c: Chain, front: Addr -> nat, bump: nat) {
    && FrontiersAre(p.pending, c.sponsor, front)
    && DemotedBut(p, q, c, front, bump, {})
    && FrontiersAre(q.pending, c.sponsor, FrontOf(q.sponsors, c.sponsor))
  }

  /** Demote whatever is at or beyond its sponsor's frontier, with all behind it, and bring the frontiers up to date. */
  method Normalize(p: Pool, c: Chain, bump: nat) returns (q: Pool, ghost front: Addr -> nat)
    requires WellFormed(p.pending)
    ensures Normalized(p, q, c, front, bump)
    ensures FrontiersAre(q.pending, c.sponsor, FrontOf(q.sponsors, c.sponsor))
  {
    var sponsors := Rebuild(p.pending, c.sponsor);
    FrontsFrom(p.pending, c.sponsor, sponsors);
    front := FrontOf(sponsors, c.sponsor);
    var any;
    q, any := DemotePass(p, c, sponsors, bump);
    if any {
      sponsors := Rebuild(q.pending, c.sponsor);
      FrontsFrom(q.pending, c.sponsor, sponsors);
      DemotedSame(p, q, c, front, bump, sponsors);
      q := q.(sponsors := sponsors);
    }
  }

  lemma DemotedSame(p: Pool, q: Pool, c: Chain, front: Addr -> nat, bump: nat, sponsors: map<Addr, nat>)
    requires DemotedBut(p, q, c, front, bump, {})
    ensures DemotedBut(p, q.(sponsors := sponsors), c, front, bump, {})
  {
    var r := q.(sponsors := sponsors);
    forall a: Addr ensures DemotedAt(p, r, c, front, bump, a) {
      assert DemotedAt(p, q, c, front, bump, a);
    }
  }

  /** Normalisation leaves nothing at or beyond a frontier exactly if it leaves no hole. */
  lemma NormalizedNoneBeyond(p: Pool, q: Pool, c: Chain, front: Addr -> nat, bump: nat)
    requires Normalized(p, q, c, front, bump)
    ensures NoneBeyond(q.pending, FrontOf(q.sponsors, c.sponsor)) <==> NoHole(p.pending, c.sponsor, front)
    ensures NoGoodFollower(p.pending, front) ==> NoneBeyond(q.pending, FrontOf(q.sponsors, c.sponsor))
  {
    assert AllKept(p.pending, front, q.pending) by {
      forall a: Addr ensures ItemsOf(q.pending, a) == Kept(ItemsOf(p.pending, a), front) {
        assert DemotedAt(p, q, c, front, bump, a);
      }
    }
    OnePassEnough(p.pending, c.sponsor, front, q.pending, FrontOf(q.sponsors, c.sponsor));
    if NoGoodFollower(p.pending, front) {
      OnePassSuffices(p.pending, c.sponsor, front, q.pending, FrontOf(q.sponsors, c.sponsor));
    }
  }

  /** With no nonce both pending and queued, normalisation keeps every transaction, and keeps it that way. */
  lemma NormalizedKeeps(p: Pool, q: Pool, c: Chain, front: Addr -> nat, bump: nat)
    requires Normalized(p, q, c, front, bump) && Disjoint(p)
    ensures SameTxs(p, q) && Disjoint(q)
  {
    forall a: Addr, tx: Tx
      ensures Present(ItemsOf(p.pending, a), ItemsOf(p.queue, a), tx) <==>
                Present(ItemsOf(q.pending, a), ItemsOf(q.queue, a), tx)
    {
      assert DemotedAt(p, q, c, front, bump, a);
      assert ItemsOf(p.pending, a).Keys !! ItemsOf(p.queue, a).Keys;
      DemoteKeeps(ItemsOf(p.pending, a), ItemsOf(p.queue, a), front, bump, tx);
    }
    forall a: Addr ensures ItemsOf(q.pending, a).Keys !! ItemsOf(q.queue, a).Keys {
      assert DemotedAt(p, q, c, front, bump, a);
      assert ItemsOf(p.pending, a).Keys !! ItemsOf(p.queue, a).Keys;
    }
  }

  /** No sponsor nonce is used twice, and none from before the chain's. */
  ghost predicate NoClash(pending: Lists, chain: Addr -> nat) {
    && (forall a: Addr, n: nat, sp: Addr, k: nat {:trigger Slot(pending, a, n, sp, k)} | Slot(pending, a, n, sp, k) ::
        chain(sp) <= k)
    && (forall a: Addr, n: nat, b: Addr, m: nat, sp: Addr, k: nat
          {:trigger Slot(pending, a, n, sp, k), Slot(pending, b, m, sp, k)} |
          Slot(pending, a, n, sp, k) && Slot(pending, b, m, sp, k) :: a == b && n == m)
  }

  /** Normalisation restores the invariant that promotion keeps, again exactly if it leaves no hole. */
  lemma NormalizedContiguous(p: Pool, q: Pool, c: Chain, front: Addr -> nat, bump: nat)
    requires Normalized(p, q, c, front, bump) && NoClash(p.pending, c.sponsor)
    ensures Contiguous(q, c) <==> NoHole(p.pending, c.sponsor, front)
  {
    NormalizedNoneBeyond(p, q, c, front, bump);
    var now := FrontOf(q.sponsors, c.sponsor);
    forall sp: Addr ensures now(sp) == Front(q, c, sp) && FrontierIs(q.pending, c.sponsor(sp), sp, Front(q, c, sp)) {
      assert FrontierIs(q.pending, c.sponsor(sp), sp, now(sp));
    }
    forall a: Addr, n: nat, sp: Addr, k: nat | Slot(q.pending, a, n, sp, k) ensures Slot(p.pending, a, n, sp, k) {
      assert DemotedAt(p, q, c, front, bump, a);
    }
  }

  // Adding a transaction.

  /** A pending transaction with this nonce may be replaced, as far as sponsors go: a sponsored newcomer must use the
      same sponsor nonce. */
  predicate SameSlot(prev: Tx, tx: Tx) {
    tx.inner.sponsor.None? || prev.inner.sponsor == tx.inner.sponsor
  }

  predicate IsPending(p: Pool, tx: Tx) { tx.nonce in ItemsOf(p.pending, tx.inner.from) }

  /** The transaction is taken in: in place of a pending one, or else into the queue. */
  predicate Accepts(p: Pool, tx: Tx, bump: nat) {
    if IsPending(p, tx) then
      var prev := ItemsOf(p.pending, tx.inner.from)[tx.nonce];
      SameSlot(prev, tx) && TL.Outbids(prev, tx, bump)
    else
      var q := ItemsOf(p.queue, tx.inner.from);
      tx.nonce !in q || TL.Outbids(q[tx.nonce], tx, bump)
  }

  /** A free nonce is always taken in. A newcomer outbids what is there, unless both are signer transactions, and takes
      over the sponsor nonce of a pending transaction that it replaces. */
  ghost predicate FairlyAdded(pending: Items, queue: Items, tx: Tx, ok: bool) {
    && (tx.nonce !in pending && tx.nonce !in queue ==> ok)
    && (ok && tx.nonce in pending ==> Outdone(pending[tx.nonce].inner, tx.inner)
                                      && tx.inner.sponsor in {None, pending[tx.nonce].inner.sponsor})
    && (ok && tx.nonce !in pending && tx.nonce in queue ==> Outdone(queue[tx.nonce].inner, tx.inner))
  }

  ghost predicate Outdone(prev: TxData, tx: TxData) {
    (prev.txType == SignerTx && tx.txType == SignerTx) || (prev.feeCap < tx.feeCap && prev.tipCap < tx.tipCap)
  }

  lemma AcceptsFairly(p: Pool, tx: Tx, bump: nat)
    ensures FairlyAdded(ItemsOf(p.pending, tx.inner.from), ItemsOf(p.queue, tx.inner.from), tx, Accepts(p, tx, bump))
  {
  }

  function With(p: Pool, tx: Tx): Pool {
    var a := tx.inner.from;
    if IsPending(p, tx) then p.(pending := p.pending[a := ItemsOf(p.pending, a)[tx.nonce := tx]])
    else p.(queue := p.queue[a := ItemsOf(p.queue, a)[tx.nonce := tx]])
  }

  /** Only with sponsors involved can a replacement disturb their runs. */
  predicate Disturbs(p: Pool, tx: Tx) {
    IsPending(p, tx) && (tx.inner.sponsor.Some? || ItemsOf(p.pending, tx.inner.from)[tx.nonce].inner.sponsor.Some?)
  }

  /** One list got the transaction. */
  lemma WithItemsAt(p: Pool, tx: Tx, a: Addr)
    ensures var q := With(p, tx);
            var here := a == tx.inner.from;
            && ItemsOf(q.pending, a) == (if here && IsPending(p, tx) then ItemsOf(p.pending, a)[tx.nonce := tx]
                                         else ItemsOf(p.pending, a))
            && ItemsOf(q.queue, a) == (if here && !IsPending(p, tx) then ItemsOf(p.queue, a)[tx.nonce := tx]
                                       else ItemsOf(p.queue, a))
  {
  }

  lemma WithFiled(items: Items, tx: Tx)
    requires Filed(items, tx.inner.from) && tx.nonce <= MAX_UINT64
    ensures Filed(items[tx.nonce := tx], tx.inner.from)
  {
  }

  lemma WithSane(p: Pool, c: Chain, tx: Tx)
    requires Sane(p, c) && tx.nonce <= MAX_UINT64
    ensures Sane(With(p, tx), c)
  {
    var q := With(p, tx);
    forall a: Addr ensures Filed(ItemsOf(q.pending, a), a) && Filed(ItemsOf(q.queue, a), a) {
      assert Filed(ItemsOf(p.pending, a), a) && Filed(ItemsOf(p.queue, a), a);
      WithItemsAt(p, tx, a);
      if a == tx.inner.from {
        WithFiled(ItemsOf(p.pending, a), tx);
        WithFiled(ItemsOf(p.queue, a), tx);
      }
    }
    forall a: Addr ensures Next(q, c, a) <= MAX_UINT64 {
      assert Next(p, c, a) <= MAX_UINT64;
    }
  }

  lemma WithDisjoint(p: Pool, tx: Tx)
    requires Disjoint(p)
    ensures Disjoint(With(p, tx))
  {
    var q := With(p, tx);
    forall a: Addr ensures ItemsOf(q.pending, a).Keys !! ItemsOf(q.queue, a).Keys {
      assert ItemsOf(p.pending, a).Keys !! ItemsOf(p.queue, a).Keys;
      WithItemsAt(p, tx, a);
    }
  }

  /** A replacement uses no sponsor nonce that was not in use at the same place. */
  lemma WithSlot(p: Pool, tx: Tx, a: Addr, n: nat, sp: Addr, k: nat)
    requires IsPending(p, tx) ==> SameSlot(ItemsOf(p.pending, tx.inner.from)[tx.nonce], tx)
    ensures Slot(With(p, tx).pending, a, n, sp, k) ==> Slot(p.pending, a, n, sp, k)
  {
  }

  lemma WithNoClash(p: Pool, c: Chain, tx: Tx)
    requires Contiguous(p, c) && (IsPending(p, tx) ==> SameSlot(ItemsOf(p.pending, tx.inner.from)[tx.nonce], tx))
    ensures NoClash(With(p, tx).pending, c.sponsor)
  {
    var q := With(p, tx);
    forall a: Addr, n: nat, sp: Addr, k: nat | Slot(q.pending, a, n, sp, k) ensures Slot(p.pending, a, n, sp, k) {
      WithSlot(p, tx, a, n, sp, k);
    }
  }

  /** Without sponsors the runs stay as they are. */
  lemma WithContiguous(p: Pool, c: Chain, tx: Tx)
    requires Contiguous(p, c) && !Disturbs(p, tx)
    ensures Contiguous(With(p, tx), c)
  {
    var q := With(p, tx);
    forall a: Addr, n: nat, sp: Addr, k: nat ensures Slot(q.pending, a, n, sp, k) == Slot(p.pending, a, n, sp, k) {
    }
    forall sp: Addr ensures Front(q, c, sp) == Front(p, c, sp) >= c.sponsor(sp) {
    }
    forall sp: Addr, k: nat | Held(p.pending, sp, k) ensures Held(q.pending, sp, k) {
      var a: Addr, n: nat :| Slot(p.pending, a, n, sp, k);
      assert Slot(q.pending, a, n, sp, k);
    }
  }

  // Truncation.

  /** The pending transactions of an account and its next nonce. */
  datatype Entry = Entry(items: Items, next: nat)

  lemma HasHighest(items: Items)
    requires items != map[]
    ensures exists m: nat :: m in items && forall k | k in items :: k <= m
  {
    var m := GreatestExists(items.Keys);
    assert m in items && forall k | k in items :: k <= m;
  }

  function Highest(items: Items): (m: nat)
    requires items != map[]
    ensures Greatest(items.Keys, m)
  {
    HasHighest(items);
    var m :| m in items && forall k | k in items :: k <= m;
    m
  }

  /** The list capped to one transaction less: the highest nonce goes, and the next nonce is lowered to it. */
  function Capped(e: Entry): Entry {
    if e.items == map[] then e else Entry(e.items - {Highest(e.items)}, Min(e.next, Highest(e.items)))
  }

  function EntryOps(): Ops<Entry> {
    Ops((e: Entry) => |e.items|, Capped)
  }

  lemma EntryCutting()
    ensures Cutting(EntryOps())
  {
    forall e: Entry | |e.items| > 0 ensures |Capped(e).items| == |e.items| - 1 {
      CappedLen(e);
    }
  }

  /** Only the highest nonces are gone, and the next nonce is lowered to the least of them. */
  ghost predicate TopGone(e: Entry, f: Entry) {
    && Submap(f.items, e.items)
    && AllBelow(f.items.Keys, e.items.Keys - f.items.Keys)
    && NextAfter(e.next, f.next, e.items - f.items.Keys)
  }

  lemma TopGoneMore(e: Entry, f: Entry)
    requires TopGone(e, f) && f.items != map[]
    ensures TopGone(e, Capped(f))
  {
    var h, g := Highest(f.items), Capped(f);
    assert g.items.Keys == f.items.Keys - {h};
    assert e.items.Keys - g.items.Keys == (e.items.Keys - f.items.Keys) + {h};
    assert h in e.items - g.items.Keys;
    assert Least((e.items - g.items.Keys).Keys, h);
  }

  /** Cutting off the last `n` is capping `n` times. */
  lemma {:induction false} CutsTopGone(e: Entry, n: nat, f: Entry)
    requires n <= |e.items| && f == Cuts(EntryOps(), e, n)
    ensures TopGone(e, f) && |f.items| == |e.items| - n
  {
    if n > 0 {
      var g := Cuts(EntryOps(), e, n - 1);
      assert f == Capped(g);
      CutsTopGone(e, n - 1, g);
      CappedLen(g);
      TopGoneMore(e, g);
    } else {
      assert f == e;
    }
  }

  lemma CappedLen(e: Entry)
    requires |e.items| > 0
    ensures |Capped(e).items| == |e.items| - 1
  {
    assert Capped(e).items.Keys == e.items.Keys - {Highest(e.items)};
  }

  function Entries(p: Pool, c: Chain): map<Addr, Entry> {
    map a | a in p.pending :: Entry(p.pending[a], Next(p, c, a))
  }

  /** The number of transactions that a set of accounts has in its lists. */
  ghost function Count(m: Lists, accounts: set<Addr>): nat {
    Weigh(multiset(accounts), ListLen(m))
  }

  lemma EntriesCount(m: Lists, entries: map<Addr, Entry>)
    requires entries.Keys == m.Keys && forall a | a in m :: entries[a].items == m[a]
    ensures Size(EntryOps(), entries) == Count(m, m.Keys)
  {
    forall a | a in m.Keys ensures LenAt(EntryOps(), entries)(a) == ListLen(m)(a) {
      assert EntryOps().len(entries[a]) == |entries[a].items|;
    }
    WeighAgree(multiset(m.Keys), LenAt(EntryOps(), entries), ListLen(m));
  }

  /** Non-local accounts with more pending transactions than their allowance. */
  function OverAllowance(m: Lists, locals: set<Addr>, allowance: nat): set<Addr> {
    set a | a in m && a !in locals && |m[a]| > allowance
  }

  /** Of every account only the highest nonces went. */
  ghost predicate CapsTop(p: Pool, q: Pool, c: Chain) {
    && q.queue == p.queue && q.sponsors == p.sponsors && q.pending.Keys == p.pending.Keys
    && (forall a | a in p.pending :: TopGone(Entry(p.pending[a], Next(p, c, a)), Entry(q.pending[a], Next(q, c, a))))
  }

  /** Only non-local accounts were cut, none below the allowance, and none below another non-local account. */
  ghost predicate CapsSpare(p: Lists, q: Lists, locals: set<Addr>, allowance: nat)
    requires p.Keys == q.Keys
  {
    && (forall a | a in p && q[a] != p[a] :: a !in locals && |q[a]| >= allowance)
    && (forall a, b | a in p && b in p && q[a] != p[a] && b !in locals :: |q[b]| <= |q[a]|)
  }

  ghost predicate AllWithin(m: Lists, locals: set<Addr>, allowance: nat) {
    forall a | a in m && a !in locals :: |m[a]| <= allowance
  }

  /** The total fits, or all non-local accounts are within the allowance, and no more than one round too many was
      cut. */
  ghost predicate CapsEnough(p: Lists, q: Lists, locals: set<Addr>, limit: nat, allowance: nat) {
    && (Count(q, q.Keys) <= limit || AllWithin(q, locals, allowance))
    && (Count(p, p.Keys) <= limit ==> q == p)
    && (Count(p, p.Keys) > limit ==> Count(q, q.Keys) + |OverAllowance(p, locals, allowance)| > limit)
  }

  /** What capping promises, in terms of the pool. */
  ghost predicate CapsPending(p: Pool, q: Pool, c: Chain, locals: set<Addr>, limit: nat, allowance: nat) {
    && CapsTop(p, q, c)
    && CapsSpare(p.pending, q.pending, locals, allowance)
    && CapsEnough(p.pending, q.pending, locals, limit, allowance)
  }

  /** The pool with the capped lists and the next nonces lowered. */
  function WithEntries(p: Pool, was: map<Addr, Entry>, cut: map<Addr, Entry>): Pool
    requires was.Keys == cut.Keys
  {
    p.(pending := map a | a in cut :: cut[a].items,
       nonces := p.nonces + map a | a in cut && cut[a] != was[a] :: cut[a].next)
  }

  /** Cap the longest non-local lists until the pool is within its limit. */
  method CapPending(p: Pool, c: Chain, locals: set<Addr>, limit: nat, allowance: nat) returns (q: Pool, any: bool)
    ensures CapsPending(p, q, c, locals, limit, allowance) && Untracked(p, q, c)
    ensures if any then q.pending != p.pending else q == p
  {
    var was := Entries(p, c);
    var cut := CutEntries(was, locals, limit, allowance);
    q, any := WithEntries(p, was, cut), cut != was;
    WithEntriesOf(p, c, cut);
    CutCapsPending(p, q, c, was, cut, locals, limit, allowance);
    CutUntracked(p, c, cut);
    CutAny(p, c, cut);
  }

  method CutEntries(was: map<Addr, Entry>, locals: set<Addr>, limit: nat, allowance: nat)
    returns (cut: map<Addr, Entry>)
    ensures AllTopGone(was, cut) && Truncated(EntryOps(), was, cut, locals, limit, allowance)
  {
    EntryCutting();
    cut := Truncate(EntryOps(), was, locals, limit, allowance);
    TrimsTopGone(was, cut);
  }

  lemma CutUntracked(p: Pool, c: Chain, cut: map<Addr, Entry>)
    requires AllTopGone(Entries(p, c), cut)
    ensures Untracked(p, WithEntries(p, Entries(p, c), cut), c)
  {
  }

  /** The pending lists change exactly if some account was cut, and otherwise nothing does. */
  lemma CutAny(p: Pool, c: Chain, cut: map<Addr, Entry>)
    requires AllTopGone(Entries(p, c), cut)
    ensures var q := WithEntries(p, Entries(p, c), cut);
            if cut != Entries(p, c) then q.pending != p.pending else q == p
  {
    var was := Entries(p, c);
    var q := WithEntries(p, was, cut);
    if q.pending == p.pending {
      forall a | a in was ensures cut[a] == was[a] {
        assert q.pending[a] == p.pending[a] && TopGone(was[a], cut[a]);
      }
    }
    if cut == was {
      assert q.pending == p.pending && q.nonces == p.nonces;
    }
  }

  ghost predicate AllTopGone(was: map<Addr, Entry>, cut: map<Addr, Entry>) {
    was.Keys == cut.Keys && forall a | a in was :: TopGone(was[a], cut[a])
  }

  lemma TrimsTopGone(was: map<Addr, Entry>, cut: map<Addr, Entry>)
    requires Trims(EntryOps(), was, cut)
    ensures AllTopGone(was, cut)
  {
    forall a | a in was ensures TopGone(was[a], cut[a]) {
      TrimmedEntry(was[a], cut[a]);
    }
  }

  /** `entries` are the accounts of the pool. */
  ghost predicate EntriesOf(p: Pool, c: Chain, entries: map<Addr, Entry>) {
    entries.Keys == p.pending.Keys && forall a | a in entries :: entries[a] == Entry(p.pending[a], Next(p, c, a))
  }

  lemma WithEntriesOf(p: Pool, c: Chain, cut: map<Addr, Entry>)
    requires AllTopGone(Entries(p, c), cut)
    ensures EntriesOf(p, c, Entries(p, c)) && EntriesOf(WithEntries(p, Entries(p, c), cut), c, cut)
  {
  }

  lemma TrimmedEntry(e: Entry, f: Entry)
    requires Trimmed(EntryOps(), e, f)
    ensures TopGone(e, f)
  {
    CutsTopGone(e, |e.items| - |f.items|, f);
  }

  lemma CutCapsSpare(p: Lists, was: map<Addr, Entry>, cut: map<Addr, Entry>, q: Lists, locals: set<Addr>,
                     allowance: nat)
    requires p.Keys == was.Keys == cut.Keys == q.Keys && Spares(EntryOps(), was, cut, locals, allowance)
    requires forall a | a in p :: was[a].items == p[a] && cut[a].items == q[a]
    ensures CapsSpare(p, q, locals, allowance)
  {
  }

  lemma CutCapsEnough(p: Lists, was: map<Addr, Entry>, cut: map<Addr, Entry>, q: Lists, locals: set<Addr>, limit: nat,
                      allowance: nat)
    requires p.Keys == was.Keys == cut.Keys == q.Keys && Truncated(EntryOps(), was, cut, locals, limit, allowance)
    requires forall a | a in p :: was[a].items == p[a] && cut[a].items == q[a]
    ensures CapsEnough(p, q, locals, limit, allowance)
  {
    EntriesCount(p, was);
    EntriesCount(q, cut);
    assert Spammers(EntryOps(), was, locals, allowance) == OverAllowance(p, locals, allowance);
  }

  lemma CutCapsPending(p: Pool, q: Pool, c: Chain, was: map<Addr, Entry>, cut: map<Addr, Entry>, locals: set<Addr>,
                       limit: nat, allowance: nat)
    requires EntriesOf(p, c, was) && EntriesOf(q, c, cut) && q.queue == p.queue && q.sponsors == p.sponsors
    requires AllTopGone(was, cut) && Truncated(EntryOps(), was, cut, locals, limit, allowance)
    ensures CapsPending(p, q, c, locals, limit, allowance)
  {
    CutCapsSpare(p.pending, was, cut, q.pending, locals, allowance);
    CutCapsEnough(p.pending, was, cut, q.pending, locals, limit, allowance);
  }

  lemma DemotedFiled(p: Items, q: Items, front: Addr -> nat, bump: nat, a: Addr)
    requires Filed(p, a) && Filed(q, a)
    ensures Filed(Kept(p, front), a) && Filed(Merge(q, Gone(p, front), bump), a)
  {
  }

  lemma NormalizedSane(p: Pool, q: Pool, c: Chain, front: Addr -> nat, bump: nat)
    requires Normalized(p, q, c, front, bump) && Sane(p, c)
    ensures Sane(q, c)
  {
    forall a: Addr ensures Filed(ItemsOf(q.pending, a), a) && Filed(ItemsOf(q.queue, a), a) {
      assert DemotedAt(p, q, c, front, bump, a);
      assert Filed(ItemsOf(p.pending, a), a) && Filed(ItemsOf(p.queue, a), a);
      DemotedFiled(ItemsOf(p.pending, a), ItemsOf(p.queue, a), front, bump, a);
    }
    forall a: Addr ensures Next(q, c, a) <= MAX_UINT64 {
      assert DemotedAt(p, q, c, front, bump, a);
      assert Next(p, c, a) <= MAX_UINT64;
    }
  }

  lemma CappedSane(p: Pool, q: Pool, c: Chain)
    requires CapsTop(p, q, c) && Sane(p, c) && Untracked(p, q, c)
    ensures Sane(q, c) && (Disjoint(p) ==> Disjoint(q))
  {
    forall a: Addr ensures Submap(ItemsOf(q.pending, a), ItemsOf(p.pending, a)) && Next(q, c, a) <= Next(p, c, a) {
      if a in p.pending {
        assert TopGone(Entry(p.pending[a], Next(p, c, a)), Entry(q.pending[a], Next(q, c, a)));
      }
    }
    forall a: Addr ensures Filed(ItemsOf(q.pending, a), a) && Next(q, c, a) <= MAX_UINT64 {
      assert Filed(ItemsOf(p.pending, a), a) && Next(p, c, a) <= MAX_UINT64;
    }
    if Disjoint(p) {
      forall a: Addr ensures ItemsOf(q.pending, a).Keys !! ItemsOf(q.queue, a).Keys {
        assert ItemsOf(p.pending, a).Keys !! ItemsOf(p.queue, a).Keys;
      }
    }
  }

  /** Capping makes no sponsor nonce used twice. */
  lemma CapsNoClash(p: Pool, q: Pool, c: Chain)
    requires CapsTop(p, q, c) && Contiguous(p, c)
    ensures NoClash(q.pending, c.sponsor)
  {
    forall a: Addr, n: nat, sp: Addr, k: nat | Slot(q.pending, a, n, sp, k) ensures Slot(p.pending, a, n, sp, k) {
      assert TopGone(Entry(p.pending[a], Next(p, c, a)), Entry(q.pending[a], Next(q, c, a)));
    }
  }

  /** The next nonces of accounts without pending transactions stay. */
  ghost predicate Untracked(p: Pool, q: Pool, c: Chain) {
    forall a: Addr {:trigger Next(q, c, a)} | a !in p.pending :: Next(q, c, a) == Next(p, c, a)
  }

  /** Demotion makes no list longer, so it keeps what capping achieved. */
  lemma NormalizedFits(p: Pool, q: Pool, c: Chain, front: Addr -> nat, bump: nat, locals: set<Addr>, limit: nat,
                       allowance: nat)
    requires Normalized(p, q, c, front, bump)
    requires Count(p.pending, p.pending.Keys) <= limit || AllWithin(p.pending, locals, allowance)
    ensures Fits(q.pending, p.pending.Keys, locals, limit, allowance)
  {
    forall a: Addr ensures ListLen(q.pending)(a) <= ListLen(p.pending)(a) {
      assert DemotedAt(p, q, c, front, bump, a);
      SubmapLen(ItemsOf(q.pending, a), ItemsOf(p.pending, a));
    }
    WeighLess(multiset(p.pending.Keys), ListLen(q.pending), ListLen(p.pending));
    if AllWithin(p.pending, locals, allowance) {
      forall a | a in p.pending.Keys && a !in locals ensures |ItemsOf(q.pending, a)| <= allowance {
        assert ListLen(q.pending)(a) <= ListLen(p.pending)(a);
      }
    }
  }

  /** The accounts' total is within the limit, or each non-local one of them is within its allowance. */
  ghost predicate Fits(m: Lists, accounts: set<Addr>, locals: set<Addr>, limit: nat, allowance: nat) {
    Count(m, accounts) <= limit || forall a | a in accounts && a !in locals :: |ItemsOf(m, a)| <= allowance
  }

  /** The part of the pool that holds executable and future transactions. */
  class TxPool {
    var pending: Lists
    var queue: Lists
    var nonces: map<Addr, nat>
    var sponsors: map<Addr, nat>
    const chain: Chain
    const priceBump: nat
    const locals: set<Addr>
    const globalSlots: nat
    const accountSlots: nat

    ghost function State(): Pool
      reads this
    {
      Pool(pending, queue, nonces, sponsors)
    }

    ghost predicate Valid()
      reads this
    {
      Sane(State(), chain)
    }

    constructor (chain: Chain, priceBump: nat, locals: set<Addr>, globalSlots: nat, accountSlots: nat)
      requires forall a: Addr :: chain.nonce(a) <= MAX_UINT64
      ensures Valid() && Disjoint(State()) && Contiguous(State(), chain) && pending == map[] && queue == map[]
    {
      this.chain, this.priceBump, this.locals := chain, priceBump, locals;
      this.globalSlots, this.accountSlots := globalSlots, accountSlots;
      pending, queue, nonces, sponsors := map[], map[], map[], map[];
    }

    /** The next nonce of an account; a nonce read from the chain state is remembered. */
    method GetNonce(a: Addr) returns (n: nat)
      modifies `nonces
      ensures n == Next(old(State()), chain, a)
      ensures forall b: Addr :: Next(State(), chain, b) == Next(old(State()), chain, b)
    {
      if a !in nonces {
        nonces := nonces[a := chain.nonce(a)];
      }
      n := nonces[a];
    }

    /** Likewise for a sponsor. */
    method GetSponsorNonce(sp: Addr) returns (n: nat)
      modifies `sponsors
      ensures n == Front(old(State()), chain, sp)
      ensures forall b: Addr :: Front(State(), chain, b) == Front(old(State()), chain, b)
    {
      if sp !in sponsors {
        sponsors := sponsors[sp := chain.sponsor(sp)];
      }
      n := sponsors[sp];
    }

    method Store(p: Pool)
      modifies this
      ensures State() == p
    {
      pending, queue, nonces, sponsors := p.pending, p.queue, p.nonces, p.sponsors;
    }

    /** Take in a new transaction. Replacing a sponsored one, or by one, is followed by a demotion. No nonce comes to be
        both pending and queued, and the sponsors' runs stay unbroken exactly if the replacement leaves no hole. */
    method Add(tx: Tx) returns (ok: bool, ghost front: Addr -> nat)
      requires Valid() && tx.nonce <= MAX_UINT64
      modifies this
      ensures Valid() && (old(Disjoint(State())) ==> Disjoint(State()))
      ensures ok <==> Accepts(old(State()), tx, priceBump)
      ensures FairlyAdded(old(ItemsOf(pending, tx.inner.from)), old(ItemsOf(queue, tx.inner.from)), tx, ok)
      ensures !ok ==> State() == old(State())
      ensures ok && !Disturbs(old(State()), tx) ==> State() == With(old(State()), tx)
      ensures ok && Disturbs(old(State()), tx) ==> Normalized(With(old(State()), tx), State(), chain, front, priceBump)
      ensures old(Contiguous(State(), chain)) ==>
                (Contiguous(State(), chain) <==>
                  (ok && Disturbs(old(State()), tx) ==> NoHole(With(old(State()), tx).pending, chain.sponsor, front)))
    {
      ghost var p := State();
      front := chain.sponsor;
      var now := Pool(pending, queue, nonces, sponsors);
      ok := Accepts(now, tx, priceBump);
      AcceptsFairly(now, tx, priceBump);
      if !ok {
        return;
      }
      WithSane(p, chain, tx);
      if Disjoint(p) {
        WithDisjoint(p, tx);
      }
      var disturbs := Disturbs(now, tx);
      Store(With(now, tx));
      if disturbs {
        front := NormalizeSponsoredPending();
        if Contiguous(p, chain) {
          WithNoClash(p, chain, tx);
          NormalizedContiguous(With(p, tx), State(), chain, front, priceBump);
        }
      } else if Contiguous(p, chain) {
        WithContiguous(p, chain, tx);
      }
    }

    /** Promote until no listed account's next transaction can be. */
    method PromoteSponsored(accounts: seq<Addr>)
      requires Valid()
      modifies this
      ensures Valid() && Drained(old(State()), State()) && Progressed(old(State()), State(), chain)
      ensures UnlistedLeft(old(State()), State(), chain, accounts)
      ensures old(Disjoint(State())) ==> Advanced(old(State()), State(), chain)
      ensures old(Disjoint(State())) ==> AllBlocked(State(), chain, accounts)
      ensures old(Disjoint(State())) && old(Contiguous(State(), chain)) ==>
                forall a | a in accounts :: Waits(State(), chain, a)
    {
      var q := Promotion.PromoteSponsored(Pool(pending, queue, nonces, sponsors), chain, accounts, priceBump);
      Store(q);
    }

    /** Demote what sponsors cannot serve yet. */
    method NormalizeSponsoredPending() returns (ghost front: Addr -> nat)
      requires Valid()
      modifies this
      ensures Valid() && Normalized(old(State()), State(), chain, front, priceBump)
      ensures NoneBeyond(pending, FrontOf(sponsors, chain.sponsor)) <==> NoHole(old(pending), chain.sponsor, front)
      ensures NoGoodFollower(old(pending), front) ==> NoneBeyond(pending, FrontOf(sponsors, chain.sponsor))
      ensures old(Disjoint(State())) ==> Disjoint(State()) && SameTxs(old(State()), State())
    {
      ghost var p := State();
      var q;
      q, front := Normalize(Pool(pending, queue, nonces, sponsors), chain, priceBump);
      NormalizedSane(p, q, chain, front, priceBump);
      NormalizedNoneBeyond(p, q, chain, front, priceBump);
      if Disjoint(p) { NormalizedKeeps(p, q, chain, front, priceBump); }
      Store(q);
    }

    /** Cap the longest non-local lists, then demote what lost its place. */
    method TruncatePending() returns (ghost capped: Pool, ghost front: Addr -> nat)
      requires Valid()
      modifies this
      ensures Valid() && CapsPending(old(State()), capped, chain, locals, globalSlots, accountSlots)
      ensures if capped.pending == old(pending) then State() == capped == old(State())
              else Normalized(capped, State(), chain, front, priceBump)
      ensures Fits(pending, old(pending).Keys, locals, globalSlots, accountSlots)
      ensures old(Disjoint(State())) ==> Disjoint(State())
      ensures old(Contiguous(State(), chain)) ==>
                (Contiguous(State(), chain) <==>
                  capped.pending == old(pending) || NoHole(capped.pending, chain.sponsor, front))
    {
      ghost var p := State();
      var q, any := CapPending(Pool(pending, queue, nonces, sponsors), chain, locals, globalSlots, accountSlots);
      CappedSane(p, q, chain);
      capped, front := q, chain.sponsor;
      Store(q);
      if any {
        front := NormalizeSponsoredPending();
        NormalizedFits(capped, State(), chain, front, priceBump, locals, globalSlots, accountSlots);
        if Contiguous(p, chain) {
          CapsNoClash(p, capped, chain);
          NormalizedContiguous(capped, State(), chain, front, priceBump);
        }
      }
    }
  }
}

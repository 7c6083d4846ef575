/**
 * Sponsor nonces in the pool: which of them the pending transactions use, and the frontier of each sponsor,
 * the next nonce it can sponsor with (sponsorNoncer, rebuildSponsorPendingNonces).
 */
module Sponsors {
  import opened Util
  import opened Txs

  /** The transactions of every account, by nonce. */
  type Lists = map<Addr, Items>

  function ItemsOf(m: Lists, a: Addr): Items {
    if a in m then m[a] else map[]
  }

  /** An account without transactions has no entry. */
  function WithItems(m: Lists, a: Addr, items: Items): Lists {
    if items == map[] then m - {a} else m[a := items]
  }

  lemma WithItemsOf(m: Lists, a: Addr, items: Items, b: Addr)
    ensures ItemsOf(WithItems(m, a, items), b) == if a == b then items else ItemsOf(m, b)
  {
  }

  /** A nonce that was set, or else the one in the chain state. */
  function Look(nonces: map<Addr, nat>, chain: Addr -> nat, a: Addr): nat {
    if a in nonces then nonces[a] else chain(a)
  }

  predicate Uses(tx: Tx, sp: Addr, k: nat) {
    tx.inner.sponsor == Some(Sponsor(sp, k))
  }

  /** The transaction of account `a` at nonce `n` uses nonce `k` of sponsor `sp`. */
  ghost predicate Slot(m: Lists, a: Addr, n: nat, sp: Addr, k: nat) {
    n in ItemsOf(m, a) && Uses(ItemsOf(m, a)[n], sp, k)
  }

  /** Some transaction uses nonce `k` of sponsor `sp`. */
  ghost predicate Held(m: Lists, sp: Addr, k: nat) {
    exists a: Addr, n: nat :: Slot(m, a, n, sp, k)
  }

  /** `f` is the least nonce at or above the chain's that no pending transaction uses. */
  ghost predicate FrontierIs(pending: Lists, chain: nat, sp: Addr, f: nat) {
    && chain <= f
    && !Held(pending, sp, f)
    && forall k: nat {:trigger Held(pending, sp, k)} | chain <= k < f :: Held(pending, sp, k)
  }

  lemma FrontierUnique(pending: Lists, chain: nat, sp: Addr, f: nat, g: nat)
    requires FrontierIs(pending, chain, sp, f) && FrontierIs(pending, chain, sp, g)
    ensures f == g
  {
  }

  /** Exactly the sponsor nonces in use. */
  ghost predicate Collected(m: Lists, used: map<Addr, set<nat>>) {
    forall sp: Addr, k: nat {:trigger Held(m, sp, k)} :: (sp in used && k in used[sp]) <==> Held(m, sp, k)
  }

  function AddUse(used: map<Addr, set<nat>>, s: Sponsor): map<Addr, set<nat>> {
    used[s.addr := (if s.addr in used then used[s.addr] else {}) + {s.nonce}]
  }

  /** Exactly the sponsor nonces used by accounts outside `todo`, and by nonces of `a` outside `left`. */
  ghost predicate Partly(m: Lists, used: map<Addr, set<nat>>, todo: set<Addr>, a: Addr, left: set<nat>) {
    && (forall sp: Addr, k: nat | sp in used && k in used[sp] :: Held(m, sp, k))
    && (forall b: Addr, n: nat, sp: Addr, k: nat {:trigger Slot(m, b, n, sp, k)} |
          Slot(m, b, n, sp, k) && b !in todo && (b == a ==> n !in left) :: sp in used && k in used[sp])
  }

  lemma PartlyMore(m: Lists, used: map<Addr, set<nat>>, todo: set<Addr>, a: Addr, left: set<nat>, n: nat)
    requires Partly(m, used, todo, a, left) && n in left && n in ItemsOf(m, a)
    ensures var s := ItemsOf(m, a)[n].inner.sponsor;
            Partly(m, if s.Some? then AddUse(used, s.value) else used, todo, a, left - {n})
  {
    var s := ItemsOf(m, a)[n].inner.sponsor;
    if s.Some? { assert Slot(m, a, n, s.value.addr, s.value.nonce); }
  }

  /** Add the uses of one account. */
  method CollectFrom(m: Lists, used0: map<Addr, set<nat>>, ghost todo: set<Addr>, a: Addr)
    returns (used: map<Addr, set<nat>>)
    requires a in m && a !in todo && Partly(m, used0, todo, a, m[a].Keys)
    ensures Partly(m, used, todo, a, {})
  {
    used := used0;
    var left := m[a].Keys;
    while left != {}
      invariant left <= m[a].Keys && Partly(m, used, todo, a, left)
    {
      var n :| n in left;
      PartlyMore(m, used, todo, a, left, n);
      var s := m[a][n].inner.sponsor;
      if s.Some? {
        used := AddUse(used, s.value);
      }
      left := left - {n};
    }
  }

  method Collect(m: Lists) returns (used: map<Addr, set<nat>>)
    ensures Collected(m, used)
  {
    used := map[];
    var todo := m.Keys;
    ghost var a: Addr := 0;
    while todo != {}
      invariant todo <= m.Keys && Partly(m, used, todo, a, {})
    {
      var b :| b in todo;
      todo, a := todo - {b}, b;
      used := CollectFrom(m, used, todo, b);
    }
  }

  /** The least number from `start` up that is not in the set. */
  method NextFree(s: set<nat>, start: nat) returns (next: nat)
    ensures start <= next && next !in s && forall k: nat | start <= k < next :: k in s
    ensures start <= MAX_UINT64 ==> (next > MAX_UINT64 <==> forall k: nat | start <= k <= MAX_UINT64 :: k in s)
  {
    next := start;
    ghost var left := s;
    while next in s
      invariant start <= next && forall k: nat | start <= k < next :: k in s
      invariant forall k | k in s && k >= next :: k in left
      decreases |left|
    {
      left := left - {next};
      next := next + 1;
    }
  }

  /** The frontiers derived from the pending transactions. */
  method Rebuild(pending: Lists, chain: Addr -> nat) returns (nonces: map<Addr, nat>)
    ensures forall sp: Addr :: FrontierIs(pending, chain(sp), sp, Look(nonces, chain, sp))
  {
    var used := Collect(pending);
    nonces := map[];
    var todo := used.Keys;
    while todo != {}
      invariant todo <= used.Keys && nonces.Keys == used.Keys - todo
      invariant forall sp | sp in nonces :: FrontierIs(pending, chain(sp), sp, nonces[sp])
    {
      var sp :| sp in todo;
      var next := NextFree(used[sp], chain(sp));
      FrontierFrom(pending, used, chain(sp), sp, next);
      nonces, todo := nonces[sp := next], todo - {sp};
    }
    forall sp: Addr ensures FrontierIs(pending, chain(sp), sp, Look(nonces, chain, sp)) {
      assert sp !in used ==> !Held(pending, sp, chain(sp));
    }
  }

  lemma FrontierFrom(pending: Lists, used: map<Addr, set<nat>>, chain: nat, sp: Addr, f: nat)
    requires Collected(pending, used) && sp in used
    requires chain <= f && f !in used[sp] && forall k: nat | chain <= k < f :: k in used[sp]
    ensures FrontierIs(pending, chain, sp, f)
  {
    assert !Held(pending, sp, f);
  }
}

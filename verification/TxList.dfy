/**
 * An account's transaction list (txList): a sorted map with cached caps on cost and gas, and a strict
 * mode in which removing a transaction also removes those behind it.
 */
module TxList {
  import opened Util
  import opened Nonces
  import opened Txs
  import SM = SortedMap

  /** Too expensive or too large for the limits. */
  function OverLimit(costLimit: nat, gasLimit: nat): Tx -> bool {
    (tx: Tx) => tx.inner.gas > gasLimit || Cost(tx) > costLimit
  }

  /** `cost` and `gas` bound every transaction. */
  ghost predicate Within(items: Items, cost: nat, gas: nat) {
    forall n | n in items :: Cost(items[n]) <= cost && items[n].inner.gas <= gas
  }

  /** No nonce is missing between two that are present. */
  ghost predicate GapFree(s: set<nat>) {
    forall a, b, k: nat {:trigger a in s, b in s, k in s} | a in s && b in s && a <= k <= b :: k in s
  }

  /** What survives when a dropped transaction takes everything behind it along. */
  ghost function KeepPrefix(items: Items, drop: Tx -> bool): Items {
    map n | n in items && AllPass(items, drop, n) :: items[n]
  }

  ghost predicate AllPass(items: Items, drop: Tx -> bool, n: nat) {
    forall k | k in items && k <= n :: !drop(items[k])
  }

  /** What a filter leaves. */
  ghost function Filtered(items: Items, drop: Tx -> bool, strict: bool): Items {
    if strict then KeepPrefix(items, drop) else SM.Keep(items, drop)
  }

  /** What removing one nonce leaves. */
  ghost function Without(items: Items, nonce: nat, strict: bool): Items {
    if strict && nonce in items then Below(items, nonce) else items - {nonce}
  }

  /** An initial piece of a gap-free set is gap-free. */
  lemma InitialGapFree(s: set<nat>, t: set<nat>)
    requires GapFree(s) && t <= s && forall a, b | a in s && b in t && a <= b :: a in t
    ensures GapFree(t)
  {
  }

  lemma FilteredGapFree(items: Items, drop: Tx -> bool)
    requires GapFree(items.Keys)
    ensures GapFree(KeepPrefix(items, drop).Keys)
  {
    InitialGapFree(items.Keys, KeepPrefix(items, drop).Keys);
  }

  lemma BelowGapFree(items: Items, n: nat)
    requires GapFree(items.Keys)
    ensures GapFree(Below(items, n).Keys) && GapFree(From(items, n).Keys)
  {
  }

  lemma CappedGapFree(was: Items, kept: Items, drops: seq<Tx>, threshold: nat)
    requires GapFree(was.Keys) && SM.Capped(was, kept, drops, threshold)
    ensures GapFree(kept.Keys)
  {
    InitialGapFree(was.Keys, kept.Keys);
  }

  lemma WithinSubmap(small: Items, big: Items, cost: nat, gas: nat)
    requires Submap(small, big) && Within(big, cost, gas)
    ensures Within(small, cost, gas)
  {
  }

  /** Under the caps, no filter at or above them drops anything. */
  lemma CapsCover(items: Items, cost: nat, gas: nat, costLimit: nat, gasLimit: nat, strict: bool)
    requires Within(items, cost, gas) && cost <= costLimit && gas <= gasLimit
    ensures Filtered(items, OverLimit(costLimit, gasLimit), strict) == items
    ensures SM.Keep(items, OverLimit(costLimit, gasLimit)) == items
  {
  }

  /** After the first pass, cutting above the lowest removed nonce leaves the passing prefix. */
  lemma PrefixIs(items: Items, drop: Tx -> bool, removed: seq<Tx>, lowest: nat)
    requires Keyed(items) && Dropped(items, SM.Keep(items, drop), removed) && Least(Elems(Of(removed)), lowest)
    ensures SM.Keep(SM.Keep(items, drop), Above(lowest)) == KeepPrefix(items, drop)
  {
    var kept := SM.Keep(items, drop);
    assert lowest in items && lowest !in kept;
    forall n | n in kept && n <= lowest ensures AllPass(items, drop, n) {
      forall k | k in items && k <= n ensures !drop(items[k]) {
        assert k in kept || k in Elems(Of(removed));
      }
    }
    forall n | n in items && AllPass(items, drop, n) ensures n <= lowest {
    }
  }

  /** A nonce above `n`. */
  function Above(n: nat): Tx -> bool {
    (tx: Tx) => tx.nonce > n
  }

  lemma CutAbove(items: Items, n: nat)
    requires Keyed(items)
    ensures SM.Keep(items - {n}, Above(n)) == Below(items, n)
  {
  }

  /** The least nonce of a non-empty list. */
  method Lowest(removed: seq<Tx>) returns (lowest: nat)
    requires removed != [] && forall i | 0 <= i < |removed| :: removed[i].nonce <= MAX_UINT64
    ensures Least(Elems(Of(removed)), lowest)
  {
    lowest := MAX_UINT64;
    for i := 0 to |removed|
      invariant forall j | 0 <= j < i :: lowest <= removed[j].nonce
      invariant lowest == MAX_UINT64 || lowest in Elems(Of(removed))
    {
      if lowest > removed[i].nonce {
        lowest := removed[i].nonce;
        ElemAt(Of(removed), i);
      }
    }
    ElemAt(Of(removed), 0);
  }

  /** The low 64 bits, as a signed number. */
  function Int64(x: int): int {
    (x + 0x8000_0000_0000_0000) % 0x1_0000_0000_0000_0000 - 0x8000_0000_0000_0000
  }

  /** What an old price is multiplied by, in percent, computed in signed 64-bit arithmetic. */
  function Percent(priceBump: nat): int { Int64(100 + Int64(priceBump)) }

  /** Whether `tx` may take the place of `prev`: by nonce alone between signer transactions, otherwise with
      a fee cap and a tip that are both higher and higher by the required percentage. */
  predicate Outbids(prev: Tx, tx: Tx, priceBump: nat) {
    || (prev.inner.txType == SignerTx && tx.inner.txType == SignerTx)
    || (&& prev.inner.feeCap < tx.inner.feeCap && prev.inner.tipCap < tx.inner.tipCap
        && tx.inner.feeCap >= Percent(priceBump) * prev.inner.feeCap / 100
        && tx.inner.tipCap >= Percent(priceBump) * prev.inner.tipCap / 100)
  }

  /** The factor is the intended one exactly if it fits. */
  lemma PercentExact(priceBump: nat)
    requires priceBump <= MAX_UINT64
    ensures Percent(priceBump) == 100 + priceBump <==> priceBump + 100 < 0x8000_0000_0000_0000
    ensures priceBump + 100 >= 0x8000_0000_0000_0000 ==> Percent(priceBump) < 100
  {
  }

  /** Both prices are up by the required percentage, rounded down. */
  predicate Bumped(prev: Tx, tx: Tx, priceBump: nat) {
    && tx.inner.feeCap >= (100 + priceBump) * prev.inner.feeCap / 100
    && tx.inner.tipCap >= (100 + priceBump) * prev.inner.tipCap / 100
  }

  /** Every replacement that is accepted for its price pays the required percentage more. */
  ghost predicate BumpEnforced(priceBump: nat) {
    forall prev: Tx, tx: Tx | !(prev.inner.txType == SignerTx && tx.inner.txType == SignerTx)
        && Outbids(prev, tx, priceBump) ::
      Bumped(prev, tx, priceBump)
  }

  /** This holds exactly if the percentage fits into 63 bits. */
  lemma BumpExact(priceBump: nat)
    requires priceBump <= MAX_UINT64
    ensures BumpEnforced(priceBump) <==> priceBump + 100 < 0x8000_0000_0000_0000
  {
    PercentExact(priceBump);
    if priceBump + 100 >= 0x8000_0000_0000_0000 {
      BumpIgnored(priceBump);
    }
  }

  function Priced(price: nat): Tx {
    Tx(0, 0, TxData(0, OtherTx, 0, 0, 0, price, price, 1, None))
  }

  /** Beyond that a price of 2 replaces a price of 1. */
  lemma BumpIgnored(priceBump: nat)
    requires 0x8000_0000_0000_0000 <= priceBump + 100 && priceBump <= MAX_UINT64
    ensures Outbids(Priced(1), Priced(2), priceBump) && !Bumped(Priced(1), Priced(2), priceBump)
            && !BumpEnforced(priceBump)
  {
    PercentExact(priceBump);
    assert Outbids(Priced(1), Priced(2), priceBump);
  }

  class TxList {
    const strict: bool
    const txs: SM.SortedMap
    var costcap: nat
    var gascap: nat

    ghost predicate Valid()
      reads this, txs
    {
      txs.Valid() && Within(txs.items, costcap, gascap)
    }

    constructor (strict: bool)
      ensures Valid() && fresh(txs) && txs.items == map[] && this.strict == strict
    {
      this.strict := strict;
      txs := new SM.SortedMap();
      costcap, gascap := 0, 0;
    }

    method Overlaps(tx: Tx) returns (r: bool)
      ensures r == (tx.nonce in txs.items)
    {
      var prev := txs.Get(tx.nonce);
      r := prev.Some?;
    }

    /** Insert, or replace if the newcomer outbids. */
    method Add(tx: Tx, priceBump: nat) returns (ok: bool, replaced: Option<Tx>)
      requires Valid() && tx.nonce <= MAX_UINT64
      modifies this, txs
      ensures Valid()
      ensures ok <==> tx.nonce !in old(txs.items) || Outbids(old(txs.items)[tx.nonce], tx, priceBump)
      ensures tx.nonce in old(txs.items) && priceBump + 100 < 0x8000_0000_0000_0000 ==>
                var prev := old(txs.items)[tx.nonce];
                ok <==> (prev.inner.txType == SignerTx && tx.inner.txType == SignerTx)
                        || (prev.inner.feeCap < tx.inner.feeCap && prev.inner.tipCap < tx.inner.tipCap
                            && Bumped(prev, tx, priceBump))
      ensures ok ==> txs.items == old(txs.items)[tx.nonce := tx]
      ensures !ok ==> txs.items == old(txs.items) && costcap == old(costcap) && gascap == old(gascap)
      ensures replaced == if ok && tx.nonce in old(txs.items) then Some(old(txs.items)[tx.nonce]) else None
    {
      if priceBump + 100 < 0x8000_0000_0000_0000 { PercentExact(priceBump); }
      var prev := txs.Get(tx.nonce);
      if prev.Some? && !Outbids(prev.value, tx, priceBump) {
        return false, None;
      }
      txs.Put(tx);
      costcap, gascap := Max(costcap, Cost(tx)), Max(gascap, tx.inner.gas);
      return true, prev;
    }

    method Forward(threshold: nat) returns (removed: seq<Tx>)
      requires Valid()
      modifies txs
      ensures Valid() && txs.items == From(old(txs.items), threshold)
      ensures Listing(Below(old(txs.items), threshold), removed)
      ensures GapFree(old(txs.items).Keys) ==> GapFree(txs.items.Keys)
    {
      ghost var was := txs.items;
      removed := txs.Forward(threshold);
      if GapFree(was.Keys) { BelowGapFree(was, threshold); }
    }

    /** Drop the transactions over the limits and, in strict mode, everything behind the first of them. */
    method Filter(costLimit: nat, gasLimit: nat) returns (removed: seq<Tx>, invalids: seq<Tx>)
      requires Valid()
      modifies this, txs
      ensures Valid() && txs.items == Filtered(old(txs.items), OverLimit(costLimit, gasLimit), strict)
      ensures Dropped(old(txs.items), SM.Keep(old(txs.items), OverLimit(costLimit, gasLimit)), removed)
      ensures Dropped(SM.Keep(old(txs.items), OverLimit(costLimit, gasLimit)), txs.items, invalids)
      ensures Within(txs.items, costLimit, gasLimit)
      ensures strict && GapFree(old(txs.items).Keys) ==> GapFree(txs.items.Keys)
    {
      ghost var was, drop := txs.items, OverLimit(costLimit, gasLimit);
      if costcap <= costLimit && gascap <= gasLimit {
        CapsCover(was, costcap, gascap, costLimit, gasLimit, strict);
        DroppedNothing(was);
        return [], [];
      }
      costcap, gascap := costLimit, gasLimit;
      removed, invalids := FilterBy(OverLimit(costLimit, gasLimit));
      assert Within(txs.items, costLimit, gasLimit);
      if GapFree(was.Keys) { FilteredGapFree(was, drop); }
    }

    /** Drop what is selected and, in strict mode, everything behind the first of it. */
    method FilterBy(drop: Tx -> bool) returns (removed: seq<Tx>, invalids: seq<Tx>)
      requires txs.Valid()
      modifies txs
      ensures txs.Valid() && txs.items == Filtered(old(txs.items), drop, strict)
      ensures Dropped(old(txs.items), SM.Keep(old(txs.items), drop), removed)
      ensures Dropped(SM.Keep(old(txs.items), drop), txs.items, invalids)
    {
      ghost var was := txs.items;
      removed := txs.Filter(drop);
      DroppedNothing(txs.items);
      if |removed| == 0 {
        NothingDropped(was, drop, removed);
        return [], [];
      }
      if strict {
        invalids := DropBehind(removed, was, drop);
      } else {
        invalids := [];
        txs.Reheap();
      }
    }

    /** Drop everything behind the lowest of the removed transactions. */
    method DropBehind(removed: seq<Tx>, ghost was: Items, ghost drop: Tx -> bool) returns (invalids: seq<Tx>)
      requires txs.Valid() && Keyed(was) && removed != []
      requires txs.items == SM.Keep(was, drop) && Dropped(was, txs.items, removed)
      modifies txs
      ensures txs.Valid() && txs.items == KeepPrefix(was, drop) && Dropped(old(txs.items), txs.items, invalids)
    {
      var lowest := Lowest(removed);
      PrefixIs(was, drop, removed, lowest);
      invalids := txs.FilterOnly(Above(lowest));
      txs.Reheap();
    }

    method Cap(threshold: nat) returns (drops: seq<Tx>)
      requires Valid()
      modifies txs
      ensures Valid() && SM.Capped(old(txs.items), txs.items, drops, threshold)
      ensures GapFree(old(txs.items).Keys) ==> GapFree(txs.items.Keys)
    {
      ghost var was := txs.items;
      drops := txs.Cap(threshold);
      WithinSubmap(txs.items, was, costcap, gascap);
      if GapFree(was.Keys) { CappedGapFree(was, txs.items, drops, threshold); }
    }

    /** Remove one nonce and, in strict mode, everything above it. */
    method Remove(tx: Tx) returns (ok: bool, invalids: seq<Tx>)
      requires Valid()
      modifies txs
      ensures Valid() && ok == (tx.nonce in old(txs.items))
      ensures txs.items == Without(old(txs.items), tx.nonce, strict)
      ensures Dropped(old(txs.items) - {tx.nonce}, txs.items, invalids)
      ensures strict && GapFree(old(txs.items).Keys) ==> GapFree(txs.items.Keys)
    {
      ghost var was := txs.items;
      ok := txs.Remove(tx.nonce);
      DroppedNothing(txs.items);
      invalids := [];
      if ok && strict {
        invalids := txs.Filter(Above(tx.nonce));
        CutAbove(was, tx.nonce);
        if GapFree(was.Keys) { BelowGapFree(was, tx.nonce); }
      } else if strict {
        assert txs.items == was;
      }
      WithinSubmap(txs.items, was, costcap, gascap);
    }
  }

  /** What the sender, or the sponsor, cannot pay for, or what no block can hold. */
  function Unpayable(balance: Addr -> nat, maxGas: nat, addr: Addr): Tx -> bool {
    (tx: Tx) =>
      || tx.inner.gas > maxGas
      || (if tx.inner.sponsor.Some? then
            balance(tx.inner.sponsor.value.addr) < tx.inner.price * tx.inner.gas || balance(addr) < tx.inner.value
          else Cost(tx) > balance(addr))
  }

  /** A block can hold it and its payers have what it costs: the sponsor the gas and the sender the value, or the sender
      both. */
  ghost predicate CanPay(balance: Addr -> nat, maxGas: nat, addr: Addr, tx: Tx) {
    && tx.inner.gas <= maxGas
    && match tx.inner.sponsor
       case None => tx.inner.price * tx.inner.gas + tx.inner.value <= balance(addr)
       case Some(sponsor) => tx.inner.price * tx.inner.gas <= balance(sponsor.addr) && tx.inner.value <= balance(addr)
  }

  lemma PaidOrNot(balance: Addr -> nat, maxGas: nat, addr: Addr, tx: Tx)
    ensures Unpayable(balance, maxGas, addr)(tx) <==> !CanPay(balance, maxGas, addr, tx)
  {
  }

  /** What is kept can be paid for, and what is dropped for its own sake cannot. */
  lemma PayableKept(was: Items, balance: Addr -> nat, maxGas: nat, addr: Addr, strict: bool, removed: seq<Tx>)
    requires Dropped(was, SM.Keep(was, Unpayable(balance, maxGas, addr)), removed)
    ensures var kept := Filtered(was, Unpayable(balance, maxGas, addr), strict);
            forall n | n in kept :: CanPay(balance, maxGas, addr, kept[n])
    ensures forall tx | tx in removed :: !CanPay(balance, maxGas, addr, tx)
  {
    forall n | n in was ensures Unpayable(balance, maxGas, addr)(was[n]) <==> !CanPay(balance, maxGas, addr, was[n]) {
      PaidOrNot(balance, maxGas, addr, was[n]);
    }
    forall i | 0 <= i < |removed| ensures !CanPay(balance, maxGas, addr, removed[i]) {
      ElemAt(Of(removed), i);
      assert removed[i].nonce !in SM.Keep(was, Unpayable(balance, maxGas, addr));
    }
  }

  ghost predicate NoSponsored(items: Items) {
    forall n | n in items :: items[n].inner.sponsor.None?
  }

  lemma FilteredAgree(items: Items, a: Tx -> bool, b: Tx -> bool, strict: bool)
    requires forall n | n in items :: a(items[n]) == b(items[n])
    ensures SM.Keep(items, a) == SM.Keep(items, b) && Filtered(items, a, strict) == Filtered(items, b, strict)
  {
    forall n | n in items ensures AllPass(items, a, n) == AllPass(items, b, n) {
    }
  }

  method AnySponsored(items: Items) returns (r: bool)
    ensures r == !NoSponsored(items)
  {
    var todo := items.Keys;
    while todo != {}
      invariant todo <= items.Keys
      invariant forall n | n in items && n !in todo :: items[n].inner.sponsor.None?
    {
      var n :| n in todo;
      if items[n].inner.sponsor.Some? {
        return true;
      }
      todo := todo - {n};
    }
    return false;
  }

  /** Drop what nobody can pay for: the cached caps decide only when no transaction is sponsored, and the
      outcome is that of the full scan either way. */
  method FilterUnpayable(balance: Addr -> nat, maxGas: nat, addr: Addr, list: TxList)
    returns (removed: seq<Tx>, invalids: seq<Tx>)
    requires list.Valid()
    modifies list, list.txs
    ensures list.Valid()
    ensures list.txs.items == Filtered(old(list.txs.items), Unpayable(balance, maxGas, addr), list.strict)
    ensures Dropped(old(list.txs.items), SM.Keep(old(list.txs.items), Unpayable(balance, maxGas, addr)), removed)
    ensures Dropped(SM.Keep(old(list.txs.items), Unpayable(balance, maxGas, addr)), list.txs.items, invalids)
    ensures forall n | n in list.txs.items :: CanPay(balance, maxGas, addr, list.txs.items[n])
    ensures forall tx | tx in removed :: !CanPay(balance, maxGas, addr, tx)
    ensures list.strict && GapFree(old(list.txs.items).Keys) ==> GapFree(list.txs.items.Keys)
  {
    ghost var was := list.txs.items;
    var hasSponsored := AnySponsored(list.txs.items);
    if !hasSponsored {
      FilteredAgree(was, OverLimit(balance(addr), maxGas), Unpayable(balance, maxGas, addr), list.strict);
      removed, invalids := list.Filter(balance(addr), maxGas);
    } else {
      removed, invalids := list.FilterBy(Unpayable(balance, maxGas, addr));
      WithinSubmap(list.txs.items, was, list.costcap, list.gascap);
    }
    PayableKept(was, balance, maxGas, addr, list.strict, removed);
    if GapFree(was.Keys) { FilteredGapFree(was, Unpayable(balance, maxGas, addr)); }
  }

  lemma NothingDropped(was: Items, drop: Tx -> bool, removed: seq<Tx>)
    requires Dropped(was, SM.Keep(was, drop), removed) && |removed| == 0
    ensures SM.Keep(was, drop) == was && KeepPrefix(was, drop) == was
  {
    var kept := SM.Keep(was, drop);
    assert Elems(Of(removed)) == {};
    assert kept.Keys == was.Keys;
  }
}

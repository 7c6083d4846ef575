/** Pool transactions, and nonce-indexed collections of them. */
module Txs {
  import opened Util
  import opened Nonces

  type Addr = nat

  /** Privacy transactions take their nonce from a separate counter. */
  datatype TxType = SignerTx | PrivTransferTx | ShieldTx | UnshieldTx | OtherTx

  datatype Sponsor = Sponsor(addr: Addr, nonce: nat)

  /** `value` is transferred; `price * gas` is paid by the sponsor if there is one. */
  datatype TxData = TxData(from: Addr, txType: TxType, gas: nat, price: nat, value: nat,
                           feeCap: nat, tipCap: nat, slots: nat, sponsor: Option<Sponsor>)

  datatype Tx = Tx(hash: nat, nonce: nat, inner: TxData)

  function Cost(tx: Tx): nat { tx.inner.price * tx.inner.gas + tx.inner.value }

  /** Transactions by nonce. */
  type Items = map<nat, Tx>

  /** Every entry is filed under its own nonce, a 64-bit number. */
  ghost predicate Keyed(items: Items) {
    forall n | n in items :: items[n].nonce == n && n <= MAX_UINT64
  }

  /** The nonces of a list of transactions. */
  ghost function Of(s: seq<Tx>): (ns: seq<nat>)
    ensures |ns| == |s|
  {
    seq(|s|, i requires 0 <= i < |s| => s[i].nonce)
  }

  /** Every transaction of `s` is the entry for its nonce. */
  ghost predicate Members(items: Items, s: seq<Tx>) {
    forall i | 0 <= i < |s| :: s[i].nonce in items && items[s[i].nonce] == s[i]
  }

  /** `s` is all of `items`, once each, in order of nonces. */
  ghost predicate Listing(items: Items, s: seq<Tx>) {
    Members(items, s) && Lists(items.Keys, Of(s))
  }

  ghost predicate Submap(small: Items, big: Items) {
    forall n | n in small :: n in big && big[n] == small[n]
  }

  /** `r` holds, once each, exactly the transactions of `was` that are not in `kept`. */
  ghost predicate Dropped(was: Items, kept: Items, r: seq<Tx>) {
    Submap(kept, was) && Members(was, r) && Removes(was.Keys, kept.Keys, Of(r))
  }

  lemma OfPush(s: seq<Tx>, tx: Tx)
    ensures Of(s + [tx]) == Of(s) + [tx.nonce]
  {
  }

  lemma OfTake(s: seq<Tx>, k: nat)
    requires k <= |s|
    ensures Of(s[..k]) == Of(s)[..k] && Of(s[k..]) == Of(s)[k..]
  {
  }

  lemma MembersPush(items: Items, s: seq<Tx>, tx: Tx)
    requires Members(items, s) && tx.nonce in items && items[tx.nonce] == tx
    ensures Members(items, s + [tx])
  {
  }

  lemma MembersNonces(items: Items, s: seq<Tx>)
    requires Members(items, s)
    ensures Elems(Of(s)) <= items.Keys
  {
  }

  lemma DroppedNothing(was: Items)
    ensures Dropped(was, was, [])
  {
  }

  lemma DroppedMore(was: Items, kept: Items, r: seq<Tx>, tx: Tx)
    requires Dropped(was, kept, r) && tx.nonce in kept && kept[tx.nonce] == tx
    ensures Dropped(was, kept - {tx.nonce}, r + [tx])
  {
    var less := kept - {tx.nonce};
    assert less.Keys == kept.Keys - {tx.nonce};
    OfPush(r, tx);
    MembersPush(was, r, tx);
    RemovesMore(was.Keys, kept.Keys, Of(r), tx.nonce);
  }

  /** What is kept is decided by which nonces are kept. */
  lemma SubmapIs(small: Items, big: Items, other: Items)
    requires Submap(small, big) && Submap(other, big) && small.Keys == other.Keys
    ensures small == other
  {
  }

  /** The least nonce is at the front. */
  lemma ListingFront(items: Items, s: seq<Tx>, m: nat)
    requires Listing(items, s) && Least(items.Keys, m)
    ensures s != [] && s[0] == items[m] && Listing(items - {m}, s[1..])
  {
    ListsFront(items.Keys, Of(s), m);
    OfTake(s, 1);
    ListingRest(items, s, m, s[1..]);
  }

  /** The greatest nonce is at the back. */
  lemma ListingBack(items: Items, s: seq<Tx>, m: nat)
    requires Listing(items, s) && Greatest(items.Keys, m)
    ensures s != [] && s[|s| - 1] == items[m] && Listing(items - {m}, s[..|s| - 1])
  {
    ListsBack(items.Keys, Of(s), m);
    OfTake(s, |s| - 1);
    ListingRest(items, s, m, s[..|s| - 1]);
  }

  lemma ListingRest(items: Items, s: seq<Tx>, m: nat, t: seq<Tx>)
    requires Members(items, s) && Lists(items.Keys - {m}, Of(t))
    requires t <= s || (s != [] && t == s[1..])
    ensures Listing(items - {m}, t)
  {
    var rest := items - {m};
    assert rest.Keys == items.Keys - {m};
    forall i | 0 <= i < |t| ensures t[i].nonce in rest && rest[t[i].nonce] == t[i] {
      assert Of(t)[i] in Elems(Of(t));
    }
  }

  /** There is only one listing. */
  lemma ListingUnique(items: Items, s: seq<Tx>, t: seq<Tx>)
    requires Listing(items, s) && Listing(items, t)
    ensures s == t
  {
    ListsUnique(items.Keys, Of(s), Of(t));
    forall i | 0 <= i < |s| ensures s[i] == t[i] {
      assert Of(s)[i] == Of(t)[i];
    }
  }

  /** The transactions with nonce below `n`. */
  function Below(items: Items, n: nat): Items {
    map k | k in items && k < n :: items[k]
  }

  /** The transactions with nonce `n` or above. */
  function From(items: Items, n: nat): Items {
    map k | k in items && k >= n :: items[k]
  }

  /** `r` is the unbroken run of `items` that starts at nonce `n`. */
  ghost predicate IsRun(items: Items, n: nat, r: seq<Tx>) {
    Members(items, r) && RunOf(items.Keys, n, Of(r))
  }
}

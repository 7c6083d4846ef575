/** The canonical block chain: reorganisation in place, head writes, fork choice and
    the finality guard. */
module Blockchain {
  import opened Util
  import opened BlockTree
  import opened ForkChoice
  import opened ChainRuns

  /** All transactions of a list of blocks, in order. */
  function FlatTxs(chain: seq<Block>): seq<TxHash> {
    if chain == [] then [] else FlatTxs(chain[..|chain| - 1]) + chain[|chain| - 1].txs
  }

  lemma FlatTxsPush(chain: seq<Block>, b: Block)
    ensures FlatTxs(chain + [b]) == FlatTxs(chain) + b.txs
  {
    assert (chain + [b])[..|chain|] == chain;
  }

  lemma {:induction false} FlatTxsMember(chain: seq<Block>, t: TxHash)
    ensures t in FlatTxs(chain) <==> exists i :: 0 <= i < |chain| && t in chain[i].txs
  {
    if chain != [] {
      var front := chain[..|chain| - 1];
      FlatTxsMember(front, t);
      assert forall i | 0 <= i < |front| :: front[i] == chain[i];
    }
  }

  /** `chain` lists the ancestors of `top`, itself first, down to just above height `k`. */
  ghost predicate Segment(s: Store, top: Block, chain: seq<Block>, k: nat) {
    && |chain| + k == top.number
    && forall i | 0 <= i < |chain| :: AncestorAt(s, top, top.number - i) == Some(chain[i])
  }

  /** The transactions of a segment are those of the heights it covers. */
  lemma SegmentTxs(s: Store, top: Block, chain: seq<Block>, k: nat, t: TxHash)
    requires Segment(s, top, chain, k)
    ensures t in FlatTxs(chain) <==> IncludedWithin(s, top, k, top.number, t)
  {
    FlatTxsMember(chain, t);
    if i :| 0 <= i < |chain| && t in chain[i].txs {
      assert Includes(s, top, top.number - i, t);
    }
    if n: nat :| k < n <= top.number && Includes(s, top, n, t) {
      assert AncestorAt(s, top, top.number - (top.number - n)) == Some(chain[top.number - n]);
    }
  }

  lemma NoAncestorBelow(s: Store, b: Block, n: nat, m: nat)
    requires m <= n <= b.number && AncestorAt(s, b, n).None?
    ensures AncestorAt(s, b, m).None?
  {
    if AncestorAt(s, b, m).Some? { AncestorMonotone(s, b, m, n); }
  }

  /** A gap on either side at height `n` rules out every meeting point at or below it. */
  lemma NoMeetAtGap(s: Store, a: Block, b: Block, n: nat)
    requires n <= a.number && n <= b.number
    requires AncestorAt(s, a, n).None? || AncestorAt(s, b, n).None?
    ensures forall m: nat | m <= n :: !Meet(s, a, b, m)
  {
    forall m: nat | m <= n ensures !Meet(s, a, b, m) {
      if AncestorAt(s, a, n).None? { NoAncestorBelow(s, a, n, m); } else { NoAncestorBelow(s, b, n, m); }
    }
  }

  /** Lookup entries of one block, newest entry winning. */
  function RecordTxs(lookup: map<TxHash, nat>, b: Block): map<TxHash, nat> {
    lookup + map t | t in b.txs :: b.number
  }

  /** Writing the head entry completes an index that is right below the head. */
  lemma IndexPush(s: Store, b: Block, canon: map<nat, Hash>, top: nat)
    requires IndexUpTo(s, b, canon, top) && b.number <= top <= b.number + 1
    ensures IndexExact(s, b, canon[b.number := b.hash])
  {
  }

  lemma LookupPush(s: Store, b: Block, lookup: map<TxHash, nat>, top: nat)
    requires LookupUpTo(s, b, lookup, top) && b.number <= top <= b.number + 1
    requires NoRepeats(s, b)
    ensures LookupExact(s, b, RecordTxs(lookup, b))
  {
    var r := RecordTxs(lookup, b);
    forall n: nat, t | n < b.number + 1 && Includes(s, b, n, t)
      ensures t in r && r[t] == n
    {
      if t in b.txs {
        assert Includes(s, b, b.number, t);
      }
    }
  }

  /** A block on top of the head inherits its indexes unchanged. */
  lemma ExtendsHead(s: Store, head: Block, b: Block, canon: map<nat, Hash>, lookup: map<TxHash, nat>)
    requires Keyed(s) && Stored(s, head) && Stored(s, b) && b.parentHash == head.hash && b.number == head.number + 1
    requires IndexExact(s, head, canon)
    ensures IndexUpTo(s, b, canon, b.number)
    ensures LookupExact(s, head, lookup) ==> LookupUpTo(s, b, lookup, b.number)
  {
    assert Parent(s, b) == Some(head);
    assert forall n: nat | n <= head.number :: AncestorAt(s, b, n) == AncestorAt(s, head, n);
    assert forall n: nat, t | n <= head.number :: Includes(s, b, n, t) == Includes(s, head, n, t);
  }

  lemma GenesisIndexes(g: Block)
    requires g.number == 0
    ensures IndexExact(map[g.hash := g], g, map[0 := g.hash])
    ensures LookupExact(map[g.hash := g], g, RecordTxs(map[], g))
  {
    assert AncestorAt(map[g.hash := g], g, 0) == Some(g);
  }

  /** A lookup can be exact only over a chain without repeated transactions. */
  lemma LookupExactNoRepeats(s: Store, b: Block, lookup: map<TxHash, nat>)
    requires LookupExact(s, b, lookup)
    ensures NoRepeats(s, b)
  {
    forall n: nat, m: nat, t | Includes(s, b, n, t) && Includes(s, b, m, t) ensures n == m {
      assert n <= b.number && m <= b.number;
    }
  }

  /** The height up to which `Reorg` fills the index: the new head itself is left to the
      caller, except when the chain is only rewound to one of its own blocks. */
  function ReorgTop(s: Store, old0: Block, new0: Block): nat {
    if AncestorAt(s, old0, new0.number) == Some(new0) then new0.number + 1 else new0.number
  }

  /** The lookup after the database batch: entries of the rewritten blocks up to `last`, and of
      the old lookup everything not dropped with the abandoned blocks. */
  ghost predicate LookupRewrittenAt(s: Store, old0: Block, new0: Block, k: nat, last: nat,
                                    before: map<TxHash, nat>, after: map<TxHash, nat>, t: TxHash)
  {
    if IncludedWithin(s, new0, k, last, t)
    then t in after && k < after[t] <= last && Includes(s, new0, after[t], t)
    else (t in after <==> t in before && !IncludedWithin(s, old0, k, old0.number, t))
         && (t in after ==> after[t] == before[t])
  }

  lemma LookupAfterReorg(s: Store, old0: Block, new0: Block, k: nat, last: nat,
                         before: map<TxHash, nat>, after: map<TxHash, nat>)
    requires Meet(s, old0, new0, k) && k <= last <= new0.number
    requires LookupExact(s, old0, before) && NoRepeats(s, new0)
    requires forall t :: LookupRewrittenAt(s, old0, new0, k, last, before, after, t)
    ensures LookupUpTo(s, new0, after, last + 1)
  {
    forall n: nat, t | n <= k ensures Includes(s, old0, n, t) == Includes(s, new0, n, t) {
      MeetBelow(s, old0, new0, k, n);
    }
    forall t | t in after ensures after[t] < last + 1 && Includes(s, new0, after[t], t) {
      assert LookupRewrittenAt(s, old0, new0, k, last, before, after, t);
      if !IncludedWithin(s, new0, k, last, t) {
        assert Includes(s, old0, before[t], t);
        assert before[t] <= k;
      }
    }
    forall n: nat, t | n < last + 1 && Includes(s, new0, n, t) ensures t in after && after[t] == n {
      assert LookupRewrittenAt(s, old0, new0, k, last, before, after, t);
      if n <= k {
        SharedTxKept(s, old0, new0, k, last, before, n, t);
      } else {
        assert IncludedWithin(s, new0, k, last, t);
      }
    }
  }

  /** A transaction at or below the fork point is neither dropped nor rewritten. */
  lemma SharedTxKept(s: Store, old0: Block, new0: Block, k: nat, last: nat, before: map<TxHash, nat>, n: nat, t: TxHash)
    requires Meet(s, old0, new0, k) && n <= k <= last
    requires LookupExact(s, old0, before) && NoRepeats(s, new0)
    requires Includes(s, new0, n, t)
    ensures t in before && before[t] == n
    ensures !IncludedWithin(s, new0, k, last, t) && !IncludedWithin(s, old0, k, old0.number, t)
  {
    MeetBelow(s, old0, new0, k, n);
    assert Includes(s, old0, n, t);
  }

  /** Part way through rewriting: heights up to `last` follow the new chain, and stale
      entries of the old chain may remain above. */
  ghost predicate IndexRewritten(s: Store, old0: Block, new0: Block, canon: map<nat, Hash>, last: nat) {
    && (forall n: nat :: n in canon <==> n <= Max(old0.number, last))
    && (forall n: nat | n <= last :: AncestorAt(s, new0, n).Some? && canon[n] == AncestorAt(s, new0, n).value.hash)
  }

  lemma IndexAtFork(s: Store, old0: Block, new0: Block, canon: map<nat, Hash>, k: nat)
    requires IndexExact(s, old0, canon) && Meet(s, old0, new0, k) && k <= old0.number
    ensures IndexRewritten(s, old0, new0, canon, k)
  {
    forall n: nat | n <= k ensures AncestorAt(s, new0, n) == AncestorAt(s, old0, n) && n in canon {
      MeetBelow(s, old0, new0, k, n);
    }
  }

  /** The index, the lookup and the transactions after `WriteHeadBlock` on the blocks of `chain`
      from its last down to position `j`. */
  function WrittenIndex(canon: map<nat, Hash>, chain: seq<Block>, j: nat): map<nat, Hash>
    decreases |chain| - j
  {
    if j >= |chain| then canon else WrittenIndex(canon, chain, j + 1)[chain[j].number := chain[j].hash]
  }

  function WrittenLookup(lookup: map<TxHash, nat>, chain: seq<Block>, j: nat): map<TxHash, nat>
    decreases |chain| - j
  {
    if j >= |chain| then lookup else RecordTxs(WrittenLookup(lookup, chain, j + 1), chain[j])
  }

  function WrittenTxs(chain: seq<Block>, j: nat): seq<TxHash>
    decreases |chain| - j
  {
    if j >= |chain| then [] else WrittenTxs(chain, j + 1) + chain[j].txs
  }

  lemma {:induction false} WrittenIndexFollows(s: Store, old0: Block, new0: Block, k: nat, chain: seq<Block>, j: nat,
                                               canon: map<nat, Hash>)
    requires Keyed(s) && Stored(s, new0) && Segment(s, new0, chain, k) && j <= |chain|
    requires IndexRewritten(s, old0, new0, canon, k)
    ensures IndexRewritten(s, old0, new0, WrittenIndex(canon, chain, j), new0.number - j)
    decreases |chain| - j
  {
    if j < |chain| {
      WrittenIndexFollows(s, old0, new0, k, chain, j + 1, canon);
      AncestorIsStored(s, new0, new0.number - j);
    }
  }

  lemma {:induction false} WrittenLookupAt(lookup: map<TxHash, nat>, chain: seq<Block>, j: nat, t: TxHash)
    ensures var w := WrittenLookup(lookup, chain, j);
            if t in WrittenTxs(chain, j) then t in w && exists i ::
                j <= i < |chain| && t in chain[i].txs && w[t] == chain[i].number
            else (t in w <==> t in lookup) && (t in w ==> w[t] == lookup[t])
    ensures t !in WrittenTxs(chain, j) ==> forall i | j <= i < |chain| :: t !in chain[i].txs
    decreases |chain| - j
  {
    if j < |chain| {
      WrittenLookupAt(lookup, chain, j + 1, t);
    }
  }

  /** The lookup once the abandoned transactions are deleted from the rewritten one. */
  function PrunedLookup(lookup: map<TxHash, nat>, deleted: seq<TxHash>, added: seq<TxHash>): map<TxHash, nat> {
    lookup - set t | t in deleted && t !in added
  }

  /** Position of a height in a segment. */
  lemma SegmentAt(s: Store, top: Block, chain: seq<Block>, k: nat, n: nat)
    requires Segment(s, top, chain, k) && k < n <= top.number
    ensures AncestorAt(s, top, n) == Some(chain[top.number - n])
  {
    assert top.number - (top.number - n) == n;
  }

  lemma PrunedLookupAt(s: Store, old0: Block, new0: Block, k: nat, oldChain: seq<Block>, newChain: seq<Block>, j: nat,
                       before: map<TxHash, nat>, t: TxHash)
    requires Keyed(s) && Stored(s, new0) && j <= |newChain|
    requires Segment(s, old0, oldChain, k) && Segment(s, new0, newChain, k)
    ensures var after := PrunedLookup(WrittenLookup(before, newChain, j), FlatTxs(oldChain), WrittenTxs(newChain, j));
            LookupRewrittenAt(s, old0, new0, k, new0.number - j, before, after, t)
  {
    WrittenLookupAt(before, newChain, j, t);
    SegmentTxs(s, old0, oldChain, k, t);
    var w := WrittenLookup(before, newChain, j);
    if t in WrittenTxs(newChain, j) {
      var i :| j <= i < |newChain| && t in newChain[i].txs && w[t] == newChain[i].number;
      AncestorIsStored(s, new0, new0.number - i);
      assert Includes(s, new0, new0.number - i, t);
    } else if n: nat :| k < n <= new0.number - j && Includes(s, new0, n, t) {
      SegmentAt(s, new0, newChain, k, n);
      assert false;
    }
  }

  /** The chains of `old0` and `new0` last meet at height `k`; `newChain` lists the new side, and
      `last` is the highest block on it that is not the new head. */
  ghost predicate Forked(s: Store, old0: Block, new0: Block, k: nat, newChain: seq<Block>, last: nat) {
    && Keyed(s) && Stored(s, old0) && Stored(s, new0)
    && Meet(s, old0, new0, k) && k <= old0.number
    && (forall n: nat | n > k :: !Meet(s, old0, new0, n))
    && Segment(s, new0, newChain, k)
    && last == if newChain == [] then k else new0.number - 1
  }

  /** Nothing is left for the caller to write exactly when the new side is empty. */
  lemma ReorgTopIs(s: Store, old0: Block, new0: Block, newChain: seq<Block>, k: nat)
    requires Keyed(s) && Stored(s, old0) && Stored(s, new0)
    requires Meet(s, old0, new0, k) && Segment(s, new0, newChain, k)
    requires forall n: nat | n > k :: !Meet(s, old0, new0, n)
    ensures ReorgTop(s, old0, new0) == if newChain == [] then k + 1 else new0.number
  {
    if newChain != [] {
      assert !Meet(s, old0, new0, new0.number);
    }
  }

  /** The index after rewriting and pruning follows the new chain. */
  lemma ReorgedIndex(s: Store, old0: Block, new0: Block, k: nat, newChain: seq<Block>, canon: map<nat, Hash>, last: nat)
    requires Forked(s, old0, new0, k, newChain, last) && IndexExact(s, old0, canon)
    ensures var w := WrittenIndex(canon, newChain, 1);
            && (forall n: nat :: n in w <==> n <= Max(old0.number, last))
            && IndexUpTo(s, new0, w - (set n | n in w && n > last), ReorgTop(s, old0, new0))
  {
    ReorgTopIs(s, old0, new0, newChain, k);
    IndexAtFork(s, old0, new0, canon, k);
    WrittenIndexFollows(s, old0, new0, k, newChain, if newChain == [] then 0 else 1, canon);
  }

  /** The lookup after rewriting and pruning follows the new chain. */
  lemma ReorgedLookup(s: Store, old0: Block, new0: Block, k: nat, oldChain: seq<Block>, newChain: seq<Block>, last: nat,
                      before: map<TxHash, nat>)
    requires Forked(s, old0, new0, k, newChain, last) && Segment(s, old0, oldChain, k)
    requires LookupExact(s, old0, before) && NoRepeats(s, new0)
    ensures LookupUpTo(s, new0, PrunedLookup(WrittenLookup(before, newChain, 1), FlatTxs(oldChain),
                                             WrittenTxs(newChain, 1)),
                       ReorgTop(s, old0, new0))
  {
    ReorgTopIs(s, old0, new0, newChain, k);
    var after := PrunedLookup(WrittenLookup(before, newChain, 1), FlatTxs(oldChain), WrittenTxs(newChain, 1));
    forall t ensures LookupRewrittenAt(s, old0, new0, k, last, before, after, t) {
      PrunedLookupAt(s, old0, new0, k, oldChain, newChain, if newChain == [] then 0 else 1, before, t);
    }
    LookupAfterReorg(s, old0, new0, k, last, before, after);
  }

  /** The head markers: three hashes on disk and three blocks in memory. */
  datatype Heads = Heads(headHeaderHash: Hash, headFastHash: Hash, headBlockHash: Hash,
                         currentHeader: Block, currentFastBlock: Block, currentBlock: Block)

  /** All head markers name the same block. */
  function HeadsAt(b: Block): Heads {
    Heads(b.hash, b.hash, b.hash, b, b, b)
  }

  /** Steps back from `top` to height `number`, collecting the blocks passed and their transactions. */
  method StepDown(s: Store, top: Block, number: nat) returns (r: Option<Block>, chain: seq<Block>, txs: seq<TxHash>)
    requires Keyed(s) && Stored(s, top) && number <= top.number
    ensures r.Some? ==> r.value.number == number && AncestorAt(s, top, number) == r && Segment(s, top, chain, number)
    ensures r.None? ==> AncestorAt(s, top, number).None?
    ensures txs == FlatTxs(chain)
  {
    r, chain, txs := Some(top), [], [];
    while r.Some? && r.value.number != number
      invariant r.Some? ==> r.value.number >= number
      invariant r.Some? ==> AncestorAt(s, top, r.value.number) == r
      invariant r.Some? ==> Segment(s, top, chain, r.value.number)
      invariant r.None? ==> AncestorAt(s, top, number).None?
      invariant txs == FlatTxs(chain)
      decreases r.Some?, if r.Some? then r.value.number else 0
    {
      var b := r.value;
      FlatTxsPush(chain, b);
      AncestorStep(s, top, b.number);
      chain, txs := chain + [b], txs + b.txs;
      r := Parent(s, b);
      if r.None? { NoAncestorBelow(s, top, b.number - 1, number); }
    }
  }

  /** Two sides at one height, with what each has passed on the way. */
  ghost predicate Abreast(s: Store, old0: Block, new0: Block, o: Block, w: Block, oldChain: seq<Block>,
                          newChain: seq<Block>) {
    && o.number == w.number
    && AncestorAt(s, old0, o.number) == Some(o) && AncestorAt(s, new0, o.number) == Some(w)
    && Segment(s, old0, oldChain, o.number) && Segment(s, new0, newChain, o.number)
  }

  lemma AbreastStep(s: Store, old0: Block, new0: Block, o: Block, w: Block, oldChain: seq<Block>, newChain: seq<Block>)
    requires Keyed(s) && Stored(s, old0) && Stored(s, new0) && Abreast(s, old0, new0, o, w, oldChain, newChain)
             && o.number > 0
    ensures AncestorAt(s, old0, o.number - 1) == Parent(s, o) && AncestorAt(s, new0, o.number - 1) == Parent(s, w)
    ensures Parent(s, o).Some? && Parent(s, w).Some? ==>
              Abreast(s, old0, new0, Parent(s, o).value, Parent(s, w).value, oldChain + [o], newChain + [w])
  {
    AncestorStep(s, old0, o.number);
    AncestorStep(s, new0, o.number);
  }

  /** Steps both sides back until they meet or one runs out. */
  method StepTogether(s: Store, old0: Block, new0: Block, o0: Block, w0: Block, oldChain0: seq<Block>,
                      newChain0: seq<Block>,
                      deletedTxs0: seq<TxHash>)
    returns (ok: bool, common: Block, oldChain: seq<Block>, newChain: seq<Block>, deletedTxs: seq<TxHash>)
    requires Keyed(s) && Stored(s, old0) && Stored(s, new0) && Abreast(s, old0, new0, o0, w0, oldChain0, newChain0)
    requires deletedTxs0 == FlatTxs(oldChain0)
    requires forall n: nat | n > o0.number :: !Meet(s, old0, new0, n)
    ensures ok <==> Joined(s, old0, new0)
    ensures ok ==> Meet(s, old0, new0, common.number) && Abreast(s, old0, new0, common, common, oldChain, newChain)
    ensures ok ==> forall n: nat | n > common.number :: !Meet(s, old0, new0, n)
    ensures ok ==> deletedTxs == FlatTxs(oldChain)
  {
    oldChain, newChain, deletedTxs := oldChain0, newChain0, deletedTxs0;
    var o, w := o0, w0;
    while o.hash != w.hash
      invariant Abreast(s, old0, new0, o, w, oldChain, newChain) && deletedTxs == FlatTxs(oldChain)
      invariant forall n: nat | n > o.number :: !Meet(s, old0, new0, n)
      decreases o.number
    {
      common := o;
      FlatTxsPush(oldChain, o);
      if o.number > 0 { AbreastStep(s, old0, new0, o, w, oldChain, newChain); }
      oldChain, deletedTxs, newChain := oldChain + [o], deletedTxs + o.txs, newChain + [w];
      var po := Parent(s, o);
      if po.None? {
        if o.number > 0 { NoMeetAtGap(s, old0, new0, o.number - 1); }
        return false, common, oldChain, newChain, deletedTxs;
      }
      var pw := Parent(s, w);
      if pw.None? {
        NoMeetAtGap(s, old0, new0, o.number - 1);
        return false, common, oldChain, newChain, deletedTxs;
      }
      o, w := po.value, pw.value;
    }
    AncestorIsStored(s, old0, o.number);
    AncestorIsStored(s, new0, o.number);
    assert Meet(s, old0, new0, o.number);
    return true, o, oldChain, newChain, deletedTxs;
  }

  class BlockChain {
    const genesis: Hash
    var blocks: Store
    var td: map<Hash, nat>
    var canon: map<nat, Hash>
    var lookup: map<TxHash, nat>
    var heads: Heads
    var finalized: Option<Block>

    /** A chain holding only its genesis block. */
    constructor (g: Block)
      requires g.number == 0 && g.hash != ZERO
      ensures AsTree() == Genesis(g) && Consistent()
      ensures LookupExact(blocks, g, lookup)
    {
      genesis := g.hash;
      blocks := map[g.hash := g];
      td := map[g.hash := g.difficulty];
      canon := map[0 := g.hash];
      lookup := RecordTxs(map[], g);
      heads := HeadsAt(g);
      finalized := None;
      GenesisIndexes(g);
    }

    method WriteHeadBlock(block: Block)
      modifies this`canon, this`lookup, this`heads
      ensures canon == old(canon)[block.number := block.hash]
      ensures lookup == RecordTxs(old(lookup), block)
      ensures heads == HeadsAt(block)
    {
      canon := canon[block.number := block.hash];
      lookup := RecordTxs(lookup, block);
      heads := heads.(headHeaderHash := block.hash, headFastHash := block.hash, headBlockHash := block.hash);
      heads := heads.(currentHeader := block, currentFastBlock := block, currentBlock := block);
    }

    /** The first half of a reorganisation: bring both sides to one height, then step both
        back until they meet. */
    method FindFork(old0: Block, new0: Block)
      returns (ok: bool, common: Block, oldChain: seq<Block>, newChain: seq<Block>, deletedTxs: seq<TxHash>)
      requires Keyed(blocks) && Stored(blocks, old0) && Stored(blocks, new0)
      ensures ok <==> Joined(blocks, old0, new0)
      ensures ok ==> Meet(blocks, old0, new0, common.number) && AncestorAt(blocks, old0, common.number) == Some(common)
      ensures ok ==> forall n: nat | n > common.number :: !Meet(blocks, old0, new0, n)
      ensures ok ==> Segment(blocks, old0, oldChain, common.number) && Segment(blocks, new0, newChain, common.number)
      ensures ok ==> deletedTxs == FlatTxs(oldChain)
    {
      oldChain, newChain, deletedTxs, common := [], [], [], old0;
      var oldBlock, newBlock := Some(old0), Some(new0);
      if old0.number > new0.number {
        oldBlock, oldChain, deletedTxs := StepDown(blocks, old0, new0.number);
      } else {
        var passed;
        newBlock, newChain, passed := StepDown(blocks, new0, old0.number);
      }
      if oldBlock.None? {
        NoMeetAtGap(blocks, old0, new0, new0.number);
        return false, common, oldChain, newChain, deletedTxs;
      }
      if newBlock.None? {
        NoMeetAtGap(blocks, old0, new0, old0.number);
        return false, common, oldChain, newChain, deletedTxs;
      }
      ok, common, oldChain, newChain, deletedTxs := StepTogether(blocks, old0, new0, oldBlock.value, newBlock.value,
          oldChain, newChain, deletedTxs);
    }

    /** The second half: write the blocks of the new chain below its head, lowest first. */
    method RewriteBelowHead(newChain: seq<Block>) returns (addedTxs: seq<TxHash>)
      modifies this`canon, this`lookup, this`heads
      ensures canon == WrittenIndex(old(canon), newChain, 1)
      ensures lookup == WrittenLookup(old(lookup), newChain, 1)
      ensures addedTxs == WrittenTxs(newChain, 1)
    {
      addedTxs := [];
      var i := |newChain| - 1;
      while i >= 1
        invariant -1 <= i < |newChain| && (newChain != [] ==> 0 <= i)
        invariant canon == WrittenIndex(old(canon), newChain, i + 1)
        invariant lookup == WrittenLookup(old(lookup), newChain, i + 1)
        invariant addedTxs == WrittenTxs(newChain, i + 1)
      {
        WriteHeadBlock(newChain[i]);
        addedTxs := addedTxs + newChain[i].txs;
        i := i - 1;
      }
    }

    /** Collects the heights above `number` that still carry an entry. */
    method StaleHeights(number: nat, ghost top: nat) returns (stale: set<nat>)
      requires forall n: nat :: n in canon <==> n <= top
      ensures stale == set n | n in canon && n > number
    {
      stale := {};
      var i := number + 1;
      while i in canon
        invariant number < i && (i <= top + 1 || i == number + 1)
        invariant forall n :: n in stale <==> number < n < i
        decreases top + 1 - i
      {
        stale := stale + {i};
        i := i + 1;
      }
    }

    /** Rewrites the index and the lookup along the new chain and drops what is left of the old one. */
    method MoveIndexes(old0: Block, new0: Block, ghost k: nat, ghost oldChain: seq<Block>, newChain: seq<Block>,
                       deletedTxs: seq<TxHash>, number: nat)
      requires Forked(blocks, old0, new0, k, newChain, number) && Segment(blocks, old0, oldChain, k)
      requires deletedTxs == FlatTxs(oldChain) && IndexExact(blocks, old0, canon)
      modifies this`canon, this`lookup, this`heads
      ensures IndexUpTo(blocks, new0, canon, ReorgTop(blocks, old0, new0))
      ensures LookupExact(blocks, old0, old(lookup)) && NoRepeats(blocks, new0) ==>
                LookupUpTo(blocks, new0, lookup, ReorgTop(blocks, old0, new0))
    {
      ReorgedIndex(blocks, old0, new0, k, newChain, canon, number);
      if LookupExact(blocks, old0, lookup) && NoRepeats(blocks, new0) {
        ReorgedLookup(blocks, old0, new0, k, oldChain, newChain, number, lookup);
      }
      var addedTxs := RewriteBelowHead(newChain);
      lookup := PrunedLookup(lookup, deletedTxs, addedTxs);
      var stale := StaleHeights(number, Max(old0.number, number));
      canon := canon - stale;
    }

    /** Moves the number-to-hash index and the lookup from the chain of `old0` to the chain of
        `new0`, leaving the entry of `new0` itself to `WriteHeadBlock`. */
    method Reorg(old0: Block, new0: Block) returns (ok: bool)
      requires Keyed(blocks) && Stored(blocks, old0) && Stored(blocks, new0)
      requires IndexExact(blocks, old0, canon)
      modifies this`canon, this`lookup, this`heads
      ensures ok <==> Joined(blocks, old0, new0)
      ensures !ok ==> canon == old(canon) && lookup == old(lookup) && heads == old(heads)
      ensures ok ==> IndexUpTo(blocks, new0, canon, ReorgTop(blocks, old0, new0))
      ensures ok && LookupExact(blocks, old0, old(lookup)) && NoRepeats(blocks, new0) ==>
                LookupUpTo(blocks, new0, lookup, ReorgTop(blocks, old0, new0))
    {
      var found, common, oldChain, newChain, deletedTxs := FindFork(old0, new0);
      if !found {
        return false;
      }
      var number := common.number;
      if |newChain| > 1 {
        AncestorIsStored(blocks, new0, new0.number - 1);
        number := newChain[1].number;
      }
      MoveIndexes(old0, new0, common.number, oldChain, newChain, deletedTxs, number);
      return true;
    }

    /** The tree underneath the indexes. */
    ghost function AsTree(): Tree
      reads this
    {
      Tree(genesis, blocks, td, heads.currentBlock, finalized)
    }

    /** All head markers agree and the number-to-hash index is the ancestor chain of the head. */
    ghost predicate Consistent()
      reads this
    {
      && Keyed(blocks) && Stored(blocks, heads.currentBlock)
      && heads == HeadsAt(heads.currentBlock)
      && IndexExact(blocks, heads.currentBlock, canon)
    }

    /** Walks back from `block` to the height of `fin`. */
    method IsFinalizedAncestor(block: Block, fin: Block) returns (r: bool)
      requires Keyed(blocks) && Stored(blocks, block)
      ensures r <==> AncestorAt(blocks, block, fin.number).Some?
                     && AncestorAt(blocks, block, fin.number).value.hash == fin.hash
    {
      if block.number < fin.number {
        return false;
      }
      var s := blocks;
      var h := GetBlock(s, block.hash, block.number);
      while h.Some? && h.value.number > fin.number
        invariant h.Some? ==> h.value.number >= fin.number
                              && AncestorAt(s, block, fin.number) == AncestorAt(s, h.value, fin.number)
        invariant h.None? ==> AncestorAt(s, block, fin.number).None?
        decreases h.Some?, if h.Some? then h.value.number else 0
      {
        h := Parent(s, h.value);
      }
      return h.Some? && h.value.number == fin.number && h.value.hash == fin.hash;
    }

    /** The finality guard. */
    method CheckFinalized(block: Block) returns (kept: bool)
      requires Keyed(blocks) && Stored(blocks, block)
      ensures kept == KeepsFinalized(blocks, block, finalized)
    {
      if finalized.Some? && finalized.value.number > 0 {
        kept := IsFinalizedAncestor(block, finalized.value);
      } else {
        kept := true;
      }
    }

    /** Stores the block with its total difficulty; fails if the parent's is unknown. Neither index
        is disturbed. */
    method WriteBlockWithState(block: Block) returns (ok: bool)
      requires Consistent() && Fresh(blocks, block)
      modifies this`blocks, this`td
      ensures Consistent()
      ensures ok <==> ChildTd(old(blocks), old(td), block).Some?
      ensures AsTree() == if ok then Stash(old(AsTree()), block) else old(AsTree())
      ensures ok ==> block.parentHash == heads.currentBlock.hash ==> block.number == heads.currentBlock.number + 1
      ensures LookupExact(old(blocks), heads.currentBlock, lookup) ==> LookupExact(blocks, heads.currentBlock, lookup)
    {
      var externTd := ChildTd(blocks, td, block);
      if externTd.None? {
        return false;
      }
      IndexesExtend(blocks, blocks[block.hash := block], heads.currentBlock, canon, lookup);
      td := td[block.hash := externTd.value];
      blocks := blocks[block.hash := block];
      return true;
    }

    method SetFinalized(block: Option<Block>)
      modifies this`finalized
      ensures finalized == block
    {
      finalized := block;
    }

    /** Makes a stored block the head, reorganising first unless it extends the current head. */
    method MoveHead(block: Block) returns (ok: bool)
      requires Consistent() && Stored(blocks, block)
      requires block.parentHash == heads.currentBlock.hash ==> block.number == heads.currentBlock.number + 1
      modifies this`canon, this`lookup, this`heads
      ensures Consistent()
      ensures ok <==> block.parentHash == old(heads).currentBlock.hash || Joined(blocks, old(heads).currentBlock, block)
      ensures ok ==> heads.currentBlock == block
      ensures !ok ==> canon == old(canon) && lookup == old(lookup) && heads == old(heads)
      ensures LookupExact(blocks, old(heads).currentBlock, old(lookup)) && NoRepeats(blocks, heads.currentBlock) ==>
                LookupExact(blocks, heads.currentBlock, lookup)
    {
      ghost var cur := heads.currentBlock;
      ghost var exact := LookupExact(blocks, cur, lookup) && NoRepeats(blocks, block);
      ghost var top := block.number;
      if block.parentHash != heads.currentBlock.hash {
        var done := Reorg(heads.currentBlock, block);
        if !done {
          return false;
        }
        top := ReorgTop(blocks, cur, block);
      } else {
        ExtendsHead(blocks, cur, block, canon, lookup);
      }
      IndexPush(blocks, block, canon, top);
      if exact {
        LookupPush(blocks, block, lookup, top);
      }
      WriteHeadBlock(block);
      return true;
    }

    /** Makes a known block the head. This path has no finality guard: the finalized block stays canonical exactly if
        the guard would have let the block pass. */
    method WriteKnownBlock(block: Block) returns (ok: bool)
      requires Consistent() && Stored(blocks, block)
      requires block.parentHash == heads.currentBlock.hash ==> block.number == heads.currentBlock.number + 1
      modifies this`canon, this`lookup, this`heads
      ensures Consistent()
      ensures ok <==> block.parentHash == old(heads).currentBlock.hash || Joined(blocks, old(heads).currentBlock, block)
      ensures AsTree() == if ok then old(AsTree()).(head := block) else old(AsTree())
      ensures !ok ==> canon == old(canon) && lookup == old(lookup) && heads == old(heads)
      ensures LookupExact(blocks, old(heads).currentBlock, old(lookup)) && NoRepeats(blocks, heads.currentBlock) ==>
                LookupExact(blocks, heads.currentBlock, lookup)
      ensures ok && Valid(old(AsTree())) && FinalizedCanonical(old(AsTree())) ==>
                Valid(AsTree()) && (FinalizedCanonical(AsTree()) <==> KeepsFinalized(blocks, block, finalized))
    {
      ghost var t := AsTree();
      ok := MoveHead(block);
      if ok && Valid(t) && FinalizedCanonical(t) {
        KnownHead(t, block);
      }
    }

    /** Stores a block and moves the head to it if the fork choice and the finality guard agree. */
    method WriteBlockAndSetHead(block: Block, terminalTd: Option<nat>, vote: Vote)
      returns (status: WriteStatus, err: bool)
      requires Consistent() && Fresh(blocks, block)
      modifies this
      ensures Consistent()
      ensures (AsTree(), status, err) == Import(old(AsTree()), block, terminalTd, vote)
      ensures LookupExact(old(blocks), old(heads).currentBlock, old(lookup))
              && NoRepeats(blocks, heads.currentBlock) ==>
                LookupExact(blocks, heads.currentBlock, lookup)
    {
      var stored := WriteBlockWithState(block);
      if !stored {
        return NonStat, true;
      }
      var needed := ReorgNeeded(GetTd(blocks, td, heads.currentBlock.hash, heads.currentBlock.number),
                                GetTd(blocks, td, block.hash, block.number),
                                terminalTd, heads.currentBlock.number, block.number, vote);
      if needed.None? {
        return NonStat, true;
      }
      if !needed.value {
        return SideStat, false;
      }
      var kept := CheckFinalized(block);
      if !kept {
        return SideStat, false;
      }
      var moved := MoveHead(block);
      if !moved {
        return NonStat, true;
      }
      return CanonStat, false;
    }
  }
}

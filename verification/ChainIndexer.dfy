/** Post-processing of the canonical chain in fixed-size sections. The index remembers the last block
    hash of every finished section; reorganisations roll it back.

    The chain underneath may change at any time. `canon` is the number-to-hash index at the moment of
    a step and `s` the header store, which only grows. */
module ChainIndexer {
  import opened Util
  import opened BlockTree
  import opened HeaderChain

  /** Number of the last block of section `k`. */
  function SectionEnd(size: nat, k: nat): nat
    requires size > 0
  {
    (k + 1) * size - 1
  }

  lemma SectionEndStep(size: nat, k: nat)
    requires size > 0 && k > 0
    ensures SectionEnd(size, k) - size == SectionEnd(size, k - 1) && SectionEnd(size, k) >= size
    ensures SectionEnd(size, k) == k * size + size - 1
  {
    assert (k + 1) * size == k * size + size;
    assert k * size == (k - 1) * size + size;
  }

  function HeadAt(heads: map<nat, Hash>, k: nat): Hash {
    if k in heads then heads[k] else ZERO
  }

  /** Walking one section back from the head of section `k` leads to the head of the one before. */
  ghost predicate SectionLinked(s: Store, size: nat, heads: map<nat, Hash>, k: nat)
    requires size > 0
  {
    && k in heads && heads[k] != ZERO
    && (k > 0 ==> SectionEnd(size, k) >= size
                  && HashWalk(s, heads[k], SectionEnd(size, k), size) == Some(HeadAt(heads, k - 1)))
  }

  /** Sections from the checkpoint on are stored, linked, and nothing is stored beyond. */
  ghost predicate Linked(s: Store, size: nat, checkpoint: nat, heads: map<nat, Hash>, stored: nat)
    requires size > 0
  {
    && (forall k: nat | k in heads :: k < stored)
    && (forall k: nat {:trigger SectionLinked(s, size, heads, k)} | checkpoint <= k < stored ::
        SectionLinked(s, size, heads, k))
    && (0 < checkpoint ==> HeadAt(heads, checkpoint - 1) != ZERO && checkpoint <= stored)
  }

  /** The stored heads from the checkpoint on agree with the canonical chain. */
  ghost predicate AllCanonical(size: nat, checkpoint: nat, heads: map<nat, Hash>, stored: nat, canon: map<nat, Hash>)
    requires size > 0
  {
    forall k: nat | checkpoint <= k < stored :: HeadAt(heads, k) == ReadCanonical(canon, SectionEnd(size, k))
  }

  /** If the head of section `k` is canonical then so are all stored heads below it, down to that of
      the checkpoint itself. */
  lemma {:induction false} CanonicalDown(s: Store, cur: Block, canon: map<nat, Hash>, size: nat, checkpoint: nat,
                                         heads: map<nat, Hash>, stored: nat, k: nat, j: nat)
    requires size > 0 && Keyed(s) && Stored(s, cur) && IndexExact(s, cur, canon)
    requires Linked(s, size, checkpoint, heads, stored)
    requires checkpoint <= k < stored && checkpoint <= j + 1 && j <= k
    requires HeadAt(heads, k) == ReadCanonical(canon, SectionEnd(size, k))
    ensures HeadAt(heads, j) == ReadCanonical(canon, SectionEnd(size, j))
    decreases k - j
  {
    if j < k {
      assert SectionLinked(s, size, heads, k);
      SectionEndStep(size, k);
      CanonicalWalk(s, cur, canon, heads[k], SectionEnd(size, k), size);
      if j < k - 1 {
        CanonicalDown(s, cur, canon, size, checkpoint, heads, stored, k - 1, j);
      }
    }
  }

  /** Dropping the sections from `n` on keeps the rest linked. */
  lemma LinkedTruncate(s: Store, size: nat, checkpoint: nat, heads: map<nat, Hash>, stored: nat, n: nat)
    requires size > 0 && Linked(s, size, checkpoint, heads, stored) && checkpoint <= n <= stored
    ensures Linked(s, size, checkpoint, Truncated(heads, n), n)
  {
    var t := Truncated(heads, n);
    forall k: nat | checkpoint <= k < n ensures SectionLinked(s, size, t, k) {
      assert SectionLinked(s, size, heads, k);
    }
  }

  function Truncated(heads: map<nat, Hash>, n: nat): map<nat, Hash> {
    map k | k in heads && k < n :: heads[k]
  }

  /** Headers are never deleted, so links survive the growth of the store. */
  lemma LinkedGrow(s: Store, s': Store, size: nat, checkpoint: nat, heads: map<nat, Hash>, stored: nat)
    requires size > 0 && Linked(s, size, checkpoint, heads, stored)
    requires forall h | h in s :: h in s' && s'[h] == s[h]
    ensures Linked(s', size, checkpoint, heads, stored)
  {
    forall k: nat | checkpoint <= k < stored ensures SectionLinked(s', size, heads, k) {
      assert SectionLinked(s, size, heads, k);
      if k > 0 {
        HashWalkGrow(s, s', heads[k], SectionEnd(size, k), size);
      }
    }
  }

  lemma {:induction false} HashWalkGrow(s: Store, s': Store, hash: Hash, number: nat, k: nat)
    requires forall h | h in s :: h in s' && s'[h] == s[h]
    requires k <= number && HashWalk(s, hash, number, k).Some?
    ensures HashWalk(s', hash, number, k) == HashWalk(s, hash, number, k)
    decreases k
  {
    if k > 0 {
      HashWalkGrow(s, s', GetBlock(s, hash, number).value.parentHash, number - 1, k - 1);
    }
  }

  /** A finished section extends the linked ones. */
  lemma LinkedExtend(s: Store, size: nat, checkpoint: nat, heads: map<nat, Hash>, section: nat, newHead: Hash)
    requires size > 0 && Linked(s, size, checkpoint, heads, section) && checkpoint <= section && newHead != ZERO
    requires section > 0 ==>
               && SectionEnd(size, section) >= size
               && HashWalk(s, newHead, SectionEnd(size, section), size) == Some(HeadAt(heads, section - 1))
    ensures Linked(s, size, checkpoint, heads[section := newHead], section + 1)
  {
    var h := heads[section := newHead];
    forall k: nat | checkpoint <= k < section + 1 ensures SectionLinked(s, size, h, k) {
      if k < section {
        assert SectionLinked(s, size, heads, k);
      }
    }
  }

  lemma AllCanonicalBelow(s: Store, cur: Block, canon: map<nat, Hash>, size: nat, base: nat, checkpoint: nat,
                          heads: map<nat, Hash>, stored: nat)
    requires size > 0 && Keyed(s) && Stored(s, cur) && IndexExact(s, cur, canon)
    requires Linked(s, size, base, heads, stored) && base <= checkpoint < stored
    requires HeadAt(heads, stored - 1) == ReadCanonical(canon, SectionEnd(size, stored - 1))
    ensures AllCanonical(size, checkpoint, heads, stored, canon)
  {
    forall k: nat | checkpoint <= k < stored ensures HeadAt(heads, k) == ReadCanonical(canon, SectionEnd(size, k)) {
      CanonicalDown(s, cur, canon, size, base, heads, stored, stored - 1, k);
    }
  }

  /** None of the heads from `lo` up to `hi` is canonical. */
  ghost predicate NoneCanonical(size: nat, heads: map<nat, Hash>, lo: nat, hi: nat, canon: map<nat, Hash>)
    requires size > 0
  {
    forall k: nat | lo <= k < hi :: HeadAt(heads, k) != ReadCanonical(canon, SectionEnd(size, k))
  }

  /** Sections become known only once their last block has its confirmations, and then all at once from the checkpoint
      on; `matched` tells whether the chain agrees with the checkpoint. */
  ghost predicate KnownUpTo(size: nat, confirms: nat, head: nat, checkpoint: nat, matched: bool, was: nat, known: nat)
    requires size > 0
  {
    && was <= known
    && (known > was ==> known >= checkpoint && SectionEnd(size, known - 1) + confirms <= head)
    && (head >= confirms && known >= checkpoint ==> SectionEnd(size, known) + confirms > head)
    && (was < checkpoint <= known ==> matched)
    && (was < checkpoint && matched && SectionEnd(size, checkpoint - 1) + confirms <= head ==> known >= checkpoint)
  }

  /** Known and stored sections end at or below the head that a reorganisation went back to, and no more are forgotten
      than had to be; all of them, if the checkpoint itself lies above. */
  ghost predicate KeptUpTo(size: nat, head: nat, checkpoint: nat, known0: nat, known: nat, stored0: nat, stored: nat)
    requires size > 0
  {
    && known <= known0 && stored <= stored0
    && (known > 0 ==> SectionEnd(size, known - 1) <= head)
    && (known < known0 && known >= checkpoint ==> SectionEnd(size, known) > head)
    && (known < known0 && known < checkpoint ==> known == 0 && SectionEnd(size, checkpoint - 1) > head)
    && (stored > checkpoint ==> SectionEnd(size, stored - 1) <= head)
    && (stored < stored0 ==> stored >= checkpoint && SectionEnd(size, stored) > head)
  }

  /** Dependent indexers are sent back to just after the last whole section up to `head`, or to the very start if the
      checkpoint lies above. */
  ghost predicate CascadedTo(size: nat, head: nat, checkpoint: nat, was: int, now: int)
    requires size > 0
  {
    && now <= was
    && (now > 0 ==> now <= head + 1)
    && (now < was ==> now == 0 || exists k: nat :: now == SectionEnd(size, k) + 1)
    && (now < was ==> head + 1 < now + size || (now == 0 < checkpoint && SectionEnd(size, checkpoint - 1) > head))
  }

  lemma CascadeTarget(size: nat, head: nat, checkpoint: nat, was: int, q: nat, target: nat)
    requires size > 0 && EndsBy(size, head, q)
    requires target == if q < checkpoint || q == 0 then 0 else SectionEnd(size, q - 1) + 1
    ensures CascadedTo(size, head, checkpoint, was, Min(was, target))
  {
    if q == 0 {
      assert SectionEnd(size, 0) > head;
    } else {
      SectionEndStep(size, q);
      assert SectionEnd(size, q) > head;
    }
  }

  /** Exactly the first `q` sections end at or below `head`. */
  ghost predicate EndsBy(size: nat, head: nat, q: nat)
    requires size > 0
  {
    forall k: nat {:trigger SectionEnd(size, k)} :: k < q <==> SectionEnd(size, k) <= head
  }

  lemma WholeSections(size: nat, head: nat)
    requires size > 0
    ensures EndsBy(size, head, (head + 1) / size)
  {
    forall k: nat ensures k < (head + 1) / size <==> SectionEnd(size, k) <= head {
      if k < (head + 1) / size { SectionEndBelow(size, k, head); } else { SectionEndAbove(size, k, head); }
    }
  }

  lemma KnownSections(size: nat, confirms: nat, head: nat, checkpoint: nat, matched: bool, was: nat, q: nat)
    requires size > 0 && (head >= confirms ==> EndsBy(size, head - confirms, q)) && (head < confirms ==> q == 0)
    ensures KnownUpTo(size, confirms, head, checkpoint, matched, was,
                      if (was >= checkpoint || matched) && q >= checkpoint then Max(was, q) else was)
  {
  }

  lemma KeptSections(size: nat, head: nat, checkpoint: nat, known0: nat, stored0: nat, q: nat)
    requires size > 0 && EndsBy(size, head, q)
    ensures KeptUpTo(size, head, checkpoint, known0, Min(known0, if q < checkpoint then 0 else q),
                     stored0, Min(stored0, Max(q, checkpoint)))
  {
  }

  /** The section being processed in the background, and the head it continues from. */
  datatype Work = Work(section: nat, oldHead: Hash)

  class Indexer {
    const size: nat
    const confirms: nat
    var stored: nat
    var known: nat
    var cascaded: int
    var checkpoint: nat
    var checkpointHead: Hash
    var heads: map<nat, Hash>
    var work: Option<Work>
    /** The section from which on the stored heads are linked: the checkpoint, or zero. */
    ghost var base: nat

    ghost predicate Inv(s: Store)
      reads `stored, `checkpoint, `heads, `work, `base
    {
      && size > 0 && base <= checkpoint
      && Linked(s, size, base, heads, stored)
      && (work.Some? ==> stored <= work.value.section && base <= work.value.section)
      && (work.Some? && work.value.section > 0 ==> work.value.oldHead != ZERO)
    }

    constructor (size: nat, confirms: nat)
      requires size > 0
      ensures this.size == size && this.confirms == confirms && stored == 0 && known == 0 && checkpoint == 0
      ensures forall s :: Inv(s)
    {
      this.size, this.confirms := size, confirms;
      stored, known, cascaded, checkpoint, checkpointHead := 0, 0, 0, 0, ZERO;
      heads, work, base := map[], None, 0;
    }

    /** Drops reorganised sections one by one, or raises the count. */
    method SetValidSections(n: nat)
      modifies this`stored, this`heads
      ensures stored == n
      ensures heads == map k | k in old(heads) && !(n <= k < old(stored)) :: old(heads)[k]
    {
      while stored > n
        invariant stored <= old(stored) && (n <= stored || stored == old(stored))
        invariant heads == map k | k in old(heads) && !(stored <= k < old(stored)) :: old(heads)[k]
      {
        stored := stored - 1;
        heads := heads - {stored};
      }
      stored := n;
    }

    /** Takes a trusted section head on board. While a section is being processed the invariant survives exactly if the
        checkpoint ends at or below it. */
    method AddCheckpoint(section: nat, shead: Hash, ghost s: Store)
      requires Inv(s) && shead != ZERO
      modifies this`checkpoint, this`checkpointHead, this`heads, this`stored, this`base
      ensures Inv(s) <==> old(checkpoint) >= section + 1 || section < old(stored) || work.None?
                          || section + 1 <= work.value.section
      ensures if old(checkpoint) >= section + 1 || section < old(stored) then
                checkpoint == old(checkpoint) && stored == old(stored) && heads == old(heads)
              else
                checkpoint == stored == section + 1 && checkpointHead == shead && heads == old(heads)[section := shead]
    {
      if checkpoint >= section + 1 || section < stored {
        return;
      }
      checkpoint := section + 1;
      checkpointHead := shead;
      heads := heads[section := shead];
      SetValidSections(section + 1);
      base := section + 1;
    }

    /** Rolls back to `n` sections, not below where the heads are linked from. */
    method Rollback(n: nat, ghost s: Store)
      requires Inv(s) && base <= n <= stored
      modifies this`stored, this`heads
      ensures Inv(s) && stored == n && heads == Truncated(old(heads), n)
    {
      LinkedTruncate(s, size, base, heads, stored, n);
      assert forall k | k in heads :: k < stored;
      SetValidSections(n);
      assert heads == Truncated(old(heads), n);
    }

    /** Rolls back the sections whose head left the canonical chain. Afterwards every stored head
        above the checkpoint is canonical, although only the last one is compared. */
    method VerifyLastHead(canon: map<nat, Hash>, ghost s: Store, ghost cur: Block)
      requires Inv(s) && Keyed(s) && Stored(s, cur) && IndexExact(s, cur, canon)
      modifies this`stored, this`heads
      ensures Inv(s) && stored <= old(stored) && heads == Truncated(old(heads), stored)
      ensures AllCanonical(size, checkpoint, heads, stored, canon)
      ensures NoneCanonical(size, old(heads), stored, old(stored), canon)
      ensures stored == old(stored) || stored >= checkpoint
    {
      assert heads == Truncated(heads, stored);
      while stored > 0 && stored > checkpoint
        invariant Inv(s) && stored <= old(stored) && heads == Truncated(old(heads), stored)
        invariant NoneCanonical(size, old(heads), stored, old(stored), canon)
        invariant stored == old(stored) || stored >= checkpoint
        decreases stored
      {
        if HeadAt(heads, stored - 1) == ReadCanonical(canon, stored * size - 1) {
          AllCanonicalBelow(s, cur, canon, size, base, checkpoint, heads, stored);
          return;
        }
        Rollback(stored - 1, s);
      }
    }

    /** Forgets the sections from `n` on. */
    method RollbackTo(n: nat, ghost s: Store)
      requires Inv(s) && base <= n
      modifies this`stored, this`heads
      ensures Inv(s) && stored == Min(old(stored), n) && heads == Truncated(old(heads), stored)
    {
      if n < stored {
        Rollback(n, s);
      } else {
        assert heads == Truncated(heads, stored);
      }
    }

    /** Moves the cascaded head back to `target`. */
    method CascadeBack(target: nat) returns (cascade: Option<nat>)
      modifies this`cascaded
      ensures cascade == if target < old(cascaded) then Some(target) else None
      ensures cascaded == Min(old(cascaded), target)
    {
      cascade := None;
      if target < cascaded {
        cascaded := target;
        cascade := Some(target);
      }
    }

    /** The whole sections up to `head`, or none if they do not reach the checkpoint. */
    function Whole(head: nat): nat
      reads `checkpoint
      requires size > 0
    {
      if (head + 1) / size < checkpoint then 0 else (head + 1) / size
    }

    /** The chain agrees with the checkpoint. */
    ghost predicate Matches(canon: map<nat, Hash>)
      reads `checkpoint, `checkpointHead
      requires size > 0
    {
      checkpoint == 0 || ReadCanonical(canon, SectionEnd(size, checkpoint - 1)) == checkpointHead
    }

    /** A reorganisation back to `head`. Afterwards no stored section above the checkpoint reaches
        beyond `head`, so what was canonical before still is. Returns the head to cascade to
        dependent indexers, if any. */
    method ReorgHead(head: nat, canon: map<nat, Hash>, ghost before: map<nat, Hash>, ghost s: Store)
      returns (cascade: Option<nat>)
      requires Inv(s)
      modifies this`stored, this`heads, this`known, this`cascaded
      ensures Inv(s)
      ensures stored == Min(old(stored), Max((head + 1) / size, checkpoint)) && heads == Truncated(old(heads), stored)
      ensures known == Min(old(known), Whole(head)) && cascaded == Min(old(cascaded), Whole(head) * size)
      ensures cascade == if Whole(head) * size < old(cascaded) then Some(Whole(head) * size) else None
      ensures KeptUpTo(size, head, checkpoint, old(known), known, old(stored), stored)
      ensures CascadedTo(size, head, checkpoint, old(cascaded), cascaded)
      ensures AgreeUpTo(before, canon, head) && AllCanonical(size, checkpoint, old(heads), old(stored), before) ==>
                AllCanonical(size, checkpoint, heads, stored, canon)
    {
      var sections := (head + 1) / size;
      var n := if sections < checkpoint then checkpoint else sections;
      WholeSections(size, head);
      KeptSections(size, head, checkpoint, known, stored, sections);
      CascadeTarget(size, head, checkpoint, cascaded, sections, Whole(head) * size);
      RollbackSound(size, checkpoint, heads, stored, Min(stored, n), before, canon, head);
      cascade := Revert(Whole(head), n, Whole(head) * size, s);
    }

    method Revert(k: nat, n: nat, target: nat, ghost s: Store) returns (cascade: Option<nat>)
      requires Inv(s) && base <= n
      modifies this`stored, this`heads, this`known, this`cascaded
      ensures Inv(s) && stored == Min(old(stored), n) && heads == Truncated(old(heads), stored)
      ensures known == Min(old(known), k) && cascaded == Min(old(cascaded), target)
      ensures cascade == if target < old(cascaded) then Some(target) else None
    {
      if k < known {
        known := k;
      }
      RollbackTo(n, s);
      cascade := CascadeBack(target);
    }

    /** A new head or a reorganisation. */
    method NewHead(head: nat, reorg: bool, canon: map<nat, Hash>, ghost before: map<nat, Hash>, ghost s: Store)
      returns (cascade: Option<nat>)
      requires Inv(s)
      modifies this`stored, this`heads, this`known, this`cascaded
      ensures Inv(s)
      ensures !reorg ==> stored == old(stored) && heads == old(heads) && cascade.None? && cascaded == old(cascaded)
      ensures !reorg ==>
                var fits := old(known) >= checkpoint
                            || ReadCanonical(canon, checkpoint * size - 1) == checkpointHead;
                known == if head >= confirms && fits then Max(old(known), Whole(head - confirms)) else old(known)
      ensures !reorg ==>
                KnownUpTo(size, confirms, head, checkpoint, Matches(canon), old(known), known)
      ensures reorg ==> KeptUpTo(size, head, checkpoint, old(known), known, old(stored), stored)
                        && CascadedTo(size, head, checkpoint, old(cascaded), cascaded)
      ensures reorg ==> stored == Min(old(stored), Max((head + 1) / size, checkpoint))
                        && heads == Truncated(old(heads), stored) && known == Min(old(known), Whole(head))
      ensures reorg ==> cascaded == Min(old(cascaded), Whole(head) * size)
      ensures reorg ==> cascade == if Whole(head) * size < old(cascaded) then Some(Whole(head) * size) else None
      ensures reorg && AgreeUpTo(before, canon, head)
              && AllCanonical(size, checkpoint, old(heads), old(stored), before) ==>
                AllCanonical(size, checkpoint, heads, stored, canon)
    {
      cascade := None;
      if reorg {
        cascade := ReorgHead(head, canon, before, s);
        return;
      }
      ghost var q := if head >= confirms then (head + 1 - confirms) / size else 0;
      if head >= confirms { WholeSections(size, head - confirms); }
      KnownSections(size, confirms, head, checkpoint, Matches(canon), known, q);
      if head >= confirms {
        var sections := (head + 1 - confirms) / size;
        if sections < checkpoint {
          sections := 0;
        }
        if sections > known {
          if known < checkpoint && ReadCanonical(canon, checkpoint * size - 1) != checkpointHead {
            return;
          }
          known := sections;
        }
      }
    }

    /** Picks the next section to process, after dropping reorganised ones. */
    method UpdateBegin(canon: map<nat, Hash>, ghost s: Store, ghost cur: Block) returns (start: bool)
      requires Inv(s) && work.None? && Keyed(s) && Stored(s, cur) && IndexExact(s, cur, canon)
      modifies this`stored, this`heads, this`work
      ensures Inv(s) && start == (known > old(stored))
      ensures start ==> work == Some(Work(stored, if stored > 0 then HeadAt(heads, stored - 1) else ZERO))
      ensures start ==> AllCanonical(size, checkpoint, heads, stored, canon)
      ensures stored <= old(stored) && heads == Truncated(old(heads), stored)
              && (stored == old(stored) || stored >= checkpoint)
      ensures NoneCanonical(size, old(heads), stored, old(stored), canon)
      ensures !start ==> work.None? && stored == old(stored) && heads == old(heads)
    {
      start := known > stored;
      if start {
        VerifyLastHead(canon, s, cur);
        if stored > base { assert SectionLinked(s, size, heads, stored - 1); }
        work := Some(Work(stored, if stored > 0 then HeadAt(heads, stored - 1) else ZERO));
      }
    }

    /** Feeds the blocks of a section to the backend. The canonical chain may change between any two
        reads: `seen` gives the header found at each number at the time. Success means the blocks form
        one chain on top of the previous section head. */
    method ProcessSection(resetOk: bool, commitOk: bool, seen: nat -> Option<Block>, processed: nat -> bool,
                          ghost s: Store)
      returns (ok: bool, newHead: Hash)
      requires Inv(s) && work.Some? && Keyed(s)
      requires forall n: nat | seen(n).Some? :: Stored(s, seen(n).value) && seen(n).value.number == n
      modifies this`stored, this`heads, this`base
      ensures Inv(s)
      ensures resetOk ==> stored == old(stored) && heads == old(heads) && base == old(base)
      ensures !resetOk ==> !ok && stored == 0 && heads == map[]
      ensures ok <==>
                resetOk && commitOk && SectionFed(seen, processed, work.value.section * size, size, work.value.oldHead)
      ensures ok ==> newHead == HeadSeen(seen, work.value.section * size, size, work.value.oldHead)
      ensures ok ==> Chained(s, size, work.value.section, newHead, work.value.oldHead)
    {
      newHead := ZERO;
      if !resetOk {
        assert forall k | k in heads :: k < stored;
        SetValidSections(0);
        base := 0;
        return false, ZERO;
      }
      var section := work.value.section;
      ok, newHead := FeedBlocks(seen, processed, section * size, size, work.value.oldHead, s);
      if !ok || !commitOk {
        return false, ZERO;
      }
      assert section * size + size - 1 == SectionEnd(size, section);
    }

    /** Records the head of the next section. */
    method Commit(section: nat, newHead: Hash, ghost s: Store)
      requires Inv(s) && work.None? && stored == section
      requires Linked(s, size, base, heads[section := newHead], section + 1)
      modifies this`stored, this`heads
      ensures Inv(s) && stored == section + 1 && heads == old(heads)[section := newHead]
    {
      heads := heads[section := newHead];
      SetValidSections(section + 1);
      assert heads == old(heads)[section := newHead];
    }

    /** Commits a processed section if its predecessor is still in place; otherwise drops reorganised
        sections and waits. */
    method UpdateEnd(ok: bool, newHead: Hash, canon: map<nat, Hash>, ghost s: Store, ghost cur: Block)
      returns (cascade: Option<int>)
      requires Inv(s) && work.Some? && Keyed(s) && Stored(s, cur) && IndexExact(s, cur, canon)
      requires ok ==> Chained(s, size, work.value.section, newHead, work.value.oldHead)
      modifies this`stored, this`heads, this`known, this`cascaded, this`work
      ensures Inv(s) && work.None?
      ensures var w := old(work).value;
              var commit := ok && (w.section == 0 || w.oldHead == HeadAt(old(heads), w.section - 1));
              && (commit ==> old(stored) == w.section && stored == w.section + 1
                             && heads == old(heads)[w.section := newHead]
                             && known == old(known) && cascade == Some(cascaded) && cascaded == stored * size - 1)
              && (!commit ==> AllCanonical(size, checkpoint, heads, stored, canon) && known == stored && cascade.None?
                              && cascaded == old(cascaded))
              && (!commit ==> stored <= old(stored) && heads == Truncated(old(heads), stored)
                              && (stored == old(stored) || stored >= checkpoint))
              && (!commit ==> NoneCanonical(size, old(heads), stored, old(stored), canon))
    {
      var w := work.value;
      if ok && (w.section == 0 || w.oldHead == HeadAt(heads, w.section - 1)) {
        assert stored == w.section;
        LinkedExtend(s, size, base, heads, w.section, newHead);
        work := None;
        Commit(w.section, newHead, s);
        cascaded := stored * size - 1;
        cascade := Some(cascaded);
      } else {
        cascade := None;
        work := None;
        VerifyLastHead(canon, s, cur);
        known := stored;
      }
    }

    /** The number of processed sections and the last head, verified first. */
    method Sections(canon: map<nat, Hash>, ghost s: Store, ghost cur: Block) returns (n: nat, last: int, head: Hash)
      requires Inv(s) && Keyed(s) && Stored(s, cur) && IndexExact(s, cur, canon)
      modifies this`stored, this`heads
      ensures Inv(s) && n == stored && last == n * size - 1 && (n > 0 ==> head == HeadAt(heads, n - 1))
      ensures AllCanonical(size, checkpoint, heads, stored, canon)
              && NoneCanonical(size, old(heads), stored, old(stored), canon)
      ensures stored <= old(stored) && heads == Truncated(old(heads), stored)
              && (stored == old(stored) || stored >= checkpoint)
    {
      VerifyLastHead(canon, s, cur);
      n, last, head := stored, stored * size - 1, if stored > 0 then HeadAt(heads, stored - 1) else ZERO;
    }
  }

  /** The two canonical chains coincide up to height `n`. */
  ghost predicate AgreeUpTo(c1: map<nat, Hash>, c2: map<nat, Hash>, n: nat) {
    forall m: nat | m <= n :: ReadCanonical(c1, m) == ReadCanonical(c2, m)
  }

  lemma RollbackSound(size: nat, checkpoint: nat, heads: map<nat, Hash>, stored: nat, n: nat, before: map<nat, Hash>,
                      canon: map<nat, Hash>, head: nat)
    requires size > 0 && n <= stored && n <= Max((head + 1) / size, checkpoint)
    ensures AgreeUpTo(before, canon, head) && AllCanonical(size, checkpoint, heads, stored, before) ==>
              AllCanonical(size, checkpoint, Truncated(heads, n), n, canon)
  {
    if AgreeUpTo(before, canon, head) && AllCanonical(size, checkpoint, heads, stored, before) {
      forall k: nat | checkpoint <= k < n
        ensures HeadAt(Truncated(heads, n), k) == ReadCanonical(canon, SectionEnd(size, k)) {
        SectionEndBelow(size, k, head);
        assert HeadAt(heads, k) == ReadCanonical(before, SectionEnd(size, k));
      }
    }
  }

  lemma SectionEndBelow(size: nat, k: nat, head: nat)
    requires size > 0 && k < (head + 1) / size
    ensures SectionEnd(size, k) <= head
  {
    var q := (head + 1) / size;
    assert q * size <= head + 1;
    assert (k + 1) * size <= q * size;
  }

  lemma SectionEndAbove(size: nat, k: nat, head: nat)
    requires size > 0 && k >= (head + 1) / size
    ensures SectionEnd(size, k) > head
  {
    var q := (head + 1) / size;
    assert head + 1 < q * size + size == (q + 1) * size;
    assert (q + 1) * size <= (k + 1) * size;
  }

  /** The hash on top of the first `i` blocks from `first` on. */
  function HeadSeen(seen: nat -> Option<Block>, first: nat, i: nat, oldHead: Hash): Hash {
    if i == 0 then oldHead else if seen(first + i - 1).Some? then seen(first + i - 1).value.hash else ZERO
  }

  /** The block at `first + i` is found on top of the one before, and the backend takes it. */
  predicate BlockFed(seen: nat -> Option<Block>, processed: nat -> bool, first: nat, i: nat, oldHead: Hash) {
    && seen(first + i).Some? && seen(first + i).value.parentHash == HeadSeen(seen, first, i, oldHead)
    && processed(first + i)
  }

  /** So are the first `n` blocks from `first` on. */
  ghost predicate SectionFed(seen: nat -> Option<Block>, processed: nat -> bool, first: nat, n: nat, oldHead: Hash) {
    forall i: nat | i < n :: BlockFed(seen, processed, first, i, oldHead)
  }

  /** Feeds `n` blocks from `first` on to the backend, each linked to the one before. */
  method FeedBlocks(seen: nat -> Option<Block>, processed: nat -> bool, first: nat, n: nat, oldHead: Hash,
                    ghost s: Store)
      returns (ok: bool, lastHead: Hash)
    requires Keyed(s) && forall k: nat | seen(k).Some? :: Stored(s, seen(k).value) && seen(k).value.number == k
    ensures ok <==> SectionFed(seen, processed, first, n, oldHead)
    ensures ok ==> lastHead == HeadSeen(seen, first, n, oldHead) && (n > 0 ==> Linking(s, first, n, lastHead, oldHead))
  {
    lastHead := oldHead;
    for i := 0 to n
      invariant SectionFed(seen, processed, first, i, oldHead) && lastHead == HeadSeen(seen, first, i, oldHead)
      invariant i > 0 ==> Linking(s, first, i, lastHead, oldHead)
    {
      var header := seen(first + i);
      if header.None? || header.value.parentHash != lastHead || !processed(first + i) {
        assert !BlockFed(seen, processed, first, i, oldHead);
        return false, ZERO;
      }
      LinkingStep(s, first, i, lastHead, oldHead, header.value);
      lastHead := header.value.hash;
    }
    return true, lastHead;
  }

  /** `i` blocks from number `first` on are linked on top of `oldHead`. */
  ghost predicate Linking(s: Store, first: nat, i: nat, last: Hash, oldHead: Hash)
    requires i > 0
  {
    && last != ZERO
    && (first > 0 ==> HashWalk(s, last, first + i - 1, i) == Some(oldHead))
  }

  lemma LinkingStep(s: Store, first: nat, i: nat, last: Hash, oldHead: Hash, b: Block)
    requires Keyed(s) && Stored(s, b) && b.number == first + i && b.parentHash == last
    requires if i == 0 then last == oldHead else Linking(s, first, i, last, oldHead)
    ensures Linking(s, first, i + 1, b.hash, oldHead)
  {
    if first > 0 {
      assert GetBlock(s, b.hash, first + i) == Some(b);
      assert HashWalk(s, last, first + i - 1, i) == Some(oldHead);
    }
  }

  /** The new head of a section is one section away from the old one. */
  ghost predicate Chained(s: Store, size: nat, section: nat, newHead: Hash, oldHead: Hash)
    requires size > 0
  {
    && newHead != ZERO
    && (section > 0 ==> SectionEnd(size, section) >= size
                        && HashWalk(s, newHead, SectionEnd(size, section), size) == Some(oldHead))
  }
}

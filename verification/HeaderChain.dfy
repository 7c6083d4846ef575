/** The header chain: batch reorganisation of the canonical index, and ancestor look-ups that take
    a short cut through it. */
module HeaderChain {
  import opened Util
  import opened BlockTree
  import opened ChainRuns

  /** Headers are linked, consecutive and stored. */
  ghost predicate LinkedHeaders(s: Store, headers: seq<Block>) {
    && (forall i | 0 <= i < |headers| :: Stored(s, headers[i]))
    && (forall i | 0 < i < |headers| :: headers[i].parentHash == headers[i - 1].hash
                                        && headers[i].number == headers[i - 1].number + 1)
  }

  lemma {:induction false} LinkedHeadersAncestors(s: Store, headers: seq<Block>, i: nat)
    requires LinkedHeaders(s, headers) && i < |headers|
    ensures headers[i].number == headers[0].number + i
    ensures var last := headers[|headers| - 1];
            && last.number == headers[0].number + |headers| - 1
            && AncestorAt(s, last, headers[i].number) == Some(headers[i])
    decreases |headers| - i
  {
    LinkedHeadersNumber(s, headers, i);
    if i < |headers| - 1 {
      LinkedHeadersAncestors(s, headers, i + 1);
      var last := headers[|headers| - 1];
      AncestorTransitive(s, last, headers[i + 1].number, headers[i].number);
      assert Parent(s, headers[i + 1]) == Some(headers[i]);
    }
  }

  lemma {:induction false} LinkedHeadersNumber(s: Store, headers: seq<Block>, i: nat)
    requires LinkedHeaders(s, headers) && i < |headers|
    ensures headers[i].number == headers[0].number + i
  {
    if i > 0 {
      LinkedHeadersNumber(s, headers, i - 1);
    }
  }

  /** The heights above `bottom` up to `b` follow the chain of `b`; everything else follows `rest`
      with the heights above `top` cleared. */
  ghost predicate Overwritten(s: Store, b: Block, bottom: int, top: nat, rest: map<nat, Hash>, batch: map<nat, Hash>) {
    && (forall n: nat | bottom < n <= b.number :: n in batch && AncestorAt(s, b, n).Some?
                                                  && batch[n] == AncestorAt(s, b, n).value.hash)
    && (forall n: nat | n <= bottom || b.number < n ::
          (n in batch <==> n in rest && n <= top) && (n in batch ==> batch[n] == rest[n]))
  }

  /** Crossing into the old index finishes the backward pass: below, the two chains agree. */
  lemma CrossLink(s: Store, cur: Block, first: Block, canon: map<nat, Hash>, k: nat)
    requires Keyed(s) && Stored(s, cur) && Stored(s, first)
    requires IndexExact(s, cur, canon) && k in canon && AncestorAt(s, first, k).Some?
             && canon[k] == AncestorAt(s, first, k).value.hash
    ensures Follows(s, first, canon, k + 1) && Complete(s, first)
  {
    AncestorIsStored(s, cur, k);
    AncestorIsStored(s, first, k);
    forall n: nat | n <= k ensures n in canon && AncestorAt(s, first, n) == AncestorAt(s, cur, n) {
      MeetBelow(s, cur, first, k, n);
    }
  }

  lemma ExtendsCurrent(s: Store, cur: Block, first: Block, canon: map<nat, Hash>)
    requires Keyed(s) && Stored(s, cur) && first.parentHash == cur.hash && first.number == cur.number + 1
    requires IndexExact(s, cur, canon)
    ensures Complete(s, first) && Follows(s, first, canon, first.number)
  {
    assert Parent(s, first) == Some(cur);
    assert forall n: nat | n <= cur.number :: AncestorAt(s, first, n) == AncestorAt(s, cur, n);
    assert 0 in canon;
  }

  /** The heights below `n` follow the chain of `b`. */
  ghost predicate Follows(s: Store, b: Block, canon: map<nat, Hash>, n: nat) {
    forall m: nat | m < n :: m in canon && AncestorAt(s, b, m).Some? && canon[m] == AncestorAt(s, b, m).value.hash
  }

  /** A canonical entry, or zero. */
  function ReadCanonical(canon: map<nat, Hash>, n: nat): Hash {
    if n in canon then canon[n] else ZERO
  }

  /** No header above height zero has the zero hash as its parent. */
  ghost predicate NoZeroParents(s: Store) {
    forall h | h in s && s[h].number > 0 :: s[h].parentHash != ZERO
  }

  /** How many blocks have to be read one by one before the walk reaches the canonical chain, its
      end or a gap. */
  function NonCanonical(s: Store, canon: map<nat, Hash>, hash: Hash, number: nat, k: nat): nat
    requires k <= number
    decreases k
  {
    if k == 0 || ReadCanonical(canon, number) == hash then 0
    else
      var b := GetBlock(s, hash, number);
      1 + if b.None? then 0 else NonCanonical(s, canon, b.value.parentHash, number - 1, k - 1)
  }

  /** From a canonical block the index gives every ancestor. */
  lemma CanonicalWalk(s: Store, cur: Block, canon: map<nat, Hash>, hash: Hash, number: nat, k: nat)
    requires Keyed(s) && Stored(s, cur) && IndexExact(s, cur, canon)
    requires k <= number && hash != ZERO && ReadCanonical(canon, number) == hash
    ensures HashWalk(s, hash, number, k) == Some(ReadCanonical(canon, number - k))
  {
    AncestorIsStored(s, cur, number);
    var b := AncestorAt(s, cur, number).value;
    AncestorTransitive(s, cur, number, number - k);
    assert number - k in canon;
    HashWalkIsAncestor(s, b, k);
  }

  lemma ZeroIsNoEntry(s: Store, cur: Block, canon: map<nat, Hash>)
    requires Keyed(s) && Stored(s, cur) && IndexExact(s, cur, canon)
    ensures forall n: nat :: ReadCanonical(canon, n) == ZERO <==> n > cur.number
  {
    forall n: nat | n <= cur.number ensures n in canon && canon[n] != ZERO {
      AncestorIsStored(s, cur, n);
    }
  }

  /** Consecutive headers, not necessarily stored yet, whose hashes collide with nothing. */
  ghost predicate Importable(s: Store, hs: seq<Block>) {
    && (forall i | 0 <= i < |hs| :: Fresh(s, hs[i]))
    && (forall i, j | 0 <= i < |hs| && 0 <= j < |hs| && hs[i].hash == hs[j].hash :: i == j)
    && (forall i | 0 < i < |hs| :: hs[i].parentHash == hs[i - 1].hash && hs[i].number == hs[i - 1].number + 1)
  }

  /** What storing a batch of headers means: store each one with its total difficulty. */
  ghost function StashAll(t: Tree, hs: seq<Block>, n: nat): Option<Tree>
    requires n <= |hs|
  {
    if n == 0 then Some(t)
    else
      var w := StashAll(t, hs, n - 1);
      if w.None? || ChildTd(w.value.blocks, w.value.td, hs[n - 1]).None? then None
      else Some(Stash(w.value, hs[n - 1]))
  }

  lemma StashImportable(t: Tree, hs: seq<Block>, n: nat)
    requires Importable(t.blocks, hs) && n < |hs| && ChildTd(t.blocks, t.td, hs[n]).Some?
    ensures Importable(Stash(t, hs[n]).blocks, hs)
  {
    var w := Stash(t, hs[n]);
    forall i | 0 <= i < |hs| ensures Fresh(w.blocks, hs[i]) {
      assert Fresh(t.blocks, hs[i]);
    }
  }

  /** The next header finds its parent's total difficulty. */
  lemma NextChildTd(w: Tree, hs: seq<Block>, n: nat)
    requires Valid(w) && Importable(w.blocks, hs) && 0 < n < |hs| && Stored(w.blocks, hs[n - 1])
    ensures hs[n - 1].hash in w.td && ChildTd(w.blocks, w.td, hs[n]) == Some(w.td[hs[n - 1].hash] + hs[n].difficulty)
  {
    assert Linked(w.genesis, w.blocks, w.td, hs[n - 1].hash);
  }

  /** The tree stays valid and grows by the first `n` headers. */
  lemma {:induction false} StashAllValid(t: Tree, hs: seq<Block>, n: nat)
    requires Valid(t) && Importable(t.blocks, hs) && 0 < n <= |hs| && ChildTd(t.blocks, t.td, hs[0]).Some?
    ensures StashAll(t, hs, n).Some?
    ensures var w := StashAll(t, hs, n).value;
            Valid(w) && Importable(w.blocks, hs) && Stored(w.blocks, hs[n - 1])
  {
    if n == 1 {
      assert StashAll(t, hs, 0) == Some(t);
      StashValid(t, hs[0]);
      StashImportable(t, hs, 0);
    } else {
      StashAllValid(t, hs, n - 1);
      var w := StashAll(t, hs, n - 1).value;
      NextChildTd(w, hs, n - 1);
      StashValid(w, hs[n - 1]);
      StashImportable(w, hs, n - 1);
    }
  }

  /** Storing a header that is already known changes nothing. */
  lemma StashKnown(t: Tree, b: Block)
    requires Valid(t) && Stored(t.blocks, b) && b.number > 0
    ensures ChildTd(t.blocks, t.td, b).Some? && Stash(t, b) == t
  {
    assert Linked(t.genesis, t.blocks, t.td, b.hash);
    assert t.blocks[b.hash := b] == t.blocks;
    assert t.td[b.hash := t.td[b.hash]] == t.td;
  }

  /** A batch is stored, all of it and nothing else. */
  lemma {:induction false} StashAllKeys(t: Tree, hs: seq<Block>, n: nat)
    requires n <= |hs| && StashAll(t, hs, n).Some?
    requires forall i, j | 0 <= i < |hs| && 0 <= j < |hs| && hs[i].hash == hs[j].hash :: i == j
    ensures var w := StashAll(t, hs, n).value;
            && (forall h | h in w.blocks :: h in t.blocks || exists i :: 0 <= i < n && hs[i].hash == h)
            && (forall i | 0 <= i < n :: Stored(w.blocks, hs[i]))
  {
    if n > 0 {
      StashAllKeys(t, hs, n - 1);
      var v := StashAll(t, hs, n - 1).value;
      forall i | 0 <= i < n - 1 ensures Stored(v.blocks[hs[n - 1].hash := hs[n - 1]], hs[i]) {
        assert Stored(v.blocks, hs[i]);
      }
    }
  }

  /** The hashes of a batch from position `n` on. */
  function HashesFrom(hs: seq<Block>, n: nat): set<Hash> {
    set i | n <= i < |hs| :: hs[i].hash
  }

  /** If every known header was saved and a batch is saved but for a known prefix, every known header is saved. */
  lemma AllSaved(t: Tree, hs: seq<Block>, k: nat, saved: set<Hash>)
    requires StashAll(t, hs, |hs|).Some? && t.blocks.Keys <= saved
    requires k <= |hs| && forall i | 0 <= i < k :: Stored(t.blocks, hs[i])
    requires forall i, j | 0 <= i < |hs| && 0 <= j < |hs| && hs[i].hash == hs[j].hash :: i == j
    ensures StashAll(t, hs, |hs|).value.blocks.Keys <= saved + HashesFrom(hs, k)
  {
    StashAllKeys(t, hs, |hs|);
    var w := StashAll(t, hs, |hs|).value;
    forall h | h in w.blocks ensures h in saved + HashesFrom(hs, k) {
      if h !in t.blocks {
        var i :| 0 <= i < |hs| && hs[i].hash == h;
      }
    }
  }

  /** `headers` and `td` are what lookups answer, caches included; only `saved` of them reached the database. */
  class HeaderChain {
    const genesis: Hash
    var td: map<Hash, nat>
    var headers: Store
    var saved: set<Hash>
    var canon: map<nat, Hash>
    var headHeaderHash: Hash
    var currentHeaderHash: Hash
    var currentHeader: Block

    ghost predicate Consistent()
      reads this
    {
      && Keyed(headers) && Stored(headers, currentHeader)
      && currentHeaderHash == headHeaderHash == currentHeader.hash
      && IndexExact(headers, currentHeader, canon)
    }

    /** A chain holding only its genesis header. */
    constructor (g: Block)
      requires g.number == 0 && g.hash != ZERO
      ensures Consistent() && AsTree() == Genesis(g) && saved == {g.hash}
    {
      genesis, saved := g.hash, {g.hash};
      td, headers, canon := map[g.hash := g.difficulty], map[g.hash := g], map[0 := g.hash];
      headHeaderHash, currentHeaderHash, currentHeader := g.hash, g.hash, g;
    }

    /** Drops the entries above the new head from the batch; reads still see the database. */
    method ClearAbove(top: nat) returns (batch: map<nat, Hash>)
      requires IndexExact(headers, currentHeader, canon)
      ensures forall n: nat :: (n in batch <==> n in canon && n <= top) && (n in batch ==> batch[n] == canon[n])
    {
      batch := canon;
      var i := top + 1;
      while i in canon
        invariant top < i && (i <= top + 1 || i <= currentHeader.number + 1)
        invariant forall n: nat :: (n in batch <==> n in canon && (n <= top || n >= i))
                                   && (n in batch ==> batch[n] == canon[n])
        decreases currentHeader.number + 1 - i
      {
        batch := batch - {i};
        i := i + 1;
      }
    }

    /** Overwrites stale entries from `first` downwards until the two chains cross. */
    method WriteBack(first: Block, top: nat, batch0: map<nat, Hash>) returns (ok: bool, batch: map<nat, Hash>)
      requires Consistent() && Stored(headers, first)
      requires forall n: nat :: (n in batch0 <==> n in canon && n <= top) && (n in batch0 ==> batch0[n] == canon[n])
      requires first.number <= top
      ensures ok <==> Complete(headers, first)
      ensures ok ==> Follows(headers, first, batch, first.number + 1)
      ensures ok ==> forall n: nat | n > first.number :: n in batch ==> n <= top
    {
      var s := headers;
      var header, headNumber, headHash := first, first.number, first.hash;
      batch := batch0;
      while headNumber !in canon || canon[headNumber] != headHash
        invariant headNumber == header.number <= first.number && headHash == header.hash
        invariant AncestorAt(s, first, headNumber) == Some(header)
        invariant Overwritten(s, first, headNumber, top, canon, batch)
        decreases headNumber
      {
        batch := batch[headNumber := headHash];
        if headNumber == 0 {
          return true, batch;
        }
        AncestorStep(s, first, headNumber);
        var parent := Parent(s, header);
        if parent.None? {
          if Complete(s, first) { CompleteBelow(s, first, headNumber - 1); }
          return false, batch;
        }
        header, headNumber, headHash := parent.value, headNumber - 1, header.parentHash;
        AncestorIsStored(s, first, headNumber);
      }
      CrossLink(s, currentHeader, first, canon, headNumber);
      return true, batch;
    }

    /** Adds the entries of `hs` themselves, taking each hash but the last from its child. */
    method WriteForward(hs: seq<Block>, batch0: map<nat, Hash>) returns (batch: map<nat, Hash>)
      requires Keyed(headers) && hs != [] && LinkedHeaders(headers, hs)
      requires Follows(headers, hs[0], batch0, hs[0].number)
      requires forall n: nat | n in batch0 :: n <= hs[|hs| - 1].number
      ensures IndexExact(headers, hs[|hs| - 1], batch)
    {
      ghost var s, last := headers, hs[|hs| - 1];
      LinkedHeadersAncestors(s, hs, 0);
      forall m: nat | m < hs[0].number ensures AncestorAt(s, last, m) == AncestorAt(s, hs[0], m) {
        AncestorTransitive(s, last, hs[0].number, m);
      }
      batch := batch0;
      for i := 0 to |hs| - 1
        invariant Follows(s, last, batch, hs[0].number + i)
        invariant forall n: nat | n in batch :: n <= last.number
      {
        LinkedHeadersAncestors(s, hs, i);
        assert hs[i + 1].parentHash == hs[i].hash;
        batch := batch[hs[i].number := hs[i + 1].parentHash];
      }
      LinkedHeadersAncestors(s, hs, |hs| - 1);
      batch := batch[hs[|hs| - 1].number := hs[|hs| - 1].hash];
    }

    /** Switches the canonical header chain to the chain ending in the last of `hs`. */
    method Reorg(hs: seq<Block>) returns (ok: bool)
      requires Consistent() && LinkedHeaders(headers, hs)
      requires hs != [] && hs[0].parentHash == currentHeaderHash ==> hs[0].number == currentHeader.number + 1
      modifies this`canon, this`headHeaderHash, this`currentHeaderHash, this`currentHeader
      ensures Consistent()
      ensures ok <==> hs == [] || Complete(headers, hs[0])
      ensures currentHeader == if ok && hs != [] then hs[|hs| - 1] else old(currentHeader)
    {
      if hs == [] {
        return true;
      }
      var first, last := hs[0], hs[|hs| - 1];
      LinkedHeadersAncestors(headers, hs, 0);
      var batch := canon;
      if first.parentHash != currentHeaderHash {
        batch := ClearAbove(last.number);
        var done;
        done, batch := WriteBack(first, last.number, batch);
        if !done {
          return false;
        }
      } else {
        ExtendsCurrent(headers, currentHeader, first, canon);
      }
      batch := WriteForward(hs, batch);
      canon := batch;
      headHeaderHash := last.hash;
      currentHeaderHash := last.hash;
      currentHeader := last;
      return true;
    }

    /** The hash of the `ancestor0`-th ancestor: straight from the index once the walk is on the
        canonical chain, and at most `max0` single steps before that. */
    method GetAncestor(hash0: Hash, number0: nat, ancestor0: nat, max0: nat) returns (r: Hash, n: nat, max: nat)
      requires Consistent() && NoZeroParents(headers)
      ensures ancestor0 > number0 ==> r == ZERO && n == 0
      ensures ancestor0 <= number0 && hash0 != ZERO ==>
                var walk := HashWalk(headers, hash0, number0, ancestor0);
                var found := walk.Some? && (ancestor0 == 1
                                            || NonCanonical(headers, canon, hash0, number0, ancestor0) <= max0);
                if found then r == walk.value && n == number0 - ancestor0
                              && max == max0 - (if ancestor0 == 1 then 0
                                                else NonCanonical(headers, canon, hash0, number0, ancestor0))
                else r == ZERO && n == 0
      // The zero hash has no ancestors, yet above the head it matches the missing entry.
      ensures 2 <= ancestor0 <= number0 && hash0 == ZERO ==>
                (r != ZERO <==> number0 - ancestor0 <= currentHeader.number < number0)
    {
      max := max0;
      if ancestor0 > number0 {
        return ZERO, 0, max;
      }
      if ancestor0 == 1 {
        var header := GetBlock(headers, hash0, number0);
        if header.Some? {
          return header.value.parentHash, number0 - 1, max;
        }
        return ZERO, 0, max;
      }
      var hash, number, ancestor := hash0, number0, ancestor0;
      while ancestor != 0
        invariant ancestor <= number && number - ancestor == number0 - ancestor0
        invariant hash == ZERO ==> hash0 == ZERO && number == number0 && ancestor == ancestor0
        invariant hash0 == ZERO ==> hash == ZERO
        invariant HashWalk(headers, hash0, number0, ancestor0) == HashWalk(headers, hash, number, ancestor)
        invariant NonCanonical(headers, canon, hash0, number0, ancestor0) - max0 ==
                  NonCanonical(headers, canon, hash, number, ancestor) - max
        decreases ancestor
      {
        if ReadCanonical(canon, number) == hash {
          if hash != ZERO {
            CanonicalWalk(headers, currentHeader, canon, hash, number, ancestor);
          } else {
            ZeroIsNoEntry(headers, currentHeader, canon);
          }
          return ReadCanonical(canon, number - ancestor), number - ancestor, max;
        }
        if max == 0 {
          return ZERO, 0, max;
        }
        max := max - 1;
        ancestor := ancestor - 1;
        var header := GetBlock(headers, hash, number);
        if header.None? {
          return ZERO, 0, max;
        }
        hash := header.value.parentHash;
        number := number - 1;
        assert hash != ZERO;
      }
      return hash, number, max;
    }

    ghost function AsTree(): Tree
      reads this
    {
      Tree(genesis, headers, td, currentHeader, None)
    }

    /** Collects the writes of a batch. Known headers are skipped as long as no unknown one came
        before, which is the same as storing them all. */
    method BatchHeaders(hs: seq<Block>, ptd: nat) returns (hbatch: Store, tbatch: map<Hash, nat>, inserted: nat)
      requires Valid(AsTree()) && Importable(headers, hs) && hs != [] && hs[0].number > 0
      requires GetTd(headers, td, hs[0].parentHash, hs[0].number - 1) == Some(ptd)
      ensures StashAll(AsTree(), hs, |hs|) == Some(AsTree().(blocks := hbatch, td := tbatch))
      ensures inserted <= |hs| && forall i | 0 <= i < |hs| - inserted :: Stored(headers, hs[i])
      ensures inserted > 0 ==> !Stored(headers, hs[|hs| - inserted])
    {
      ghost var t := AsTree();
      var newTd, parentKnown := ptd, true;
      hbatch, tbatch, inserted := headers, td, 0;
      for i := 0 to |hs|
        invariant StashAll(t, hs, i) == Some(t.(blocks := hbatch, td := tbatch))
        invariant i > 0 ==> hs[i - 1].hash in tbatch && newTd == tbatch[hs[i - 1].hash]
        invariant i == 0 ==> newTd == ptd
        invariant inserted <= i && (parentKnown <==> inserted == 0)
        invariant forall k | 0 <= k < i - inserted :: Stored(t.blocks, hs[k])
        invariant inserted > 0 ==> !Stored(t.blocks, hs[i - inserted])
        invariant parentKnown ==> hbatch == t.blocks && tbatch == t.td
      {
        var b := hs[i];
        assert Fresh(t.blocks, b);
        if i > 0 {
          StashAllValid(t, hs, i);
          NextChildTd(t.(blocks := hbatch, td := tbatch), hs, i);
        }
        newTd := newTd + b.difficulty;
        var alreadyKnown := parentKnown && GetBlock(headers, b.hash, b.number).Some?;
        if alreadyKnown {
          StashKnown(t, b);
        } else {
          tbatch := tbatch[b.hash := newTd];
          hbatch := hbatch[b.hash := b];
          inserted := inserted + 1;
        }
        parentKnown := alreadyKnown;
      }
    }

    /** Stores a batch of headers. The database gets all that was not known before, or nothing; lookups see the batch in
        any case, because the caches are filled before the interrupt is noticed. */
    method WriteHeaders(hs: seq<Block>, interrupted: bool) returns (ok: bool, inserted: nat)
      requires Valid(AsTree()) && Importable(headers, hs)
      modifies this`headers, this`td, this`saved
      ensures ok <==> hs == [] || (ChildTd(old(headers), old(td), hs[0]).Some? && !interrupted)
      ensures Some(AsTree()) == if hs == [] || ChildTd(old(headers), old(td), hs[0]).None? then Some(old(AsTree()))
                                else StashAll(old(AsTree()), hs, |hs|)
      ensures Valid(AsTree()) && Importable(headers, hs) && inserted <= |hs|
      ensures saved == if ok then old(saved) + HashesFrom(hs, |hs| - inserted) else old(saved)
      ensures ok ==> forall i | 0 <= i < |hs| - inserted :: Stored(old(headers), hs[i])
      ensures ok && inserted > 0 ==> !Stored(old(headers), hs[|hs| - inserted])
      ensures ok && old(headers.Keys <= saved) ==> headers.Keys <= saved
    {
      if hs == [] {
        return true, 0;
      }
      var ptd := if hs[0].number == 0 then None else GetTd(headers, td, hs[0].parentHash, hs[0].number - 1);
      if ptd.None? {
        return false, 0;
      }
      ghost var t, saved0 := AsTree(), saved;
      var hbatch, tbatch, count := BatchHeaders(hs, ptd.value);
      StashAllValid(t, hs, |hs|);
      headers, td := hbatch, tbatch;
      if interrupted {
        return false, 0;
      }
      saved := saved + HashesFrom(hs, |hs| - count);
      if t.blocks.Keys <= saved0 {
        AllSaved(t, hs, |hs| - count, saved0);
      }
      return true, count;
    }

    /** So a batch that was interrupted once is never saved: repeated, it succeeds as known. */
    method RetryAborted(hs: seq<Block>) returns (ok: bool, inserted: nat)
      requires Valid(AsTree()) && Importable(headers, hs) && hs != [] && ChildTd(headers, td, hs[0]).Some?
      modifies this`headers, this`td, this`saved
      ensures ok && inserted == 0 && saved == old(saved) && forall i | 0 <= i < |hs| :: Stored(headers, hs[i])
    {
      ghost var t := AsTree();
      ok, inserted := WriteHeaders(hs, true);
      StashAllKeys(t, hs, |hs|);
      StashKnown(AsTree(), hs[0]);
      ghost var w := AsTree();
      ok, inserted := WriteHeaders(hs, false);
      assert forall i | 0 <= i < |hs| :: Stored(w.blocks, hs[i]);
      StashAllKeys(w, hs, |hs|);
    }
  }
}

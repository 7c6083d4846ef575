/** The block-hash function handed to the virtual machine: a growing memo of ancestor hashes. */
module HashMemo {
  import opened Util
  import opened BlockTree

  /** What the function means, with no memo: walk parent by parent from the reference header. */
  function PlainGetHash(s: Store, ref: Block, n: nat): Hash {
    if ref.number <= n then ZERO
    else
      var walk := HashWalk(s, ref.parentHash, ref.number - 1, ref.number - 1 - n);
      if walk.Some? then walk.value else ZERO
  }

  /** Walking hashes below `b` reads the parent link of each ancestor. */
  lemma {:induction false} WalkReadsParents(s: Store, b: Block, k: nat)
    requires k < b.number
    ensures var a := AncestorAt(s, b, b.number - k);
            HashWalk(s, b.parentHash, b.number - 1, k) == if a.Some? then Some(a.value.parentHash) else None
    decreases k
  {
    if k > 0 && Parent(s, b).Some? {
      WalkReadsParents(s, Parent(s, b).value, k - 1);
    }
  }

  /** The answer for a height below the reference header is the parent link of its ancestor one above, and so the hash
      of its ancestor there, if that is stored; nothing is answered across a gap. */
  lemma AnswersAncestor(s: Store, ref: Block, n: nat)
    ensures n >= ref.number ==> PlainGetHash(s, ref, n) == ZERO
    ensures n < ref.number ==>
              var above := AncestorAt(s, ref, n + 1);
              PlainGetHash(s, ref, n) == if above.Some? then above.value.parentHash else ZERO
    ensures n + 1 == ref.number ==> PlainGetHash(s, ref, n) == ref.parentHash
    ensures n < ref.number && Keyed(s) && AncestorAt(s, ref, n).Some? ==>
              PlainGetHash(s, ref, n) == AncestorAt(s, ref, n).value.hash
  {
    if n < ref.number {
      WalkReadsParents(s, ref, ref.number - 1 - n);
      if Keyed(s) && AncestorAt(s, ref, n).Some? {
        AncestorMonotone(s, ref, n, n + 1);
        AncestorTransitive(s, ref, n + 1, n);
        AncestorHeight(s, ref, n + 1);
      }
    }
  }

  lemma {:induction false} AncestorHeight(s: Store, b: Block, n: nat)
    requires AncestorAt(s, b, n).Some?
    ensures AncestorAt(s, b, n).value.number == n
    decreases b.number
  {
    if b.number > n {
      AncestorHeight(s, Parent(s, b).value, n);
    }
  }

  class GetHashFn {
    const headers: Store
    const ref: Block
    var cache: seq<Hash>

    constructor (headers: Store, ref: Block)
      ensures this.headers == headers && this.ref == ref && Valid()
    {
      this.headers := headers;
      this.ref := ref;
      cache := [];
    }

    /** The memo holds the hashes of the parent, its parent, and so on. */
    ghost predicate Valid()
      reads this
    {
      && |cache| <= ref.number
      && forall i | 0 <= i < |cache| :: HashWalk(headers, ref.parentHash, ref.number - 1, i) == Some(cache[i])
    }

    /** Whatever was asked before, the answer is that of the plain walk. */
    method Get(n: nat) returns (r: Hash)
      requires Valid()
      modifies this`cache
      ensures Valid() && old(cache) <= cache
      ensures r == PlainGetHash(headers, ref, n)
      ensures n + 1 == ref.number ==> r == ref.parentHash
      ensures n < ref.number && Keyed(headers) && AncestorAt(headers, ref, n).Some? ==>
                r == AncestorAt(headers, ref, n).value.hash
    {
      AnswersAncestor(headers, ref, n);
      if ref.number <= n {
        return ZERO;
      }
      if |cache| == 0 {
        cache := [ref.parentHash];
      }
      if ref.number - n - 1 < |cache| {
        return cache[ref.number - n - 1];
      }
      var lastKnownHash, lastKnownNumber := cache[|cache| - 1], ref.number - |cache|;
      while true
        invariant Valid() && cache != [] && old(cache) <= cache
        invariant lastKnownHash == cache[|cache| - 1] && lastKnownNumber == ref.number - |cache| && n < lastKnownNumber
        decreases lastKnownNumber
      {
        HashWalkStep(headers, ref.parentHash, ref.number - 1, |cache| - 1);
        var header := GetBlock(headers, lastKnownHash, lastKnownNumber);
        if header.None? {
          HashWalkGap(headers, ref.parentHash, ref.number - 1, |cache|, ref.number - 1 - n);
          break;
        }
        cache := cache + [header.value.parentHash];
        lastKnownHash := header.value.parentHash;
        lastKnownNumber := header.value.number - 1;
        if n == lastKnownNumber {
          return lastKnownHash;
        }
      }
      return ZERO;
    }
  }
}

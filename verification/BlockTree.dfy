/** The stored block tree and the plain parent-by-parent walk over it.

    Everything the chain keeps in indexes is specified against `AncestorAt`,
    which follows parent links one block at a time and gives up at a gap. */
module BlockTree {
  import opened Util

  type Hash = nat

  /** The all-zero hash, which stands for "no entry" in every database read. */
  const ZERO: Hash := 0

  type TxHash = nat

  datatype Block = Block(hash: Hash, parentHash: Hash, number: nat, difficulty: nat, txs: seq<TxHash>)

  type Store = map<Hash, Block>

  /** Hashes identify blocks, and no block hashes to zero. */
  ghost predicate Keyed(s: Store) {
    ZERO !in s && forall h | h in s :: s[h].hash == h
  }

  predicate Stored(s: Store, b: Block) {
    b.hash in s && s[b.hash] == b
  }

  /** Database reads are by hash and number together. */
  function GetBlock(s: Store, hash: Hash, number: nat): Option<Block> {
    if hash in s && s[hash].number == number then Some(s[hash]) else None
  }

  /** Block zero has no parent: its predecessor number wraps to a number no block has. */
  function Parent(s: Store, b: Block): Option<Block> {
    if b.number == 0 then None else GetBlock(s, b.parentHash, b.number - 1)
  }

  /** The reference walk: the ancestor of `b` at height `n`, if no link on the way is missing. */
  function AncestorAt(s: Store, b: Block, n: nat): Option<Block>
    decreases b.number
  {
    if b.number == n then Some(b)
    else if b.number < n || Parent(s, b).None? then None
    else AncestorAt(s, Parent(s, b).value, n)
  }

  lemma {:induction false} AncestorIsStored(s: Store, b: Block, n: nat)
    requires Keyed(s) && Stored(s, b)
    ensures AncestorAt(s, b, n).Some? ==> AncestorAt(s, b, n).value.number == n && Stored(s, AncestorAt(s, b, n).value)
    decreases b.number
  {
    if b.number > n && Parent(s, b).Some? {
      AncestorIsStored(s, Parent(s, b).value, n);
    }
  }

  /** Below an ancestor, the two walks coincide. */
  lemma {:induction false} AncestorTransitive(s: Store, b: Block, n: nat, m: nat)
    requires m <= n && AncestorAt(s, b, n).Some?
    ensures AncestorAt(s, b, m) == AncestorAt(s, AncestorAt(s, b, n).value, m)
    decreases b.number
  {
    if b.number > n {
      AncestorTransitive(s, Parent(s, b).value, n, m);
    }
  }

  /** One more step of the walk. */
  lemma AncestorStep(s: Store, b: Block, n: nat)
    requires Keyed(s) && Stored(s, b)
    requires n > 0 && AncestorAt(s, b, n).Some?
    ensures AncestorAt(s, b, n - 1) == Parent(s, AncestorAt(s, b, n).value)
  {
    AncestorTransitive(s, b, n, n - 1);
    AncestorIsStored(s, b, n);
  }

  /** An ancestor is reachable only through every block above it. */
  lemma {:induction false} AncestorMonotone(s: Store, b: Block, m: nat, n: nat)
    requires m <= n <= b.number && AncestorAt(s, b, m).Some?
    ensures AncestorAt(s, b, n).Some?
    decreases b.number
  {
    if b.number > n {
      AncestorMonotone(s, Parent(s, b).value, m, n);
    }
  }

  /** Storing more blocks never changes a walk that succeeded. */
  lemma {:induction false} AncestorExtend(s: Store, s': Store, b: Block, n: nat)
    requires forall h | h in s :: h in s' && s'[h] == s[h]
    requires AncestorAt(s, b, n).Some?
    ensures AncestorAt(s', b, n) == AncestorAt(s, b, n)
    decreases b.number
  {
    if b.number > n {
      AncestorExtend(s, s', Parent(s, b).value, n);
    }
  }

  /** Every block from `b` down to block zero is stored. */
  predicate Complete(s: Store, b: Block) {
    AncestorAt(s, b, 0).Some?
  }

  lemma CompleteBelow(s: Store, b: Block, n: nat)
    requires Complete(s, b) && n <= b.number
    ensures AncestorAt(s, b, n).Some?
  {
    AncestorMonotone(s, b, 0, n);
  }

  /** `canon` holds exactly the ancestors of `b` at the heights below `top`. */
  ghost predicate IndexUpTo(s: Store, b: Block, canon: map<nat, Hash>, top: nat) {
    && (forall n: nat :: n in canon <==> n < top)
    && (forall n | n in canon :: AncestorAt(s, b, n).Some? && canon[n] == AncestorAt(s, b, n).value.hash)
  }

  /** The number-to-hash index is exactly the ancestor chain of `head`, with nothing above it. */
  ghost predicate IndexExact(s: Store, head: Block, canon: map<nat, Hash>) {
    IndexUpTo(s, head, canon, head.number + 1)
  }

  /** The chain ending in `b` includes transaction `t` at height `n`. */
  predicate Includes(s: Store, b: Block, n: nat, t: TxHash) {
    AncestorAt(s, b, n).Some? && t in AncestorAt(s, b, n).value.txs
  }

  /** The transaction lookup holds exactly the transactions of the ancestors of `b` at
      the heights below `top`, each at the height of its block. */
  ghost predicate LookupUpTo(s: Store, b: Block, lookup: map<TxHash, nat>, top: nat) {
    && (forall t | t in lookup :: lookup[t] < top && Includes(s, b, lookup[t], t))
    && (forall n: nat, t | n < top && Includes(s, b, n, t) :: t in lookup && lookup[t] == n)
  }

  ghost predicate LookupExact(s: Store, head: Block, lookup: map<TxHash, nat>) {
    LookupUpTo(s, head, lookup, head.number + 1)
  }

  /** No transaction is included at two heights of the chain ending in `b`. */
  ghost predicate NoRepeats(s: Store, b: Block) {
    forall n: nat, m: nat, t | Includes(s, b, n, t) && Includes(s, b, m, t) :: n == m
  }

  /** `t` is included at some height above `lo` and not above `hi`. */
  ghost predicate IncludedWithin(s: Store, b: Block, lo: nat, hi: nat, t: TxHash) {
    exists n: nat :: lo < n <= hi && Includes(s, b, n, t)
  }

  /** The two blocks share an ancestor at height `n`. */
  predicate Meet(s: Store, a: Block, b: Block, n: nat) {
    AncestorAt(s, a, n).Some? && AncestorAt(s, a, n) == AncestorAt(s, b, n)
  }

  /** The two blocks share some ancestor. */
  ghost predicate Joined(s: Store, a: Block, b: Block) {
    exists n: nat :: Meet(s, a, b, n)
  }

  lemma MeetBelow(s: Store, a: Block, b: Block, n: nat, m: nat)
    requires Meet(s, a, b, n) && m <= n
    ensures AncestorAt(s, a, m) == AncestorAt(s, b, m)
  {
    AncestorTransitive(s, a, n, m);
    AncestorTransitive(s, b, n, m);
  }

  /** An exact index is unique: it is determined by the head alone. */
  lemma IndexExactUnique(s: Store, head: Block, c1: map<nat, Hash>, c2: map<nat, Hash>)
    requires IndexExact(s, head, c1) && IndexExact(s, head, c2)
    ensures c1 == c2
  {
    assert forall n :: n in c1 <==> n in c2;
  }

  /** Storing more blocks disturbs neither index of a chain that is already complete. */
  lemma IndexesExtend(s: Store, s': Store, head: Block, canon: map<nat, Hash>, lookup: map<TxHash, nat>)
    requires forall h | h in s :: h in s' && s'[h] == s[h]
    requires IndexExact(s, head, canon)
    ensures IndexExact(s', head, canon)
    ensures LookupExact(s, head, lookup) ==> LookupExact(s', head, lookup)
  {
    forall n: nat | n <= head.number ensures AncestorAt(s', head, n) == AncestorAt(s, head, n) && n in canon {
      AncestorExtend(s, s', head, n);
    }
    assert forall n: nat, t | n <= head.number :: Includes(s', head, n, t) == Includes(s, head, n, t);
  }

  /** The reference walk on hashes: the `k`-th ancestor hash of a block given by hash and number.
      The last block need not be stored, only its children. */
  function HashWalk(s: Store, hash: Hash, number: nat, k: nat): Option<Hash>
    requires k <= number
    decreases k
  {
    if k == 0 then Some(hash)
    else
      var b := GetBlock(s, hash, number);
      if b.None? then None else HashWalk(s, b.value.parentHash, number - 1, k - 1)
  }

  /** On stored blocks the two walks agree. */
  lemma {:induction false} HashWalkIsAncestor(s: Store, b: Block, k: nat)
    requires Keyed(s) && Stored(s, b) && k <= b.number && AncestorAt(s, b, b.number - k).Some?
    ensures HashWalk(s, b.hash, b.number, k) == Some(AncestorAt(s, b, b.number - k).value.hash)
    decreases k
  {
    if k > 0 {
      HashWalkIsAncestor(s, Parent(s, b).value, k - 1);
    }
  }

  lemma {:induction false} HashWalkSplit(s: Store, hash: Hash, number: nat, i: nat, j: nat)
    requires i + j <= number && HashWalk(s, hash, number, i).Some?
    ensures HashWalk(s, hash, number, i + j) == HashWalk(s, HashWalk(s, hash, number, i).value, number - i, j)
    decreases i
  {
    if i > 0 {
      var b := GetBlock(s, hash, number).value;
      HashWalkSplit(s, b.parentHash, number - 1, i - 1, j);
    }
  }

  lemma HashWalkStep(s: Store, hash: Hash, number: nat, i: nat)
    requires i < number && HashWalk(s, hash, number, i).Some?
    ensures var b := GetBlock(s, HashWalk(s, hash, number, i).value, number - i);
            HashWalk(s, hash, number, i + 1) == if b.None? then None else Some(b.value.parentHash)
  {
    HashWalkSplit(s, hash, number, i, 1);
    var h := HashWalk(s, hash, number, i).value;
    var b := GetBlock(s, h, number - i);
    if b.Some? {
      assert HashWalk(s, b.value.parentHash, number - i - 1, 0) == Some(b.value.parentHash);
    }
  }

  lemma HashWalkGap(s: Store, hash: Hash, number: nat, i: nat, j: nat)
    requires i <= j <= number && HashWalk(s, hash, number, i).None?
    ensures HashWalk(s, hash, number, j).None?
    decreases i
  {
    if GetBlock(s, hash, number).Some? {
      HashWalkGap(s, GetBlock(s, hash, number).value.parentHash, number - 1, i - 1, j - 1);
    }
  }
}

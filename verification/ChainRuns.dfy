/** Whole runs of block imports and finalisations, on the block tree alone.

    `Import` says which block becomes the head and which are only stored. The class in
    `Blockchain` carries it out by editing its indexes in place. */
module ChainRuns {
  import opened Util
  import opened BlockTree
  import opened ForkChoice

  datatype Tree = Tree(genesis: Hash, blocks: Store, td: map<Hash, nat>, head: Block, finalized: Option<Block>)

  datatype WriteStatus = NonStat | SideStat | CanonStat

  function GetTd(blocks: Store, td: map<Hash, nat>, hash: Hash, number: nat): Option<nat> {
    if GetBlock(blocks, hash, number).Some? && hash in td then Some(td[hash]) else None
  }

  /** The total difficulty a new block gets, if its parent is known. */
  function ChildTd(blocks: Store, td: map<Hash, nat>, b: Block): Option<nat> {
    if b.number == 0 then None
    else
      var ptd := GetTd(blocks, td, b.parentHash, b.number - 1);
      if ptd.None? then None else Some(b.difficulty + ptd.value)
  }

  /** Storing a block with its total difficulty, whatever the fork choice says later. */
  function Stash(t: Tree, b: Block): Tree
    requires ChildTd(t.blocks, t.td, b).Some?
  {
    t.(blocks := t.blocks[b.hash := b], td := t.td[b.hash := ChildTd(t.blocks, t.td, b).value])
  }

  /** The finality guard: the new branch contains the finalized block. Block zero needs no check. */
  predicate KeepsFinalized(blocks: Store, b: Block, finalized: Option<Block>) {
    finalized.Some? && finalized.value.number > 0 ==>
      var a := AncestorAt(blocks, b, finalized.value.number);
      a.Some? && a.value.hash == finalized.value.hash
  }

  function Choice(t: Tree, b: Block, terminalTd: Option<nat>, vote: Vote): Option<bool> {
    ReorgNeeded(GetTd(t.blocks, t.td, t.head.hash, t.head.number), GetTd(t.blocks, t.td, b.hash, b.number),
                terminalTd, t.head.number, b.number, vote)
  }

  /** One import. The boolean reports an error. */
  ghost function Import(t: Tree, b: Block, terminalTd: Option<nat>, vote: Vote): (Tree, WriteStatus, bool) {
    if ChildTd(t.blocks, t.td, b).None? then (t, NonStat, true)
    else
      var w := Stash(t, b);
      var reorg := Choice(w, b, terminalTd, vote);
      if reorg.None? then (w, NonStat, true)
      else if !reorg.value || !KeepsFinalized(w.blocks, b, w.finalized) then (w, SideStat, false)
      else if b.parentHash != w.head.hash && !Joined(w.blocks, w.head, b) then (w, NonStat, true)
      else (w.(head := b), CanonStat, false)
  }

  /** A hash never names two blocks, and is never zero. */
  predicate Fresh(blocks: Store, b: Block) {
    b.hash != ZERO && (b.hash in blocks ==> blocks[b.hash] == b)
  }

  /** A stored block is the genesis block, or its parent is stored and it carries its parent's
      total difficulty plus its own. */
  ghost predicate Linked(genesis: Hash, blocks: Store, td: map<Hash, nat>, h: Hash)
    requires h in blocks
  {
    && h in td
    && (blocks[h].number == 0 ==> h == genesis)
    && (blocks[h].number > 0 ==> ChildTd(blocks, td, blocks[h]) == Some(td[h]))
  }

  ghost predicate Valid(t: Tree) {
    && Keyed(t.blocks) && Stored(t.blocks, t.head)
    && t.blocks.Keys <= t.td.Keys
    && forall h {:trigger Linked(t.genesis, t.blocks, t.td, h)} | h in t.blocks :: Linked(t.genesis, t.blocks, t.td, h)
  }

  /** The finalized block is on the chain of the head. */
  ghost predicate FinalizedCanonical(t: Tree) {
    t.finalized.Some? ==> AncestorAt(t.blocks, t.head, t.finalized.value.number) == t.finalized
  }

  function Genesis(g: Block): Tree {
    Tree(g.hash, map[g.hash := g], map[g.hash := g.difficulty], g, None)
  }

  lemma GenesisValid(g: Block)
    requires g.number == 0 && g.hash != ZERO
    ensures Valid(Genesis(g)) && FinalizedCanonical(Genesis(g))
  {
  }

  lemma {:induction false} ValidComplete(t: Tree, b: Block)
    requires Valid(t) && Stored(t.blocks, b)
    ensures Complete(t.blocks, b)
    decreases b.number
  {
    if b.number > 0 {
      assert Linked(t.genesis, t.blocks, t.td, b.hash);
      ValidComplete(t, Parent(t.blocks, b).value);
    }
  }

  /** In a valid tree any two blocks share an ancestor, so a reorganisation always finds one. */
  lemma ValidJoined(t: Tree, a: Block, b: Block)
    requires Valid(t) && Stored(t.blocks, a) && Stored(t.blocks, b)
    ensures Joined(t.blocks, a, b)
  {
    ValidComplete(t, a);
    ValidComplete(t, b);
    AncestorIsStored(t.blocks, a, 0);
    AncestorIsStored(t.blocks, b, 0);
    assert Linked(t.genesis, t.blocks, t.td, AncestorAt(t.blocks, a, 0).value.hash);
    assert Linked(t.genesis, t.blocks, t.td, AncestorAt(t.blocks, b, 0).value.hash);
    assert Meet(t.blocks, a, b, 0);
  }

  /** Storing a block adds to the tree and changes nothing in it. */
  ghost predicate Extends(t: Tree, t': Tree) {
    forall h | h in t.blocks :: h in t'.blocks && t'.blocks[h] == t.blocks[h]
                                && (h in t.td ==> h in t'.td && t'.td[h] == t.td[h])
  }

  lemma StashExtends(t: Tree, b: Block)
    requires Valid(t) && Fresh(t.blocks, b) && ChildTd(t.blocks, t.td, b).Some?
    ensures Extends(t, Stash(t, b))
  {
    if b.hash in t.blocks {
      assert Linked(t.genesis, t.blocks, t.td, b.hash);
    }
  }

  lemma LinkedExtends(t: Tree, t': Tree, h: Hash)
    requires Extends(t, t') && t.genesis == t'.genesis && h in t.blocks && Linked(t.genesis, t.blocks, t.td, h)
    ensures Linked(t'.genesis, t'.blocks, t'.td, h)
  {
  }

  lemma StashLinked(t: Tree, b: Block)
    requires Valid(t) && Fresh(t.blocks, b) && ChildTd(t.blocks, t.td, b).Some?
    ensures var w := Stash(t, b); Linked(w.genesis, w.blocks, w.td, b.hash)
  {
    if b.hash in t.blocks {
      StashExtends(t, b);
      LinkedExtends(t, Stash(t, b), b.hash);
    }
  }

  lemma StashValid(t: Tree, b: Block)
    requires Valid(t) && Fresh(t.blocks, b) && ChildTd(t.blocks, t.td, b).Some?
    ensures Valid(Stash(t, b)) && Stored(Stash(t, b).blocks, b)
    ensures Extends(t, Stash(t, b))
  {
    var w := Stash(t, b);
    StashExtends(t, b);
    StashLinked(t, b);
    forall h | h in t.blocks ensures Linked(w.genesis, w.blocks, w.td, h) {
      LinkedExtends(t, w, h);
    }
  }

  /** Total difficulty of a chain, summed block by block. */
  function SumDifficulty(s: Store, b: Block): nat
    decreases b.number
  {
    b.difficulty + if Parent(s, b).None? then 0 else SumDifficulty(s, Parent(s, b).value)
  }

  /** The stored total difficulties are sums over whole ancestor chains, up to the offset of block zero. */
  lemma {:induction false} TdIsSum(t: Tree, b: Block, g: Block)
    requires Valid(t) && Stored(t.blocks, b) && Stored(t.blocks, g) && g.number == 0
    ensures t.td[b.hash] == SumDifficulty(t.blocks, b) - g.difficulty + t.td[g.hash]
    decreases b.number
  {
    assert Linked(t.genesis, t.blocks, t.td, b.hash) && Linked(t.genesis, t.blocks, t.td, g.hash);
    if b.number > 0 {
      TdIsSum(t, Parent(t.blocks, b).value, g);
    }
  }

  /** An import fails only when the parent is unknown, and moves the head exactly when the fork
      choice asks for it and the new branch contains the finalized block. */
  lemma ImportOutcome(t: Tree, b: Block, terminalTd: Option<nat>, vote: Vote)
    requires Valid(t) && Fresh(t.blocks, b)
    ensures var (t', status, err) := Import(t, b, terminalTd, vote);
            && (err <==> ChildTd(t.blocks, t.td, b).None?)
            && (err ==> t' == t && status == NonStat)
            && (!err ==> t' == Stash(t, b).(head := t'.head) && status != NonStat)
            && t'.head == (if status == CanonStat then b else t.head)
            && (status == CanonStat <==>
                  !err && Choice(Stash(t, b), b, terminalTd, vote) == Some(true)
                      && KeepsFinalized(Stash(t, b).blocks, b, t.finalized))
  {
    if ChildTd(t.blocks, t.td, b).Some? {
      StashValid(t, b);
      var w := Stash(t, b);
      ValidJoined(w, w.head, b);
      assert Linked(t.genesis, t.blocks, t.td, t.head.hash);
    }
  }

  /** A block with a stored parent and more total difficulty than the head becomes the head, if it is on the branch of
      the finalized block. With less it is only stored, unless it reaches the terminal difficulty. */
  lemma HeavierWins(t: Tree, b: Block, terminalTd: Option<nat>, vote: Vote)
    requires Valid(t) && Fresh(t.blocks, b) && b.number > 0
    requires b.parentHash in t.blocks && t.blocks[b.parentHash].number == b.number - 1
    ensures var (t', status, err) := Import(t, b, terminalTd, vote);
            var td := t.td[b.parentHash] + b.difficulty;
            && !err && t'.blocks == t.blocks[b.hash := b] && t'.td == t.td[b.hash := td]
            && t'.finalized == t.finalized
            && (td > t.td[t.head.hash]
                && (t.finalized.Some? ==> AncestorAt(t'.blocks, b, t.finalized.value.number) == t.finalized) ==>
                  status == CanonStat && t'.head == b)
            && (td < t.td[t.head.hash] && (terminalTd.Some? ==> td < terminalTd.value) ==>
                  status == SideStat && t'.head == t.head)
  {
    ImportOutcome(t, b, terminalTd, vote);
    StashExtends(t, b);
    assert Linked(t.genesis, t.blocks, t.td, b.parentHash);
  }

  /** An import keeps the tree valid, and never moves the head off the finalized block. */
  lemma ImportKeeps(t: Tree, b: Block, terminalTd: Option<nat>, vote: Vote)
    requires Valid(t) && FinalizedCanonical(t) && Fresh(t.blocks, b)
    ensures var t' := Import(t, b, terminalTd, vote).0;
            Valid(t') && Extends(t, t') && FinalizedCanonical(t') && t'.finalized == t.finalized
  {
    ImportOutcome(t, b, terminalTd, vote);
    if ChildTd(t.blocks, t.td, b).Some? {
      StashValid(t, b);
      var w := Stash(t, b);
      if t.finalized.Some? {
        var f := t.finalized.value;
        AncestorExtend(t.blocks, w.blocks, t.head, f.number);
        if KeepsFinalized(w.blocks, b, t.finalized) {
          KeepsFinalizedBlock(w, b, f);
        }
      }
    }
  }

  /** Passing the guard means the finalized block itself is on the new branch. */
  lemma KeepsFinalizedBlock(w: Tree, b: Block, f: Block)
    requires Valid(w) && Stored(w.blocks, b) && AncestorAt(w.blocks, w.head, f.number) == Some(f)
    requires KeepsFinalized(w.blocks, b, Some(f))
    ensures AncestorAt(w.blocks, b, f.number) == Some(f)
  {
    AncestorIsStored(w.blocks, w.head, f.number);
    if f.number == 0 {
      ValidComplete(w, b);
    }
    AncestorIsStored(w.blocks, b, f.number);
    assert Linked(w.genesis, w.blocks, w.td, f.hash);
    assert Linked(w.genesis, w.blocks, w.td, AncestorAt(w.blocks, b, f.number).value.hash);
  }

  /** Moving the head to a stored block without the guard leaves the finalized block exactly where the guard would have
      refused. */
  lemma KnownHead(t: Tree, b: Block)
    requires Valid(t) && FinalizedCanonical(t) && Stored(t.blocks, b)
    ensures Valid(t.(head := b))
    ensures FinalizedCanonical(t.(head := b)) <==> KeepsFinalized(t.blocks, b, t.finalized)
  {
    if t.finalized.Some? && KeepsFinalized(t.blocks, b, t.finalized) {
      KeepsFinalizedBlock(t, b, t.finalized.value);
    }
  }

  /** It can: two blocks on the genesis block, one of them finalized, and the head moved to the other. */
  lemma KnownHeadLeaves(g: Block, a: Block, b: Block)
    requires g.number == 0 && a.number == b.number == 1 && a.parentHash == b.parentHash == g.hash
    requires g.hash != ZERO && a.hash != ZERO && b.hash != ZERO && g.hash != a.hash && g.hash != b.hash
             && a.hash != b.hash
    ensures var t := Tree(g.hash, map[g.hash := g, a.hash := a, b.hash := b],
                          map[g.hash := g.difficulty, a.hash := g.difficulty + a.difficulty,
                              b.hash := g.difficulty + b.difficulty], a, Some(a));
            Valid(t) && FinalizedCanonical(t) && Stored(t.blocks, b) && Joined(t.blocks, a, b)
                && !FinalizedCanonical(t.(head := b))
  {
    var t := Tree(g.hash, map[g.hash := g, a.hash := a, b.hash := b],
                  map[g.hash := g.difficulty, a.hash := g.difficulty + a.difficulty,
                      b.hash := g.difficulty + b.difficulty], a, Some(a));
    assert Parent(t.blocks, a) == Some(g) && Parent(t.blocks, b) == Some(g);
    ValidJoined(t, a, b);
  }

  datatype Event = ImportBlock(b: Block, terminalTd: Option<nat>, vote: Vote) | Finalize(b: Block)

  /** Imported blocks come with collision-free hashes; finalized blocks are canonical. */
  ghost predicate Allowed(t: Tree, e: Event) {
    match e
    case ImportBlock(b, _, _) => Fresh(t.blocks, b)
    case Finalize(b) => AncestorAt(t.blocks, t.head, b.number) == Some(b)
  }

  ghost function Apply(t: Tree, e: Event): Tree {
    match e
    case ImportBlock(b, terminalTd, vote) => Import(t, b, terminalTd, vote).0
    case Finalize(b) => t.(finalized := Some(b))
  }

  ghost function Run(t: Tree, es: seq<Event>): Tree
    decreases |es|
  {
    if es == [] then t else Run(Apply(t, es[0]), es[1..])
  }

  ghost predicate RunAllowed(t: Tree, es: seq<Event>)
    decreases |es|
  {
    es == [] || (Allowed(t, es[0]) && RunAllowed(Apply(t, es[0]), es[1..]))
  }

  /** Every state of every run is a valid tree whose finalized block lies on the head's chain. */
  lemma {:induction false} RunKeeps(t: Tree, es: seq<Event>)
    requires Valid(t) && FinalizedCanonical(t) && RunAllowed(t, es)
    ensures Valid(Run(t, es)) && FinalizedCanonical(Run(t, es))
    decreases |es|
  {
    if es != [] {
      if es[0].ImportBlock? {
        ImportKeeps(t, es[0].b, es[0].terminalTd, es[0].vote);
      }
      RunKeeps(Apply(t, es[0]), es[1..]);
    }
  }

  /** The finalized block stays at or above height `n` throughout the run. */
  ghost predicate FinalizedFrom(t: Tree, es: seq<Event>, n: nat) {
    && t.finalized.Some? && t.finalized.value.number >= n
    && forall e | e in es && e.Finalize? :: e.b.number >= n
  }

  /** Whatever is canonical at or below the finalized block is canonical for ever: the index at its
      height never changes again, whichever branches are imported later. */
  lemma {:induction false} FinalizedForever(t: Tree, es: seq<Event>, f: Block)
    requires Valid(t) && FinalizedCanonical(t) && RunAllowed(t, es)
    requires FinalizedFrom(t, es, f.number) && AncestorAt(t.blocks, t.head, f.number) == Some(f)
    ensures AncestorAt(Run(t, es).blocks, Run(t, es).head, f.number) == Some(f)
    decreases |es|
  {
    if es != [] {
      var t' := Apply(t, es[0]);
      if es[0].ImportBlock? {
        ImportKeepsBelowFinalized(t, es[0].b, es[0].terminalTd, es[0].vote, f);
      }
      FinalizedForever(t', es[1..], f);
    }
  }

  lemma ImportKeepsBelowFinalized(t: Tree, b: Block, terminalTd: Option<nat>, vote: Vote, f: Block)
    requires Valid(t) && FinalizedCanonical(t) && Fresh(t.blocks, b)
    requires t.finalized.Some? && t.finalized.value.number >= f.number
             && AncestorAt(t.blocks, t.head, f.number) == Some(f)
    ensures var t' := Import(t, b, terminalTd, vote).0;
            && Valid(t') && FinalizedCanonical(t') && t'.finalized == t.finalized
            && AncestorAt(t'.blocks, t'.head, f.number) == Some(f)
  {
    ImportKeeps(t, b, terminalTd, vote);
    var t' := Import(t, b, terminalTd, vote).0;
    var n := t.finalized.value.number;
    AncestorExtend(t.blocks, t'.blocks, t.head, f.number);
    AncestorExtend(t.blocks, t'.blocks, t.head, n);
    AncestorTransitive(t'.blocks, t.head, n, f.number);
    AncestorTransitive(t'.blocks, t'.head, n, f.number);
  }

  lemma ImportTd(t: Tree, b: Block, vote: Vote)
    requires Valid(t) && FinalizedCanonical(t) && Fresh(t.blocks, b)
    ensures var t' := Import(t, b, None, vote).0;
            Valid(t') && HeadTd(t') >= HeadTd(t)
  {
    ImportKeeps(t, b, None, vote);
    ImportOutcome(t, b, None, vote);
    if ChildTd(t.blocks, t.td, b).Some? {
      StashExtends(t, b);
    }
  }

  ghost function HeadTd(t: Tree): nat
    requires Valid(t)
  {
    t.td[t.head.hash]
  }

  /** With no terminal difficulty configured the head's total difficulty never falls. */
  lemma {:induction false} TdNeverFalls(t: Tree, es: seq<Event>)
    requires Valid(t) && FinalizedCanonical(t) && RunAllowed(t, es)
    requires forall e | e in es && e.ImportBlock? :: e.terminalTd.None?
    ensures Valid(Run(t, es)) && HeadTd(Run(t, es)) >= HeadTd(t)
    decreases |es|
  {
    if es != [] {
      if es[0].ImportBlock? {
        ImportKeeps(t, es[0].b, es[0].terminalTd, es[0].vote);
        ImportTd(t, es[0].b, es[0].vote);
      }
      TdNeverFalls(Apply(t, es[0]), es[1..]);
    }
  }
}

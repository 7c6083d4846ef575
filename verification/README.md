# Verified models of gtos core components

A Dafny model of the parts of gtos (a Go node derived from go-ethereum) in which several pieces of mutable
state have to stay in step: the canonical chain and its indexes, the transaction pool, block execution with
batched privacy transactions, gas settlement, event delivery and two small stores. Imperative Go code becomes
classes and methods with loops; each method is proved against functions and predicates on plain values, and
what the code promises is proved about those.

`dafny verify dfyconfig.toml` verifies everything. One module per file:

| area | modules |
|---|---|
| block tree, reorganisation, finality | `BlockTree`, `ForkChoice`, `ChainRuns`, `Blockchain`, `HeaderChain`, `HashMemo` |
| sectioned chain index | `ChainIndexer` |
| transaction pool | `Nonces`, `Txs`, `Heap`, `SortedMap`, `TxList`, `Weights`, `PricedList`, `Sponsors`, `StageOne`, `Promotion`, `Demotion`, `Truncation`, `TxPool` |
| privacy transactions | `Privacy`, `PrivacyRules`, `BatchSpec`, `BatchRuns`, `BatchGas`, `BatchExec`, `PrivacyExec`, `PrivacyNonces`, `PrivacyLedger`, `PrivacyBlocks`, `PrivacyDrift`, `StaleCopies`, `PrivacyReplay` |
| gas | `StateTransition` |
| events, signer storage | `Feed`, `SignerStore` |
| shared | `Util`, `Sums` |

## Main results

1. **Canonical chain.** From an index that is the ancestor chain of the head, a reorganisation followed by writing
   the new head leaves exactly the ancestor chain of the new head, nothing above it, and a transaction lookup that
   is exact if no transaction repeats on a chain (`Blockchain.BlockChain.MoveHead`,
   `HeaderChain.HeaderChain.Reorg`).
2. **Finality and fork choice over every run.** In every sequence of imports and finalisations the head descends from
   the finalized block, what is canonical at or below it stays canonical, and without a terminal difficulty the
   head's total difficulty never falls (`ChainRuns.RunKeeps`, `FinalizedForever`, `TdNeverFalls`); a heavier block on the
   finalized branch becomes the head (`ChainRuns.HeavierWins`); the class refines the transition that this is proved about (`Blockchain.BlockChain.WriteBlockAndSetHead`).
3. **Batching is invisible** exactly if every batch accepted on speculative copies would also be proven in its turn:
   then state, receipts, gas and verdict are those of executing one at a time, whichever proofs fail and wherever flushes
   fall, and otherwise a transaction that fails alone is recorded as successful, unless a public one aborts the block
   (`BatchExec.Executor.ExecuteTransactions`, `BatchRuns.FaithfulMeets`, `BatchRuns.UnfaithfulDiffers`). It is so in every
   block in which no public transaction changes the state under a left-over copy, and so in every run of privacy
   transactions (`BatchSpec.QuietFaithful`, `PrivacyExec.ExecutePrivacyBlock`). In every block that completes, faithful or
   not, each item has its receipt, cumulative gas adds up and every public transaction fitted into the gas that was left
   (`BatchGas.BlockMetered`), and the successful privacy transactions of one sender have rising nonces, so that none is
   executed twice, as long as public ones lower no privacy nonce (`PrivacyNonces.BlockRises`). One at a time the nonces are
   exactly consecutive (`PrivacyNonces.SerialNonces`).
4. **Value is conserved**, across public and private balances, by every such block whose public transactions conserve it,
   exactly if no transfer to oneself succeeds (`PrivacyBlocks.ExecuteBlock`, `PrivacyBlocks.FaithfulConserves`). One at a
   time that holds without a condition on the block (`PrivacyLedger.RunConserves`, `PrivacyBlocks.ReferenceConserves`),
   but those lemmas alone say nothing about batches. Any other block changes the total by exactly the differences between
   claimed and actual balances of what is applied without a proof, plus what transfers to oneself create
   (`PrivacyDrift.FinalTotal`, `SettledDrift`, `ProvenDrift`). For each kind of privacy transaction it is stated exactly
   when it is executed, and what every account has afterwards (`PrivacyRules.TransferAccepted`, `TransferEffect`, and so on).
5. **Gas.** A message is applied exactly if it passes all checks; the payer is charged the limit and the validation gas
   and gets back what was not used, the coinbase gets the price of exactly the gas used, the refund is capped, and the sum
   of balances is conserved; for a plain transfer the final balance of every account is given; the sender's nonce rises by
   one, and the sponsor's if there is one, so that a plain message that was applied is refused when it comes again
   (`StateTransition.Transition.TransitionDb`, `StateTransition.NoReplay`).
6. **Sponsored promotion** terminates and promotes, of every listed account, exactly the queued run between its old and
   its new next nonce; each sponsor's frontier moves over exactly the nonces that promoted transactions use, each used
   once; afterwards the next transaction of every listed account is missing or waits for a sponsor nonce that is not the
   least one that no pending transaction uses; nothing else changes, and sponsors' pending nonces stay an unbroken, duplicate-free run from the chain's nonce
   (`TxPool.TxPool.PromoteSponsored`, `Promotion.AdvancedChain`).
7. **Demotion.** After normalisation every frontier is the least unused sponsor nonce; the transactions are the same
   as before if no nonce is both pending and queued, which is an invariant: adding, both stages of promotion, demotion and
   truncation keep it (`Demotion.DemoteConserves`, `TxPool.NormalizedKeeps`); one pass leaves nothing beyond a frontier
   exactly if what it takes leaves no hole below what stays (`Demotion.OnePassEnough`).
8. **Truncation** terminates with the pool within its limit or every non-local account within its allowance, takes
   only highest nonces, cuts nobody below the allowance and nobody below another non-local account, and stops within
   one round of the limit (`TxPool.TxPool.TruncatePending`).
9. **Heap-backed lists refine plain sorted maps** (`SortedMap.SortedMap`), the cached caps never change the outcome
   of a filter (`TxList.TxList.Filter`), and strict lists stay gap-free.
10. **Eviction** succeeds exactly if it is forced or enough live slots are tracked; every heap entry is accounted for
    and the stale counter falls by exactly the stale entries popped; nothing left in the floating heap pays less than what
    was dropped, by fee cap and then tip (`PricedList.PricedList.Discard`).
11. **Feed.** Every channel that does not leave gets a value once for each of its subscriptions, and with distinct channels
    every subscriber present at the start gets it exactly once unless it is removed first, in which case it is gone
    afterwards (`Feed.Feed.Send`, `Feed.ExactlyOnce`).
12. **Section index.** Although only the last section head is compared, afterwards every stored head above the
    checkpoint is canonical (`ChainIndexer.Indexer.VerifyLastHead`). A section becomes known only when its last block has
    its confirmations, and then at once; after a reorganisation no known section ends above the common head, and no more
    are forgotten than had to be (`ChainIndexer.Indexer.NewHead`).
13. **Ancestor lookups** through the canonical index, or through a memo, agree with a parent-by-parent walk
    (`HeaderChain.HeaderChain.GetAncestor`, `HashMemo.GetHashFn.Get`).
14. **Signer metadata** is history-independent (`SignerStore.SetMany`, `SignerStore.HistoryIndependent`).

These promises hold only under a condition, which is stated as an equivalence beside a concrete failing input:

* batched execution equals one-at-a-time execution (`BatchExec.Executor.ExecuteTransactions` and
  `StaleCopies.StaleCopyLoses`, a block in which 5 of 16 units of value are lost as well);
* value is conserved one at a time (`PrivacyLedger.RunConserves` and `SelfTransferCreates`);
* peeking at ready transactions matches taking them (`SortedMap.PeekMatchesReady` and `PeekFallsShort`);
* one demoting pass is enough (`Demotion.OnePassEnough` and `OnePassFallsShort`);
* the first stage of promotion leaves no gap in the pending nonces (`StageOne.StageKeepsExecutable` and `SponsoredFirst`);
* writing a known block keeps the finalized block canonical (`Blockchain.BlockChain.WriteKnownBlock` and
  `ChainRuns.KnownHeadLeaves`);
* an accepted replacement pays the configured percentage more (`TxList.BumpExact` and `BumpIgnored`).

And one fails on a whole family of inputs: a batch of headers whose import was interrupted is reported as known when it is
imported again, and never reaches the database (`HeaderChain.HeaderChain.RetryAborted`).

## Reading the model

* Hashes, channels and addresses are natural numbers; hashes are collision-free (`ChainRuns.Fresh`), and zero is the
  zero hash. Database reads that can miss return an `Option`.
* The database is the current value of a few maps. Batches are written at once. In `HeaderChain`, whose caches are filled
  before a batch is written, the maps are what lookups answer and `saved` is what reached the database.
* Commitments and ciphertexts carry their opening; a proof is the statement it proves (`Privacy.Statement`,
  `Privacy.Holds`). Private balances are scaled to public units by `Privacy.Scale`.
* Contract execution and system actions are functions that conserve balance and return no more gas than they got
  (`StateTransition.Conserving`).
* Go's unordered map iteration, channel readiness and ties in priority queues are arbitrary choices, so a result
  holds for every order.
* Nonces in `SortedMap` are 64-bit numbers (`Txs.Keyed`) and the counter of `Ready` wraps around. Other counters are
  unbounded unless the code tests for overflow.
* Comments in the Go source say that `PeekReady` returns the same prefix as `Ready` and that normalisation restores
  the sponsor prefix. The code does so under the conditions above, and the model follows the code.

## Model

| member | source | states |
|---|---|---|
| `BlockTree.CompleteBelow` | core/blockchain.go:1345-1355 | an unbroken ancestor chain is unbroken below every height |
| `BlockTree.MeetBelow` | core/blockchain.go:2063-2093 | two chains that share a block share everything below it |
| `BlockTree.IndexExactUnique` | core/blockchain.go:808-829 | there is only one index that is the ancestor chain of a head |
| `BlockTree.HashWalkIsAncestor` | core/headerchain.go:406-438 | following parent hashes and following parent blocks reach the same ancestor |
| `ForkChoice.ReorgNeeded` | core/forkchoice.go:61-92 | a decision is reached iff both difficulties are known; short of the terminal difficulty a move never lowers total difficulty; staying means the other side is not heavier and below the terminal difficulty; a tie goes to the lower block, then to the preserved one, then to the draw |
| `ForkChoice.NoMoveBack` | core/forkchoice.go:61-92 | a head that moved does not move back, except by the draw between blocks of equal difficulty and height of which neither is preserved |
| `ChainRuns.GenesisValid` | core/blockchain.go:219-410 | a chain of only the genesis block satisfies the invariants |
| `ChainRuns.StashValid` | core/blockchain.go:1249-1269 | storing a block keeps the tree linked and every known block and difficulty as it was |
| `ChainRuns.TdIsSum` | core/blockchain.go:1249-1269 | stored total difficulties are sums over the whole ancestor chain |
| `ChainRuns.ValidJoined` | core/blockchain.go:2024-2179 | in a valid tree a reorganisation always finds a common ancestor |
| `ChainRuns.ImportOutcome` | core/blockchain.go:1359-1414 | an import fails iff the parent is unknown, and moves the head iff the fork choice asks for it and the branch contains the finalized block |
| `ChainRuns.HeavierWins` | core/blockchain.go:1359-1414 | with a stored parent, a block heavier than the head becomes the head if the finalized block is among its ancestors; a lighter one short of the terminal difficulty is only stored; either way block and difficulty are stored |
| `ChainRuns.ImportKeeps` | core/blockchain.go:1359-1414 | an import keeps the tree valid and the finalized block on the head's chain |
| `ChainRuns.RunKeeps` | core/blockchain.go:1345-1414 | the same for every run of imports and finalisations |
| `ChainRuns.FinalizedForever` | core/blockchain.go:1345-1414 | a block canonical at or below the finalized one is canonical at the end of every later run |
| `ChainRuns.ImportTd` | core/forkchoice.go:61-92 | without a terminal difficulty one import never lowers the head's total difficulty |
| `ChainRuns.TdNeverFalls` | core/forkchoice.go:61-92 | the same for every run |
| `ChainRuns.KnownHead` | core/blockchain.go:1236-1245 | moving the head to a stored block without the finality guard leaves the finalized block exactly where the guard would have refused |
| `ChainRuns.KnownHeadLeaves` | core/blockchain.go:1236-1245 | a tree for which it does |
| `Blockchain.LookupExactNoRepeats` | core/blockchain.go:814-814 | under an exact lookup every transaction of the chain is found at the one block that has it |
| `Blockchain.LookupAfterReorg` | core/blockchain.go:2036-2135 | rewriting the new side and deleting what only the old side has turns an exact lookup into an exact one |
| `Blockchain.SharedTxKept` | core/blockchain.go:2130-2135 | a transaction on both sides of a fork is not deleted |
| `Blockchain.ReorgedIndex` | core/blockchain.go:2024-2154 | the rewritten and pruned index is the new chain, below the entry left to the head writer |
| `Blockchain.ReorgedLookup` | core/blockchain.go:2036-2135 | the rewritten and pruned lookup holds exactly the new chain's transactions if none repeats |
| `Blockchain.StepDown` | core/blockchain.go:2036-2056 | walks to a height, collecting the segment passed and its transactions, or finds that the chain breaks above it |
| `Blockchain.StepTogether` | core/blockchain.go:2063-2093 | finds the highest common ancestor and both segments, iff there is a common ancestor |
| `Blockchain.BlockChain.constructor` | core/blockchain.go:219-410 | the genesis chain has exact indexes |
| `Blockchain.BlockChain.WriteHeadBlock` | core/blockchain.go:808-829 | records number, lookups and all head markers of one block |
| `Blockchain.BlockChain.FindFork` | core/blockchain.go:2036-2093 | succeeds iff the sides share an ancestor, and returns the highest one with both segments and the old side's transactions |
| `Blockchain.BlockChain.RewriteBelowHead` | core/blockchain.go:2118-2128 | writes the new segment lowest first, all but its head |
| `Blockchain.BlockChain.StaleHeights` | core/blockchain.go:2137-2150 | finds exactly the entries above the new chain |
| `Blockchain.BlockChain.MoveIndexes` | core/blockchain.go:2118-2153 | index and lookup move to the new chain |
| `Blockchain.BlockChain.Reorg` | core/blockchain.go:2024-2154 | succeeds iff the chains join; then the index is the new chain up to the new head, and the lookup exact if it was and nothing repeats; on failure nothing changes |
| `Blockchain.BlockChain.IsFinalizedAncestor` | core/blockchain.go:1345-1355 | true iff the ancestor at the finalized height is the finalized block |
| `Blockchain.BlockChain.CheckFinalized` | core/blockchain.go:1371-1377 | decides the finality guard |
| `Blockchain.BlockChain.WriteBlockWithState` | core/blockchain.go:1249-1269 | stores block and difficulty iff the parent's difficulty is known, and disturbs no index |
| `Blockchain.BlockChain.MoveHead` | core/blockchain.go:1378-1394 | the head moves iff the block extends it or the chains join; all indexes are then exactly those of the new head |
| `Blockchain.BlockChain.WriteKnownBlock` | core/blockchain.go:1236-1245 | the same for a block already stored, without the finality guard: the finalized block stays canonical iff the guard would have let the block pass |
| `Blockchain.BlockChain.WriteBlockAndSetHead` | core/blockchain.go:1359-1414 | carries out exactly `ChainRuns.Import` and keeps the indexes exact |
| `HeaderChain.HeaderChain.constructor` | core/headerchain.go:79-112 | a header chain of only the genesis header is consistent |
| `HeaderChain.HeaderChain.ClearAbove` | core/headerchain.go:154-161 | drops exactly the entries above the new head |
| `HeaderChain.HeaderChain.WriteBack` | core/headerchain.go:162-180 | overwrites downwards until the chains cross; succeeds iff the ancestor chain is unbroken, and the index then follows it |
| `HeaderChain.HeaderChain.WriteForward` | core/headerchain.go:182-193 | adds the headers themselves, leaving the index exact for the last one |
| `HeaderChain.HeaderChain.Reorg` | core/headerchain.go:139-203 | the index is always the ancestor chain of the current header, which becomes the last header iff the chain of the first is unbroken |
| `HeaderChain.HeaderChain.GetAncestor` | core/headerchain.go:406-438 | returns the plain walk's hash iff the walk exists and needs no more than the allowed non-canonical steps, otherwise zero; the allowance left is exact; exact answer for the zero hash |
| `HeaderChain.CanonicalWalk` | core/headerchain.go:417-424 | from a canonical hash the index gives the hash of the walk |
| `HeaderChain.HeaderChain.BatchHeaders` | core/headerchain.go:209-261 | skipping the headers that lookups know stores the same as storing all, with the same difficulties; counts the rest |
| `HeaderChain.HeaderChain.WriteHeaders` | core/headerchain.go:209-261 | fails iff the first parent's difficulty is unknown or the import is interrupted; the database gets all that was not known or nothing, while lookups see the batch even when it was interrupted; without interrupts every known header is saved |
| `HeaderChain.HeaderChain.RetryAborted` | core/headerchain.go:209-261 | a batch that was interrupted once succeeds as known when repeated, and is not saved |
| `HeaderChain.StashAllValid` | core/headerchain.go:209-261 | storing a linked batch keeps the tree valid |
| `HashMemo.GetHashFn.constructor` | core/vm_context.go:57-61 | an empty memo is valid |
| `HashMemo.WalkReadsParents` | core/vm_context.go:76-91 | walking hashes below a header reads the parent links of its ancestors one by one |
| `HashMemo.AnswersAncestor` | core/vm_context.go:57-93 | the answer for a lower height is the parent link of the ancestor one above, hence the hash of the ancestor there if it is stored, and zero across a gap; at or above the header it is zero |
| `HashMemo.GetHashFn.Get` | core/vm_context.go:57-93 | whatever was asked before, the answer is the plain walk's: the parent hash just below the reference header, and the hash of the ancestor at that height wherever it is stored |
| `ChainIndexer.CanonicalDown` | core/chain_indexer.go:406-413 | if one section head is canonical, all stored ones below it are |
| `ChainIndexer.LinkedTruncate` | core/chain_indexer.go:463-475 | rolling back keeps the section heads linked |
| `ChainIndexer.LinkedExtend` | core/chain_indexer.go:332-352 | committing a section keeps them linked |
| `ChainIndexer.LinkedGrow` | core/chain_indexer.go:479-488 | the links survive growth of the header store |
| `ChainIndexer.WholeSections` | core/chain_indexer.go:234-263 | dividing gives the number of sections that end at or below a block |
| `ChainIndexer.KnownSections` | core/chain_indexer.go:260-276 | the rule for new heads, from the ends of the sections alone |
| `ChainIndexer.KeptSections` | core/chain_indexer.go:232-248 | the rule for reorganisations, likewise |
| `ChainIndexer.CascadeTarget` | core/chain_indexer.go:249-257 | dependent indexers go back to just after the last whole section, or to the very start if the checkpoint lies above |
| `ChainIndexer.Indexer.constructor` | core/chain_indexer.go:87-106 | an empty index satisfies the invariant |
| `ChainIndexer.Indexer.SetValidSections` | core/chain_indexer.go:463-475 | the count is set and exactly the dropped sections' heads are removed |
| `ChainIndexer.Indexer.AddCheckpoint` | core/chain_indexer.go:114-127 | a checkpoint ahead of everything is taken over, any other ignored; while a section is processed the invariant survives iff the checkpoint ends at or below that section |
| `ChainIndexer.Indexer.Rollback` | core/chain_indexer.go:463-475 | keeps the invariant |
| `ChainIndexer.Indexer.VerifyLastHead` | core/chain_indexer.go:406-413 | afterwards every stored head above the checkpoint is canonical, and only non-canonical ones were dropped |
| `ChainIndexer.Indexer.CascadeBack` | core/chain_indexer.go:249-257 | the cascaded head moves back to the last whole section |
| `ChainIndexer.Indexer.ReorgHead` | core/chain_indexer.go:231-259 | exact new counts and cascaded head; known and stored sections end at or below the common head and no more are forgotten than had to be, all known ones if the checkpoint lies above; so canonical heads stay canonical |
| `ChainIndexer.Indexer.NewHead` | core/chain_indexer.go:227-284 | the known count rises only to a section whose last block has its confirmations, and the next section has not, once the checkpoint is reached and the chain matches it; a reorganisation has exactly the effect of `ReorgHead` |
| `ChainIndexer.Indexer.UpdateBegin` | core/chain_indexer.go:304-319 | work starts iff sections are waiting, on verified heads; only non-canonical sections were dropped |
| `ChainIndexer.Indexer.ProcessSection` | core/chain_indexer.go:372-401 | succeeds iff the backend resets and commits and takes every block of the section, each found on top of the one before; then the blocks form one chain on the previous head, however the canonical chain changed meanwhile |
| `ChainIndexer.FeedBlocks` | core/chain_indexer.go:382-395 | the blocks are fed iff each is found on top of the one before and taken |
| `ChainIndexer.Indexer.UpdateEnd` | core/chain_indexer.go:332-352 | commits iff the predecessor is still in place, otherwise drops reorganised sections and no canonical one |
| `ChainIndexer.Indexer.Sections` | core/chain_indexer.go:418-424 | reports only canonical sections, and drops only non-canonical ones |
| `Heap.RootLeast` | core/tx_list.go:17-34 | the root of a heap is least |
| `Heap.Push` | core/tx_list.go:24-26 | adds one element and keeps the heap |
| `Heap.Pop` | core/tx_list.go:28-34 | takes a least element and keeps the heap |
| `Heap.RemoveAt` | core/tx_list.go:162-166 | takes the element at a position and keeps the heap |
| `Heap.Init` | core/tx_list.go:105-105 | makes a heap of the same elements |
| `SortedMap.SortedMap.constructor` | core/tx_list.go:45-50 | an empty map is valid |
| `SortedMap.SortedMap.Put` | core/tx_list.go:59-65 | inserts or overwrites, keeping heap and cache in step |
| `SortedMap.SortedMap.Forward` | core/tx_list.go:70-84 | keeps the nonces from the threshold on and returns the rest in order |
| `SortedMap.SortedMap.Reheap` | core/tx_list.go:100-107 | restores validity from the map alone |
| `SortedMap.SortedMap.FilterOnly` | core/tx_list.go:111-125 | removes and returns exactly the selected transactions |
| `SortedMap.SortedMap.Filter` | core/tx_list.go:91-98 | the same, leaving a valid map |
| `SortedMap.SortedMap.Cap` | core/tx_list.go:129-150 | keeps exactly the lowest nonces up to the limit and returns the others, highest first |
| `SortedMap.SortedMap.Remove` | core/tx_list.go:154-171 | removes one nonce iff present |
| `SortedMap.SortedMap.Ready` | core/tx_list.go:180-195 | takes nothing if all nonces are beyond the start, otherwise the unbroken run from the least one |
| `SortedMap.SortedMap.PeekReady` | core/tx_list.go:199-213 | under the same condition the unbroken run from the start, below the top nonce |
| `SortedMap.PeekMatchesReady` | core/tx_list.go:180-213 | peeking equals taking iff no nonce is below the start and the run does not reach the top nonce |
| `SortedMap.PeekFallsShort` | core/tx_list.go:180-213 | a map for which it does not |
| `SortedMap.SortedMap.Flatten` | core/tx_list.go:220-241 | lists all transactions in order of nonces, cached or not |
| `SortedMap.SortedMap.FirstElement` | core/tx_list.go:245-251 | the least nonce's transaction, or none iff empty |
| `SortedMap.SortedMap.LastElement` | core/tx_list.go:255-258 | the greatest nonce's transaction |
| `Txs.ListingUnique` | core/tx_list.go:235-241 | the sorted listing of a map is unique |
| `TxList.TxList.constructor` | core/tx_list.go:274-280 | an empty list is valid |
| `TxList.TxList.Overlaps` | core/tx_list.go:284-286 | whether the nonce is taken |
| `TxList.TxList.Add` | core/tx_list.go:293-330 | accepted iff the nonce is free or the newcomer outbids, with the threshold in signed 64-bit arithmetic; where that fits, iff both are signer transactions or both fees are higher and up by the percentage; the caps still bound every transaction |
| `TxList.PercentExact` | core/tx_list.go:303-311 | the factor computed from the price bump is the intended one iff it fits 63 bits |
| `TxList.BumpExact` | core/tx_list.go:299-319 | every replacement accepted for its price is up by the configured percentage iff that fits 63 bits |
| `TxList.BumpIgnored` | core/tx_list.go:299-319 | beyond that a price of 2 replaces a price of 1 |
| `TxList.TxList.Forward` | core/tx_list.go:335-337 | as for the map; gap-free stays gap-free |
| `TxList.CapsCover` | core/tx_list.go:348-352 | limits at or above the caps drop nothing, so the early exit agrees with a scan |
| `TxList.TxList.Filter` | core/tx_list.go:348-377 | removes exactly what is over a limit and, in strict mode, everything behind the first of it, early exit or not; what is left is within the limits, and the caps still bound it |
| `TxList.TxList.FilterBy` | core/tx_list.go:356-376 | the same for any selection |
| `TxList.TxList.Cap` | core/tx_list.go:381-383 | as for the map; gap-free stays gap-free |
| `TxList.TxList.Remove` | core/tx_list.go:388-399 | removes one nonce and, in strict mode, everything above it; a strict gap-free list stays gap-free |
| `TxList.FilteredGapFree` | core/tx_list.go:348-377 | strict filtering keeps a gap-free list gap-free |
| `TxList.CappedGapFree` | core/tx_list.go:381-383 | so does capping |
| `TxList.PayableKept` | core/tx_pool.go:1960-2006 | what such a filter keeps can be paid for, and what it removes for its own sake cannot |
| `TxList.FilterUnpayable` | core/tx_pool.go:1960-2006 | drops exactly what sender or sponsor cannot pay for, whether the cached caps or a scan decide: for all that is left the sponsor has price times gas and the sender the value, or the sender both, and a block can hold it; for what was removed that fails |
| `PricedList.PriceLtWeak` | core/tx_list.go:459-483 | the price order is a strict weak order, so heaps over it are meaningful |
| `PricedList.PriceOrder` | core/tx_list.go:459-483 | the comparison is by the effective tip under the base fee, then by fee cap, then by tip |
| `PricedList.PricedList.constructor` | core/tx_list.go:529-533 | an empty index is valid |
| `PricedList.PricedList.Put` | core/tx_list.go:536-542 | tracks a remote transaction, ignores a local one |
| `PricedList.PricedList.Removed` | core/tx_list.go:547-555 | counts stale entries, and rebuilds iff they exceed a quarter; the counter is exact if it then covers all stale entries |
| `PricedList.PricedList.RemoveRemotes` | core/tx_pool.go:1184-1187 | when transactions leave the pool and a count is reported, an exact counter stays exact iff just as many tracked entries went stale or the heaps are rebuilt |
| `PricedList.PricedList.Underpriced` | core/tx_list.go:559-587 | true iff something is tracked and the transaction pays no more than any entry, under the base fee in the urgent heap and by fee cap and tip in the floating one |
| `PricedList.Collect` | core/tx_list.go:593-620 | every entry is still tracked, dropped live or thrown away stale; stops once covered or both heaps are empty; the last one dropped is cheapest |
| `PricedList.AccountedWeights` | core/tx_list.go:593-629 | live slots and stale counts fall by exactly what was dropped and thrown away |
| `PricedList.LiveKept` | core/tx_list.go:593-629 | a live entry that was not dropped is tracked as often as before |
| `PricedList.PricedList.Discard` | core/tx_list.go:593-629 | succeeds iff forced or enough live slots are tracked; drops no more than needed; nothing left in the floating heap pays less than what was dropped; on failure the live entries are unchanged; the stale counter stays exact |
| `PricedList.PricedList.Reheap` | core/tx_list.go:632-656 | tracks each remote transaction once, a fifth of them in the floating heap, none of which pays more than one in the urgent heap, with no stale entry |
| `PricedList.PricedList.SetBaseFee` | core/tx_list.go:660-663 | the same under the new base fee |
| `Sponsors.FrontierUnique` | core/tx_pool.go:1895-1911 | a sponsor has one frontier |
| `Sponsors.Collect` | core/tx_pool.go:1880-1894 | collects exactly the sponsor nonces in use |
| `Sponsors.NextFree` | core/tx_pool.go:1900-1907 | the least number from the start on that is not in the set; it exceeds 64 bits iff every number from the start to the top one is in the set |
| `Sponsors.Rebuild` | core/tx_pool.go:1879-1911 | every sponsor's frontier is the least nonce at or above the chain's that no pending transaction uses, also for sponsors with none |
| `StageOne.ReadyRun` | core/tx_list.go:180-195 | the ready run of a plain map |
| `StageOne.PromotePublic` | core/tx_pool.go:1544-1554 | of the ready run, public transactions become pending, sponsored ones are queued again, and the next nonce is one past the last public one; other accounts and the sponsors are untouched; pending and queued nonces stay apart, every transaction is kept, and the sponsors' runs stay unbroken |
| `StageOne.StageKeepsExecutable` | core/tx_pool.go:1544-1554 | the pending nonces stay unbroken up to the next nonce iff no public transaction of the run follows a sponsored one |
| `StageOne.SponsoredFirst` | core/tx_pool.go:1544-1554 | a run where one does: nonce 1 ends up pending without nonce 0, and the next nonce is 2 |
| `Promotion.PromoteTx` | core/tx_pool.go:919-954 | inserted iff the nonce is free or the newcomer outbids; then both next nonces advance |
| `Promotion.MovedDisjoint` | core/tx_pool.go:1606-1613 | a promotion keeps the pool's transactions and keeps pending and queued nonces apart |
| `Promotion.MovedContiguous` | core/tx_pool.go:1599-1613 | promoting a transaction its sponsor is up to extends the sponsor's unbroken run by one |
| `Promotion.MoveOne` | core/tx_pool.go:1606-1613 | takes one transaction out of the queue; it becomes pending, with both next nonces advanced, iff its nonce is free or it outbids; no other account changes |
| `Promotion.MovedAdvanced` | core/tx_pool.go:1599-1613 | promoting the next, served transaction of an account shifts that account by one and its sponsor's frontier by one, and nothing else |
| `Promotion.AdvancedChain` | core/tx_pool.go:1581-1620 | so any sequence of promotions moves exactly the runs between old and new next nonces, and frontiers over exactly the nonces used, each once |
| `Promotion.PromoteReadies` | core/tx_pool.go:1587-1618 | exactly a run from the next nonce on is promoted and the account is blocked afterwards; progress shrinks the queue, and without progress nothing changed |
| `Promotion.Pass` | core/tx_pool.go:1585-1619 | the same for all listed accounts, no other account touched; a pass without progress changes nothing and leaves every listed account blocked |
| `Promotion.PromoteSponsored` | core/tx_pool.go:1581-1620 | terminates; exactly the runs between old and new next nonces are promoted, frontiers move over exactly the nonces used, unlisted accounts are untouched, and every listed account is blocked: its next transaction is missing, or wants a sponsor nonce other than the least unused one |
| `Promotion.BlockedWaits` | core/tx_pool.go:1581-1620 | a blocked account waits in that sense |
| `Demotion.FirstGap` | core/tx_pool.go:1923-1935 | the first transaction at or beyond its sponsor's frontier; what stays is everything below it |
| `Demotion.KeptExactly` | core/tx_pool.go:1923-1958 | a transaction stays pending iff its sponsor, and that of each one before it, is past its sponsor nonce |
| `Demotion.EnqueueAll` | core/tx_pool.go:1946-1949 | the queue ends up with the better transaction at every nonce |
| `Demotion.DemoteConserves` | core/tx_pool.go:1936-1953 | each nonce keeps its number of transactions iff no demoted nonce was queued already |
| `Demotion.DemoteKeeps` | core/tx_pool.go:1936-1953 | in that case the very same transactions remain |
| `Demotion.DemotionLoses` | core/tx_pool.go:1936-1953 | why that is needed: an account that would lose one, in a state no operation of the pool leads to |
| `Demotion.OnePassEnough` | core/tx_pool.go:1913-1958 | nothing pending is at or beyond a frontier afterwards iff, decided on the lists before, what is to be demoted leaves no hole below what stays |
| `Demotion.StillUsedHeld` | core/tx_pool.go:1913-1958 | which sponsor nonces are in use after the pass is decided before it |
| `Demotion.OnePassSuffices` | core/tx_pool.go:1913-1958 | in particular if no demoted follower was below its sponsor's old frontier |
| `Demotion.OnePassFallsShort` | core/tx_pool.go:1913-1958 | a pool for which one pass is not enough |
| `Truncation.CountAll` | core/tx_pool.go:1630-1632 | counts all entries |
| `Truncation.Round` | core/tx_pool.go:1660-1680 | cuts one entry off each offender's list, and no other |
| `Truncation.CutDown` | core/tx_pool.go:1658-1709 | rounds until the total fits or the offenders are down to the floor, overshooting by less than a round |
| `Truncation.AddOffender` | core/tx_pool.go:1649-1682 | the next longest list joins, and the earlier offenders come down to it, staying level |
| `Truncation.Truncate` | core/tx_pool.go:1627-1710 | terminates; only ends of non-local lists go, none below the allowance or below another non-local list; the total fits or nobody is over the allowance; stops within one round |
| `TxPool.DemotePass` | core/tx_pool.go:1919-1954 | every account is demoted as specified, in any order, and its next nonce lowered to the first demoted one |
| `TxPool.Normalize` | core/tx_pool.go:1919-1958 | the same with frontiers computed before and after |
| `TxPool.NormalizedNoneBeyond` | core/tx_pool.go:1913-1958 | nothing is left at or beyond a frontier iff the lists before the pass have no such hole |
| `TxPool.NormalizedKeeps` | core/tx_pool.go:1919-1958 | with no nonce both pending and queued, all transactions are kept, and nonces stay apart |
| `TxPool.NormalizedContiguous` | core/tx_pool.go:1913-1958 | normalisation restores the invariant that promotion keeps iff there is no such hole, if no sponsor nonce is used twice or before the chain's |
| `TxPool.WithDisjoint` | core/tx_pool.go:811-846 | taking a transaction in, as pending or queued, keeps pending and queued nonces apart |
| `TxPool.WithNoClash` | core/tx_pool.go:1858-1877 | a replacement that keeps to the same sponsor nonce makes none used twice |
| `TxPool.CutsTopGone` | core/tx_pool.go:1661-1673 | repeated capping removes exactly the highest nonces and lowers the next nonce to the least of them |
| `TxPool.CapPending` | core/tx_pool.go:1627-1710 | truncation in terms of the pool's lists and next nonces; reports a cut iff the pending lists changed, and without one changes nothing |
| `TxPool.CapsNoClash` | core/tx_pool.go:1661-1673 | capping makes no sponsor nonce used twice |
| `TxPool.NormalizedFits` | core/tx_pool.go:1711-1713 | demotion afterwards keeps the pool within its limit or allowances |
| `TxPool.TxPool.constructor` | core/tx_pool.go:1484-1485 | an empty pool satisfies every invariant |
| `TxPool.TxPool.GetNonce` | core/tx_noncer.go:71-84 | a nonce read from the chain state is remembered, which changes no answer |
| `TxPool.TxPool.GetSponsorNonce` | core/sponsor_noncer.go:26-34 | the same for sponsors |
| `TxPool.TxPool.Add` | core/tx_pool.go:811-846 | taken in iff it may replace the pending transaction at its nonce, or the queue has room or a worse one; a free nonce always is, and a replacement pays more or is between signer transactions, and takes over the sponsor nonce; demotion follows iff sponsors are involved; nonces stay apart, and the sponsors' runs stay unbroken iff the replacement leaves no hole |
| `TxPool.AcceptsFairly` | core/tx_pool.go:811-846 | that rule, for every pool and transaction |
| `TxPool.TxPool.PromoteSponsored` | core/tx_pool.go:1581-1620 | main result 6 on the pool object |
| `TxPool.TxPool.NormalizeSponsoredPending` | core/tx_pool.go:1919-1958 | main result 7 on the pool object |
| `TxPool.TxPool.TruncatePending` | core/tx_pool.go:1627-1715 | main result 8 on the pool object: nothing changes, or the capped pool is demoted as specified; the sponsors' runs stay unbroken iff nothing was cut or the cut leaves no hole |
| `BatchSpec.DoneOne` | core/execute_transactions_privacy.go:245-268 | executing one more privacy item alone advances the reference by one |
| `BatchSpec.DonePublic` | core/execute_transactions_privacy.go:270-290 | executing a public item advances the reference, or aborts with it |
| `BatchSpec.DivergedNotDone` | core/execute_transactions_privacy.go:64-91 | once an item is recorded as successful that fails alone, the block never equals the reference |
| `BatchSpec.QuietCopy` | core/execute_transactions_privacy.go:131-185 | in a block in which no public item changes the state under a left-over copy, as long as candidates verify, the copy is the reference state and each candidate is proven in its turn |
| `BatchSpec.QuietFaithful` | core/execute_transactions_privacy.go:36-229 | in such a block every accepted batch is proven in its turn |
| `BatchSpec.PrivacyLastFaithful` | core/execute_transactions_privacy.go:36-229 | so it is when no public item follows a privacy one |
| `BatchRuns.AbortsExactly` | core/execute_transactions_privacy.go:187-196 | batched execution is aborted iff a public item is rejected or does not fit the gas pool |
| `BatchGas.BlockMetered` | core/execute_transactions_privacy.go:187-222 | a block that completes has a receipt for every item, in order; privacy items use no gas, cumulative gas adds up, gas used and left make up the pool, and every public item fitted into what was left |
| `BatchRuns.UncheckedDone` | core/execute_transactions_privacy.go:64-91 | applying a sound batch without checks stays in step with one-at-a-time execution |
| `BatchRuns.UncheckedStrays` | core/execute_transactions_privacy.go:64-91 | applying a batch that is not sound records a transaction as successful that fails alone |
| `BatchRuns.BatchedTracks` | core/execute_transactions_privacy.go:131-223 | as long as flushes are sound, batched execution is in step, with the copy and candidates that the reference states lead to |
| `BatchRuns.BatchedStrays` | core/execute_transactions_privacy.go:131-223 | after the first flush that is not, a wrong receipt stays to the end |
| `BatchRuns.FaithfulMeets` | core/execute_transactions_privacy.go:36-229 | a faithful block has the verdict and outcome of one-at-a-time execution |
| `BatchRuns.UnfaithfulDiffers` | core/execute_transactions_privacy.go:36-229 | a block that is not faithful has not, unless it is aborted |
| `BatchExec.Executor.constructor` | core/execute_transactions_privacy.go:46-53 | a fresh execution is where batched execution of the block starts |
| `BatchExec.Executor.ApplyBatch` | core/execute_transactions_privacy.go:64-91 | applies an accepted batch without checks up to the first candidate that cannot be applied, as specified |
| `BatchExec.Executor.ApplyRest` | core/execute_transactions_privacy.go:93-124 | executes the others one at a time, as specified |
| `BatchExec.Executor.Flush` | core/execute_transactions_privacy.go:55-129 | settles all candidates as specified, and drops the copy only with a non-empty batch |
| `BatchExec.Executor.Speculate` | core/execute_transactions_privacy.go:132-184 | an item becomes a candidate iff it can be prepared and applied on the speculative copy |
| `BatchExec.Executor.StepPrivacy` | core/execute_transactions_privacy.go:132-185 | one privacy item is one step of batched execution |
| `BatchExec.Executor.StepPublic` | core/execute_transactions_privacy.go:187-222 | one public item is one step of batched execution, or aborts with it |
| `BatchExec.Executor.ExecuteTransactions` | core/execute_transactions_privacy.go:36-229 | verdict, state, gas and receipts of batched execution for every block; aborted iff a public item is rejected or does not fit the gas pool; receipts complete and gas accounted for; a faithful block has the outcome of one-at-a-time execution; an unfaithful one that is not aborted has not, with a transaction recorded as successful that fails alone |
| `BatchSpec.SerialIsReference` | core/execute_transactions_privacy.go:245-268 | on privacy items the reference is serial execution |
| `PrivacyExec.ApplyState` | core/privacy_tx_prepare.go:56-222 | editing the state step by step gives the specified result, or an error |
| `PrivacyExec.ApplyPrepared` | core/execute_transactions_privacy.go:231-243 | applies and pays the fee, or leaves the state as it was |
| `PrivacyExec.ExecuteSingle` | core/execute_transactions_privacy.go:245-268 | one transaction: prepared, verified and applied, or nothing changed; if applied it had the sender's next nonce, which is one higher afterwards, and nobody else's nonce changed |
| `PrivacyExec.ExecutePrivacyBlock` | core/execute_transactions_privacy.go:36-268 | for every run of privacy transactions, batched execution equals serial execution in state and receipts |
| `PrivacyRules.SettledNonce` | core/privacy_tx_prepare.go:405-684 | whatever is prepared and applied, checked or not, had the sender's next nonce, raises it by one, and changes no other |
| `PrivacyRules.ExecOneNonce` | core/execute_transactions_privacy.go:245-268 | so does a transaction that is executed |
| `PrivacyRules.AuditorRules` | core/privacy_tx_prepare.go:405-684 | an auditor handle comes with its proof iff an auditor key is set |
| `PrivacyRules.TerminalRules` | core/privacy_tx_prepare.go:347-403 | a sender with a policy wallet needs a policy for the terminal class that allows the kind and the amount, and a terminal trusted at least moderately and as the policy asks; no terminal counts as the fully trusted application |
| `PrivacyRules.TransferAccepted` | core/privacy_tx_prepare.go:405-509 | a transfer is executed iff nonce, signature, terminal, auditor, memo and fee limit are in order, versions can be raised, ciphertexts decode, and the proofs show amount and remainder in range, the remainder being balance less amount less fee limit |
| `PrivacyRules.ShieldAccepted` | core/privacy_tx_prepare.go:511-590 | a shield is executed iff nonce, signature, terminal and auditor are in order, the fee is paid and the public balance covers amount and fee, and the proofs show that the commitment opens to the amount |
| `PrivacyRules.UnshieldAccepted` | core/privacy_tx_prepare.go:592-684 | an unshield is executed iff the same holds, the recipient can pay the fee afterwards, and the proofs show the remainder, balance less amount, in range |
| `PrivacyRules.TransferEffect` | core/privacy_tx_prepare.go:56-110 | sender less amount and fee, receiver plus amount, coinbase plus fee, nobody else changed; to oneself only the credit stays |
| `PrivacyRules.ShieldEffect` | core/privacy_tx_prepare.go:129-171 | sender publicly less amount and fee, recipient privately plus amount, coinbase plus fee, nobody else changed |
| `PrivacyRules.UnshieldEffect` | core/privacy_tx_prepare.go:191-222 | sender privately less amount, recipient publicly plus amount less fee, coinbase plus fee, nobody else changed |
| `PrivacyNonces.SerialNonces` | core/execute_transactions_privacy.go:245-268 | in every run executed one at a time an account's nonce rises by the number of its transactions that succeed, each of which has the nonce reached by then |
| `PrivacyNonces.SerialRises` | core/execute_transactions_privacy.go:245-268 | so successful transactions of one sender have rising nonces, and equal ones never both succeed |
| `PrivacyNonces.BlockRises` | core/execute_transactions_privacy.go:36-229 | the same for the receipts of every block that completes, in batches and faithful or not, if public items lower no privacy nonce |
| `PrivacyLedger.TransferTotal` | core/privacy_tx_prepare.go:405-509 | an accepted transfer conserves value with its fee, except to oneself, where it adds the amount |
| `PrivacyLedger.ShieldTotal` | core/privacy_tx_prepare.go:511-590 | an accepted shield conserves value with its fee |
| `PrivacyLedger.UnshieldTotal` | core/privacy_tx_prepare.go:592-684 | an accepted unshield conserves value with its fee |
| `PrivacyLedger.ExecOneTotal` | core/privacy_tx_prepare.go:56-222 | one accepted transaction, including the coinbase fee, conserves the total and keeps balances non-negative |
| `PrivacyLedger.RunConserves` | core/privacy_tx_prepare.go:56-222 | over every run executed one at a time: no balance negative, and the total conserved iff no transfer to oneself was accepted |
| `PrivacyLedger.SelfTransferCreates` | core/privacy_tx_prepare.go:56-110 | an accepted transfer of 3 with fee 1 from an account to itself, which ends with 13 instead of 9 |
| `PrivacyBlocks.ReferenceConserves` | core/execute_transactions_privacy.go:245-290 | a block executed one at a time, with public items that only move value: no balance negative, and the total conserved iff no transfer to oneself succeeds |
| `PrivacyBlocks.FaithfulConserves` | core/execute_transactions_privacy.go:36-229 | the same for a faithful block executed in batches, read off its receipts |
| `PrivacyBlocks.ExecuteBlock` | core/execute_transactions_privacy.go:36-229 | main result 4 on the executor, and rising nonces of each sender's successful privacy items |
| `PrivacyDrift.SettledDrift` | core/privacy_tx_prepare.go:56-222 | applied without a proof check, a transaction changes the total by exactly the claimed less the actual balance, or, to oneself, by amount and fee |
| `PrivacyDrift.ProvenDrift` | core/privacy_tx_prepare.go:51-54 | with its proof verified only a transfer to oneself changes it |
| `PrivacyDrift.FinalTotal` | core/execute_transactions_privacy.go:36-229 | every block that is not aborted changes the total by exactly the sum of these, plus what its public items create |
| `StaleCopies.SpendInTurn` | core/execute_transactions_privacy.go:65-80 | a transfer that fails alone, and what applying it without a check leaves |
| `StaleCopies.StaleCopyLoses` | core/execute_transactions_privacy.go:55-185 | a block of a failing shield, a payment, a shield and a transfer that is not faithful: no transfer to oneself, but the total falls by 5 units and the transfer is recorded as successful |
| `StaleCopies.ExecuteStale` | core/execute_transactions_privacy.go:36-229 | the executor on that block |
| `PrivacyReplay.Round` | core/tx_pool_privacy_batch.go:125-137 | one round; without progress everything left fails |
| `PrivacyReplay.Replay` | core/tx_pool_privacy_batch.go:121-142 | terminates; each transaction is applied at most once, in some order that leads to the result; every leftover fails on it |
| `PrivacyReplay.ApplyTxNonce` | core/privacy_tx_validation.go:14-70 | what the pool applies takes its nonce |
| `PrivacyReplay.ForkInvisible` | core/tx_pool_privacy_batch.go:37-83 | a forked round replays the same transactions as the batch it came from |
| `PrivacyReplay.ReplayPrivacyTxs` | core/tx_pool_privacy_batch.go:121-142 | the same for the pool's validation step; what is applied for one sender has rising nonces |
| `StateTransition.IntrinsicGas` | core/state_transition.go:141-175 | at least the base cost, within 64 bits |
| `StateTransition.IntrinsicGasExact` | core/state_transition.go:141-175 | fails iff the cost does not fit 64 bits |
| `StateTransition.ExecutedConserves` | core/state_transition.go:430-516 | execution returns no more gas than it got and only moves balances |
| `StateTransition.StartBalance` | core/state_transition.go:238-426 | the balance of every account when execution starts: the payer charged for limit and validation, nobody else touched but by validation |
| `StateTransition.BegunSum` | core/state_transition.go:238-426 | what is charged before execution in total; nobody is in debt then if the fee cap covers the price and validation leaves the payer enough |
| `StateTransition.PlainSettles` | core/state_transition.go:485-529 | the balances a plain message leaves |
| `StateTransition.StartNonces` | core/state_transition.go:405-445 | when execution starts the sender's nonce is one higher, except for a creation, the sponsor's too, and no other |
| `StateTransition.NoncesSettle` | core/state_transition.go:405-529 | and so it is after a plain message |
| `StateTransition.NoReplay` | core/state_transition.go:262-290 | with its nonce used up a message is refused in whatever surroundings, unless it is simulated |
| `StateTransition.ApplyTwice` | core/state_transition.go:310-536 | of two transitions with the same plain message the second is refused if the first was applied |
| `StateTransition.PlainAccepted` | core/state_transition.go:238-426 | a plain message to a target that does not validate is accepted iff nonces match and can be raised, sender and target are accepted, the payer has the limit at the fee cap, the block has the limit, the limit covers 21000 gas and the data, the sender has the value after the charge, and the sponsor's policy agrees |
| `StateTransition.SystemActions` | core/state_transition.go:460-502 | a system action costs 100000 gas or all there is, fails without it, and leaves nothing behind when it fails |
| `StateTransition.SponsorPays` | core/state_transition.go:238-260 | the sponsor pays for the gas and the sender for the value |
| `StateTransition.Transition.BuyGas` | core/state_transition.go:238-260 | succeeds iff payer and block can afford the limit, and charges the payer |
| `StateTransition.Transition.ValidateAccount` | core/state_transition.go:647-730 | passes iff the payer covers the worst case and validation accepts; leaves validation's result with the payer, and only the payer, charged for the gas used |
| `StateTransition.Transition.PreCheck` | core/state_transition.go:262-298 | passes iff nonces and sender are accepted and payer and block can afford the limit; then the payer is charged the limit |
| `StateTransition.Transition.Prepare` | core/state_transition.go:345-426 | succeeds iff validation, intrinsic gas, transfer and sponsor checks pass; gives state, gas and validation gas exactly |
| `StateTransition.Transition.Execute` | core/state_transition.go:428-516 | raises the nonce, equals the execution step and conserves balances |
| `StateTransition.Transition.RefundGas` | core/state_transition.go:865-876 | refunds the smaller of the counter and the capped share, and returns unused gas |
| `StateTransition.Transition.SettleGas` | core/state_transition.go:518-529 | payer and coinbase together get back the limit and the validation gas |
| `StateTransition.Transition.TransitionDb` | core/state_transition.go:310-536 | applied iff accepted; the states at start and end of execution, the settlement, the capped refund, block gas, conservation, the final balance of every account for plain messages, no debt, and the nonces: the sender's one higher at the start of execution, except for a creation, and the sponsor's, nobody else's, and still so after a plain message |
| `Feed.Feed.constructor` | event/feed.go:60-65 | an empty feed is idle |
| `Feed.Feed.Subscribe` | event/feed.go:72-92 | a new subscription waits in the inbox |
| `Feed.Feed.Find` | event/feed.go:213-220 | the first case for a channel, or none |
| `Feed.Feed.Delete` | event/feed.go:223-225 | removes one position in place |
| `Feed.Feed.Deactivate` | event/feed.go:228-232 | swaps a delivered case behind the waiting prefix |
| `Feed.Feed.RemoveIdle` | event/feed.go:103-124 | removes one case for the channel, from the inbox or the active cases |
| `Feed.Feed.AppendInbox` | event/feed.go:134-137 | the inbox moves behind the active cases, in a larger array if needed |
| `Feed.Feed.TrySendAll` | event/feed.go:156-165 | offers the value to each waiting case once and accounts for every case |
| `Feed.Feed.SelectOne` | event/feed.go:169-181 | one delivery, or one removal of a channel that wants to leave, accounted for |
| `Feed.Feed.Send` | event/feed.go:128-190 | returns the number of deliveries; every case at the start was delivered to or was removed while waiting, and what was removed while waiting was removed; only leaving channels are removed, and every other channel gets the value once for each subscription and keeps them; the inbox holds exactly the subscriptions that arrived meanwhile |
| `Feed.StayingServed` | event/feed.go:128-190 | a channel that was not removed got the value once for each of its subscriptions and keeps them |
| `Feed.ExactlyOnce` | event/feed.go:128-190 | with distinct channels: exactly one delivery to each, none iff it was removed while waiting; exactly those not removed stay subscribed, and each of them got the value |
| `SignerStore.Uint64RoundTrip` | accountsigner/state.go:50-59 | a stored length reads back |
| `SignerStore.SignerDB.WriteBytes` | accountsigner/state.go:87-99 | overlays exactly the chunks of the value |
| `SignerStore.SignerDB.ClearBytesRemainder` | accountsigner/state.go:101-107 | clears exactly the chunks no longer used |
| `SignerStore.SignerDB.ReadBytes` | accountsigner/state.go:68-85 | reads each byte from its chunk |
| `SignerStore.SignerDB.Set` | accountsigner/state.go:110-124 | every slot of the account afterwards, and no other account touched |
| `SignerStore.SignerDB.Get` | accountsigner/state.go:127-136 | returns what is laid out, or not found in empty storage |
| `SignerStore.SetErasesHistory` | accountsigner/state.go:110-124 | over any earlier signer the layout is that of the new one alone |
| `SignerStore.SetMany` | accountsigner/state.go:110-136 | after any sequence of updates the storage holds exactly the last |
| `SignerStore.HistoryIndependent` | accountsigner/state.go:110-136 | two histories that end alike leave the same storage |

## Left out

- `setHeadBeyondRoot`, `SetCanonical`, `SetHead`, `InsertReceiptChain`, freezer, snapshots, trie garbage collection, future blocks and transaction indexing: storage code around the modelled steps.
- Fast-sync heads ahead of the block head.
- Eviction from the header, number and difficulty caches: `HeaderChain` lookups keep what they have seen.
- Bodies of contract execution, contract creation, lease deployment and system actions: functions that conserve balance.
- Cryptography: commitments carry their openings and a proof is its statement; auditor and terminal rules are conditions on the fields of the transaction and the state.
- Mutexes, goroutine scheduling, timers, heartbeats, journals, logs and metrics: a locked section is one step.
- Small registries, lease arithmetic, RPC, console, discovery and deployment helpers: they would only add easy members.
- Linking of child indexers: their notifications are the cascaded heads that the methods return.
- State objects: deletion of empty accounts at the end of a transaction, and the journal behind snapshots; a rollback restores the state value.
- The order in which `buildState` sorts transactions before replaying them; the results hold for every order.
- The rest of `add` (validation, the pool's size limit and underpriced transactions, journal, events).
- The rest of `promoteExecutables` and `demoteUnexecutables` (dropping low nonces and unpayable transactions, queue caps): these are the list operations of `TxList` one after another.
- Pool lists in `Promotion`, `Demotion`, `Truncation` and `TxPool` are maps from nonces, which `SortedMap` and `TxList` are proved to refine; sharing of list objects is not modelled there.
- `txLookup` and the removal of dropped transactions from it, slot counts of the whole pool, `truncateQueue`.
- Promotion.PromoteTx: next nonces of accounts and sponsors do not wrap around at 2^64; in the fixed-point loop account nonces stay below the top one.
- Sponsors.NextFree: does not wrap around at 2^64; the code does exactly where the contract says that the result exceeds 64 bits.
- BatchExec.Executor.ExecuteTransactions: on an aborted block nothing is stated about the state, which the caller discards.
- Feed.Feed.Send: does not model the type check of values and its panic, nor a subscription that arrives and leaves the inbox again during one send.
- StateTransition.Transition.TransitionDb: on an error nothing is stated about the state, which the caller discards.

# Verified model of the chain core

A Dafny model of the parts of the node that are hardest to get right, with proofs of what they are for.
`dafny verify dfyconfig.toml` checks the whole project.

| module | models |
|---|---|
| `Prelude` | definitions that several modules share |
| `Pledges`, `Approvals` | pledge sums, quorums, approvals with ideal signatures, the threshold check of a block |
| `Timer` | when one Doomslug node issues which approvals, over all runs, with restarts |
| `Trackers` | the trackers of approvals at one height, updated in place |
| `Doomslug` | a node: timer, trackers by height, the decision to produce a block |
| `Consensus` | a network of honest and faulty nodes as a transition system; quorum safety and finality |
| `BlockTree`, `GarbageCollection` | the stored block tree, fork clearing by reference counts, canonical clearing |
| `CanonicalChain` | the height index and next-block links of the canonical chain, rewritten when the head changes |
| `FlatStorage` | creation of flat storage with worker threads, a moving final head, crashes and restarts |
| `Serializer` | the schema-driven binary serializer |
| `FeatureFlags` | the nightly-flag walk and repair loop over the crate graph |
| `DelayTracker` | the linked indexes of the block delay tracker |
| `Resharding` | the split of gas, burnt balance and proposals over child shards |
| `XzProbe` | the streaming probe for the XZ header |
| `ColdStore` | copying blocks from the hot to the cold store |

Where the source updates state in place, a class does so with the source's loops, and each method is proved against a
function of its old state; the theorems are about those functions, over all runs.  Hashes and account ids are opaque
values, times and heights are natural numbers, a panic or an error is a value, and what comes from elsewhere (the clock,
pledge lists, the epoch manager, division of a trie into parts) is a parameter.

Assumptions that the theorems name: one list of distinct, unslashed pledges; for safety a total of at least two and at
most a third of the pledge faulty; signatures that cannot be forged; runs of a node that begin with a tip and whose tip
heights do not fall; for the timing properties `2 * endorsement_delay <= min_delay <= max_delay` and a monotone clock;
for the chain store a new head that descends from the final head, which `Consensus.HeadsDescendFromFinal` gives; for the
cold store a garbage collection that stops at the cold head; for flat storage creation a garbage collection that does not
pass the block whose state is fetched or from which the flat state catches up, which the code does not enforce.

Where the documentation and the code of the source disagree, the code is modelled:

- `ready_to_produce_block` is documented with one half of the approvals for the waiting case; the code asks for two
  thirds in both cases.
- Check 4 of the flag script is documented with a transitive dependent; the code looks at direct dependents.
  `FeatureFlags.ClosureIsLeast` and `FeatureFlags.Workspace.Repair` show that the loop reaches the transitive closure all
  the same.
- A block with enough approvals for production and one that is ready are not the same where a threshold rounds to zero:
  `Doomslug.ProducibleIsQuorumIff` gives the exact condition and `Doomslug.ProducibleButNotReady` an input.

Three properties that one might expect are false of the code, each with its exact condition:

- The cold store can miss columns of a block without an error if the tail reaches the block while it is copied, and only
  then: `ColdStore.TailBoundExact` for every column and `ColdStore.TailStaysBelow` for a whole block, with a run in
  `ColdStore.IncompleteRun`.
- Catching up panics if garbage collection has taken the link of a flat head below the final head, and only then:
  `FlatStorage.CatchUpPanicsExactly`.
- A tracked block can list a chunk that the delay tracker no longer tracks, after a head change that separates two blocks
  which share the chunk, and only then: `DelayTracker.RunLinkedIff`, with an input in `DelayTracker.SharedChunkLostInput`.

## Model

| member | source | states |
|---|---|---|
| `Consensus.NetworkSafety` | chain/chain/src/doomslug.rs:465-576 | Over every behaviour of the network: once more than two thirds of the pledge endorsed block `b` at height `h`, at no time, earlier or later, do two thirds approve a block that skips over `h` or another block at height `h` |
| `Consensus.EndorsementQuorumExcludes` | chain/chain/src/doomslug.rs:548-576 | The same in one state: an endorsement quorum excludes every conflicting quorum |
| `Consensus.FinalityTheorem` | chain/chain/src/chain.rs:938-957 | Consensus safety: a block that any valid header ever names as final is an ancestor of every block published above it, whichever chain and whenever |
| `Consensus.FinalBlocksAgree` | chain/chain/src/tests/doomslug.rs:273-293 | Any two blocks ever named as final lie on one chain |
| `Consensus.HeadsDescendFromFinal` | chain/chain/src/chain.rs:938-957 | The published headers are a tree in which every block above a final one descends from it: what the chain store relies on for new heads and new final heads |
| `Consensus.FinalInEveryChain` | chain/chain/src/tests/doomslug.rs:273-293 | The lowest of three blocks at consecutive heights is an ancestor of every higher block |
| `Consensus.FinalIsConsecutive` | core/primitives/src/block.rs:282-290 | The block a valid header names as final has a child and a grandchild at the next two heights |
| `Consensus.FinalityFieldsExact` | chain/chain/src/chain.rs:936-957 | In every state of every behaviour, for every published header: its last final block is the highest block on its chain with a child and a grandchild there at the next two heights, and none if there is none; its last doomslug-final block likewise with a child; so the third of three blocks in a row names the first |
| `Consensus.QuorumCanPublish` | chain/chain/src/chain.rs:905-957 | With the approvals of a quorum for a parent and a height, a header on that parent passes validation and can be published, under any free hash |
| `Consensus.HeightsRise` | chain/chain/src/chain.rs:911-934 | A header whose approvals pass validation is higher than its parent, because no honest account approves otherwise |
| `Consensus.HeaderSupported` | chain/chain/src/chain.rs:914-934 | The approvals of a valid header were signed by more than two thirds of the pledge |
| `Consensus.EndorsedParent` | chain/chain/src/chain.rs:914-957 | A block directly above its parent rules out every valid header that steps over the parent's height, and every one directly above another block at that height |
| `Consensus.HonestSignsOnce` | chain/chain/src/doomslug.rs:479-524 | No honest account ever signs two conflicting approvals |
| `Consensus.BehaviorInv` | chain/chain/src/doomslug.rs:465-624 | Every state of every behaviour satisfies the invariant: honest votes are disciplined, honest signatures are votes, published headers are valid and rise |
| `Consensus.NextKeepsInv` | chain/chain/src/doomslug.rs:465-624 | Every step (a node's tip, tick or restart, a forged signature of a faulty account, a published header) keeps that invariant |
| `Pledges.QuorumsShareHonest` | chain/chain/src/doomslug.rs:548-576 | Two sets above two thirds share an honest account when at most a third of the pledge is faulty |
| `Pledges.DisjointQuorumsImpossible` | chain/chain/src/doomslug.rs:239-252 | Two disjoint sets of accounts cannot both be above two thirds |
| `Timer.RunDisciplined` | chain/chain/src/doomslug.rs:479-524 | Over every run whose tip heights do not fall, restarts included: the largest target never falls, each endorsement targets more than every earlier approval, no two approvals conflict |
| `Timer.EndorsementExcludesSkips` | chain/chain/src/doomslug.rs:1047-1262 | A node that endorses a block at height `h` issues, before or after, no skip with parent below `h` and target above `h` |
| `Timer.PollDisciplined` | chain/chain/src/doomslug.rs:465-531 | One call of the timer keeps all that, whatever the number of iterations |
| `Timer.AssertionsHold` | chain/chain/src/doomslug.rs:468-506 | Both debug assertions of the timer loop hold |
| `Timer.RunClocked` | chain/chain/src/doomslug.rs:465-531 | With a monotone clock and sane delays their precondition is kept over every run |
| `Timer.VotesAfterTip` | chain/chain/src/doomslug.rs:604-624 | After a tip at height `h`, whatever the polling times and the iteration limit: at most one endorsement, first, and then skips to h+2, h+3, ... without gap or repeat |
| `Timer.TimesAfterTip` | chain/chain/src/doomslug.rs:465-531 | When they go out, however often the timer is polled: the endorsement has gone out exactly if its delay has passed since the one before, and skip number k exactly if the first k delays have passed since the tip; a poll cut off by the iteration limit can make a skip late, never early |
| `Timer.PollSkips` | chain/chain/src/doomslug.rs:465-531 | One poll issues skip number k exactly if the time for it has come and the iterations last, and moves the timer on by whole delays |
| `Timer.DelayGrows` | chain/chain/src/doomslug.rs:158-161 | The delay is the least one up to two heights from the last final block and grows by one step with every further height, up to the greatest one |
| `Timer.PollingIndependence` | chain/chain/src/doomslug.rs:465-531 | Polling at any rising times issues exactly what one poll at the last time issues, as long as that one is not cut off by the iteration limit |
| `Timer.PollTwice` | chain/chain/src/doomslug.rs:465-531 | Polling at t1 and then t2 issues what polling at t2 alone issues, whatever the iteration limit |
| `Timer.PollEnough` | chain/chain/src/doomslug.rs:467-528 | A poll that stops on its own does not depend on the iteration limit |
| `Approvals.ProducibleIffQuorum` | chain/chain/src/doomslug.rs:548-576 | The positional threshold check of a block says exactly that the set of its signers is above two thirds in both epochs, or that threshold is zero |
| `Approvals.SlotApprovedIsWeight` | chain/chain/src/doomslug.rs:560-572 | What the check adds up position by position is the pledge of the set of signers |
| `Approvals.SlotCounts` | chain/chain/src/doomslug.rs:560-572 | In any list, an approval counts with exactly the pledge of its position, and with nothing if that approver is slashed |
| `Trackers.LastOfIsLast` | chain/chain/src/doomslug.rs:283-327 | The specification of the trackers is an account's last approval in the order received |
| `Trackers.AtMostOneReady` | chain/chain/src/doomslug.rs:239-252 | At most one candidate of a height is ready at a time |
| `Trackers.SinceIsFirst` | chain/chain/src/doomslug.rs:239-252 | The time since which a candidate counts as ready is that of the first event, an approval or a query, that found it with a quorum since its tracker was opened; there is none iff no event did |
| `Trackers.Tracker.constructor` | chain/chain/src/doomslug.rs:165-182 | The totals summed over a hash map in any order are the totals of the pledge list |
| `Trackers.Tracker.ProcessApproval` | chain/chain/src/doomslug.rs:194-214 | A new approver is added with exactly their pledge in both sums, a known one changes nothing; ready iff the witnesses are a quorum; the time noted is kept, or this one if it is the first found ready |
| `Trackers.Tracker.WithdrawApproval` | chain/chain/src/doomslug.rs:219-228 | A withdrawal takes out exactly the account's pledge; the sums never underflow |
| `Trackers.Tracker.GetReadiness` | chain/chain/src/doomslug.rs:239-252 | The two sum tests say exactly that the witnesses are a quorum; the time is that of the first call that found it so |
| `Trackers.TrackersAtHeight.ProcessApproval` | chain/chain/src/doomslug.rs:283-327 | After every sequence of approvals and queries the trackers are the function of it: candidates, witnesses, sums and times since ready; ready iff the named candidate has a quorum |
| `Trackers.TrackersAtHeight.Withdraw` | chain/chain/src/doomslug.rs:290-303 | The earlier approval of an account leaves its tracker, and a tracker without witnesses goes, with its time; all other times are kept |
| `Doomslug.Doomslug.constructor` | chain/chain/src/doomslug.rs:357-396 | A new node knows nothing but its largest target |
| `Doomslug.Doomslug.ProcessTimer` | chain/chain/src/doomslug.rs:465-531 | The loop of at most 20 iterations does what the timer specification says to every field, and returns its votes as signed approvals |
| `Doomslug.Doomslug.CreateApproval` | chain/chain/src/doomslug.rs:533-537 | One authentic approval by the signer, if there is one, which passes the signature check of a block on the tip at the target height for every pledge list |
| `Doomslug.Doomslug.SetTip` | chain/chain/src/doomslug.rs:604-624 | The tip and timer are reset and exactly the heights above tip - 20 and up to tip + 10000 stay tracked |
| `Doomslug.Doomslug.OnApprovalMessage` | chain/chain/src/doomslug.rs:630-670 | Approvals far from the tip are dropped; others are recorded under their target and move the two largest heights, the threshold one iff the candidate has a quorum |
| `Doomslug.ApprovalPool.OnApproval` | chain/chain/src/doomslug.rs:630-641 | An approval reaches the trackers of its own height, with its time, and no others |
| `Doomslug.ApprovalPool.GetWitness` | chain/chain/src/doomslug.rs:578-595 | The witness is exactly the last approvals that name this parent at this height |
| `Doomslug.Doomslug.ReadyToProduceBlock` | chain/chain/src/doomslug.rs:695-769 | Ready iff the tip has a quorum for the target and there are enough chunks, or a sixth of the skip delay has passed since the first event that found that quorum; then the witness laid out along the pledge order passes the threshold check and the signature check |
| `Doomslug.QuorumIsProducible` | chain/chain/src/doomslug.rs:548-576 | A quorum of witnesses passes the threshold check |
| `Doomslug.ProducibleIsQuorumIff` | chain/chain/src/doomslug.rs:548-576 | A witness that passes the check is a quorum if and only if, where a threshold rounds to zero, it has some pledge |
| `Doomslug.ProducibleButNotReady` | chain/chain/src/doomslug.rs:557-575 | With a total of one, a block without approvals passes the check and is not ready |
| `Doomslug.LayoutSigners` | chain/client/src/client.rs:674-687 | Laying out a witness along the pledge list uses every entry: the signers are the witnesses |
| `Doomslug.LayoutVerifies` | chain/epoch-manager/src/adapter.rs:918-951 | A witness of authentic approvals passes the signature check against its parent |
| `GarbageCollection.ChainStore.ClearData` | chain/chain/src/garbage_collection.rs:113-197 | One run: fork cleaning leaves every ancestor of the head and, if it did not itself exhaust the budget, removes exactly the blocks all of whose leaves lie in the range; the fork tail comes down to the end of the range, or to where the budget was spent, and no fork ends between there and the top; canonical clearing then removes exactly the proper ancestors of the new root, raises the tail and the fork tail with it, and stops at the stop height, at a fork, or with the budget; never more than the limit; the tree stays valid wherever it stops; an error iff the stop height is above the head |
| `GarbageCollection.ForksGone` | chain/chain/src/garbage_collection.rs:136-151 | Over runs in a row with budget left: with each the fork tail comes down by the step until it meets the tail, and no fork is left that ends between there and where it began |
| `GarbageCollection.AllForksGone` | chain/chain/src/garbage_collection.rs:136-151 | So enough runs clear every fork that ends between the tail and the fork tail |
| `GarbageCollection.ChainStore.CleanForks` | chain/chain/src/garbage_collection.rs:140-151 | A stored block is removed iff every leaf at or below it has a height in [stop, fork tail); on an exhausted budget nothing else is removed |
| `GarbageCollection.ChainStore.ClearForksData` | chain/chain/src/garbage_collection.rs:224-271 | Clearing one height leaves no fork that ends there and makes no new leaf |
| `GarbageCollection.ChainStore.WalkUp` | chain/chain/src/garbage_collection.rs:237-268 | The walk from a leaf deletes only condemned blocks, counts them against the budget and stops at the first block that is still referred to |
| `GarbageCollection.ChainStore.ClearForkBlock` | chain/chain/src/garbage_collection.rs:636-640 | Deleting a fork leaf gives back its parent's reference and keeps every count equal to the number of stored children |
| `GarbageCollection.ChainStore.ClearHeight` | chain/chain/src/garbage_collection.rs:154-195 | The refcount-zero error and a second block at the height are impossible; it stops iff a fork starts at the root |
| `GarbageCollection.ChainStore.ClearCanonical` | chain/chain/src/garbage_collection.rs:153-196 | Exactly the proper ancestors of the new root go, and it stops only at the target, at a fork or on an exhausted budget |
| `GarbageCollection.ChainStore.ClearCanonicalBlock` | chain/chain/src/garbage_collection.rs:550-567 | The previous block is deleted and the tail moves with it |
| `GarbageCollection.ChainStore.UpdateTail` | chain/chain/src/store.rs:2164-2178 | The fork tail is never left behind the tail and never falls |
| `GarbageCollection.ChainStore.AddBlock` | chain/chain/src/chain_update.rs:503-504 | Storing a block on any fork adds exactly that block, moves the head iff it is higher, and keeps the store consistent |
| `GarbageCollection.ChainStore.constructor` | chain/chain/src/garbage_collection.rs:38-112 | A store with the genesis block is consistent |
| `GarbageCollection.ClearedIsExact` | chain/chain/src/garbage_collection.rs:38-112 | When no leaf in the range is left and only condemned blocks went, exactly the condemned ones went |
| `GarbageCollection.HeadAncestorsSurvive` | chain/chain/src/garbage_collection.rs:38-112 | No ancestor of the head is cleared as a fork |
| `GarbageCollection.FirstBlockAboveTail` | chain/chain/src/garbage_collection.rs:168-191 | The parent of the first block above the tail is the root and has a reference; if it has one, that block is the only one at its height |
| `GarbageCollection.ForkClearKeepsConsistent` | chain/chain/src/garbage_collection.rs:636-640 | Deleting a fork leaf keeps the whole invariant, and the reference count it decrements is positive |
| `GarbageCollection.RootClearKeepsConsistent` | chain/chain/src/garbage_collection.rs:550-567 | Deleting the root keeps the whole invariant |
| `GarbageCollection.AddKeepsConsistent` | chain/chain/src/store.rs:2135-2145 | Adding a block keeps the whole invariant |
| `BlockTree.SurvivorNotDoomed` | chain/chain/src/garbage_collection.rs:224-271 | A block that is left when the range is cleared was not condemned |
| `BlockTree.DoomedByChildren` | chain/chain/src/garbage_collection.rs:237-268 | A leaf that was none at first is condemned because all its children were |
| `BlockTree.CountsAfterLeaf` | chain/chain/src/store.rs:2147-2156 | Decrementing the parent's count and dropping the leaf's keeps the counts exact |
| `BlockTree.IndexAfterRemove` | chain/chain/src/garbage_collection.rs:770-799 | The per-height index stays exact |
| `CanonicalChain.HeadSavedCanonical` | chain/chain/src/store.rs:1884-1915 | Saving any known header as the head, also across a reorganisation or to a lower height, never fails and leaves the height index naming exactly the ancestors of the head and each next-block link leading to the child on the way to the head |
| `CanonicalChain.WalkIndexes` | chain/chain/src/store.rs:1823-1865 | The walk back to the common ancestor ends, puts exactly the new chain into the index below its start and touches nothing above |
| `CanonicalChain.WalkLinks` | chain/chain/src/store.rs:1823-1865 | It leaves right links along the new chain below its start and touches none from there on |
| `CanonicalChain.NextTowards` | chain/chain/src/store.rs:1638-1644 | From a proper ancestor of a canonical block the link leads to a child that is that block or one of its ancestors |
| `CanonicalChain.HeaderKeepsCanonical` | chain/chain/src/store.rs:1823-1865 | A new header changes nothing for the canonical chain |
| `CanonicalChain.FinalDescends` | chain/chain/src/chain_update.rs:606-621 | A higher final head on the canonical chain descends from the one before |
| `CanonicalChain.UpdateHeight` | chain/chain/src/store.rs:1823-1865 | The loop with its inner clearing loop is the walk, and fails iff a header is missing |
| `CanonicalChain.ChainIndex.SaveHeaderHead` | chain/chain/src/store.rs:1884-1915 | The walk, the clearing above a lower head and the new top entry; nothing is written on failure |
| `CanonicalChain.ChainIndex.constructor` | chain/chain/src/chain.rs:471-474 | A chain that consists of the genesis block is canonical and final |
| `FlatStorage.FlatAgreesWithTrie` | chain/chain/src/flat_storage_creator.rs:225-411 | At every point of every run, with crashes, restarts, reorganisations and a garbage collection that spares the block being fetched or caught up from: catching up or ready at block b means the flat state is the full state at b; no call and no worker panics, in any of its lookups, assertions and subtractions; what is waited for is the unfinished jobs plus the unread reports |
| `FlatStorage.BehaviorInv` | chain/chain/src/flat_storage_creator.rs:147-418 | Every interleaving of the main thread, the workers, new headers and blocks, heads that change the fork, a moving final head and restarts keeps the invariant |
| `FlatStorage.FlatHeadOnFinalChain` | chain/chain/src/flat_storage_creator.rs:331-346 | At every point of every run the flat head is the final head or one of its ancestors, so the moved-too-far panic cannot happen; below the final head its next-block link leads to its child on the way there, whose delta is on disk, and is not collected while it is needed, so neither unwrap fails |
| `FlatStorage.CatchUpPanicsExactly` | chain/chain/src/flat_storage_creator.rs:325-346 | At every point of every run with a garbage collection that moves the tail as it likes: a call that catches up panics if and only if the tail has passed a flat head below the final head, because its next-block link is collected |
| `FlatStorage.TailMoveLeadsToPanic` | chain/chain/src/flat_storage_creator.rs:325-346 | From every point of every such run at which the flat head is below the final head, a move of the tail to the final head makes the next call panic |
| `FlatStorage.NextOnFinal` | chain/chain/src/flat_storage_creator.rs:340-343 | One step along the links stays on the final chain, one block closer to the final head, with the state of the child |
| `FlatStorage.AdvanceEffect` | chain/chain/src/flat_storage_creator.rs:326-346 | The catch-up loop ends without a panic on the final chain, 50 blocks further or at the final head, with merged changes that lead from the old flat state to the state there |
| `FlatStorage.UpdateKeepsInv` | chain/chain/src/flat_storage_creator.rs:147-418 | No call panics, and both of its commits keep the invariant |
| `FlatStorage.HeadKeepsInv` | chain/chain/src/store.rs:1884-1915 | A new head that descends from the final head, on whatever fork, keeps the invariant |
| `FlatStorage.FinalKeepsInv` | chain/chain/src/chain_update.rs:606-621 | A final head that moves up the canonical chain by any number of blocks keeps the invariant |
| `FlatStorage.NextKeepsInv` | chain/chain/src/flat_storage_creator.rs:147-418 | Each step keeps it |
| `FlatStorage.ApplyMerge` | core/store/src/flat/delta.rs:90-92 | Merging two deltas and applying once is applying them one after the other |
| `FlatStorage.ApplyExact` | core/store/src/flat/delta.rs:121-126 | A delta writes and deletes exactly the keys it names |
| `FlatStorage.CatchUpKeepsInv` | chain/chain/src/flat_storage_creator.rs:322-366 | The first commit of a catch-up keeps the flat state equal to the state at the flat head |
| `FlatStorage.CommitKeepsInv` | chain/chain/src/flat_storage_creator.rs:90-142 | A worker's commit keeps the invariant in any order of the workers |
| `FlatStorage.CatchUpAfterAllParts` | chain/chain/src/flat_storage_creator.rs:279-319 | Catching up begins only when every job has reported and every part is in the flat state |
| `FlatStorage.CatchUpProgress` | chain/chain/src/flat_storage_creator.rs:322-411 | With the final head d blocks ahead, the status is ready with call max(1, ceil(d/50)), not before, and stays so; then exactly the deltas above the final head are left |
| `FlatStorage.CatchUpRemoves` | chain/chain/src/flat_storage_creator.rs:331-360 | Each commit of the catch-up removes exactly the deltas of the blocks that the flat head passes |
| `FlatStorage.FetchProgress` | chain/chain/src/flat_storage_creator.rs:147-320 | With the final head above the start height, n parts and workers that keep up: the second call starts fetching, each range of 20 parts takes three more, and call 2 + 3 * ceil(n/20) starts the catch-up, with the full state at the final head in the flat copy and only that block's delta gone |
| `FlatStorage.FlatStorageShardCreator.UpdateStatus` | chain/chain/src/flat_storage_creator.rs:147-418 | One call does what the specification says to the whole state, panics exactly where it does, and answers whether flat storage was there before |
| `FlatStorage.FlatStorageShardCreator.StartFetching` | chain/chain/src/flat_storage_creator.rs:167-224 | If it succeeds: with the final head above the start height, fetching its state starts with part 0 in steps of 20 and every later delta is there; otherwise nothing changes; it fails iff a header or the delta of a later block is missing |
| `FlatStorage.FlatStorageShardCreator.SpawnJobs` | chain/chain/src/flat_storage_creator.rs:236-269 | One job for each part of the step |
| `FlatStorage.FlatStorageShardCreator.ReadReports` | chain/chain/src/flat_storage_creator.rs:270-278 | All reports there are get read and counted; it fails iff they outnumber what is waited for |
| `FlatStorage.FlatStorageShardCreator.MergeDeltas` | chain/chain/src/flat_storage_creator.rs:326-346 | The loop follows the next-block links over up to 50 blocks, tests the height each time, stops at the final head and fails where the source panics |
| `FlatStorage.FlatStorageShardCreator.Finish` | chain/chain/src/flat_storage_creator.rs:369-402 | Exactly the deltas at or below the final height are removed |
| `FlatStorage.FlatStorageShardCreator.FetchStatePart` | chain/chain/src/flat_storage_creator.rs:90-142 | A worker writes exactly the items of its part |
| `Serializer.RoundTrip` | pytest/lib/serializer.py:15-168 | For every schema, every well-typed value, any bytes around it and every call stack deep enough: it prints, and reading it back gives the same value and consumes exactly its bytes |
| `Serializer.PrintsWire` | pytest/lib/serializer.py:15-137 | The format: a value prints as given bytes if and only if these are its bytes as declared for its type (digits to the base 256 lowest first, one byte for a bool, an option tag and a variant, a length of four bytes, fields in schema order), and otherwise fails |
| `Serializer.TagsRead` | pytest/lib/serializer.py:74-108 | Only 0 and 1 are read as a bool, and every option tag but 0 stands for a value |
| `Serializer.PrefixFree` | pytest/lib/serializer.py:29-168 | No encoding is a prefix of another of the same type, and none stands for two values |
| `Serializer.PrintedReads` | pytest/lib/serializer.py:15-156 | Whatever the printer accepts, a value of the type or not, the parser reads to exactly its end: no assertion of the printer is missing |
| `Serializer.ParsedWellTyped` | pytest/lib/serializer.py:74-112 | Whatever is read is well typed, if no attribute of a class has two meanings |
| `Serializer.ParsedReadsBack` | pytest/lib/serializer.py:74-168 | A value read from any bytes prints and reads back as itself |
| `Serializer.NumberFits` | pytest/lib/serializer.py:15-20 | A number passes the final assertion iff it fits its bytes |
| `Serializer.NumberRoundTrip` | pytest/lib/serializer.py:15-27 | Numbers read back |
| `Serializer.BinarySerializer.SerializeNum` | pytest/lib/serializer.py:15-20 | The loop appends the little-endian bytes, also of a number that then fails the assertion |
| `Serializer.BinarySerializer.DeserializeNum` | pytest/lib/serializer.py:22-27 | The loop from the last byte to the first computes the little-endian number |
| `Serializer.BinarySerializer.SerializeField` | pytest/lib/serializer.py:29-72 | Appends exactly the specified bytes, those before a failure included |
| `Serializer.BinarySerializer.SerializeStruct` | pytest/lib/serializer.py:114-137 | Fields in schema order; for an enum the first variant with the name |
| `Serializer.BinarySerializer.DeserializeField` | pytest/lib/serializer.py:74-112 | Reads what the specification reads and stops where it stops |
| `Serializer.BinarySerializer.DeserializeStruct` | pytest/lib/serializer.py:139-156 | The attributes read, later ones replacing earlier ones of the same name |
| `Serializer.BinarySerializer.Serialize` | pytest/lib/serializer.py:158-160 | All bytes so far, or failure |
| `Serializer.BinarySerializer.Deserialize` | pytest/lib/serializer.py:162-168 | A value only if all bytes were consumed |
| `FeatureFlags.Walk.TransitiveDeps` | scripts/fix_nightly_feature_flags.py:72-87 | The depth-first walk yields exactly the crates reachable by one edge or more, each once |
| `FeatureFlags.Walk.Visit` | scripts/fix_nightly_feature_flags.py:76-81 | The recursive helper visits everything reachable through unvisited crates and terminates on cycles too |
| `FeatureFlags.Workspace.BuildTransitiveDeps` | scripts/fix_nightly_feature_flags.py:160-161 | That for every crate |
| `FeatureFlags.Workspace.Repair` | scripts/fix_nightly_feature_flags.py:195-220 | The repair loop terminates with exactly the initial flags and the crates between two of them |
| `FeatureFlags.Workspace.Pass` | scripts/fix_nightly_feature_flags.py:197-218 | A pass that fixes nothing has found the flags closed under check 4 |
| `FeatureFlags.ClosureIsClosed` | scripts/fix_nightly_feature_flags.py:198-201 | That set passes check 4 |
| `FeatureFlags.ClosureIsLeast` | scripts/fix_nightly_feature_flags.py:198-201 | And it is the least that does |
| `FeatureFlags.PathFlagged` | scripts/fix_nightly_feature_flags.py:198-201 | In a set that passes check 4 every crate on any path between two nightly crates is nightly |
| `DelayTracker.RunInv` | chain/chain/src/blocks_delay_tracker.rs:135-297 | Over every run the debug assertion holds, both block indexes hold the same hashes exactly once, every chunk is floating or belongs to a tracked block, and a head change leaves no block or floating chunk below head - 50 |
| `DelayTracker.TimesKept` | chain/chain/src/blocks_delay_tracker.rs:229-259 | A time is noted by the first request, or completion, since the chunk is tracked, is the time of that event, and stays as long as the chunk is tracked |
| `DelayTracker.RunLinkedIff` | chain/chain/src/blocks_delay_tracker.rs:135-297 | Over every run: the converse links hold throughout (floating chunks and chunks of tracked blocks are tracked, and none is both) if and only if no head change separates two tracked blocks that share a chunk |
| `DelayTracker.HeadKeepsLinkedIff` | chain/chain/src/blocks_delay_tracker.rs:261-297 | A head change keeps these converse links if and only if no chunk is shared by a block below the cutoff and one that stays |
| `DelayTracker.SharedChunkLost` | chain/chain/src/blocks_delay_tracker.rs:261-297 | Whenever a chunk is shared across the cutoff, a tracked block is left with a chunk that is not tracked, and a renewed request can leave that chunk floating and not tracked |
| `DelayTracker.SharedChunkLostInput` | chain/chain/src/blocks_delay_tracker.rs:261-297 | A concrete input: blocks at heights 10 and 20 with one chunk, heads 65 and 75 |
| `DelayTracker.HeadKeepsInv` | chain/chain/src/blocks_delay_tracker.rs:261-297 | A block goes iff it is indexed below the cutoff |
| `DelayTracker.HeadCuts` | chain/chain/src/blocks_delay_tracker.rs:261-297 | A head change leaves exactly the heights, blocks and floating chunks from 50 below the head on, with their values |
| `DelayTracker.BlockKeepsInv` | chain/chain/src/blocks_delay_tracker.rs:135-175 | Receiving a block keeps the indexes linked |
| `DelayTracker.ChunkKeepsInv` | chain/chain/src/blocks_delay_tracker.rs:229-259 | Marking a chunk keeps the indexes linked |
| `DelayTracker.BlocksDelayTracker.MarkBlockReceived` | chain/chain/src/blocks_delay_tracker.rs:135-175 | A new block is tracked under its height with its new chunks by shard, these are tracked without times and no longer float, and nothing else changes; a known block changes nothing |
| `DelayTracker.BlocksDelayTracker.MarkChunkCompleted` | chain/chain/src/blocks_delay_tracker.rs:229-243 | The chunk is tracked with this completion time unless it had one, and floats if it was not tracked; nothing else changes; the indexes stay linked |
| `DelayTracker.BlocksDelayTracker.MarkChunkRequested` | chain/chain/src/blocks_delay_tracker.rs:245-259 | The same for the time of the request |
| `DelayTracker.BlocksDelayTracker.UpdateHead` | chain/chain/src/blocks_delay_tracker.rs:261-297 | The nested removal loops give the specified state, without reaching the debug assertion; exactly the heights from 50 below the head on stay |
| `Resharding.SplitConserves` | chain/chain/src/chain_update.rs:240-315 | Whatever the order of the results, the children's gas and burnt balance add up to the parent's |
| `Resharding.SharesConserve` | chain/chain/src/chain_update.rs:240-282 | The shares by rank add up to the total and differ by at most one, the earlier ones being the greater |
| `Resharding.ProposalsConserved` | chain/chain/src/chain_update.rs:211-233 | Each proposal lands, as often as it was made, in the child of its account and in no other |
| `Resharding.OnlyInOrder` | chain/chain/src/chain_update.rs:211-233 | The proposals of a child keep their order |
| `Resharding.RankIsPosition` | chain/chain/src/chain_update.rs:192-195 | In sorted order a child stands at its rank, which does not depend on the order of the input |
| `Resharding.ChainUpdate.ProcessReshardingResults` | chain/chain/src/chain_update.rs:185-315 | Every child's chunk extra has its own state root, the parent's outcome root and gas limit, its own power and pledge proposals and its shares of gas and burnt balance by rank, whatever the order of the results; others are untouched; it fails iff the parent has no chunk extra or the number of results is not that of the children |
| `Resharding.ChainUpdate.SaveChildren` | chain/chain/src/chain_update.rs:243-315 | The loop with the running remainders gives each child its share, and both final assertions hold |
| `Resharding.GroupByShard` | chain/chain/src/chain_update.rs:211-233 | The proposals by child, in their order |
| `XzProbe.Download` | framework/src/download_file.rs:71-75 | For every stream and every way of cutting it, empty chunks included: all bytes reach the decompressor iff the stream begins with the magic, else the file; the decompressor is given one empty chunk, the last |
| `XzProbe.AutoXzDecoder.WriteAll` | framework/src/download_file.rs:146-154 | After any chunk, what was passed on is the stream so far, and the state is decided by its first six bytes |
| `XzProbe.AutoXzDecoder.Probe` | framework/src/download_file.rs:177-201 | The new state depends on the stream alone, and the withheld bytes are exactly the stream before the chunk |
| `XzProbe.AutoXzDecoder.Finish` | framework/src/download_file.rs:157-169 | The withheld bytes are written out, or the decompressor is told the end |
| `XzProbe.AutoXzDecoder.WriteAllImpl` | framework/src/download_file.rs:205-213 | Never called while probing or with an empty chunk |
| `XzProbe.MismatchIsPlain` | framework/src/download_file.rs:180-184 | A mismatch anywhere in the header means the stream is not XZ |
| `ColdStore.NothingSkipped` | framework/src/cold_storage.rs:52-132 | Over every interleaving of the steps of copies, read by read and column by column, with a rising final head and a garbage collection that stops at the cold head: the cold head never passes the final head, every block between the starting head and the cold head is in the cold store with all its columns, and no copy fails |
| `ColdStore.HeadsOrdered` | framework/src/cold_storage.rs:52-132 | Even if the tail rises freely: the cold head never passes the final head, what the cold store has of a block is genuine, and the errors for a cold head ahead, a missing cold head or all blocks skipped cannot occur |
| `ColdStore.TailBoundExact` | core/store/src/cold_storage.rs:57-93 | From any point of looking up the keys of a block, every copy of it that ends without an error is complete if and only if no column is at risk: the tail cannot pass the block meanwhile, nor reach it if the column hangs on its trie changes or its parent, or the column is in the read cache, or the look-up fails without it; otherwise some copy ends without an error and without that column, since absent keys are skipped |
| `ColdStore.TailStaysBelow` | chain/chain/src/garbage_collection.rs:550-613 | For a block with a hanging column (every block has its link from the parent): complete if and only if the tail stays below the block, since canonical clearing takes the trie changes of the block that the tail reaches and the next-block link of its parent |
| `ColdStore.IncompleteRun` | core/store/src/cold_storage.rs:177-222 | A concrete run with a free tail that rises to the block being copied and not past it: the cached column is copied, the link is not, and the cold head moves to the block with success reported |
| `ColdStore.GcKeepsFull` | framework/src/runtime/mod.rs:549-565 | Garbage collection that stops at the cold head keeps everything complete and every copy possible |
| `ColdStore.ColumnsInAnyOrder` | core/store/src/cold_storage.rs:78-90 | The order of the columns does not matter |
| `ColdStore.ReadInAnyOrder` | core/store/src/cold_storage.rs:344-445 | The order in which columns are read for their keys does not matter, also for whether the look-up fails |
| `ColdStore.CopyExact` | framework/src/cold_storage.rs:59-132 | A copy takes the lowest block above the cold head, and says whether that was the final head |
| `ColdStore.CopyOutcome` | framework/src/cold_storage.rs:59-132 | For stores in any state: which of the errors a copy ends with and exactly when, and that it then changes nothing |
| `ColdStore.Stores.ColdStoreCopy` | framework/src/cold_storage.rs:52-132 | The loop over skipped heights does what the steps of a copy do |
| `ColdStore.Stores.UpdateColdDb` | core/store/src/cold_storage.rs:57-93 | The call copies every column there is, from the cache or the store; it answers false iff no block is indexed at the height and fails iff a column needed for the keys is gone |
| `ColdStore.Stores.KeysFromStore` | core/store/src/cold_storage.rs:344-445 | The loop over the columns to read fails iff a required one is gone, and otherwise caches every one that is there |

## Left out

- Signatures, hashing, RocksDB, caches, metrics, logging and the approval history: foreign code or observation only.
- Slashed or duplicate entries of a pledge list: the code asserts that there are none (chain/chain/src/doomslug.rs:316).
- A pledge list that changes between epochs in the network model: safety is proved for one list, as the protocol argues it.
- Liveness of consensus: it rests on the timing of the network.
- Challenges, the reset before state sync, chunk and receipt columns, trie changes and resharding data in garbage collection; the special treatment of the genesis block.
- `clear_archive_data` and the other garbage collection entry points: loops of the same shape over single columns.
- Changes of the shard layout during flat storage creation: one shard uid is assumed. How a trie is divided into parts: any division that covers the state.
- Challenged blocks and block ordinals in the walk of `CanonicalChain`; header heads set by epoch sync.
- Unicode text in `Serializer`: strings and names are their UTF-8 bytes; ill-formed bytes neither encode nor decode.
- Python's wider duck typing in `Serializer`: a `bytes` or `str` value where a list or a tuple is expected counts as a failure; lists and tuples stand in for each other, and a bool for a number, as in the source. Field type strings that are not types are not modelled.
- The Python call stack in `Serializer` is a depth of nested `deserialize_field` calls, given as a parameter.
- Checks 1 to 3 and 5 of the flag script and the rewriting of Cargo files: easy members and text processing.
- Other timestamps and the JSON views of the delay tracker: easy members.
- The order of `sort_unstable` on equal keys in `Resharding`: children have distinct shard uids. Flat storage and trie changes saved beside the chunk extra.
- XZ decompression, HTTP and temporary files around `XzProbe`; write errors.
- How the keys of a cold column are composed, and the refcounts of cold columns: a block is a map from columns to values, each column read and written at once. That a state node is copied from the payload in the trie changes and so cannot be missing once these are read: the state is one column that goes with the trie changes. The initial migration, sleeping and I/O errors of the cold store loop.

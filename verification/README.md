# Peam, verified in Dafny

Peam is a Lean consensus client. This project models the four parts of it that carry state, together with the places where they meet, and proves what each of them keeps over every run:

- **Fork choice** (`ForkTree`, `ForkTheorems`, `ForkArena`, `ForkUpkeep`, `ForkPrune`, `ForkInsert`, `ForkChoice`, `ForkTarget`, `ImportLink`, `ForkRun`, `OrderlyRun`, `ShortRuns`): the block tree with its arena of nodes, incremental subtree weights and cached best children, two-stage votes, late parents, the safe target, and the prune that rebuilds everything. `ForkTree` states the naive rule (count votes per subtree, walk greedily); `ForkTheorems` proves its properties; the class in `ForkChoice` is proved to agree with it after every operation, and `ForkRun` puts the operations together: from an anchor, every run of accepted blocks, votes, promotions and proposals keeps the store right and leaves in it exactly what the events say. `OrderlyRun` ties such runs to the chains the blocks come from, and `ShortRuns` builds the two runs that the theorems there shut out.
- **Justification and finality** (`Justifiable`, `Window`, `VoteTable`, `VoteCodec`, `Transition`, `StateMachine`, `Ledger`, `Sequencing`, `Swapping`, `Chain`, `ShortChains`, `Accountability`): slots, headers, attestations, the sliding window of justified slots, the flattened vote bitmap and the integer square root. `Transition` says on values what a block does; the class in `StateMachine` is proved against it; `Ledger` and `Chain` prove what holds on every chain from genesis, `Sequencing` and `Swapping` how the order of attestations matters, and `Accountability` what two chains with different final blocks say about their voters. `ShortChains` builds chains of a few blocks over any registry, for the examples.
- **Storage** (`Pending`, `CanonicalDb`, `StorageModel`, `FileStore`): the direct-mapped pending cache, the indexes in memory, the durable tables, bundle writes, pruning and garbage collection.
- **Fiat-Shamir transcript** (`Transcript`, `LockStep`, `ProofBinding`, `Observation`, `TranscriptState`): prover and verifier over any script of operations, the positions of a proof that bind it, and what reaches the challenger.
- **Where they meet** (`Envelope`, `Aggregation`, `Producer`, `Drafts`): structural checks on signed blocks, aggregation of pending attestations, local block production, and when a drafted block can be processed at all.

## Reading the model

- A 32-byte root is a natural number, so comparing byte arrays is comparing numbers; zero is the "no block" root. Hashes are function values in a `Hashes` record. Where a property needs them to behave, it says so: headers do not collide, nothing hashes to zero, and no attestation names the hash of the header it is itself part of.
- Bit lists are bytes plus a length. The states and attestations that reach the code are canonical (no more bytes than needed, no bits past the length); `Canonical` says so and every operation is proved to keep it.
- Failures of the disk, signatures, keys and the challenger are parameters: a transaction is told whether it commits, a signer may return nothing, and grinding is assumed to produce a witness that its own check accepts.
- A few predicates are *sealed* (see `Seal.dfy`). Sealing changes no meaning; it keeps the verifier from unfolding a large fact in proofs that only pass it on.
- `ForkChoiceStore` keeps its six block maps and the arena in one record field, `dag`; the source has a field for each.
- Hash-map iteration is modelled as an arbitrary order, so every result about it holds for all orders.

Where the code and its comments disagree, the model follows the code:

- A gossip vote counts for the attestation's head, not for its target (`src/fork_choice.rs:276-281` against `967-974`).
- A target below the finalized slot makes the whole block fail instead of being skipped (`src/containers/state.rs:591` against the comment above `process_attestations`); it is the only way attestations can fail in a reachable state (`Chain.RefusalsOfRun`).
- Targets are checked against the current finalized slot, not the one at the start of the block.
- The finality delta can be zero, and shifting the window by zero is well defined.
- The latest justified checkpoint can move to a lower slot; `Ledger.JustifiedMovesBack` says exactly when, `Ledger.JustifiedMovesBackOnce` gives an input.
- `4 * delta + 1` wraps at 64 bits, so the justifiability test is wrong for some distances from `2^62` on; `Justifiable.AcceptedIsJustifiable` says exactly for which. No slot that a history can hold is that far away (`Transition.RuleWithinLimit`), so on every chain the rule decides (`Chain.CheckpointsOfRun`).
- Votes are pooled per target whatever their source, and the source of the vote that completes the quorum is the one finalized. So the order of attestations matters (`Sequencing.OrderMatters`); `Swapping.SwapExactly` says exactly when two neighbours may change places. And two chains can finalize conflicting blocks although no validator voted twice for a slot or around an own vote, the two rules of Casper (`Accountability.NobodyToBlame`; the source knows no such rules). `Accountability.PooledVotesFork` gives the family and says exactly when somebody breaks one of them; a third of the validators voted for both final blocks in any case (`Accountability.FinalityShares`), and if these have one slot the third voted twice for it (`Accountability.SameSlotOffends`).
- A producer picks attestations by the finality of the state before, while processing compares with finality as it moves, so a payload of fresh attestations can be refused (`Sequencing.FreshVoteRefused`); `Drafts.ChosenDraft` says exactly when, and `Drafts.SortedDraft` that the order of targets avoids it.
- After a prune the finalized block's parent is forgotten. If that parent is imported again and then the block itself, the arena misses the link between them (`ImportLink.ReimportGoesWrong`). `ForkRun.ForgottenParentReturns` gives the shape of such a run, and `ShortRuns.ParentForgotten` one whose blocks all come from a chain. It takes three blocks after the anchor, since a block can finalize its grandparent at best (`OrderlyRun.FinalityIsLate`). Blocks that only come after their parents never do that (`OrderlyRun.OrderlyLinks`).
- The head stays where it is while the justified block is unknown. After an anchor that is not genesis this can happen: a newer justified slot may lie below the anchor, as in the run of `ShortRuns.GapOpens`. `OrderlyRun.JustifiedOfRun` says exactly when; from genesis it never does (`OrderlyRun.FromGenesis`).
- Fork choice counts every bit of an attestation, also beyond the registry, while two thirds are taken of the registry. With signers outside it, two thirds can back both sides of a fork (`ForkRun.StrangersSplit`); it takes enough voters for two quorums, exactly (`ForkTheorems.SplitNeedsTwoQuorums`). As long as the attestations of a run stay inside it, no such votes are counted (`ForkRun.SignersOfRun`).
- A failed flush after a promotion leaves rows in memory that the next bundle write does not put on disk, although it reports everything clean (`StorageModel.PromotionLost`); `StorageModel.FailedFlushLingers` says exactly when memory and disk agree after it. The next committed change of finality writes all rows again.
- The fillers behind a grinding witness are skipped and not compared with zero, so a padded proof is not bound there; `ProofBinding.BoundOutsideSlack` says that it is everywhere else.
- After a prune the children map no longer lists the kept root under its recorded zero parent.

Some branches of the source cannot be taken in a store built by its own operations, and the methods leave them out: the fallback head on import (`src/fork_choice.rs:265-268`), missing blocks, states and heads during a prune (`816-821`, `907-910`), and the body-root check against a header built from the same block (`src/containers/state.rs:402-405`).

## Model

| member | source | states |
|---|---|---|
| `ForkChoice.ForkChoiceStore.Anchored` | src/fork_choice.rs:97-148 | the anchored store is valid: one block, all checkpoints, head and safe target on it |
| `ForkChoice.ForkChoiceStore.New` | src/fork_choice.rs:97-103 | the anchor is refused exactly when neither the header of its post-state nor the hash of that state carries the block's state root; otherwise every field of the store is the anchored one |
| `ForkChoice.ForkChoiceStore.RecomputeBestChild` | src/fork_choice.rs:698-711 | afterwards the cached best child beats every other child by weight, then by smaller root; nothing else changes |
| `ForkChoice.ForkChoiceStore.PropagateWeightFromIndex` | src/fork_choice.rs:722-733 | the walk over parents raises exactly the node and its ancestors by delta and keeps all best-child caches right |
| `ForkChoice.ForkChoiceStore.ApplyVoteDelta` | src/fork_choice.rs:748-753 | adding or withdrawing one validator's vote takes the arena from the weights of the old votes to those of the new |
| `ForkChoice.ForkChoiceStore.SetLatestVote` | src/fork_choice.rs:736-745 | a vote replaces the validator's previous one and all weights and caches follow |
| `ForkChoice.ForkChoiceStore.ApplyAttestationVotes` | src/fork_choice.rs:756-774 | every participant's vote moves to the attestation's head, active or pending; an unknown head changes nothing |
| `ForkChoice.BitlistIndices` | src/fork_choice.rs:1002-1016 | the indices found are exactly the set bits, in ascending order |
| `ForkChoice.ForkChoiceStore.LinkAndRank` | src/fork_choice.rs:679-695 | linking a child moves its whole weight to the parent and all ancestors and re-ranks them |
| `ForkChoice.ForkChoiceStore.AttachKnownChildren` | src/fork_choice.rs:663-676 | blocks that waited for this parent are linked below it, and only those |
| `ForkChoice.ForkChoiceStore.InsertProtoNode` | src/fork_choice.rs:634-660 | a new node with late parents and early children gives an arena that mirrors the grown tree with correct weights |
| `ForkChoice.ForkChoiceStore.InsertBlock` | src/fork_choice.rs:219-228 | the maps gain the block and the store stays sound: arena, weights and caches match the tree of the new maps |
| `ForkChoice.ForkChoiceStore.FindHead` | src/fork_choice.rs:344-354 | following cached best children from the justified root finds the block the naive rule finds |
| `ForkChoice.ForkChoiceStore.IsDescendant` | src/fork_choice.rs:404-418 | true exactly for the ancestor itself and its descendants in the tree |
| `ForkChoice.ForkChoiceStore.HeadChangeIsReorg` | src/fork_choice.rs:617-631 | true exactly when the new head does not descend from the old one |
| `ForkChoice.ForkChoiceStore.RefreshSafeTarget` | src/fork_choice.rs:357-392 | the safe target is the highest block in the anchor's subtree with two thirds of the votes, smaller root on ties |
| `ForkChoice.ForkChoiceStore.PruneToFinalized` | src/fork_choice.rs:776-885 | the rebuilt store is sound and holds exactly the finalized block's subtree: blocks, states, recorded parents with the finalized root's set to zero, each known child listed once under its parent, and normalized votes |
| `ForkChoice.ForkChoiceStore.PruneFinalizedHistory` | src/fork_choice.rs:776-915 | nothing happens for an unknown root; otherwise all maps are the pruned ones, checkpoints settle in the kept tree and the head is the naive one |
| `ForkChoice.ForkChoiceStore.AdvanceCheckpoints` | src/fork_choice.rs:238-247 | justified and finalized only move to higher slots and the previous justified is remembered |
| `ForkChoice.ForkChoiceStore.ImportBlockInternal` | src/fork_choice.rs:208-274 | a refused block changes nothing; an accepted one leaves a valid store: every validator votes for the head of the last attestation of the block that names them and a known block, everyone else as before; newer checkpoints are taken over and prune to exactly the descendants of the finalized block; the head is the naive one or the old one while the justified block is unknown, the reorg is counted and the validator count stays |
| `ForkChoice.ForkChoiceStore.OnBlock` | src/fork_choice.rs:159-167 | the same with the proposer's own attestation as the last word |
| `ForkChoice.ForkChoiceStore.OnAttestation` | src/fork_choice.rs:282-284 | a gossip vote is only buffered, for every participant if the head is known; weights, head and tree do not move |
| `ForkChoice.ForkChoiceStore.AcceptNewVotes` | src/fork_choice.rs:288-306 | pending votes override active ones in any order, the head is the naive one, and leaving the old chain counts as a reorg |
| `ForkChoice.ForkChoiceStore.UpdateSafeTarget` | src/fork_choice.rs:310-312 | in a valid store recomputing the safe target changes nothing |
| `ForkChoice.ForkChoiceStore.GetProposalHead` | src/fork_choice.rs:329-337 | the block to build on is the naive head once all pending votes count; leaving the old chain counts as a reorg |
| `ForkChoice.ForkChoiceStore.GetProposalHeadWithPending` | src/fork_choice.rs:316-326 | the same after buffering a list of attestations in order |
| `ForkChoice.ForkChoiceStore.AddWeightAt` | src/fork_choice.rs:722-733 | one step of the walk: the node's weight changes and its parent's cache follows |
| `ForkChoice.ForkChoiceStore.RecordVote` | src/fork_choice.rs:765-772 | an active vote is counted at once, a pending one only stored |
| `ForkChoice.ForkChoiceStore.AttachKnownChild` | src/fork_choice.rs:663-676 | one waiting child is linked if it is known and has no parent yet |
| `ForkChoice.ForkChoiceStore.AttachToParent` | src/fork_choice.rs:656-658 | the new node is linked below its parent if that is known |
| `ForkChoice.ForkChoiceStore.PushNode` | src/fork_choice.rs:644-654 | a leaf of weight zero joins the arena |
| `ForkChoice.ForkChoiceStore.RecomputeAll` | src/fork_choice.rs:863-865 | every best child is recomputed, weights and shape stay |
| `ForkChoice.ForkChoiceStore.ReapplyVotes` | src/fork_choice.rs:882-885 | counting the kept votes one by one gives all weights from zero |
| `ForkChoice.ForkChoiceStore.SettleCheckpoints` | src/fork_choice.rs:887-899 | checkpoints of dropped blocks fall back to the finalized one |
| `ForkChoice.ForkChoiceStore.ApplyBlockVotes` | src/fork_choice.rs:232-237 | the block's attestations count in order, then the proposer's: the last one that names a validator and a known head decides, and who is not named keeps their vote |
| `ForkChoice.ForkChoiceStore.UpdateHead` | src/fork_choice.rs:259-272 | head and safe target are recomputed and a reorg is counted exactly when the chain is left |
| `ForkChoice.ForkChoiceStore.PromoteVotes` | src/fork_choice.rs:292-295 | the pending votes become active, whatever their order |
| `ForkChoice.ForkChoiceStore.BufferVotes` | src/fork_choice.rs:320-322 | a list of attestations is buffered, the last word deciding |
| `ForkChoice.StorePromises` | src/fork_choice.rs:344-418 | in every valid store the head is the greedy one from the justified block, and the safe target the highest block with two thirds of the votes under the finalized block, else the justified one, else the head; both with ties to the smaller root |
| `ForkUpkeep.AppliedLastWord` | src/fork_choice.rs:756-774 | counting attestations one by one, the last that names a validator and a known head decides |
| `ForkArena.CachedBestIsBest` | src/fork_choice.rs:698-719 | in a mirrored arena with exact weights the cached best child is the naive best child |
| `ForkArena.BestChildStep` | src/fork_choice.rs:344-354 | one step along the cache is one step of the naive descent |
| `ForkTheorems.LinkWeight` | src/fork_choice.rs:679-695 | linking a parentless block adds its weight to exactly the new ancestors |
| `ForkTheorems.CastWeight` | src/fork_choice.rs:736-753 | a first vote counts once for its block and each ancestor |
| `ForkTheorems.WithdrawWeight` | src/fork_choice.rs:736-753 | withdrawing a vote undoes exactly that |
| `ForkTheorems.SupermajorityChain` | src/fork_choice.rs:357-392 | blocks backed by two thirds of the validators lie on one chain |
| `ForkTheorems.SplitNeedsTwoQuorums` | src/fork_choice.rs:357-392 | a set of voters can back two branches with two thirds each exactly when it holds two quorums, which voters of the registry never do |
| `ForkTheorems.SupermajorityUnderHead` | src/fork_choice.rs:344-392 | every such block under the justified root is the head or an ancestor of it |
| `ForkTheorems.SafeTargetUnique` | src/fork_choice.rs:357-392 | the safe target does not depend on the order of iteration |
| `ForkTheorems.SafeTargetUnderHead` | src/fork_choice.rs:357-418 | a safe target is the head or an ancestor of it exactly when it lies on one line with the justified root |
| `ForkTheorems.HeadExactly` | src/fork_choice.rs:344-356 | the head is the only leaf below the justified block at every fork of whose path the branch taken has more votes, or as many and the smaller root; it does not move while the justified block is unknown |
| `ForkTheorems.SafeExactly` | src/fork_choice.rs:357-392 | what makes a block the safe target, both ways |
| `ForkTheorems.PruneWeight` | src/fork_choice.rs:776-885 | pruning keeps every kept weight; the new root gains exactly the votes its ancestors held |
| `ForkTheorems.PruneKeepsHead` | src/fork_choice.rs:776-915 | from every kept block the head is the same before and after a prune |
| `ForkPrune.KeptRoots` | src/fork_choice.rs:789-802 | the stack search finds exactly the known descendants of the finalized root |
| `ForkPrune.RebuildTree` | src/fork_choice.rs:804-853 | the rebuilt maps and blank arena describe exactly the pruned tree, with every child listed once |
| `ForkPrune.NormalizePrunedVoteRoot` | src/fork_choice.rs:977-999 | a kept vote stays, a vote for an ancestor of the finalized root moves to it, any other is dropped |
| `ForkPrune.PruneTo` | src/fork_choice.rs:776-877 | blocks, states, parents, children, tree and both vote maps after a prune are the pruned ones, with all weights still to fill in |
| `ForkPrune.BuildOne` | src/fork_choice.rs:813-852 | one popped entry adds its block, node and links, or is skipped as done |
| `ForkPrune.NormalizeVotes` | src/fork_choice.rs:866-880 | all votes of a map are kept, moved or dropped |
| `ForkInsert.FreshTree` | src/fork_choice.rs:219-228 | the tree of the new maps is the old tree grown, linked to its parent and to its waiting children |
| `ForkInsert.ImportedLastWord` | src/fork_choice.rs:229-237 | an import lets the last word of the block count, with or without a prune |
| `ForkInsert.ImportLands` | src/fork_choice.rs:208-264 | what an import makes of blocks, states and checkpoints, with and without a prune |
| `ForkTarget.LookBack` | src/fork_choice.rs:551-561 | the walk takes exactly the links it should, at most three and only past blocks above the safe slot, and fails exactly when the block it ends on is unknown |
| `ForkTarget.BackToJustifiable` | src/fork_choice.rs:563-578 | the walk passes exactly the blocks above finality that may not be justified, and fails exactly when it leaves the store or falls below finality |
| `ForkTarget.AttestationTarget` | src/fork_choice.rs:543-585 | a target exactly when both walks, the first against the slot of the safe target, succeed: the block the second ends on, or the justified checkpoint if that is higher |
| `ForkTarget.LooksToUnique` | src/fork_choice.rs:551-561 | there is only one outcome of the first walk |
| `ForkTarget.WalksToUnique` | src/fork_choice.rs:563-578 | and only one of the second |
| `ForkTarget.TargetUnique` | src/fork_choice.rs:543-585 | so the target is determined |
| `ForkTarget.WalkReaches` | src/fork_choice.rs:551-578 | a walk over recorded parents that ends in the store runs along the tree |
| `ForkTarget.TargetOnChain` | src/fork_choice.rs:543-585 | the first walk passes at most three blocks, all above the safe target, and ends sooner only at a block that is not, or has no parent; the second passes only blocks that may not be justified and ends at one that may, or has no parent; the target is that block or, if higher, the justified checkpoint, and lies on the head's chain if the justified block is known |
| `ForkTarget.TargetFound` | src/fork_choice.rs:543-585 | there is a target whenever no parent is missing and no block lies below finality |
| `ImportLink.AcceptedOlderParent` | src/containers/state.rs:274-289 | a block the transition accepts is younger than whatever header its parent root stands for |
| `ImportLink.AcceptedImportable` | src/fork_choice.rs:208-228 | so such a block meets the conditions of an import, unless it repeats a pruned root whose parent came back |
| `ImportLink.AnchorHolds` | src/fork_choice.rs:97-148 | an anchor's store holds only blocks younger than their parents |
| `ImportLink.PrunedHolds` | src/fork_choice.rs:776-853 | so does a pruned store, with the finalized block's parent forgotten |
| `ImportLink.ImportedHolds` | src/fork_choice.rs:208-274 | so every import of an accepted block keeps it, whether it prunes or not |
| `ImportLink.ReimportMirrors` | src/fork_choice.rs:219-228 | importing a known root again keeps the arena right exactly when the parent is the recorded one or unknown |
| `ImportLink.ForgottenLink` | src/fork_choice.rs:219-228 | importing a root whose forgotten parent is known again links them in the maps and not in the arena |
| `ImportLink.ReimportGoesWrong` | src/fork_choice.rs:219-228 | a store that is sound before such an import and whose arena is wrong after it |
| `ForkRun.Handle` | src/fork_choice.rs:159-337 | every event keeps the store valid and fit for the next, and changes blocks, states, parents, both vote maps, all checkpoints, head and reorgs as specified on values; the validator count stays |
| `ForkRun.FromAnchor` | src/fork_choice.rs:97-337 | from an anchor, every run of accepted blocks, votes, promotions and proposals keeps the store valid, and blocks, votes, checkpoints, head, reorgs and validator count are exactly those of the run; each block may come again unless its forgotten parent has come back |
| `ForkRun.SeenOnceLinks` | src/fork_choice.rs:208-274 | a run that imports each block once meets that condition |
| `ForkRun.ForgottenParentReturns` | src/fork_choice.rs:208-274 | the shape of a run that does not: a child, a grandchild, a great-grandchild that finalizes the child, the anchor again, then the child |
| `ForkRun.SignersOfRun` | src/fork_choice.rs:756-774 | if all attestations of a run come from the first n validators, so do all votes it counts or buffers |
| `ForkRun.BackedOnOneChain` | src/fork_choice.rs:357-392 | after such a run with n the store's validator count, blocks backed by two thirds lie on one chain |
| `ForkRun.StrangersSplit` | src/fork_choice.rs:756-774 | with one validator, two gossip votes of which one comes from outside put two thirds behind both sides of any fork |
| `ForkRun.BlockVoteStands` | src/fork_choice.rs:208-274 | in any run, the vote a block carries as its last word for a validator is that vote at the end, unless a later event says otherwise or prunes its block |
| `ForkRun.GossipVoteCounts` | src/fork_choice.rs:282-312 | in any run, a gossip vote counts once it is accepted, unless a newer one came or its block was pruned |
| `OrderlyRun.ParentIsTip` | src/containers/state.rs:285-289 | each block of a chain names the one before it as its parent |
| `OrderlyRun.CheckpointsNamed` | src/containers/state.rs:290-296 | from the first block on both checkpoints of a chain name blocks |
| `OrderlyRun.FinalityIsLate` | src/containers/state.rs:657-696 | a run's final block is genesis or older than its last but one block |
| `OrderlyRun.PathKnown` | src/fork_choice.rs:219-228 | when the end of a chain is known, so is its whole path down to the root of the store |
| `OrderlyRun.CheckpointKnown` | src/fork_choice.rs:238-247 | a checkpoint of such a chain is known exactly from the root's slot on, and at its own slot |
| `OrderlyRun.StepRooted` | src/fork_choice.rs:208-274 | a block that follows its parent keeps all blocks in one tree, and a prune moves its root to the finalized block |
| `ShortRuns.ParentForgotten` | src/fork_choice.rs:208-274 | over any registry, a run of chain blocks that the store handles and after which its first block must not come again |
| `OrderlyRun.OrderlyLinks` | src/fork_choice.rs:208-274 | blocks that follow their parents never repeat one whose parent was forgotten, so `ForkRun.FromAnchor` applies |
| `OrderlyRun.JustifiedStep` | src/fork_choice.rs:238-247 | after an event the justified block is known exactly unless a newer justified slot lies below the root and nothing is pruned |
| `OrderlyRun.JustifiedOfRun` | src/fork_choice.rs:238-268 | from any anchor the justified block is known all along exactly when no event does that |
| `ShortRuns.GapOpens` | src/fork_choice.rs:238-268 | over any registry, an anchor of a chain and its next block, after which the justified block is unknown |
| `OrderlyRun.CoveredRun` | src/fork_choice.rs:238-268 | once the justified checkpoint is a known block at its slot, it stays one |
| `OrderlyRun.FromGenesis` | src/fork_choice.rs:97-337 | from genesis, in every run of chain blocks that follow their parents, the justified block is known and the head is the naive one from it |
| `Justifiable.Isqrt` | src/slot.rs:156-174 | the digit-by-digit loop returns the exact floor of the square root of every 64-bit number |
| `Justifiable.IsJustifiableAfter` | src/slot.rs:138-153 | an error exactly below finality; otherwise true exactly for distances up to 5, squares, and pronic numbers modulo 2^62 |
| `Justifiable.AcceptedIsJustifiable` | src/slot.rs:138-153 | code and rule agree exactly below 2^62, at squares, and at distances that are pronic neither before nor after the wrap-around |
| `Justifiable.NeverBothPronic` | src/slot.rs:138-153 | no distance from 2^62 on is pronic both before and after |
| `Justifiable.WrappedPronicRefused` | src/slot.rs:138-153 | so there every pronic distance is refused against the rule |
| `Justifiable.WrappedDistanceAccepted` | src/slot.rs:138-153 | and 2^62 + 2 is accepted against it |
| `Justifiable.NextJustifiable` | src/slot.rs:138-153 | after any distance the next justifiable one is at most isqrt + 1 away |
| `Containers.BlockRootBinds` | src/containers/block.rs:25-52 | a block root stands for one block, body included, as long as hashes do not collide |
| `Window.ExtendedJustified` | src/containers/state.rs:312-325 | extending the window changes no slot's answer |
| `Window.MarkedJustified` | src/containers/state.rs:1366-1388 | marking a slot changes that slot only |
| `Window.ShiftedJustified` | src/containers/state.rs:1410-1431 | moving finality changes answers only at or below the new finalized slot |
| `Window.IsSlotJustified` | src/containers/state.rs:1342-1356 | the byte-level query answers for the bits the list denotes |
| `Window.ExtendWindow` | src/containers/state.rs:312-325 | resizing the bytes extends the bits by false and stays canonical |
| `Window.SetJustifiedSlot` | src/containers/state.rs:1366-1388 | fails exactly past the limit; otherwise sets exactly that bit, growing as needed |
| `Window.ShiftJustifiedWindow` | src/containers/state.rs:1410-1431 | the bit-by-bit copy drops exactly the first delta bits |
| `VoteTable.MergeParticipantVotes` | src/containers/state.rs:1194-1218 | byte-wise merging gives the union with the participants below n, and the count is the size of that set |
| `VoteTable.CountOnesIsSize` | src/containers/state.rs:1209-1217 | the ones of a byte count the positions it sets |
| `VoteTable.RoundTrip` | src/containers/state.rs:1242-1324 | decoding the encoded table gives the table back exactly when there are validators or the table is empty |
| `VoteTable.StoredLayout` | src/containers/state.rs:1283-1324 | bit v of row k of the stored table says whether validator v voted for root k, and the roots ascend |
| `VoteCodec.CollectSorted` | src/containers/state.rs:1290-1291 | the roots in ascending order, so the encoding depends on the table alone |
| `VoteCodec.EncodeJustificationVotes` | src/containers/state.rs:1285-1324 | fails exactly past the limit; otherwise sorted roots and a canonical bitmap of all rows, in both layouts |
| `VoteCodec.DecodeJustificationVotes` | src/containers/state.rs:1242-1282 | rows are read back with exact counts; a whole-byte row that is cut short is empty, and without validators nothing is read |
| `VoteCodec.StoreAndLoad` | src/containers/state.rs:1242-1324 | storing and loading returns the same bytes and counts, and nothing without validators |
| `Transition.NextJustifiableStaysAbove` | src/containers/state.rs:668-709 | a pair that straddles the finalized slot is never consecutive, so finality cannot move back |
| `Transition.RuleWithinLimit` | src/containers/state.rs:591-596 | up to the limit of the history the code's answer is the rule's |
| `Transition.SlotsPass` | src/containers/state.rs:230-243 | passing slots move only the slot, and give a header without state root the root of its state |
| `Transition.HeaderStaged` | src/containers/state.rs:290-333 | a header that passes is staged without state root; its parent and a zero per skipped slot go to the history; the first one names genesis in both checkpoints |
| `Transition.StaleResidue` | src/containers/state.rs:591-596 | a stale target leaves the checkpoints and window of the attestations before it |
| `StateMachine.IsNextValidJustifiableSlot` | src/containers/state.rs:1391-1402 | true exactly when no slot strictly between may be justified |
| `StateMachine.BuildHistoricalRootSlots` | src/containers/state.rs:1327-1335 | the last slot of each nonzero root |
| `StateMachine.RetainVotes` | src/containers/state.rs:711-722 | fails exactly on a root without slot; otherwise keeps exactly the votes above the finalized slot |
| `StateMachine.MergeVote` | src/containers/state.rs:627-631 | the table with the target's voters enlarged, and their number |
| `StateMachine.State.Genesis` | src/containers/state.rs:189-222 | the genesis value: empty history, zero checkpoints, header carrying the state's own hash |
| `StateMachine.State.ProcessSlots` | src/containers/state.rs:230-243 | the loop is the step function iterated, and only fills in a missing state root; fails exactly when the target is not ahead, without change |
| `StateMachine.State.ProcessBlockHeaderAssumingSlot` | src/containers/state.rs:273-333 | refuses exactly an old slot, a proposer other than the slot modulo the number of validators, another parent, or a full history, in this order; on success the specified staged state; a failed check changes nothing, and a full history leaves the seeded checkpoints and the recorded parent |
| `StateMachine.State.ProcessBlockHeader` | src/containers/state.rs:254-259 | refuses a block for another slot without change; otherwise as the header alone, failures included |
| `StateMachine.State.CheckEligible` | src/containers/state.rs:525-620 | an error exactly for a well-formed vote below finality; eligible exactly when all conditions on slots, roots, history and window hold |
| `StateMachine.State.FinalizeSource` | src/containers/state.rs:703-722 | finality, window and retained votes move together as specified |
| `StateMachine.State.FinalizeIfNext` | src/containers/state.rs:668-722 | the source is finalized exactly when no slot between it and the target may be justified |
| `StateMachine.State.Adopt` | src/containers/state.rs:657-722 | justifies the target and finalizes the source exactly when they are consecutive; on an error the checkpoints and the window have moved as specified |
| `StateMachine.State.ProcessAttestation` | src/containers/state.rs:524-724 | one iteration of the loop is one step of the specification |
| `StateMachine.State.ProcessAttestations` | src/containers/state.rs:498-757 | the whole loop, with the table decoded on first use and encoded at the end, is the fold of the steps; on an error the checkpoints and window are those of the failing step and the stored votes untouched |
| `StateMachine.State.ProcessBlock` | src/containers/state.rs:339-343 | header then body, for a block at the state's slot, with the state that a failure leaves behind |
| `StateMachine.State.StateTransitionInner` | src/containers/state.rs:366-473 | slots, header, attestations and the state-root check give the specified state or the specified error, with the state each failing stage leaves behind |
| `StateMachine.State.ProcessSignedBlock` | src/containers/state.rs:804-867 | succeeds exactly when envelope, signature and transition do; a rejected block leaves the state unchanged |
| `StateMachine.State.BuildRootSlots` | src/containers/state.rs:511-515 | the slots of the history, with the staged header where it is new |
| `StateMachine.State.LoadVotes` | src/containers/state.rs:625-626 | the stored table is decoded on first use |
| `StateMachine.State.JustifyTarget` | src/containers/state.rs:657-666 | checkpoint, window and votes after justifying; fails exactly past the limit |
| `StateMachine.State.StoreVotes` | src/containers/state.rs:725-727 | a loaded table is written back, failing exactly when its bitmap is too long |
| `Ledger.StepKeeps` | src/containers/state.rs:524-724 | every attestation keeps the record of votes, moves forward, and can only fail on a target below finality |
| `Ledger.StepsKeep` | src/containers/state.rs:524-724 | so does every list of attestations |
| `Ledger.AdoptKeeps` | src/containers/state.rs:657-722 | an adoption never fails in a state that agrees with its record |
| `Ledger.QuorumTakesEffect` | src/containers/state.rs:645-722 | a vote that completes two thirds justifies its target and finalizes its source exactly when they are consecutive; it never fails |
| `Ledger.VotesFollowRule` | src/containers/state.rs:591-620 | within the limit of the history a vote is eligible, and a pair consecutive, exactly by the rule on distances |
| `Ledger.CheckpointsByRule` | src/containers/state.rs:591-722 | one attestation moves the two checkpoints exactly as the rule says: the target of a completing vote, and its own source if the rule allows no slot between |
| `Ledger.QuorumsIntersect` | src/containers/state.rs:627-631 | two adopted targets share at least a third of the validators |
| `Ledger.JustifiedMovesBack` | src/containers/state.rs:657-660 | the justified checkpoint moves back exactly when an older target gets its two thirds |
| `Ledger.JustifiedMovesBackOnce` | src/containers/state.rs:657-660 | and a concrete vote that does it, in a tally that agrees with its record |
| `Sequencing.FinalityReached` | src/containers/state.rs:703-710 | after a list the finalized slot is the highest among the old one and the sources it finalized |
| `Sequencing.RefusedIfOvertaken` | src/containers/state.rs:591-722 | a list is refused exactly when some vote's target is below finality, as it was before or as an earlier vote of the list has moved it |
| `Sequencing.ClearNeverRefused` | src/containers/state.rs:591-722 | fresh votes none of which is for a slot below an earlier vote's source are never refused, a test on the list alone |
| `Sequencing.RisingNeverRefused` | src/containers/state.rs:591-722 | fresh votes in the order of their targets are never refused |
| `Sequencing.FreshVoteRefused` | src/containers/state.rs:591-722 | two fresh votes that are refused in one order and accepted in the other |
| `Sequencing.CompletedStep` | src/containers/state.rs:657-722 | a completing vote settles its target and finalizes its own source or nothing |
| `Sequencing.PooledSteps` | src/containers/state.rs:627-645 | votes for one target short of a quorum are pooled whatever their sources |
| `Sequencing.CompletedSteps` | src/containers/state.rs:627-722 | of many votes for one target the first that brings the pool to two thirds decides which source is finalized |
| `Sequencing.OrderOfOneTarget` | src/containers/state.rs:627-722 | the votes for one target can be reordered exactly if they stay below the quorum or the completing votes finalize the same checkpoint |
| `Sequencing.OrderBelowQuorum` | src/containers/state.rs:627-645 | votes for any targets that reach no quorum can be reordered and repeated freely |
| `Sequencing.OrderMatters` | src/containers/state.rs:627-722 | two votes for one target: one order finalizes a source on the word of one validator, the other finalizes nothing |
| `Swapping.SwapExactly` | src/containers/state.rs:524-724 | two neighbouring attestations give the same result in both orders exactly when they are swappable: a condition on the tally before them, for stale votes, votes that complete no quorum, one or two |
| `Swapping.QuorumsDiffer` | src/containers/state.rs:645-722 | two votes that complete quorums for different targets never change places |
| `Swapping.SwapOneTarget` | src/containers/state.rs:627-722 | two votes for one target do exactly when the one that completes the quorum finalizes the same either way |
| `Swapping.SwapInList` | src/containers/state.rs:524-724 | the same anywhere in a list; a swap that is allowed leaves the result of the whole list as it is |
| `Chain.BlockAt` | src/containers/state.rs:273-310 | with rising slots every block of a run is found at its slot |
| `Chain.HistoryDistinct` | src/containers/state.rs:302-311 | block roots in a history never repeat |
| `Chain.AcceptedSettles` | src/containers/state.rs:366-473 | an accepted block keeps the whole invariant of a reachable state and moves forward |
| `Chain.RunSettles` | src/containers/state.rs:366-473 | every run from genesis keeps it |
| `Chain.HistoryOfRun` | src/containers/state.rs:273-333 | after a block at slot N the history has length N, entry i is the block at slot i or zero, and both checkpoints are entries |
| `Chain.RunMovesForward` | src/containers/state.rs:591-722 | along a run finality never moves back, justified slots stay justified and the history only grows |
| `Chain.FinalizedBelowJustified` | src/containers/state.rs:657-710 | finalized is never above justified |
| `Chain.FinalizedStays` | src/containers/state.rs:703-707 | a block finalized by a prefix stays in the history at its slot |
| `Chain.VotesOfRun` | src/containers/state.rs:625-722 | pending votes are all distinct validators ever counted; adopted means exactly two thirds of them; justified above finality means adopted |
| `Chain.VotersOfRun` | src/containers/state.rs:627-645 | in every run a target is adopted exactly when three times its counted voters are at least twice the validators, and only validators are counted |
| `Chain.QuorumsOfRuns` | src/containers/state.rs:627-657 | targets adopted on any two chains over one registry share a third of the validators |
| `ShortChains.NextBlock` | src/containers/state.rs:366-473 | every run can be extended by a block with any attestations that the state after it can take, and the tally is what the block leaves |
| `ShortChains.QuorumMoves` | src/containers/state.rs:645-722 | a quorum with nothing else pending justifies exactly its target, finalizes the source exactly when nothing between may be justified, and leaves no votes |
| `Accountability.VotesSigned` | src/containers/state.rs:625-630 | every vote a run counts for a block was signed in the body of one of its blocks, for that block at its slot |
| `Accountability.FinalityShares` | src/containers/state.rs:625-696 | when two chains over one registry finalize beyond genesis, a third of the validators signed for both final blocks |
| `Accountability.SameSlotOffends` | src/containers/state.rs:625-696 | if these are different blocks of one slot, a third of the validators voted twice for it |
| `Accountability.PooledVotesFork` | src/containers/state.rs:625-696 | at different slots pooled sources let two chains finalize conflicting blocks; within this family somebody breaks a rule exactly when votes from the two sources, or from slot 1 and on the fork, share a signer |
| `Accountability.NobodyToBlame` | src/containers/state.rs:625-696 | with three validators two chains finalize conflicting blocks and nobody breaks a rule |
| `Chain.PendingOfRun` | src/containers/state.rs:510-515 | every root in the vote table is a block of the history above finality and not justified |
| `Chain.RefusalsOfRun` | src/containers/state.rs:498-757 | in a reachable state no internal error can occur: not for zero roots, missing slots, or full bitmaps and windows |
| `Chain.CheckpointsOfRun` | src/containers/state.rs:591-722 | in every run each attestation moves justified and finalized exactly as the rule on distances says |
| `Chain.ProposersOfRun` | src/containers/state.rs:278-284 | every block of a run comes from the validator with the slot's index modulo the number of validators |
| `Chain.HeaderVerdict` | src/containers/state.rs:273-303 | in a reachable state, exactly which blocks are refused for their slot, their proposer, their parent and a full history |
| `Envelope.SingleSetBit` | src/containers/block.rs:195-215 | finds the participant exactly when there is one and only one |
| `Envelope.ValidateBasic` | src/containers/block.rs:157-190 | passes exactly for one proof per attestation over the same bits and a single proposer vote for the block's slot |
| `Pending.ContentsAt` | src/storage/pending.rs:81-87 | a bucket answers for exactly the slot it stores |
| `Pending.LeqRows` | src/storage/pending.rs:93-117 | writing out the entries up to a slot adds exactly that part of the cache to an index |
| `Pending.PendingSlotCache.constructor` | src/storage/pending.rs:40-45 | an empty cache of the given capacity |
| `Pending.PendingSlotCache.Insert` | src/storage/pending.rs:63-75 | the slot is stored and whatever shared its bucket is gone; the count stays the number of occupied buckets |
| `Pending.PendingSlotCache.Get` | src/storage/pending.rs:81-87 | a hit exactly for a stored slot, never for a collision |
| `Pending.PendingSlotCache.DrainLeq` | src/storage/pending.rs:93-107 | exactly the entries up to the bound leave, in bucket order |
| `Pending.PendingSlotCache.EntriesLeq` | src/storage/pending.rs:110-117 | the same entries without removing them |
| `Pending.PendingSlotCache.Roots` | src/storage/pending.rs:139-159 | the roots of all entries |
| `CanonicalDb.ClearTable` | src/storage/canonical_db.rs:575-578 | popping rows empties a table |
| `CanonicalDb.GcBlobTable` | src/storage/canonical_db.rs:612-628 | exactly the rows outside the kept set are removed and counted |
| `CanonicalDb.Database.PersistSnapshot` | src/storage/canonical_db.rs:276-324 | all index tables become the given ones, or nothing changes |
| `CanonicalDb.Database.PersistSignedBlockBundle` | src/storage/canonical_db.rs:338-405 | blobs, rows and metadata are written together, or nothing changes |
| `CanonicalDb.Database.GcUnreferencedBlobs` | src/storage/canonical_db.rs:473-502 | the three blob tables are restricted to the kept roots and the removals counted, or nothing changes |
| `CanonicalDb.InsertAll` | src/storage/canonical_db.rs:289-303 | every row of an index is written |
| `CanonicalDb.Upsert` | src/storage/canonical_db.rs:382-397 | rows are written one after the other |
| `StorageModel.BundleAgreement` | src/storage/file_store.rs:394-493 | from equal indexes a bundle write leaves memory and disk equal exactly when no entry being finalized loses its bucket without a row |
| `StorageModel.EvictionLosesRow` | src/storage/file_store.rs:394-493 | an input where it does not |
| `StorageModel.BundleMeets` | src/storage/file_store.rs:394-493 | whatever lag there was, a bundle write leaves memory and disk equal exactly when every row meets |
| `StorageModel.FailedFlushLingers` | src/storage/file_store.rs:394-493 | after a failed flush of promotions it does exactly when the disk had the rows already and nothing else is lost |
| `StorageModel.PromotionLost` | src/storage/file_store.rs:885-901 | an input where it does not |
| `StorageModel.BundleReads` | src/storage/file_store.rs:473-489 | a bundle write changes reads by slot only for its own slot and slots that lose their bucket |
| `StorageModel.BundleOwnRow` | src/storage/file_store.rs:420-489 | a block goes to the cache exactly above a known finalized slot, and a read of its slot finds it, unless it went to the index and the cache had another block there |
| `StorageModel.BundleMoves` | src/storage/file_store.rs:441-489 | exactly the cached rows up to the finalized slot move to both indexes |
| `StorageModel.PromotionInvisible` | src/storage/file_store.rs:199-207 | moving finality forward changes no read by slot |
| `StorageModel.PruneReads` | src/storage/prune.rs:35-104 | pruning and collection change no read by slot, except for rows below the cutoff that are neither pending nor pinned |
| `FileStore.Store.constructor` | src/storage/file_store.rs:100-122 | opening loads what the disk holds, deriving a missing finalized slot from the finalized block |
| `FileStore.Store.PromoteFinalizedSlotInMemory` | src/storage/file_store.rs:199-207 | exactly the entries up to the slot move from the cache to both indexes |
| `FileStore.Store.WriteBundle` | src/storage/file_store.rs:443-471 | the disk gets the block's rows first and the promotions after, in one transaction |
| `FileStore.Store.PublishBundle` | src/storage/file_store.rs:473-493 | memory gets them with the insertion before the drain |
| `FileStore.Store.PersistSignedBlockBundleInner` | src/storage/file_store.rs:394-493 | a failed write changes nothing; a committed one leaves memory and disk in sync exactly when every row meets, and from indexes in sync exactly when nothing is lost; what a read of its own slot finds is stated |
| `FileStore.Store.FlushCanonical` | src/storage/file_store.rs:223-243 | a committed flush of a dirty store makes the disk equal to memory |
| `FileStore.Store.SetHead` | src/storage/file_store.rs:846-850 | the metadata goes ahead of the disk and is marked so |
| `FileStore.Store.SetJustified` | src/storage/file_store.rs:907-911 | likewise |
| `FileStore.Store.SetFinalizedCheckpoint` | src/storage/file_store.rs:885-901 | a regression changes nothing; otherwise entries are promoted to both indexes, head and justified stay, a committed flush leaves everything in sync, and a failed one marks only the metadata dirty |
| `FileStore.Store.SetFinalized` | src/storage/file_store.rs:859-881 | the same with the slot of the stored block, dirty flags included; an unknown root changes nothing |
| `FileStore.Store.GetBlockBySlot` | src/storage/file_store.rs:833-839 | the cache decides first, then the index |
| `FileStore.Store.GetStateBySlot` | src/storage/file_store.rs:824-830 | likewise for states |
| `FileStore.Store.RebuildLiveStateRootIndex` | src/storage/file_store.rs:315-332 | the lookup finds every live root by the state root of its block, or by itself without block, and only live roots |
| `FileStore.RetainRows` | src/storage/prune.rs:49-72 | exactly the rows below the cutoff with an unpinned root go, and both counters are right |
| `FileStore.Store.CollectBlobs` | src/storage/prune.rs:78-92 | exactly the blobs that no index, cache entry or pin refers to are removed, and counted |
| `FileStore.Store.Prune` | src/storage/prune.rs:35-104 | exactly the rows within the slots to keep and those of the head, justified and finalized root stay, on disk too; exactly the blobs of a row, the cache or these roots stay; no other read by slot changes; every counter of the report is right |
| `FileStore.Store.Publish` | src/storage/file_store.rs:480-489 | the block enters cache or index first, then the cache is drained |
| `FileStore.Store.PruneIndexes` | src/storage/prune.rs:48-76 | both indexes are pruned and the rows counted, the lookup rebuilt and everything flushed |
| `FileStore.Store.ReferencedRoots` | src/storage/prune.rs:78-85 | the roots of an index, the cache and the metadata |
| `Transcript.ChunksOfFlatten` | fiat-shamir/src/utils.rs:3-21 | packing undoes flattening |
| `LockStep.StepsMatch` | fiat-shamir/src/verifier.rs:64-219 | a write and its matching read leave the same challenger, the same position and the same values |
| `LockStep.Completeness` | fiat-shamir/src/prover.rs:80-181 | on the prover's proof the verifier never exceeds it, sees the same scalars and challenges, and ends at its end |
| `LockStep.FinishedRead` | fiat-shamir/src/verifier.rs:64-219 | on any proof a verifier that finishes has read exactly what its script takes, so a short proof is refused |
| `LockStep.ProofLength` | fiat-shamir/src/prover.rs:63-181 | the proof has the length its script takes, and the alignment zeros account for the padding |
| `LockStep.ProofSizeIsUnpadded` | fiat-shamir/src/prover.rs:63-65 | the reported size is the length of the same script's proof without padding |
| `Observation.ProverObserves` | fiat-shamir/src/prover.rs:80-147 | a challenger that records what it observes ends with exactly the scalars added, in order and with their padding, and no hint |
| `Observation.VerifierObserves` | fiat-shamir/src/verifier.rs:64-166 | on any proof, the verifier's challenger records exactly what is read as transcript and none of the hints |
| `Observation.ProverCalls` | fiat-shamir/src/prover.rs:80-200 | the challenger goes through exactly the observations, samples and grindings of the script, in order |
| `Observation.ChallengerBinds` | fiat-shamir/src/prover.rs:80-147 | with an injective challenger, two scripts of one shape end in the same challenger exactly when they added the same scalars |
| `Observation.DrawSamples` | fiat-shamir/src/prover.rs:145-147 | challenge i of a row is what the sponge yields after the first i |
| `ProofBinding.SameRun` | fiat-shamir/src/verifier.rs:64-219 | a run depends on nothing but the positions its script takes, without the fillers behind grinding witnesses |
| `ProofBinding.SameEventsAgree` | fiat-shamir/src/verifier.rs:64-219 | proofs of one length with the same events agree wherever something other than a witness and its fillers is read |
| `ProofBinding.BoundOutsideSlack` | fiat-shamir/src/verifier.rs:64-219 | of two proofs with the same witnesses the verifier makes the same exactly when they agree outside those fillers |
| `ProofBinding.SlackUnnoticed` | fiat-shamir/src/verifier.rs:199-219 | so a finished proof can differ there and still be read to its end with the same events |
| `ProofBinding.NoSlackUnpadded` | fiat-shamir/src/verifier.rs:199-219 | without padding there are no such fillers |
| `TranscriptState.FlattenScalarsToBase` | fiat-shamir/src/utils.rs:3-9 | the coefficients of all scalars in order |
| `TranscriptState.PackScalarsToExtension` | fiat-shamir/src/utils.rs:11-21 | the pieces of the given dimension in order |
| `TranscriptState.ObserveSlice` | fiat-shamir/src/prover.rs:80-86 | the scalars are absorbed in order |
| `TranscriptState.DrawMany` | fiat-shamir/src/prover.rs:145-147 | that many challenges, one after the other |
| `TranscriptState.ProverState.constructor` | fiat-shamir/src/prover.rs:46-57 | the state of the empty script |
| `TranscriptState.ProverState.AddBaseScalars` | fiat-shamir/src/prover.rs:80-86 | written and observed |
| `TranscriptState.ProverState.AddExtensionScalars` | fiat-shamir/src/prover.rs:94-104 | each scalar is padded, counted, written and observed |
| `TranscriptState.ProverState.AddExtensionScalar` | fiat-shamir/src/prover.rs:110-113 | the case of one scalar |
| `TranscriptState.ProverState.HintBaseScalars` | fiat-shamir/src/prover.rs:121-125 | written and not observed |
| `TranscriptState.ProverState.HintExtensionScalars` | fiat-shamir/src/prover.rs:131-135 | flattened, written and not observed |
| `TranscriptState.ProverState.SampleVec` | fiat-shamir/src/prover.rs:145-147 | that many challenges in a row |
| `TranscriptState.ProverState.SampleBits` | fiat-shamir/src/prover.rs:156-158 | bits from the challenger |
| `TranscriptState.ProverState.PowGrinding` | fiat-shamir/src/prover.rs:164-181 | the witness and its padding are written, the zeros counted; nothing for difficulty zero |
| `TranscriptState.ProverState.IntoProof` | fiat-shamir/src/prover.rs:63-74 | the size handed over is the unpadded length of the whole script |
| `TranscriptState.VerifierState.constructor` | fiat-shamir/src/verifier.rs:43-51 | starts at position zero with the proof's padding |
| `TranscriptState.VerifierState.NextBaseScalarsVec` | fiat-shamir/src/verifier.rs:64-78 | fails without change exactly when too little is left; otherwise reads and observes |
| `TranscriptState.VerifierState.NextExtensionScalarsVec` | fiat-shamir/src/verifier.rs:96-114 | one scalar after the other, with the padding checked; a failing call stops at the first scalar that fails |
| `TranscriptState.VerifierState.ReceiveHintBaseScalars` | fiat-shamir/src/verifier.rs:139-151 | reads without observing |
| `TranscriptState.VerifierState.ReceiveHintExtensionScalars` | fiat-shamir/src/verifier.rs:159-166 | reads and packs without observing |
| `TranscriptState.VerifierState.SampleVec` | fiat-shamir/src/verifier.rs:176-178 | that many challenges in a row |
| `TranscriptState.VerifierState.SampleBits` | fiat-shamir/src/verifier.rs:187-189 | bits from the challenger |
| `TranscriptState.VerifierState.CheckPowGrinding` | fiat-shamir/src/verifier.rs:199-219 | succeeds exactly for zero bits or a witness the challenger accepts; fails without data, unchanged, or on a bad witness, past it |
| `TranscriptState.VerifierState.ReadExtension` | fiat-shamir/src/verifier.rs:101-112 | one scalar, with its padding checked; wrong padding is noticed past the scalar |
| `Aggregation.OrInto` | src/node/head.rs:63-80 | word-wise and byte-wise OR give the OR of all source bytes |
| `Aggregation.MergeAggregationBits` | src/node/head.rs:53-83 | the participants of the result are the union, and it stays canonical |
| `Aggregation.AggregateAttestations` | src/node/head.rs:35-50 | one attestation per data, signed by exactly all who signed that data |
| `Aggregation.AggregateCounts` | src/node/head.rs:35-50 | counting the aggregate is counting the list, if nobody signs for two heads |
| `Aggregation.ProposalHeadFromPending` | src/node/head.rs:18-31 | so votes and proposal head from the aggregate are those from the raw list; blocks and checkpoints stay, the buffer is empty and reorgs are counted |
| `Aggregation.CollectValues` | src/node/head.rs:49 | each group once, in some order |
| `Producer.SplitEntries` | src/node/tasks.rs:693-708 | stale entries go, entries with proof take its participants, the rest is left to aggregate |
| `Producer.BuildBlockAttestationPayload` | src/node/tasks.rs:671-800 | the pool is drained; the fresh entries with a proof come first, in order, up to the limit; as long as everything fits, all other fresh data follow that have signers and can be signed, each with exactly its signers; nothing else does |
| `Producer.ChosenProper` | src/node/tasks.rs:671-800 | the choice keeps to the limit, pairs every attestation with a proof over the same bits, and offers nothing stale |
| `Producer.CompleteBlock` | src/node/tasks.rs:842-860 | a block comes out exactly when it can be processed, and importing it gives exactly the returned state |
| `Producer.ProduceBlockWithSignatures` | src/node/tasks.rs:803-938 | whatever comes out carries that payload, passes the structural checks and is accepted with the same post-state exactly when the pre-state is before its slot; the proposer's attestation carries the previewed vote, or without preview the block itself and the justified checkpoint of its post-state; with keys at hand a block comes out exactly when the draft made of the choice can be processed |
| `Producer.AppendSigned` | src/node/tasks.rs:728-797 | exactly the aggregates that have participants and can be signed are added, with proofs for their own bits |
| `Producer.SingleBit` | src/node/tasks.rs:863-864 | a bit list with exactly one participant |
| `Producer.ParentRoot` | src/node/tasks.rs:814-823 | the root of the header once the slots have passed |
| `Drafts.DraftOfRun` | src/node/tasks.rs:803-860 | on every chain a draft can be processed exactly with the right proposer, room in the history and no attestation overtaken by finality |
| `Drafts.AcceptedExactly` | src/containers/state.rs:366-473 | a block is accepted in a reachable state exactly when slot, turn, parent, history, attestations and state root are right |
| `Drafts.ChosenDraft` | src/node/tasks.rs:671-860 | what a producer chooses is refused exactly when an attestation votes below a source that an earlier one finalizes |
| `Drafts.SortedDraft` | src/node/tasks.rs:671-860 | with fresh attestations in the order of their targets the draft never fails |

## Left out

- Networking, discovery, peer scoring, metrics, the HTTP server, configuration, wall clocks and background tasks: plumbing around the parts modelled here.
- Post-quantum signing, verification and aggregation: a signed block is checked by a predicate that is a parameter, and a signer is a function that may fail.
- SSZ encoding, Merkle hashing and the list and bit-list containers: their sources are not part of this model; pushing or extending past a list's limit is taken to fail and to leave the list as it was.
- The body of `set_bits` in `src/node/tasks.rs`, which only feeds the signer: `Producer.AppendSigned` scans the bits in order instead of by trailing zeros.
- `OrInto` reads eight bytes as eight bytes, not as one 64-bit word; the order of bytes within the word plays no part.
- `preview_proposer_attestation_data` and the store clone it works on: the vote it returns is a parameter of block production.
- `reorg_depth`, the snapshot and count accessors of fork choice, and `override_checkpoint_roots` other than in the constructor: easy members.
- `put_state`, `put_block`, `promote_finalized` and bundle writes on a store with dirty indexes: they step outside the agreement of memory and disk on purpose.
- The replay and checkpoint choice around a bundle write (`put_signed_block_inner` and its relatives) and loading with corrupt rows.
- Metadata keys, blob envelopes and schema files of the database: a table is a map and a transaction happens or does not.
- The tracing branches and decision statistics of `process_attestations`: no effect on the state.
- Integer widths other than the wrap in `4 * delta + 1`: slots, weights and counts are unbounded here.
- ForkChoice.ForkChoiceStore.OnBlock: asks for the parent to be older, which the state transition guarantees (`ImportLink.AcceptedImportable`) and fork choice itself never tests; and not to repeat a block whose forgotten parent is known again, where the arena does go wrong (`ImportLink.ReimportGoesWrong`). `ForkRun.FromAnchor` has only the second condition left, and every run that imports each block once satisfies it (`ForkRun.SeenOnceLinks`).
- ForkChoice.ForkChoiceStore.ImportBlockInternal: the same two conditions.
- ForkChoice.ForkChoiceStore.InsertBlock: the same two conditions; what a store looks like after it has gone wrong is not modelled.
- ForkChoice.ForkChoiceStore.Anchored: asks that the anchor's root is not zero and not its own parent, which no header hash would be.
- ForkRun.FromAnchor: asks that headers do not collide and that the anchor is younger than its parent, and takes blocks with the post-states that the transition gives them.
- TranscriptState.VerifierState.NextExtensionScalarsVec: nonzero padding is an error value here and a panic in the source.
- Sequencing.OrderOfOneTarget: for one target only; lists that mix targets are covered neighbour by neighbour (`Swapping.SwapInList`).
- Producer.BuildBlockAttestationPayload: when the entries do not all fit the limit, which of the aggregates are taken is left open, as it depends on the order of a hash map in the source.

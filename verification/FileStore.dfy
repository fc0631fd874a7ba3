/** The disk-backed store: slot indexes in memory, a pending cache, durable tables. */
module FileStore {
  import opened Containers
  import opened Pending
  import opened CanonicalDb
  import opened StorageModel
  import opened Sizes

  datatype PruneReport = PruneReport(removedStates: nat, removedBlocks: nat, keptPinned: nat, blobs: GcReport)

  /** The rows that pruning removes from the two indexes, and those it keeps below the
      cutoff for their roots. */
  ghost predicate CountsRows(removedStates: nat, removedBlocks: nat, keptPinned: nat, meta: Meta, cutoff: nat,
                             state: SlotIndex, block: SlotIndex) {
    && removedStates == |state| - |PrunedIndex(state, meta, cutoff)|
    && removedBlocks == |block| - |PrunedIndex(block, meta, cutoff)|
    && keptPinned == |PinnedRows(state, meta, cutoff)| + |PinnedRows(block, meta, cutoff)|
  }

  class Store {
    const db: Database
    const pending: PendingSlotCache
    var stateBySlot: SlotIndex
    var blockBySlot: SlotIndex
    var stateRootToBlockRoot: map<Root, Root>
    var head: Option<Root>
    var finalized: Option<Root>
    var finalizedSlot: Option<nat>
    var justified: Option<Root>
    var indexDirty: bool
    var metaDirty: bool

    ghost predicate Valid()
      reads this, pending, pending.entries
    {
      pending.Valid()
    }

    function MetaOf(): Meta
      reads this
    {
      Meta(head, finalized, finalizedSlot, justified)
    }

    function Memory(): Indexes
      reads this
    {
      Indexes(stateBySlot, blockBySlot, stateRootToBlockRoot, MetaOf())
    }

    /** Memory and disk hold the same indexes and metadata, and nothing is dirty. */
    ghost predicate InSync()
      reads this, db
    {
      Memory() == db.indexes && !indexDirty && !metaDirty
    }

    /** As `InSync`, but the metadata may be ahead of the disk and marked so. */
    ghost predicate IndexesInSync()
      reads this, db
    {
      && stateBySlot == db.indexes.state && blockBySlot == db.indexes.block
      && stateRootToBlockRoot == db.indexes.stateRoots && !indexDirty
      && (metaDirty || MetaOf() == db.indexes.meta)
    }

    /** Opens the store on existing tables. */
    constructor (db: Database)
      ensures Valid() && fresh(pending) && fresh(pending.entries) && this.db == db
      ensures pending.Model() == map[] && pending.entries.Length == PENDING_WINDOW_CAP
      ensures Memory() ==
              if db.indexes.meta.finalizedSlot.Some? then db.indexes
              else db.indexes.(meta := db.indexes.meta.(finalizedSlot :=
                BlockSlot(Lookup(db.blobs.blocks, db.indexes.meta.finalized))))
      ensures finalizedSlot ==
              if db.indexes.meta.finalizedSlot.Some? then db.indexes.meta.finalizedSlot
              else if db.indexes.meta.finalized.Some? && db.indexes.meta.finalized.value in db.blobs.blocks
              then Some(db.blobs.blocks[db.indexes.meta.finalized.value].slot) else None
      ensures !indexDirty && !metaDirty
    {
      this.db := db;
      var cache := new PendingSlotCache(PENDING_WINDOW_CAP);
      pending := cache;
      var ix := db.indexes;
      stateBySlot, blockBySlot, stateRootToBlockRoot := ix.state, ix.block, ix.stateRoots;
      head, finalized, justified := ix.meta.head, ix.meta.finalized, ix.meta.justified;
      var slot := ix.meta.finalizedSlot;
      if slot.None? {
        if ix.meta.finalized.Some? && ix.meta.finalized.value in db.blobs.blocks {
          slot := Some(db.blobs.blocks[ix.meta.finalized.value].slot);
        }
      }
      finalizedSlot := slot;
      indexDirty, metaDirty := false, false;
    }

    /** Moves the entries up to `finSlot` from the cache to both indexes. */
    method PromoteFinalizedSlotInMemory(finSlot: nat)
      requires Valid()
      modifies `stateBySlot, `blockBySlot, pending, pending.entries
      ensures Valid()
      ensures stateBySlot == old(stateBySlot) + UpTo(old(pending.Model()), finSlot)
      ensures blockBySlot == old(blockBySlot) + UpTo(old(pending.Model()), finSlot)
      ensures pending.Model() == Past(old(pending.Model()), finSlot)
    {
      LeqRows(blockBySlot, pending.entries[..], pending.entries.Length, finSlot);
      LeqRows(stateBySlot, pending.entries[..], pending.entries.Length, finSlot);
      var drained := pending.DrainLeq(finSlot);
      blockBySlot := Upsert(blockBySlot, drained);
      stateBySlot := Upsert(stateBySlot, drained);
    }

    /** Enters the block into the cache or the index, then drains the cache. */
    method Publish(slot: nat, root: Root, canonical: bool, finSlot: nat)
      requires Valid()
      modifies `stateBySlot, `blockBySlot, pending, pending.entries
      ensures Valid()
      ensures var cached := if canonical then old(pending.Model())
                            else Displaced(old(pending.Model()), pending.entries.Length, slot)[slot := root];
              && pending.Model() == Past(cached, finSlot)
              && stateBySlot == old(stateBySlot)[slot := root] + UpTo(cached, finSlot)
              && blockBySlot ==
                 (if canonical then old(blockBySlot)[slot := root] else old(blockBySlot)) + UpTo(cached, finSlot)
    {
      if canonical {
        blockBySlot := blockBySlot[slot := root];
      } else {
        var _ := pending.Insert(slot, root);
      }
      stateBySlot := stateBySlot[slot := root];
      PromoteFinalizedSlotInMemory(finSlot);
    }

    /** The durable half of a bundle write: the block's own rows, then the promotions. */
    method WriteBundle(b: Bundle, signed: SignedBlock, state: StateValue, commits: bool) returns (ok: bool)
      requires Valid() && b.stateRoot == signed.block.stateRoot
      modifies db
      ensures ok == commits
      ensures !ok ==> db.indexes == old(db.indexes) && db.blobs == old(db.blobs)
      ensures ok ==>
                && db.indexes == BundleOnDisk(old(db.indexes), pending.Model(), b)
                && db.blobs == Blobs(old(db.blobs).states[b.root := state], old(db.blobs).blocks[b.root := signed.block],
                                     old(db.blobs).signed[b.root := signed])
    {
      var promotions := pending.EntriesLeq(FinSlot(b.next));
      var own := PendingEntry(b.slot, b.root);
      var stateRows := [own] + promotions;
      var blockRows := if GoesCanonical(b) then [own] + promotions else promotions;
      RowsOnDisk(db.indexes, pending.entries[..], pending.entries.Length, b);
      ok := db.PersistSignedBlockBundle(b.root, signed, state, stateRows, blockRows, b.next, commits);
    }

    /** The half in memory. */
    method PublishBundle(b: Bundle, updateHead: bool)
      requires Valid() && (!updateHead ==> b.next == MetaOf())
      modifies this, pending, pending.entries
      ensures Valid() && !indexDirty && !metaDirty
      ensures Memory() == BundleInMemory(old(Memory()), old(pending.Model()), pending.entries.Length, b)
      ensures pending.Model() == Past(PendingWith(old(pending.Model()), pending.entries.Length, b), FinSlot(b.next))
    {
      stateRootToBlockRoot := stateRootToBlockRoot[b.stateRoot := b.root];
      if updateHead {
        head, justified := b.next.head, b.next.justified;
        finalized, finalizedSlot := b.next.finalized, b.next.finalizedSlot;
      }
      Publish(b.slot, b.root, GoesCanonical(b), FinSlot(b.next));
      indexDirty, metaDirty := false, false;
    }

    /** Writes one block to disk and then publishes it in memory. A write that does not
        commit changes nothing. From indexes in sync, the write leaves memory and disk
        equal exactly when no entry being finalized loses its bucket to the block. */
    method PersistSignedBlockBundleInner(root: Root, signed: SignedBlock, state: StateValue,
                                         metaJustified: Checkpoint, metaFinalized: Checkpoint, updateHead: bool, commits: bool)
      returns (ok: bool, b: Bundle)
      requires Valid()
      modifies this, db, pending, pending.entries
      ensures Valid() && ok == commits
      ensures b == Bundle(signed.block.slot, root, signed.block.stateRoot,
                          if updateHead
                          then Meta(Some(root), Some(metaFinalized.root), Some(metaFinalized.slot), Some(metaJustified.root))
                          else old(MetaOf()))
      ensures !ok ==>
                && Memory() == old(Memory()) && pending.Model() == old(pending.Model())
                && indexDirty == old(indexDirty) && metaDirty == old(metaDirty)
                && db.indexes == old(db.indexes) && db.blobs == old(db.blobs)
      ensures ok ==>
                && Memory() == BundleInMemory(old(Memory()), old(pending.Model()), pending.entries.Length, b)
                && pending.Model() == Past(PendingWith(old(pending.Model()), pending.entries.Length, b), FinSlot(b.next))
                && db.indexes == BundleOnDisk(old(db.indexes), old(pending.Model()), b)
                && !indexDirty && !metaDirty
                && db.blobs == Blobs(old(db.blobs).states[root := state], old(db.blobs).blocks[root := signed.block],
                                     old(db.blobs).signed[root := signed])
      ensures ok ==>
                (InSync() <==> Meets(old(Memory()), old(db.indexes), old(pending.Model()), pending.entries.Length, b))
      ensures ok && old(IndexesInSync()) ==>
                (InSync() <==> NothingLost(old(Memory()), old(pending.Model()), pending.entries.Length, b))
      ensures ok ==>
                var cached := b.next.finalizedSlot.Some? && b.slot > b.next.finalizedSlot.value;
                && RootBySlot(pending.Model(), blockBySlot, b.slot) ==
                   Some(if !cached && b.slot in old(pending.Model()) then old(pending.Model())[b.slot] else root)
                && (b.slot in pending.Model() <== cached)
    {
      var next := MetaOf();
      if updateHead {
        next := Meta(Some(root), Some(metaFinalized.root), Some(metaFinalized.slot), Some(metaJustified.root));
      }
      b := Bundle(signed.block.slot, root, signed.block.stateRoot, next);
      ok := WriteBundle(b, signed, state, commits);
      if ok {
        PublishBundle(b, updateHead);
        BundleAgreement(old(Memory()), old(pending.Model()), pending.entries.Length, b);
        BundleMeets(old(Memory()), old(db.indexes), old(pending.Model()), pending.entries.Length, b);
        BundleOwnRow(old(Memory()), old(pending.Model()), pending.entries.Length, b);
      }
    }

    /** Rewrites the durable tables if anything is dirty. */
    method FlushCanonical(rewriteStateRoots: bool, commits: bool) returns (ok: bool)
      modifies `indexDirty, `metaDirty, db`indexes
      ensures ok == (commits || (!old(indexDirty) && !old(metaDirty)))
      ensures ok ==> !indexDirty && !metaDirty
      ensures ok && (old(indexDirty) || old(metaDirty)) ==>
                db.indexes == if rewriteStateRoots then Memory() else Memory().(stateRoots := old(db.indexes).stateRoots)
      ensures !ok || (!old(indexDirty) && !old(metaDirty)) ==>
                db.indexes == old(db.indexes) && indexDirty == old(indexDirty) && metaDirty == old(metaDirty)
    {
      if !indexDirty && !metaDirty {
        return true;
      }
      ok := db.PersistSnapshot(Memory(), rewriteStateRoots, commits);
      if ok {
        indexDirty, metaDirty := false, false;
      }
    }

    method SetHead(root: Root)
      modifies `head, `metaDirty
      ensures head == Some(root) && metaDirty
      ensures old(IndexesInSync()) ==> IndexesInSync()
    {
      head := Some(root);
      metaDirty := true;
    }

    method SetJustified(root: Root)
      modifies `justified, `metaDirty
      ensures justified == Some(root) && metaDirty
      ensures old(IndexesInSync()) ==> IndexesInSync()
    {
      justified := Some(root);
      metaDirty := true;
    }

    /** Moves finality, unless it would move back; a committed flush leaves memory and
        disk equal, whatever was dirty before. */
    method SetFinalizedCheckpoint(checkpoint: Checkpoint, commits: bool)
      requires Valid()
      modifies this, db`indexes, pending, pending.entries
      ensures Valid() && stateRootToBlockRoot == old(stateRootToBlockRoot)
      ensures old(finalizedSlot).Some? && checkpoint.slot < old(finalizedSlot).value ==>
                && Memory() == old(Memory()) && pending.Model() == old(pending.Model()) && db.indexes == old(db.indexes)
                && indexDirty == old(indexDirty) && metaDirty == old(metaDirty)
      ensures !(old(finalizedSlot).Some? && checkpoint.slot < old(finalizedSlot).value) ==>
                && MetaOf() == Meta(old(head), Some(checkpoint.root), Some(checkpoint.slot), old(justified))
                && stateBySlot == old(stateBySlot) + UpTo(old(pending.Model()), checkpoint.slot)
                && blockBySlot == old(blockBySlot) + UpTo(old(pending.Model()), checkpoint.slot)
                && stateRootToBlockRoot == old(stateRootToBlockRoot)
                && pending.Model() == Past(old(pending.Model()), checkpoint.slot)
                && (if commits then InSync()
                    else metaDirty && indexDirty == old(indexDirty) && db.indexes == old(db.indexes))
    {
      if finalizedSlot.Some? && checkpoint.slot < finalizedSlot.value {
        return;
      }
      finalized, finalizedSlot := Some(checkpoint.root), Some(checkpoint.slot);
      metaDirty := true;
      PromoteFinalizedSlotInMemory(checkpoint.slot);
      var _ := FlushCanonical(true, commits);
    }

    /** As `SetFinalizedCheckpoint`, with the slot read from the stored block. */
    method SetFinalized(root: Root, commits: bool)
      requires Valid()
      modifies this, db`indexes, pending, pending.entries
      ensures Valid()
      ensures root !in db.blobs.blocks
              || (old(finalizedSlot).Some? && db.blobs.blocks[root].slot < old(finalizedSlot).value) ==>
                && Memory() == old(Memory()) && pending.Model() == old(pending.Model()) && db.indexes == old(db.indexes)
                && indexDirty == old(indexDirty) && metaDirty == old(metaDirty)
      ensures root in db.blobs.blocks
              && !(old(finalizedSlot).Some? && db.blobs.blocks[root].slot < old(finalizedSlot).value) ==>
                && MetaOf() == Meta(old(head), Some(root), Some(db.blobs.blocks[root].slot), old(justified))
                && stateBySlot == old(stateBySlot) + UpTo(old(pending.Model()), db.blobs.blocks[root].slot)
                && blockBySlot == old(blockBySlot) + UpTo(old(pending.Model()), db.blobs.blocks[root].slot)
                && stateRootToBlockRoot == old(stateRootToBlockRoot)
                && pending.Model() == Past(old(pending.Model()), db.blobs.blocks[root].slot)
                && (if commits then InSync()
                    else metaDirty && indexDirty == old(indexDirty) && db.indexes == old(db.indexes))
    {
      if root !in db.blobs.blocks {
        return;
      }
      SetFinalizedCheckpoint(Checkpoint(root, db.blobs.blocks[root].slot), commits);
    }

    // ------------------------------------------------------------------- reads

    method GetBlockBySlot(slot: nat) returns (r: Option<Block>)
      requires Valid()
      ensures r == Lookup(db.blobs.blocks, RootBySlot(pending.Model(), blockBySlot, slot))
      ensures forall block :: r == Some(block) <==>
                exists root :: && root in db.blobs.blocks && db.blobs.blocks[root] == block
                               && if slot in pending.Model() then pending.Model()[slot] == root
                                  else slot in blockBySlot && blockBySlot[slot] == root
    {
      var entry := pending.Get(slot);
      if entry.Some? {
        return if entry.value.blockRoot in db.blobs.blocks then Some(db.blobs.blocks[entry.value.blockRoot]) else None;
      }
      if slot !in blockBySlot {
        return None;
      }
      var root := blockBySlot[slot];
      return if root in db.blobs.blocks then Some(db.blobs.blocks[root]) else None;
    }

    method GetStateBySlot(slot: nat) returns (r: Option<StateValue>)
      requires Valid()
      ensures r == Lookup(db.blobs.states, RootBySlot(pending.Model(), stateBySlot, slot))
      ensures forall state :: r == Some(state) <==>
                exists root :: && root in db.blobs.states && db.blobs.states[root] == state
                               && if slot in pending.Model() then pending.Model()[slot] == root
                                  else slot in stateBySlot && stateBySlot[slot] == root
    {
      var entry := pending.Get(slot);
      if entry.Some? {
        return if entry.value.blockRoot in db.blobs.states then Some(db.blobs.states[entry.value.blockRoot]) else None;
      }
      if slot !in stateBySlot {
        return None;
      }
      var root := stateBySlot[slot];
      return if root in db.blobs.states then Some(db.blobs.states[root]) else None;
    }

    // ----------------------------------------------------------------- pruning

    /** Everything an index, the cache or the metadata refers to. */
    method ReferencedRoots(index: SlotIndex) returns (roots: set<Root>)
      requires Valid()
      ensures roots == Referenced(index, pending.Model(), MetaOf())
    {
      var cached := pending.Roots();
      roots := index.Values + cached + PinnedRoots(MetaOf());
    }

    /** Rebuilds the lookup by state root from the live roots. */
    method RebuildLiveStateRootIndex(live: set<Root>) returns (index: map<Root, Root>)
      ensures IndexesLive(index, live, db.blobs)
    {
      index := map[];
      var todo := live;
      while todo != {}
        invariant todo <= live && IndexesLive(index, live - todo, db.blobs)
        decreases todo
      {
        var root :| root in todo;
        var key := StateKey(db.blobs, root);
        if key.Some? {
          index := index[key.value := root];
        }
        todo := todo - {root};
      }
      assert live - {} == live;
    }

    method PruneRows(cutoff: nat) returns (removedStates: nat, removedBlocks: nat, keptPinned: nat)
      modifies `stateBySlot, `blockBySlot
      ensures stateBySlot == PrunedIndex(old(stateBySlot), MetaOf(), cutoff)
      ensures blockBySlot == PrunedIndex(old(blockBySlot), MetaOf(), cutoff)
      ensures CountsRows(removedStates, removedBlocks, keptPinned, MetaOf(), cutoff, old(stateBySlot), old(blockBySlot))
    {
      var meta := MetaOf();
      var keptStates, keptBlocks;
      stateBySlot, removedStates, keptStates := RetainRows(stateBySlot, meta, cutoff);
      blockBySlot, removedBlocks, keptBlocks := RetainRows(blockBySlot, meta, cutoff);
      keptPinned := keptStates + keptBlocks;
    }

    /** Rebuilds the lookup by state root after rows have gone. */
    method Relink()
      requires Valid()
      modifies `stateRootToBlockRoot, `indexDirty
      ensures IndexesLive(stateRootToBlockRoot, Referenced(stateBySlot, pending.Model(), MetaOf()), db.blobs) && indexDirty
    {
      var live := ReferencedRoots(stateBySlot);
      stateRootToBlockRoot := RebuildLiveStateRootIndex(live);
      indexDirty := true;
    }

    method RelinkAndFlush(commits: bool) returns (ok: bool)
      requires Valid()
      modifies `stateRootToBlockRoot, `indexDirty, `metaDirty, db`indexes
      ensures ok == commits
      ensures IndexesLive(stateRootToBlockRoot, Referenced(stateBySlot, pending.Model(), MetaOf()), db.blobs)
      ensures if ok then InSync() else indexDirty && db.indexes == old(db.indexes)
    {
      Relink();
      ok := FlushCanonical(true, commits);
    }

    /** Drops old rows from both indexes and flushes them. */
    method PruneIndexes(cutoff: nat, commits: bool) returns (ok: bool, removedStates: nat, removedBlocks: nat, keptPinned: nat)
      requires Valid()
      modifies `stateBySlot, `blockBySlot, `stateRootToBlockRoot, `indexDirty, `metaDirty, db`indexes
      ensures ok == commits && Valid() && pending.Model() == old(pending.Model()) && MetaOf() == old(MetaOf())
      ensures stateBySlot == PrunedIndex(old(stateBySlot), MetaOf(), cutoff)
      ensures blockBySlot == PrunedIndex(old(blockBySlot), MetaOf(), cutoff)
      ensures IndexesLive(stateRootToBlockRoot, Referenced(stateBySlot, pending.Model(), MetaOf()), db.blobs)
      ensures if ok then InSync() else indexDirty && db.indexes == old(db.indexes)
      ensures CountsRows(removedStates, removedBlocks, keptPinned, MetaOf(), cutoff, old(stateBySlot), old(blockBySlot))
    {
      removedStates, removedBlocks, keptPinned := PruneRows(cutoff);
      ok := RelinkAndFlush(commits);
    }

    /** Removes exactly the blobs nothing refers to. */
    method CollectBlobs(commits: bool) returns (report: Option<GcReport>)
      requires Valid()
      modifies db`blobs
      ensures report.Some? == commits && Valid() && pending.Model() == old(pending.Model())
      ensures db.blobs == if commits then Collected(old(db.blobs), Memory(), pending.Model()) else old(db.blobs)
      ensures report.Some? ==> CountsBlobs(report.value, old(db.blobs), db.blobs)
    {
      var keepStates := ReferencedRoots(stateBySlot);
      var keepBlocks := ReferencedRoots(blockBySlot);
      report := db.GcUnreferencedBlobs(keepStates, keepBlocks, commits);
    }

    /** Prunes both indexes below the cutoff, flushes, and collects unreferenced blobs.
        No answer by slot changes, except for the rows that were dropped. */
    method Prune(finSlot: nat, keepRecent: nat, commitsFlush: bool, commitsGc: bool) returns (report: Option<PruneReport>)
      requires Valid()
      modifies `stateBySlot, `blockBySlot, `stateRootToBlockRoot, `indexDirty, `metaDirty, db
      ensures Valid() && pending.Model() == old(pending.Model()) && MetaOf() == old(MetaOf())
      ensures stateBySlot == PrunedIndex(old(stateBySlot), MetaOf(), Cutoff(finSlot, keepRecent))
      ensures blockBySlot == PrunedIndex(old(blockBySlot), MetaOf(), Cutoff(finSlot, keepRecent))
      ensures IndexesLive(stateRootToBlockRoot, Referenced(stateBySlot, pending.Model(), MetaOf()), old(db.blobs))
      ensures if commitsFlush then InSync() else indexDirty && db.indexes == old(db.indexes)
      ensures report.Some? <==> commitsFlush && commitsGc
      ensures db.blobs == if report.Some? then Collected(old(db.blobs), Memory(), pending.Model()) else old(db.blobs)
      ensures report.Some? ==>
                ReadsPruned(old(blockBySlot), pending.Model(), MetaOf(), Cutoff(finSlot, keepRecent),
                            old(db.blobs).blocks, blockBySlot, db.blobs.blocks)
      ensures report.Some? ==>
                ReadsPruned(old(stateBySlot), pending.Model(), MetaOf(), Cutoff(finSlot, keepRecent),
                            old(db.blobs).states, stateBySlot, db.blobs.states)
      ensures report.Some? ==>
                && CountsRows(report.value.removedStates, report.value.removedBlocks, report.value.keptPinned,
                              MetaOf(), Cutoff(finSlot, keepRecent), old(stateBySlot), old(blockBySlot))
                && CountsBlobs(report.value.blobs, old(db.blobs), db.blobs)
      ensures report.Some? ==>
                && report.value.removedStates == |old(stateBySlot)| - |stateBySlot|
                && report.value.removedBlocks == |old(blockBySlot)| - |blockBySlot|
                && report.value.keptPinned == |OldRows(stateBySlot, finSlot, keepRecent)| + |OldRows(blockBySlot, finSlot, keepRecent)|
                && report.value.blobs.removedStates == |old(db.blobs).states| - |db.blobs.states|
                && report.value.blobs.removedBlocks == |old(db.blobs).blocks| - |db.blobs.blocks|
                && report.value.blobs.removedSigned == |old(db.blobs).signed| - |db.blobs.signed|
      ensures KeepsRecent(old(stateBySlot), {head, justified, finalized}, finSlot, keepRecent, stateBySlot)
      ensures KeepsRecent(old(blockBySlot), {head, justified, finalized}, finSlot, keepRecent, blockBySlot)
      ensures report.Some? ==>
                && ReadsRecent(old(stateBySlot), pending.Model(), {head, justified, finalized}, finSlot, keepRecent,
                               old(db.blobs).states, stateBySlot, db.blobs.states)
                && ReadsRecent(old(blockBySlot), pending.Model(), {head, justified, finalized}, finSlot, keepRecent,
                               old(db.blobs).blocks, blockBySlot, db.blobs.blocks)
      ensures report.Some? ==>
                && KeepsReferenced(old(db.blobs).states, stateBySlot, pending.Model(), {head, justified, finalized}, db.blobs.states)
                && KeepsReferenced(old(db.blobs).blocks, blockBySlot, pending.Model(), {head, justified, finalized}, db.blobs.blocks)
                && KeepsReferenced(old(db.blobs).signed, blockBySlot, pending.Model(), {head, justified, finalized}, db.blobs.signed)
    {
      var cutoff := Cutoff(finSlot, keepRecent);
      PrunedIndexRecent(stateBySlot, MetaOf(), finSlot, keepRecent);
      PrunedIndexRecent(blockBySlot, MetaOf(), finSlot, keepRecent);
      var flushed, removedStates, removedBlocks, keptPinned := PruneIndexes(cutoff, commitsFlush);
      if !flushed {
        return None;
      }
      ghost var memory, blobs := Memory(), db.blobs;
      var gc := CollectBlobs(commitsGc);
      if gc.None? {
        return None;
      }
      CollectedReads(old(stateBySlot), old(blockBySlot), pending.Model(), cutoff, memory, blobs, db.blobs);
      PrunedReadsRecent(old(stateBySlot), pending.Model(), memory.meta, finSlot, keepRecent, blobs.states,
                        stateBySlot, db.blobs.states);
      PrunedReadsRecent(old(blockBySlot), pending.Model(), memory.meta, finSlot, keepRecent, blobs.blocks,
                        blockBySlot, db.blobs.blocks);
      CollectedReferenced(blobs, memory, pending.Model());
      PinnedAreOld(old(stateBySlot), memory.meta, finSlot, keepRecent);
      PinnedAreOld(old(blockBySlot), memory.meta, finSlot, keepRecent);
      report := Some(PruneReport(removedStates, removedBlocks, keptPinned, gc.value));
    }
  }

  /** What is left to read after the rows and then the blobs have gone. */
  lemma CollectedReads(state: SlotIndex, block: SlotIndex, cached: SlotIndex, cutoff: nat, memory: Indexes, blobs: Blobs, blobs': Blobs)
    requires memory.state == PrunedIndex(state, memory.meta, cutoff) && memory.block == PrunedIndex(block, memory.meta, cutoff)
    requires blobs' == Collected(blobs, memory, cached)
    ensures ReadsPruned(block, cached, memory.meta, cutoff, blobs.blocks, memory.block, blobs'.blocks)
    ensures ReadsPruned(state, cached, memory.meta, cutoff, blobs.states, memory.state, blobs'.states)
  {
    PruneAllReads(block, cached, memory.meta, cutoff, blobs.blocks);
    PruneAllReads(state, cached, memory.meta, cutoff, blobs.states);
  }

  lemma CollectedReferenced(blobs: Blobs, memory: Indexes, cached: SlotIndex)
    ensures var after, pins := Collected(blobs, memory, cached), {memory.meta.head, memory.meta.justified, memory.meta.finalized};
            && KeepsReferenced(blobs.states, memory.state, cached, pins, after.states)
            && KeepsReferenced(blobs.blocks, memory.block, cached, pins, after.blocks)
            && KeepsReferenced(blobs.signed, memory.block, cached, pins, after.signed)
  {
    RestrictedReferenced(blobs.states, memory.state, cached, memory.meta);
    RestrictedReferenced(blobs.blocks, memory.block, cached, memory.meta);
    RestrictedReferenced(blobs.signed, memory.block, cached, memory.meta);
  }

  /** The rows outside `todo` have been looked at. */
  ghost predicate Retaining(index: SlotIndex, meta: Meta, cutoff: nat, todo: set<nat>, after: SlotIndex) {
    && (forall s :: s in after <==> s in index && (s in todo || Survives(index, meta, cutoff, s)))
    && (forall s :: s in after ==> after[s] == index[s])
  }

  /** Drops the rows below the cutoff whose root is not pinned, and counts both kinds. */
  method RetainRows(index: SlotIndex, meta: Meta, cutoff: nat) returns (after: SlotIndex, removed: nat, kept: nat)
    ensures after == PrunedIndex(index, meta, cutoff)
    ensures removed == |index| - |after| && kept == |PinnedRows(index, meta, cutoff)|
  {
    after, removed, kept := index, 0, 0;
    var todo := index.Keys;
    ghost var pinned := PinnedRows(index, meta, cutoff);
    assert pinned - todo == {};
    while todo != {}
      invariant todo <= index.Keys && Retaining(index, meta, cutoff, todo, after)
      invariant removed == |index| - |after| && kept == |pinned - todo|
      decreases todo
    {
      var slot :| slot in todo;
      LookedAt(pinned, todo, slot);
      RetainingStep(index, meta, cutoff, todo, after, slot);
      if slot < cutoff {
        if Pinned(meta, index[slot]) {
          kept := kept + 1;
        } else {
          RemovalShrinks(after, slot);
          after := after - {slot};
          removed := removed + 1;
        }
      }
      todo := todo - {slot};
    }
    assert pinned - {} == pinned;
    RetainedAll(index, meta, cutoff, after);
  }

  lemma RetainedAll(index: SlotIndex, meta: Meta, cutoff: nat, after: SlotIndex)
    requires Retaining(index, meta, cutoff, {}, after)
    ensures after == PrunedIndex(index, meta, cutoff)
  {
  }

  lemma LookedAt(pinned: set<nat>, todo: set<nat>, slot: nat)
    requires slot in todo
    ensures |pinned - (todo - {slot})| == |pinned - todo| + if slot in pinned then 1 else 0
  {
    if slot in pinned {
      assert pinned - (todo - {slot}) == (pinned - todo) + {slot};
    } else {
      assert pinned - (todo - {slot}) == pinned - todo;
    }
  }

  lemma RetainingStep(index: SlotIndex, meta: Meta, cutoff: nat, todo: set<nat>, after: SlotIndex, slot: nat)
    requires todo <= index.Keys && Retaining(index, meta, cutoff, todo, after) && slot in todo
    ensures Retaining(index, meta, cutoff, todo - {slot}, if Survives(index, meta, cutoff, slot) then after else after - {slot})
  {
  }

  function BlockSlot(block: Option<Block>): Option<nat> {
    if block.Some? then Some(block.value.slot) else None
  }

  /** The rows of the bundle, written in order, are the specified disk indexes. */
  lemma RowsOnDisk(ix: Indexes, buckets: seq<Bucket>, cap: nat, b: Bundle)
    requires cap > 0 && WellPlaced(buckets, cap)
    ensures var promotions := Leq(buckets, FinSlot(b.next));
            var own := PendingEntry(b.slot, b.root);
            && Rows(ix.state, [own] + promotions) == BundleOnDisk(ix, Contents(buckets), b).state
            && Rows(ix.block, if GoesCanonical(b) then [own] + promotions else promotions) ==
               BundleOnDisk(ix, Contents(buckets), b).block
  {
    var promotions := Leq(buckets, FinSlot(b.next));
    var own := PendingEntry(b.slot, b.root);
    FirstRow(ix.state, own, promotions);
    FirstRow(ix.block, own, promotions);
    LeqRows(ix.state[b.slot := b.root], buckets, cap, FinSlot(b.next));
    LeqRows(BlockBase(ix.block, b), buckets, cap, FinSlot(b.next));
  }

  lemma {:induction false} FirstRow(index: SlotIndex, first: PendingEntry, rest: seq<PendingEntry>)
    ensures Rows(index, [first] + rest) == Rows(index[first.slot := first.blockRoot], rest)
  {
    if rest == [] {
      assert [first] + rest == [first];
    } else {
      var init := rest[..|rest| - 1];
      FirstRow(index, first, init);
      assert ([first] + rest)[..|rest|] == [first] + init;
    }
  }
}

/** The durable tables, changed by transactions that happen entirely or not at all. */
module CanonicalDb {
  import opened Containers
  import opened Pending
  import opened Sizes

  datatype Meta = Meta(head: Option<Root>, finalized: Option<Root>, finalizedSlot: Option<nat>, justified: Option<Root>)

  /** The slot and root indexes with the fork-choice metadata. */
  datatype Indexes = Indexes(state: SlotIndex, block: SlotIndex, stateRoots: map<Root, Root>, meta: Meta)

  datatype Blobs = Blobs(states: map<Root, StateValue>, blocks: map<Root, Block>, signed: map<Root, SignedBlock>)

  datatype GcReport = GcReport(removedStates: nat, removedBlocks: nat, removedSigned: nat)

  ghost function Restricted<V>(table: map<Root, V>, keep: set<Root>): map<Root, V> {
    map r | r in table && r in keep :: table[r]
  }

  /** Empties a table one row at a time. */
  method ClearTable<K(==), V>(table: map<K, V>) returns (cleared: map<K, V>)
    ensures cleared == map[]
  {
    cleared := table;
    while cleared.Keys != {}
      decreases cleared.Keys
    {
      var k :| k in cleared;
      cleared := cleared - {k};
    }
  }

  /** Writes every row of `rows` into a table. */
  method InsertAll<K(==), V>(table: map<K, V>, rows: map<K, V>) returns (after: map<K, V>)
    ensures after == table + rows
  {
    after := table;
    var todo := rows.Keys;
    while todo != {}
      invariant todo <= rows.Keys
      invariant forall k :: k in after <==> k in table || k in rows.Keys - todo
      invariant forall k :: k in after ==> after[k] == if k in rows.Keys - todo then rows[k] else table[k]
      decreases todo
    {
      var k :| k in todo;
      after := after[k := rows[k]];
      todo := todo - {k};
    }
  }

  method Upsert(table: SlotIndex, rows: seq<PendingEntry>) returns (after: SlotIndex)
    ensures after == Rows(table, rows)
  {
    after := table;
    for k := 0 to |rows|
      invariant after == Rows(table, rows[..k])
    {
      assert rows[..k + 1][..k] == rows[..k];
      after := after[rows[k].slot := rows[k].blockRoot];
    }
    assert rows[..|rows|] == rows;
  }

  /** Removes every blob whose root is not kept. */
  method GcBlobTable<V>(table: map<Root, V>, keep: set<Root>) returns (after: map<Root, V>, removed: nat)
    ensures after == Restricted(table, keep)
    ensures removed == |table| - |after|
  {
    var toDelete := set r | r in table && r !in keep;
    after := table;
    removed := 0;
    var todo := toDelete;
    while todo != {}
      invariant todo <= toDelete
      invariant forall r :: r in after <==> r in table && r !in toDelete - todo
      invariant forall r :: r in after ==> after[r] == table[r]
      invariant removed == |table| - |after|
      decreases todo
    {
      var r :| r in todo;
      ghost var before := after;
      after := after - {r};
      RemovalShrinks(before, r);
      removed := removed + 1;
      todo := todo - {r};
    }
    assert after == Restricted(table, keep);
  }

  /** The report says how many blobs of each kind went. */
  ghost predicate CountsBlobs(report: GcReport, before: Blobs, after: Blobs) {
    && report.removedStates == |before.states| - |after.states|
    && report.removedBlocks == |before.blocks| - |after.blocks|
    && report.removedSigned == |before.signed| - |after.signed|
  }

  class Database {
    var indexes: Indexes
    var blobs: Blobs

    /** Rewrites both slot tables and the metadata, and the state-root table on request. */
    method PersistSnapshot(memory: Indexes, rewriteStateRoots: bool, commits: bool) returns (ok: bool)
      modifies `indexes
      ensures ok == commits
      ensures indexes ==
              if !ok then old(indexes)
              else if rewriteStateRoots then memory
              else memory.(stateRoots := old(indexes).stateRoots)
    {
      var state := ClearTable(indexes.state);
      state := InsertAll(state, memory.state);
      var block := ClearTable(indexes.block);
      block := InsertAll(block, memory.block);
      var stateRoots := indexes.stateRoots;
      if rewriteStateRoots {
        stateRoots := ClearTable(stateRoots);
        stateRoots := InsertAll(stateRoots, memory.stateRoots);
      }
      assert state == memory.state && block == memory.block;
      assert rewriteStateRoots ==> stateRoots == memory.stateRoots;
      if commits {
        indexes := Indexes(state, block, stateRoots, memory.meta);
      }
      return commits;
    }

    /** Writes one block with its state and the rows it changes. */
    method PersistSignedBlockBundle(blockRoot: Root, signed: SignedBlock, state: StateValue,
                                    stateRows: seq<PendingEntry>, blockRows: seq<PendingEntry>, meta: Meta, commits: bool)
      returns (ok: bool)
      modifies this
      ensures ok == commits
      ensures !ok ==> indexes == old(indexes) && blobs == old(blobs)
      ensures ok ==>
                && indexes == Indexes(Rows(old(indexes).state, stateRows), Rows(old(indexes).block, blockRows),
                                      old(indexes).stateRoots[signed.block.stateRoot := blockRoot], meta)
                && blobs == Blobs(old(blobs).states[blockRoot := state], old(blobs).blocks[blockRoot := signed.block],
                                  old(blobs).signed[blockRoot := signed])
    {
      var stateTable := Upsert(indexes.state, stateRows);
      var blockTable := Upsert(indexes.block, blockRows);
      if commits {
        blobs := Blobs(blobs.states[blockRoot := state], blobs.blocks[blockRoot := signed.block],
                       blobs.signed[blockRoot := signed]);
        indexes := Indexes(stateTable, blockTable, indexes.stateRoots[signed.block.stateRoot := blockRoot], meta);
      }
      return commits;
    }

    /** Drops the blobs nobody refers to. */
    method GcUnreferencedBlobs(keepStates: set<Root>, keepBlocks: set<Root>, commits: bool)
      returns (report: Option<GcReport>)
      modifies `blobs
      ensures report.Some? == commits
      ensures report.None? ==> blobs == old(blobs)
      ensures report.Some? ==>
                && blobs == Blobs(Restricted(old(blobs).states, keepStates), Restricted(old(blobs).blocks, keepBlocks),
                                  Restricted(old(blobs).signed, keepBlocks))
                && CountsBlobs(report.value, old(blobs), blobs)
    {
      var states, removedStates := GcBlobTable(blobs.states, keepStates);
      var blocks, removedBlocks := GcBlobTable(blobs.blocks, keepBlocks);
      var signed, removedSigned := GcBlobTable(blobs.signed, keepBlocks);
      if commits {
        blobs := Blobs(states, blocks, signed);
        return Some(GcReport(removedStates, removedBlocks, removedSigned));
      }
      return None;
    }
  }
}

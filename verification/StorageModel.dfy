/** What the store's writes do to memory and disk, and when the two still agree. */
module StorageModel {
  import opened Containers
  import opened Pending
  import opened CanonicalDb

  /** A block about to be written, with the metadata it brings. */
  datatype Bundle = Bundle(slot: nat, root: Root, stateRoot: Root, next: Meta)

  /** The finalized slot a bundle works with; none counts as zero. */
  function FinSlot(next: Meta): nat {
    if next.finalizedSlot.Some? then next.finalizedSlot.value else 0
  }

  /** Whether the block goes straight to the canonical index. */
  predicate GoesCanonical(b: Bundle) {
    !(b.next.finalizedSlot.Some? && b.slot > b.next.finalizedSlot.value)
  }

  ghost function BlockBase(index: SlotIndex, b: Bundle): SlotIndex {
    if GoesCanonical(b) then index[b.slot := b.root] else index
  }

  /** The indexes on disk after the write. */
  ghost function BundleOnDisk(ix: Indexes, pending: SlotIndex, b: Bundle): Indexes {
    var promoted := UpTo(pending, FinSlot(b.next));
    Indexes(ix.state[b.slot := b.root] + promoted, BlockBase(ix.block, b) + promoted,
            ix.stateRoots[b.stateRoot := b.root], b.next)
  }

  /** The cache just before it is drained. */
  ghost function PendingWith(pending: SlotIndex, cap: nat, b: Bundle): SlotIndex
    requires cap > 0
  {
    if GoesCanonical(b) then pending else Displaced(pending, cap, b.slot)[b.slot := b.root]
  }

  /** The indexes in memory after the write. */
  ghost function BundleInMemory(ix: Indexes, pending: SlotIndex, cap: nat, b: Bundle): Indexes
    requires cap > 0
  {
    var promoted := UpTo(PendingWith(pending, cap, b), FinSlot(b.next));
    Indexes(ix.state[b.slot := b.root] + promoted, BlockBase(ix.block, b) + promoted,
            ix.stateRoots[b.stateRoot := b.root], b.next)
  }

  /** Every entry up to `fin` in the bucket of `slot` already has its row in the index. */
  ghost predicate RowsHeld(index: SlotIndex, pending: SlotIndex, cap: nat, fin: nat, slot: nat)
    requires cap > 0
  {
    forall s :: s in pending && s <= fin && s % cap == slot % cap ==> s in index && index[s] == pending[s]
  }

  /** No entry that is being finalized loses its bucket to the new block, unless the
      indexes already hold its row. */
  ghost predicate NothingLost(ix: Indexes, pending: SlotIndex, cap: nat, b: Bundle)
    requires cap > 0
  {
    || GoesCanonical(b)
    || (RowsHeld(ix.state, pending, cap, FinSlot(b.next), b.slot) && RowsHeld(ix.block, pending, cap, FinSlot(b.next), b.slot))
  }

  lemma DisplacedPromotions(index: SlotIndex, pending: SlotIndex, cap: nat, fin: nat, slot: nat, root: Root)
    requires cap > 0 && slot > fin
    ensures index + UpTo(Displaced(pending, cap, slot)[slot := root], fin) == index + UpTo(pending, fin) <==>
            RowsHeld(index, pending, cap, fin, slot)
  {
    var memory, disk := index + UpTo(Displaced(pending, cap, slot)[slot := root], fin), index + UpTo(pending, fin);
    if memory == disk {
      forall s | s in pending && s <= fin && s % cap == slot % cap
        ensures s in index && index[s] == pending[s]
      {
        assert s in disk && disk[s] == pending[s];
        assert s !in UpTo(Displaced(pending, cap, slot)[slot := root], fin);
      }
    }
  }

  /** From equal indexes, a bundle write leaves memory and disk equal exactly when it
      loses nothing. */
  lemma BundleAgreement(ix: Indexes, pending: SlotIndex, cap: nat, b: Bundle)
    requires cap > 0
    ensures BundleInMemory(ix, pending, cap, b) == BundleOnDisk(ix, pending, b) <==> NothingLost(ix, pending, cap, b)
  {
    if !GoesCanonical(b) {
      DisplacedPromotions(ix.state[b.slot := b.root], pending, cap, FinSlot(b.next), b.slot, b.root);
      DisplacedPromotions(ix.block, pending, cap, FinSlot(b.next), b.slot, b.root);
    }
  }

  /** A finalized entry that loses its bucket is on disk but not in memory. */
  lemma EvictionLosesRow()
    ensures var ix := Indexes(map[], map[], map[], Meta(None, None, None, None));
            var b := Bundle(5 + PENDING_WINDOW_CAP, 9, 8, Meta(Some(9), Some(7), Some(5), Some(7)));
            && 5 in BundleOnDisk(ix, map[5 := 7], b).block
            && 5 !in BundleInMemory(ix, map[5 := 7], PENDING_WINDOW_CAP, b).block
  {
  }

  // -------------------------------------------------------- a disk that lags behind

  ghost predicate SameRow<K, V>(a: map<K, V>, b: map<K, V>, k: K) {
    (k in a <==> k in b) && (k in a ==> a[k] == b[k])
  }

  /** After a bundle write the index in memory and the one on disk have the same row for
      `s`: the write promotes the row or it is the block's own, or they had the same row
      before. A promotion that loses its bucket only reaches the disk. */
  ghost predicate RowMeets(mem: SlotIndex, disk: SlotIndex, pending: SlotIndex, cap: nat, b: Bundle, own: bool, s: nat)
    requires cap > 0
  {
    if s in pending && s <= FinSlot(b.next) then
      !GoesCanonical(b) && s % cap == b.slot % cap ==> s in mem && mem[s] == pending[s]
    else (own && s == b.slot) || SameRow(mem, disk, s)
  }

  ghost predicate RowsMeet(mem: SlotIndex, disk: SlotIndex, pending: SlotIndex, cap: nat, b: Bundle, own: bool)
    requires cap > 0
  {
    forall s: nat :: RowMeets(mem, disk, pending, cap, b, own, s)
  }

  /** The same for both indexes and the lookup by state root. */
  ghost predicate Meets(mem: Indexes, disk: Indexes, pending: SlotIndex, cap: nat, b: Bundle)
    requires cap > 0
  {
    && RowsMeet(mem.state, disk.state, pending, cap, b, true)
    && RowsMeet(mem.block, disk.block, pending, cap, b, GoesCanonical(b))
    && (forall r :: r == b.stateRoot || SameRow(mem.stateRoots, disk.stateRoots, r))
  }

  lemma SameRows<K(!new), V>(a: map<K, V>, b: map<K, V>)
    ensures a == b <==> forall k :: SameRow(a, b, k)
  {
    if forall k :: SameRow(a, b, k) {
      forall k
        ensures k in a.Keys <==> k in b.Keys
        ensures k in a ==> a[k] == b[k]
      {
        assert SameRow(a, b, k);
      }
      assert a.Keys == b.Keys;
    }
  }

  /** The index in memory and the one on disk after a bundle write. */
  ghost function RowsAfter(index: SlotIndex, promoted: SlotIndex, b: Bundle, own: bool): SlotIndex {
    (if own then index[b.slot := b.root] else index) + promoted
  }

  lemma RowMeetsIs(mem: SlotIndex, disk: SlotIndex, pending: SlotIndex, cap: nat, b: Bundle, own: bool, s: nat)
    requires cap > 0
    ensures var fin := FinSlot(b.next);
            SameRow(RowsAfter(mem, UpTo(PendingWith(pending, cap, b), fin), b, own), RowsAfter(disk, UpTo(pending, fin), b, own), s)
            <==> RowMeets(mem, disk, pending, cap, b, own, s)
  {
  }

  lemma RowsMeetIs(mem: SlotIndex, disk: SlotIndex, pending: SlotIndex, cap: nat, b: Bundle, own: bool)
    requires cap > 0
    ensures var fin := FinSlot(b.next);
            RowsAfter(mem, UpTo(PendingWith(pending, cap, b), fin), b, own) == RowsAfter(disk, UpTo(pending, fin), b, own)
            <==> RowsMeet(mem, disk, pending, cap, b, own)
  {
    var fin := FinSlot(b.next);
    var mem', disk' := RowsAfter(mem, UpTo(PendingWith(pending, cap, b), fin), b, own), RowsAfter(disk, UpTo(pending, fin), b, own);
    forall s: nat
      ensures SameRow(mem', disk', s) <==> RowMeets(mem, disk, pending, cap, b, own, s)
    {
      RowMeetsIs(mem, disk, pending, cap, b, own, s);
    }
    SameRows(mem', disk');
  }

  lemma RootsMeetIs(mem: map<Root, Root>, disk: map<Root, Root>, key: Root, root: Root)
    ensures mem[key := root] == disk[key := root] <==> forall r :: r == key || SameRow(mem, disk, r)
  {
    var mem', disk' := mem[key := root], disk[key := root];
    forall r
      ensures SameRow(mem', disk', r) <==> r == key || SameRow(mem, disk, r)
    {
    }
    SameRows(mem', disk');
  }

  /** Whatever lag there was, a bundle write leaves memory and disk equal exactly when
      every row meets. */
  lemma BundleMeets(mem: Indexes, disk: Indexes, pending: SlotIndex, cap: nat, b: Bundle)
    requires cap > 0
    ensures BundleInMemory(mem, pending, cap, b) == BundleOnDisk(disk, pending, b) <==> Meets(mem, disk, pending, cap, b)
  {
    RowsMeetIs(mem.state, disk.state, pending, cap, b, true);
    RowsMeetIs(mem.block, disk.block, pending, cap, b, GoesCanonical(b));
    RootsMeetIs(mem.stateRoots, disk.stateRoots, b.stateRoot, b.root);
  }

  /** The indexes after promotions that a failed flush left in memory only. */
  ghost function PromotedTo(ix: Indexes, pending: SlotIndex, fin: nat): Indexes {
    ix.(state := ix.state + UpTo(pending, fin), block := ix.block + UpTo(pending, fin))
  }

  /** The disk has the promoted rows already, or the bundle writes them as its own. */
  ghost predicate RowsThere(index: SlotIndex, pending: SlotIndex, fin: nat, b: Bundle, own: bool) {
    forall s :: s in pending && s <= fin ==> (own && s == b.slot) || (s in index && index[s] == pending[s])
  }

  lemma LingeringRows(index: SlotIndex, pending: SlotIndex, fin: nat, cap: nat, b: Bundle, own: bool)
    requires cap > 0
    ensures RowsMeet(index + UpTo(pending, fin), index, Past(pending, fin), cap, b, own) <==>
            && RowsThere(index, pending, fin, b, own)
            && (GoesCanonical(b) || RowsHeld(index, Past(pending, fin), cap, FinSlot(b.next), b.slot))
  {
    var mem, left := index + UpTo(pending, fin), Past(pending, fin);
    if RowsMeet(mem, index, left, cap, b, own) {
      forall s | s in pending && s <= fin
        ensures (own && s == b.slot) || (s in index && index[s] == pending[s])
      {
        assert RowMeets(mem, index, left, cap, b, own, s);
      }
      forall s | !GoesCanonical(b) && s in left && s <= FinSlot(b.next) && s % cap == b.slot % cap
        ensures s in index && index[s] == left[s]
      {
        assert RowMeets(mem, index, left, cap, b, own, s);
      }
    }
  }

  /** Such promotions stay off the disk: the next bundle write reports everything clean,
      and makes memory and disk equal exactly when the disk had all the rows already, but
      for the block's own, and nothing else is lost. */
  lemma FailedFlushLingers(ix: Indexes, meta: Meta, pending: SlotIndex, fin: nat, cap: nat, b: Bundle)
    requires cap > 0
    ensures Meets(PromotedTo(ix, pending, fin).(meta := meta), ix, Past(pending, fin), cap, b) <==>
            && RowsThere(ix.state, pending, fin, b, true) && RowsThere(ix.block, pending, fin, b, GoesCanonical(b))
            && NothingLost(ix, Past(pending, fin), cap, b)
  {
    LingeringRows(ix.state, pending, fin, cap, b, true);
    LingeringRows(ix.block, pending, fin, cap, b, GoesCanonical(b));
  }

  /** It does happen: slot 3 is finalized with checkpoint slot 5 and the flush fails; the
      bundle of slot 6 commits. The row of slot 3 is in memory and not on disk. */
  lemma PromotionLost()
    ensures var ix := Indexes(map[], map[], map[], Meta(None, None, None, None));
            var meta := Meta(None, Some(8), Some(5), None);
            var b := Bundle(6, 9, 10, meta);
            var mem := PromotedTo(ix, map[3 := 7], 5).(meta := meta);
            && 3 in BundleInMemory(mem, Past(map[3 := 7], 5), PENDING_WINDOW_CAP, b).block
            && 3 !in BundleOnDisk(ix, Past(map[3 := 7], 5), b).block
  {
  }

  // ------------------------------------------------------------- reads by slot

  /** The root a read by slot finds: the cache first, then the index. */
  ghost function RootBySlot(pending: SlotIndex, index: SlotIndex, slot: nat): Option<Root> {
    if slot in pending then Some(pending[slot]) else if slot in index then Some(index[slot]) else None
  }

  ghost function Lookup<V>(blobs: map<Root, V>, root: Option<Root>): Option<V> {
    if root.Some? && root.value in blobs then Some(blobs[root.value]) else None
  }

  /** Moving finality forward is invisible to reads by slot. */
  lemma PromotionInvisible(pending: SlotIndex, index: SlotIndex, upper: nat, slot: nat)
    ensures RootBySlot(Past(pending, upper), index + UpTo(pending, upper), slot) == RootBySlot(pending, index, slot)
  {
  }

  /** A bundle write changes reads by slot only for its own slot and for slots that
      lose their bucket to it; those fall back to the canonical index. */
  lemma BundleReads(ix: Indexes, pending: SlotIndex, cap: nat, b: Bundle, slot: nat)
    requires cap > 0 && slot != b.slot
    ensures var pending' := Past(PendingWith(pending, cap, b), FinSlot(b.next));
            var evicted := !GoesCanonical(b) && slot % cap == b.slot % cap;
            && RootBySlot(pending', BundleInMemory(ix, pending, cap, b).block, slot) ==
               RootBySlot(if evicted then map[] else pending, ix.block, slot)
            && RootBySlot(pending', BundleInMemory(ix, pending, cap, b).state, slot) ==
               RootBySlot(if evicted then map[] else pending, ix.state, slot)
  {
  }

  /** A bundle write moves exactly the cached rows up to the finalized slot, which is 0 if there
      is none, from the cache to both indexes, but for those that lose their bucket. */
  lemma BundleMoves(ix: Indexes, pending: SlotIndex, cap: nat, b: Bundle, slot: nat)
    requires cap > 0 && slot in pending && slot % cap != b.slot % cap
    ensures var fin := if b.next.finalizedSlot.Some? then b.next.finalizedSlot.value else 0;
            var pending', after := Past(PendingWith(pending, cap, b), FinSlot(b.next)), BundleInMemory(ix, pending, cap, b);
            if slot <= fin then
              && slot !in pending' && slot in after.state && slot in after.block
              && after.state[slot] == after.block[slot] == pending[slot]
            else
              && slot in pending' && pending'[slot] == pending[slot]
              && SameRow(ix.state, after.state, slot) && SameRow(ix.block, after.block, slot)
  {
  }

  // -------------------------------------------------------------------- pruning

  /** Head, justified and finalized root. */
  function PinnedRoots(meta: Meta): set<Root> {
    (if meta.head.Some? then {meta.head.value} else {})
    + (if meta.justified.Some? then {meta.justified.value} else {})
    + (if meta.finalized.Some? then {meta.finalized.value} else {})
  }

  predicate Pinned(meta: Meta, root: Root) {
    root in PinnedRoots(meta)
  }

  function Cutoff(finalizedSlot: nat, keepRecent: nat): nat {
    if finalizedSlot < keepRecent then 0 else finalizedSlot - keepRecent
  }

  /** An index row that pruning keeps. */
  ghost predicate Survives(index: SlotIndex, meta: Meta, cutoff: nat, slot: nat)
    requires slot in index
  {
    slot >= cutoff || Pinned(meta, index[slot])
  }

  ghost function PrunedIndex(index: SlotIndex, meta: Meta, cutoff: nat): SlotIndex {
    map s | s in index && Survives(index, meta, cutoff, s) :: index[s]
  }

  /** The roots an index, the cache or the metadata refers to. */
  ghost function Referenced(index: SlotIndex, pending: SlotIndex, meta: Meta): set<Root> {
    index.Values + pending.Values + PinnedRoots(meta)
  }

  /** Exactly the blobs that something refers to. */
  ghost function Collected(blobs: Blobs, memory: Indexes, pending: SlotIndex): Blobs {
    var keepStates := Referenced(memory.state, pending, memory.meta);
    var keepBlocks := Referenced(memory.block, pending, memory.meta);
    Blobs(Restricted(blobs.states, keepStates), Restricted(blobs.blocks, keepBlocks), Restricted(blobs.signed, keepBlocks))
  }

  /** Pruning and collecting changes no answer by slot, except that a slot below the
      cutoff which is neither pending nor indexed to a pinned root has none left. */
  lemma PruneReads<V>(index: SlotIndex, pending: SlotIndex, meta: Meta, cutoff: nat, blobs: map<Root, V>, slot: nat)
    ensures Lookup(Restricted(blobs, Referenced(PrunedIndex(index, meta, cutoff), pending, meta)),
                   RootBySlot(pending, PrunedIndex(index, meta, cutoff), slot)) ==
            if slot !in pending && slot in index && !Survives(index, meta, cutoff, slot) then None
            else Lookup(blobs, RootBySlot(pending, index, slot))
  {
  }

  /** The key under which a block root is found by state root. */
  function StateKey(blobs: Blobs, root: Root): Option<Root> {
    if root in blobs.blocks then Some(blobs.blocks[root].stateRoot)
    else if root in blobs.states then Some(root)
    else None
  }

  /** The state-root index finds every live root that has a key, and only live roots. */
  ghost predicate IndexesLive(index: map<Root, Root>, live: set<Root>, blobs: Blobs) {
    && (forall key :: key in index ==>
          && index[key] in live
          && if index[key] in blobs.blocks then blobs.blocks[index[key]].stateRoot == key
             else index[key] in blobs.states && index[key] == key)
    && (forall r :: r in live && r in blobs.blocks ==> blobs.blocks[r].stateRoot in index)
    && (forall r :: r in live && r !in blobs.blocks && r in blobs.states ==> r in index)
  }

  /** What pruning leaves of the answers by slot. */
  ghost predicate ReadsPruned<V>(index: SlotIndex, pending: SlotIndex, meta: Meta, cutoff: nat, blobs: map<Root, V>,
                                 index': SlotIndex, blobs': map<Root, V>) {
    forall slot: nat ::
      Lookup(blobs', RootBySlot(pending, index', slot)) ==
      if slot !in pending && slot in index && !Survives(index, meta, cutoff, slot) then None
      else Lookup(blobs, RootBySlot(pending, index, slot))
  }

  lemma PruneAllReads<V>(index: SlotIndex, pending: SlotIndex, meta: Meta, cutoff: nat, blobs: map<Root, V>)
    ensures ReadsPruned(index, pending, meta, cutoff, blobs, PrunedIndex(index, meta, cutoff),
                        Restricted(blobs, Referenced(PrunedIndex(index, meta, cutoff), pending, meta)))
  {
    forall slot: nat {
      PruneReads(index, pending, meta, cutoff, blobs, slot);
    }
  }

  /** The rows below the cutoff that stay because their root is pinned. */
  ghost function PinnedRows(index: SlotIndex, meta: Meta, cutoff: nat): set<nat> {
    set s | s in index && s < cutoff && Pinned(meta, index[s])
  }

  // -------------------------------------------------------- pruning, in its own terms

  /** The rows that stay are the recent ones and those whose root is pinned. */
  ghost predicate KeepsRecent(index: SlotIndex, pins: set<Option<Root>>, finSlot: nat, keepRecent: nat, index': SlotIndex) {
    && (forall s :: s in index' <==> s in index && (s + keepRecent >= finSlot || Some(index[s]) in pins))
    && (forall s :: s in index' ==> index'[s] == index[s])
  }

  /** Answers by slot stay as they are but for an old row that is neither cached nor pinned,
      which has none left. */
  ghost predicate ReadsRecent<V>(index: SlotIndex, pending: SlotIndex, pins: set<Option<Root>>, finSlot: nat, keepRecent: nat,
                                 blobs: map<Root, V>, index': SlotIndex, blobs': map<Root, V>) {
    forall slot: nat ::
      Lookup(blobs', RootBySlot(pending, index', slot)) ==
      if slot !in pending && slot in index && slot + keepRecent < finSlot && Some(index[slot]) !in pins then None
      else Lookup(blobs, RootBySlot(pending, index, slot))
  }

  /** The blobs that stay are those of a row, of the cache or of a pin. */
  ghost predicate KeepsReferenced<V>(blobs: map<Root, V>, index: SlotIndex, pending: SlotIndex, pins: set<Option<Root>>,
                                     blobs': map<Root, V>) {
    && (forall r :: r in blobs' <==> r in blobs && (r in index.Values || r in pending.Values || Some(r) in pins))
    && (forall r :: r in blobs' ==> blobs'[r] == blobs[r])
  }

  lemma PinsAre(meta: Meta, r: Root)
    ensures Pinned(meta, r) <==> Some(r) in {meta.head, meta.justified, meta.finalized}
  {
  }

  lemma SurvivesRecent(index: SlotIndex, meta: Meta, finSlot: nat, keepRecent: nat, slot: nat)
    requires slot in index
    ensures Survives(index, meta, Cutoff(finSlot, keepRecent), slot) <==>
            slot + keepRecent >= finSlot || Some(index[slot]) in {meta.head, meta.justified, meta.finalized}
  {
    PinsAre(meta, index[slot]);
  }

  lemma PrunedIndexRecent(index: SlotIndex, meta: Meta, finSlot: nat, keepRecent: nat)
    ensures KeepsRecent(index, {meta.head, meta.justified, meta.finalized}, finSlot, keepRecent,
                        PrunedIndex(index, meta, Cutoff(finSlot, keepRecent)))
  {
    forall slot | slot in index {
      SurvivesRecent(index, meta, finSlot, keepRecent, slot);
    }
  }

  lemma PrunedReadsRecent<V>(index: SlotIndex, pending: SlotIndex, meta: Meta, finSlot: nat, keepRecent: nat,
                             blobs: map<Root, V>, index': SlotIndex, blobs': map<Root, V>)
    requires ReadsPruned(index, pending, meta, Cutoff(finSlot, keepRecent), blobs, index', blobs')
    ensures ReadsRecent(index, pending, {meta.head, meta.justified, meta.finalized}, finSlot, keepRecent, blobs, index', blobs')
  {
    forall slot | slot in index {
      SurvivesRecent(index, meta, finSlot, keepRecent, slot);
    }
  }

  lemma RestrictedReferenced<V>(blobs: map<Root, V>, index: SlotIndex, pending: SlotIndex, meta: Meta)
    ensures KeepsReferenced(blobs, index, pending, {meta.head, meta.justified, meta.finalized},
                            Restricted(blobs, Referenced(index, pending, meta)))
  {
    forall r {
      PinsAre(meta, r);
    }
  }

  /** The rows that are too old and still there. */
  ghost function OldRows(index: SlotIndex, finSlot: nat, keepRecent: nat): set<nat> {
    set s | s in index && s + keepRecent < finSlot
  }

  lemma PinnedAreOld(index: SlotIndex, meta: Meta, finSlot: nat, keepRecent: nat)
    ensures var cutoff := Cutoff(finSlot, keepRecent);
            PinnedRows(index, meta, cutoff) == OldRows(PrunedIndex(index, meta, cutoff), finSlot, keepRecent)
  {
  }

  // ------------------------------------------------------------- a bundle's own row

  /** A block goes to the cache exactly when it lies above a known finalized slot; a read of
      its slot finds it, unless it went to the index and the cache had another block there. */
  lemma BundleOwnRow(ix: Indexes, pending: SlotIndex, cap: nat, b: Bundle)
    requires cap > 0
    ensures var pending' := Past(PendingWith(pending, cap, b), FinSlot(b.next));
            var cached := b.next.finalizedSlot.Some? && b.slot > b.next.finalizedSlot.value;
            var found := Some(if !cached && b.slot in pending then pending[b.slot] else b.root);
            && RootBySlot(pending', BundleInMemory(ix, pending, cap, b).block, b.slot) == found
            && RootBySlot(pending', BundleInMemory(ix, pending, cap, b).state, b.slot) == found
            && if cached then b.slot in pending' && SameRow(ix.block, BundleInMemory(ix, pending, cap, b).block, b.slot)
               else b.slot in BundleInMemory(ix, pending, cap, b).block
  {
  }
}

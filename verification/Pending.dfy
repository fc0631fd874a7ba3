/** The direct-mapped cache of blocks above finality. */
module Pending {
  import opened Containers
  import opened Bits

  datatype PendingEntry = PendingEntry(slot: nat, blockRoot: Root)
  type Bucket = Option<PendingEntry>
  type SlotIndex = map<nat, Root>

  const PENDING_WINDOW_CAP: nat := 2_048

  // -------------------------------------------------------------- as a mapping

  /** Every entry sits in the bucket of its slot. */
  ghost predicate WellPlaced(buckets: seq<Bucket>, cap: nat)
    requires cap > 0
  {
    forall i :: 0 <= i < |buckets| && buckets[i].Some? ==> buckets[i].value.slot % cap == i
  }

  /** The slots held by the buckets. */
  ghost function Contents(buckets: seq<Bucket>): SlotIndex {
    if buckets == [] then map[]
    else
      var init, last := Contents(buckets[..|buckets| - 1]), buckets[|buckets| - 1];
      if last.None? then init else init[last.value.slot := last.value.blockRoot]
  }

  ghost function Occupied(buckets: seq<Bucket>): nat {
    if buckets == [] then 0 else Occupied(buckets[..|buckets| - 1]) + One(buckets[|buckets| - 1].Some?)
  }

  ghost function UpTo(pending: SlotIndex, upper: nat): SlotIndex {
    map s | s in pending && s <= upper :: pending[s]
  }

  ghost function Past(pending: SlotIndex, upper: nat): SlotIndex {
    map s | s in pending && s > upper :: pending[s]
  }

  /** Inserting a slot displaces whatever else shares its bucket. */
  ghost function Displaced(pending: SlotIndex, cap: nat, slot: nat): SlotIndex
    requires cap > 0
  {
    map s | s in pending && s % cap != slot % cap :: pending[s]
  }

  /** A bucket answers for exactly the slot it stores. */
  lemma {:induction false} ContentsAt(buckets: seq<Bucket>, cap: nat, slot: nat)
    requires cap > 0 && WellPlaced(buckets, cap)
    ensures slot in Contents(buckets) <==>
              slot % cap < |buckets| && buckets[slot % cap].Some? && buckets[slot % cap].value.slot == slot
    ensures slot in Contents(buckets) ==> Contents(buckets)[slot] == buckets[slot % cap].value.blockRoot
  {
    if buckets != [] {
      ContentsAt(buckets[..|buckets| - 1], cap, slot);
    }
  }

  lemma InsertedContents(buckets: seq<Bucket>, slot: nat, root: Root)
    requires |buckets| > 0 && WellPlaced(buckets, |buckets|)
    ensures var after := buckets[slot % |buckets| := Some(PendingEntry(slot, root))];
            && WellPlaced(after, |buckets|)
            && Contents(after) == Displaced(Contents(buckets), |buckets|, slot)[slot := root]
  {
    var cap := |buckets|;
    var after := buckets[slot % cap := Some(PendingEntry(slot, root))];
    var expected := Displaced(Contents(buckets), cap, slot)[slot := root];
    forall s: nat
      ensures s in Contents(after) <==> s in expected
      ensures s in Contents(after) ==> Contents(after)[s] == expected[s]
    {
      ContentsAt(buckets, cap, s);
      ContentsAt(after, cap, s);
    }
  }

  lemma {:induction false} OccupiedUpdate(buckets: seq<Bucket>, i: nat, b: Bucket)
    requires i < |buckets|
    ensures Occupied(buckets[i := b]) == Occupied(buckets) + One(b.Some?) - One(buckets[i].Some?)
  {
    var n := |buckets| - 1;
    if i < n {
      assert buckets[i := b][..n] == buckets[..n][i := b];
      OccupiedUpdate(buckets[..n], i, b);
    } else {
      assert buckets[i := b][..n] == buckets[..n];
    }
  }

  // ---------------------------------------------------------------- as a list

  /** The entries at or below `upper`, in bucket order. */
  ghost function Leq(buckets: seq<Bucket>, upper: nat): seq<PendingEntry> {
    if buckets == [] then []
    else
      var last := buckets[|buckets| - 1];
      Leq(buckets[..|buckets| - 1], upper)
      + (if last.Some? && last.value.slot <= upper then [last.value] else [])
  }

  /** A list of entries written to an index one after the other. */
  ghost function Rows(index: SlotIndex, entries: seq<PendingEntry>): SlotIndex {
    if entries == [] then index
    else Rows(index, entries[..|entries| - 1])[entries[|entries| - 1].slot := entries[|entries| - 1].blockRoot]
  }

  lemma UpToInsert(index: SlotIndex, pending: SlotIndex, upper: nat, slot: nat, root: Root)
    ensures index + UpTo(pending[slot := root], upper) ==
            if slot <= upper then (index + UpTo(pending, upper))[slot := root] else index + UpTo(pending - {slot}, upper)
  {
  }

  lemma SlotFresh(buckets: seq<Bucket>, cap: nat)
    requires cap > 0 && WellPlaced(buckets, cap) && buckets != [] && buckets[|buckets| - 1].Some?
    ensures buckets[|buckets| - 1].value.slot !in Contents(buckets[..|buckets| - 1])
  {
    ContentsAt(buckets[..|buckets| - 1], cap, buckets[|buckets| - 1].value.slot);
  }

  /** Writing out the entries up to `upper` adds that part of the cache to an index. */
  lemma {:induction false} LeqRows(index: SlotIndex, buckets: seq<Bucket>, cap: nat, upper: nat)
    requires cap > 0 && WellPlaced(buckets, cap)
    ensures Rows(index, Leq(buckets, upper)) == index + UpTo(Contents(buckets), upper)
  {
    if buckets != [] {
      var init, last := buckets[..|buckets| - 1], buckets[|buckets| - 1];
      LeqRows(index, init, cap, upper);
      if last.Some? {
        SlotFresh(buckets, cap);
        assert Contents(init) - {last.value.slot} == Contents(init);
        UpToInsert(index, Contents(init), upper, last.value.slot, last.value.blockRoot);
      }
      if last.Some? && last.value.slot <= upper {
        var list := Leq(buckets, upper);
        assert list[..|list| - 1] == Leq(init, upper);
      } else {
        assert Leq(buckets, upper) == Leq(init, upper);
      }
    }
  }

  /** The buckets with the entries up to `upper` cleared, as far as bucket `k`. */
  ghost predicate Drained(before: seq<Bucket>, after: seq<Bucket>, k: nat, upper: nat) {
    && |after| == |before| && k <= |before|
    && (forall i :: 0 <= i < k ==>
          after[i] == if before[i].Some? && before[i].value.slot <= upper then None else before[i])
    && (forall i :: k <= i < |before| ==> after[i] == before[i])
  }

  lemma DrainedContents(before: seq<Bucket>, after: seq<Bucket>, upper: nat)
    requires |before| > 0 && WellPlaced(before, |before|) && Drained(before, after, |before|, upper)
    ensures WellPlaced(after, |before|) && Contents(after) == Past(Contents(before), upper)
  {
    forall s: nat
      ensures s in Contents(after) <==> s in Past(Contents(before), upper)
      ensures s in Contents(after) ==> Contents(after)[s] == Contents(before)[s]
    {
      ContentsAt(before, |before|, s);
      ContentsAt(after, |before|, s);
    }
  }

  // ------------------------------------------------------------------ the cache

  class PendingSlotCache {
    const entries: array<Bucket>
    var count: nat

    ghost predicate Valid()
      reads this, entries
    {
      entries.Length > 0 && WellPlaced(entries[..], entries.Length) && count == Occupied(entries[..])
    }

    ghost function Model(): SlotIndex
      reads this, entries
    {
      Contents(entries[..])
    }

    constructor (capacity: nat)
      requires capacity > 0
      ensures Valid() && Model() == map[] && entries.Length == capacity && fresh(entries)
    {
      entries := new Bucket[capacity](_ => None);
      count := 0;
      new;
      EmptyContents(entries[..]);
    }

    /** Writes the bucket of `slot` and returns what it held. */
    method Insert(slot: nat, blockRoot: Root) returns (prev: Option<PendingEntry>)
      requires Valid()
      modifies this, entries
      ensures Valid()
      ensures Model() == Displaced(old(Model()), entries.Length, slot)[slot := blockRoot]
      ensures prev == old(entries[slot % entries.Length])
    {
      var i := slot % entries.Length;
      InsertedContents(entries[..], slot, blockRoot);
      OccupiedUpdate(entries[..], i, Some(PendingEntry(slot, blockRoot)));
      ghost var after := entries[..][i := Some(PendingEntry(slot, blockRoot))];
      prev := entries[i];
      if prev.None? {
        count := count + 1;
      }
      entries[i] := Some(PendingEntry(slot, blockRoot));
      assert entries[..] == after;
    }

    /** The entry of `slot`; a collision in its bucket is not a hit. */
    method Get(slot: nat) returns (r: Option<PendingEntry>)
      requires Valid()
      ensures r == if slot in Model() then Some(PendingEntry(slot, Model()[slot])) else None
    {
      ContentsAt(entries[..], entries.Length, slot);
      var bucket := entries[slot % entries.Length];
      r := if bucket.Some? && bucket.value.slot == slot then bucket else None;
    }

    /** Clears every entry up to `upper` and returns them in bucket order. */
    method DrainLeq(upper: nat) returns (drained: seq<PendingEntry>)
      requires Valid()
      modifies this, entries
      ensures Valid()
      ensures drained == Leq(old(entries[..]), upper)
      ensures Model() == Past(old(Model()), upper)
    {
      ghost var before := entries[..];
      drained := [];
      for k := 0 to entries.Length
        invariant Drained(before, entries[..], k, upper)
        invariant drained == Leq(before[..k], upper) && count == Occupied(entries[..])
      {
        assert before[..k + 1][..k] == before[..k];
        var bucket := entries[k];
        if bucket.Some? && bucket.value.slot <= upper {
          OccupiedUpdate(entries[..], k, None);
          ghost var next := entries[..][k := None];
          entries[k] := None;
          assert entries[..] == next;
          count := count - 1;
          drained := drained + [bucket.value];
        }
      }
      assert before[..|before|] == before;
      DrainedContents(before, entries[..], upper);
    }

    /** The entries up to `upper`, in bucket order. */
    method EntriesLeq(upper: nat) returns (out: seq<PendingEntry>)
      ensures out == Leq(entries[..], upper)
    {
      out := [];
      for k := 0 to entries.Length
        invariant out == Leq(entries[..k], upper)
      {
        assert entries[..k + 1][..k] == entries[..k];
        if entries[k].Some? && entries[k].value.slot <= upper {
          out := out + [entries[k].value];
        }
      }
      assert entries[..entries.Length] == entries[..];
    }

    /** The roots of all entries. */
    method Roots() returns (roots: set<Root>)
      requires Valid()
      ensures roots == Model().Values
    {
      roots := {};
      for k := 0 to entries.Length
        invariant forall r :: r in roots <==> HeldBelow(entries[..], k, r)
      {
        ghost var before := roots;
        if entries[k].Some? {
          roots := roots + {entries[k].value.blockRoot};
        }
        forall r
          ensures r in roots <==> HeldBelow(entries[..], k + 1, r)
        {
          assert r in before <==> HeldBelow(entries[..], k, r);
          HeldBelowStep(entries[..], k, r);
        }
      }
      forall r
        ensures r in roots <==> ValueOf(Model(), r)
      {
        HeldRoots(entries[..], entries.Length, r);
      }
      ValuesAre(Model(), roots);
    }
  }

  predicate Holds(bucket: Bucket, root: Root) {
    bucket.Some? && bucket.value.blockRoot == root
  }

  ghost predicate HeldBelow(buckets: seq<Bucket>, k: nat, root: Root)
    requires k <= |buckets|
  {
    exists i :: 0 <= i < k && Holds(buckets[i], root)
  }

  lemma HeldBelowStep(buckets: seq<Bucket>, k: nat, root: Root)
    requires k < |buckets|
    ensures HeldBelow(buckets, k + 1, root) <==> HeldBelow(buckets, k, root) || Holds(buckets[k], root)
  {
    if Holds(buckets[k], root) {
      assert HeldBelow(buckets, k + 1, root);
    }
    if HeldBelow(buckets, k, root) {
      var i :| 0 <= i < k && Holds(buckets[i], root);
      assert HeldBelow(buckets, k + 1, root);
    }
  }

  /** Some slot is mapped to `root`. */
  ghost predicate ValueOf(index: SlotIndex, root: Root) {
    exists s :: s in index && index[s] == root
  }

  lemma ValuesAre(index: SlotIndex, roots: set<Root>)
    requires forall r :: r in roots <==> ValueOf(index, r)
    ensures roots == index.Values
  {
    forall r
      ensures r in index.Values <==> ValueOf(index, r)
    {
    }
  }

  lemma HeldRoots(buckets: seq<Bucket>, cap: nat, root: Root)
    requires cap > 0 && |buckets| == cap && WellPlaced(buckets, cap)
    ensures HeldBelow(buckets, cap, root) <==> ValueOf(Contents(buckets), root)
  {
    if i :| 0 <= i < cap && Holds(buckets[i], root) {
      ContentsAt(buckets, cap, buckets[i].value.slot);
    }
    if s :| s in Contents(buckets) && Contents(buckets)[s] == root {
      ContentsAt(buckets, cap, s);
    }
  }

  lemma {:induction false} EmptyContents(buckets: seq<Bucket>)
    requires forall i :: 0 <= i < |buckets| ==> buckets[i].None?
    ensures Contents(buckets) == map[] && Occupied(buckets) == 0
  {
    if buckets != [] {
      EmptyContents(buckets[..|buckets| - 1]);
    }
  }
}

/** The checkpoint a validator attests to. */
module ForkTarget {
  import opened Containers
  import opened ForkTree
  import opened ForkTheorems
  import opened ForkPrune
  import opened ForkInsert
  import opened ForkChoice
  import opened Justifiable
  import Transition

  const JUSTIFICATION_LOOKBACK_SLOTS: nat := 3

  /** Slots are 64-bit numbers. */
  ghost predicate SlotsFit(blocks: BlockMap) {
    forall r :: r in blocks ==> blocks[r].block.slot < TWO64
  }

  /** Why the walk towards the root goes on past a block: it is above the safe target, or
      above finality and may not be justified. */
  datatype Reason = AboveSafe(safeSlot: nat) | OpenAbove(finalizedSlot: nat)

  ghost predicate GoesOn(why: Reason, slot: nat) {
    match why
    case AboveSafe(safe) => slot > safe
    case OpenAbove(fin) => slot >= fin && !Transition.AcceptedAfter(slot, fin)
  }

  /** `a` is `r` or an ancestor of it, and the walk goes on past every block before it. */
  ghost predicate Passes(t: Tree, r: Root, a: Root, why: Reason) {
    && r in t.slots && a in t.slots && Descends(t, r, a)
    && (forall x :: x in t.slots && Descends(t, r, x) && Descends(t, x, a) && x != a ==> GoesOn(why, t.slots[x]))
  }

  lemma ReachesParent(t: Tree, r: Root, a: Root, why: Reason)
    requires Ordered(t) && Passes(t, r, a, why) && a in t.up && GoesOn(why, t.slots[a])
    ensures Passes(t, r, t.up[a], why)
  {
    var b := t.up[a];
    DescendsTransitive(t, r, a, b);
    forall x | x in t.slots && Descends(t, r, x) && Descends(t, x, b) && x != b
      ensures GoesOn(why, t.slots[x])
    {
      AncestorsComparable(t, r, x, a);
      if Descends(t, a, x) && x != a {
        DescendsRank(t, b, x);
        DescendsRank(t, x, b);
      }
    }
  }

  lemma ReachesItself(t: Tree, r: Root, why: Reason)
    requires Ordered(t) && r in t.slots
    ensures Passes(t, r, r, why)
  {
    forall x | x in t.slots && x != r
      ensures !(Descends(t, r, x) && Descends(t, x, r))
    {
      if Descends(t, r, x) {
        DescendsRank(t, r, x);
      }
      if Descends(t, x, r) {
        DescendsRank(t, x, r);
      }
    }
  }

  // ------------------------------------------------------------------ the walks

  /** `k` recorded parents up from `r`, whether they are known or not. */
  ghost function Line(parents: ParentMap, r: Root, k: nat): Root {
    if k == 0 then r
    else
      var c := Line(parents, r, k - 1);
      if c in parents then parents[c] else c
  }

  /** The walk goes on at a block: it is known, gives a reason, and names a parent. */
  ghost predicate PassesOn(blocks: BlockMap, parents: ParentMap, x: Root, why: Reason) {
    x in blocks && x in parents && parents[x] != ZERO && GoesOn(why, blocks[x].block.slot)
  }

  /** The walk from `r` takes exactly `n` links. */
  ghost predicate Walks(blocks: BlockMap, parents: ParentMap, r: Root, why: Reason, n: nat) {
    forall j :: 0 <= j < n ==> PassesOn(blocks, parents, Line(parents, r, j), why)
  }

  /** The outcome of looking back: after `n` links the walk has used up its links or
      stands at a block that does not pass on; it fails if that block is unknown. */
  ghost predicate LooksBack(blocks: BlockMap, parents: ParentMap, head: Root, safeSlot: nat, n: nat, r: Option<Root>) {
    var x := Line(parents, head, n);
    && n <= JUSTIFICATION_LOOKBACK_SLOTS
    && Walks(blocks, parents, head, AboveSafe(safeSlot), n)
    && (n < JUSTIFICATION_LOOKBACK_SLOTS ==> !PassesOn(blocks, parents, x, AboveSafe(safeSlot)))
    && r == if x in blocks then Some(x) else None
  }

  /** The outcome of walking to a justifiable block: it fails if the walk leaves the store
      or falls below the finalized slot. */
  ghost predicate WalksBack(blocks: BlockMap, parents: ParentMap, from: Root, fin: nat, n: nat, r: Option<Root>) {
    var x := Line(parents, from, n);
    && Walks(blocks, parents, from, OpenAbove(fin), n)
    && !PassesOn(blocks, parents, x, OpenAbove(fin))
    && r == if x in blocks && blocks[x].block.slot >= fin then Some(x) else None
  }

  ghost predicate LooksTo(blocks: BlockMap, parents: ParentMap, head: Root, safeSlot: nat, r: Option<Root>) {
    exists n: nat :: LooksBack(blocks, parents, head, safeSlot, n, r)
  }

  ghost predicate WalksTo(blocks: BlockMap, parents: ParentMap, from: Root, fin: nat, r: Option<Root>) {
    exists n: nat :: WalksBack(blocks, parents, from, fin, n, r)
  }

  /** There is only one place where a walk can end. */
  lemma LooksToUnique(blocks: BlockMap, parents: ParentMap, head: Root, safeSlot: nat, r: Option<Root>, r': Option<Root>)
    requires LooksTo(blocks, parents, head, safeSlot, r) && LooksTo(blocks, parents, head, safeSlot, r')
    ensures r == r'
  {
    var n: nat :| LooksBack(blocks, parents, head, safeSlot, n, r);
    var n': nat :| LooksBack(blocks, parents, head, safeSlot, n', r');
    assert n == n';
  }

  lemma WalksToUnique(blocks: BlockMap, parents: ParentMap, from: Root, fin: nat, r: Option<Root>, r': Option<Root>)
    requires WalksTo(blocks, parents, from, fin, r) && WalksTo(blocks, parents, from, fin, r')
    ensures r == r'
  {
    var n: nat :| WalksBack(blocks, parents, from, fin, n, r);
    var n': nat :| WalksBack(blocks, parents, from, fin, n', r');
    assert n == n';
  }

  /** In the tree, a walk that ends at a known block runs along the chain. */
  lemma {:induction false} WalkReaches(blocks: BlockMap, parents: ParentMap, t: Tree, r: Root, why: Reason, n: nat)
    requires t == TreeFrom(blocks, parents) && Ordered(t) && r in blocks
    requires Walks(blocks, parents, r, why, n) && Line(parents, r, n) in blocks
    ensures Passes(t, r, Line(parents, r, n), why)
  {
    if n == 0 {
      ReachesItself(t, r, why);
    } else {
      var c := Line(parents, r, n - 1);
      assert PassesOn(blocks, parents, c, why);
      WalkReaches(blocks, parents, t, r, why, n - 1);
      ReachesParent(t, r, c, why);
    }
  }

  /** At most three links back, past blocks above the safe slot. */
  method LookBack(blocks: BlockMap, parents: ParentMap, head: Root, safeSlot: nat) returns (r: Option<Root>)
    requires parents.Keys == blocks.Keys
    ensures LooksTo(blocks, parents, head, safeSlot, r)
  {
    var target := head;
    for k := 0 to JUSTIFICATION_LOOKBACK_SLOTS
      invariant target == Line(parents, head, k) && Walks(blocks, parents, head, AboveSafe(safeSlot), k)
    {
      if target !in blocks {
        assert LooksBack(blocks, parents, head, safeSlot, k, None);
        return None;
      }
      if blocks[target].block.slot <= safeSlot || parents[target] == ZERO {
        assert LooksBack(blocks, parents, head, safeSlot, k, Some(target));
        return Some(target);
      }
      target := parents[target];
    }
    r := if target in blocks then Some(target) else None;
    assert LooksBack(blocks, parents, head, safeSlot, JUSTIFICATION_LOOKBACK_SLOTS, r);
  }

  lemma ParentRanksLower(blocks: BlockMap, parents: ParentMap, t: Tree, x: Root)
    requires t == TreeFrom(blocks, parents) && Ordered(t) && x in blocks && x in parents
    ensures Rank(t, parents[x]) < Rank(t, x)
  {
    if parents[x] in blocks {
      assert x in t.up;
    }
  }

  /** Back to the first block that may be justified. */
  method BackToJustifiable(blocks: BlockMap, parents: ParentMap, from: Root, finalizedSlot: nat, ghost t: Tree)
    returns (r: Option<Root>)
    requires t == TreeFrom(blocks, parents) && Ordered(t) && parents.Keys == blocks.Keys && SlotsFit(blocks)
    ensures WalksTo(blocks, parents, from, finalizedSlot, r)
  {
    var target := from;
    ghost var n: nat := 0;
    while true
      invariant target == Line(parents, from, n) && Walks(blocks, parents, from, OpenAbove(finalizedSlot), n)
      decreases Rank(t, target)
    {
      if target !in blocks {
        assert WalksBack(blocks, parents, from, finalizedSlot, n, None);
        return None;
      }
      var accepted := IsJustifiableAfter(blocks[target].block.slot, finalizedSlot);
      if accepted.None? {
        assert WalksBack(blocks, parents, from, finalizedSlot, n, None);
        return None;
      }
      if accepted.value || parents[target] == ZERO {
        assert WalksBack(blocks, parents, from, finalizedSlot, n, Some(target));
        return Some(target);
      }
      ParentRanksLower(blocks, parents, t, target);
      target := parents[target];
      n := n + 1;
    }
  }

  /** The checkpoint of the block the walks end on; the latest justified one stands in
      for anything below it. */
  ghost function TargetFor(blocks: BlockMap, x: Option<Root>, justified: Checkpoint): Option<Checkpoint> {
    if x.None? || x.value !in blocks then None
    else
      var slot := blocks[x.value].block.slot;
      Some(if slot < justified.slot then justified else Checkpoint(x.value, slot))
  }

  /** Looking back from the head ends on `from`, and walking on from there on `x`; a
      walk that fails ends nowhere. */
  ghost predicate EndsOn(blocks: BlockMap, parents: ParentMap, head: Root, safeSlot: nat, fin: nat,
                         from: Option<Root>, x: Option<Root>) {
    && LooksTo(blocks, parents, head, safeSlot, from)
    && (if from.Some? then WalksTo(blocks, parents, from.value, fin, x) else x.None?)
  }

  ghost predicate Targets(blocks: BlockMap, parents: ParentMap, head: Root, safeSlot: nat, fin: nat, justified: Checkpoint,
                          r: Option<Checkpoint>) {
    exists from, x :: EndsOn(blocks, parents, head, safeSlot, fin, from, x) && r == TargetFor(blocks, x, justified)
  }

  /** The target to vote for: look back from the head, then walk to a justifiable block. */
  method AttestationTarget(store: ForkChoiceStore, finalizedSlot: nat) returns (r: Option<Checkpoint>)
    requires store.Valid() && SlotsFit(store.dag.blocks)
    ensures store.safeTarget in store.dag.blocks
    ensures Targets(store.dag.blocks, store.dag.parents, store.head, store.dag.blocks[store.safeTarget].block.slot,
                    finalizedSlot, store.latestJustified, r)
  {
    StorePromises(store);
    SoundDescribes(store.tree, store.dag, store.latestVotes, store.latestNewVotes);
    var from := LookBack(store.dag.blocks, store.dag.parents, store.head, SafeSlot(store));
    if from.None? {
      assert EndsOn(store.dag.blocks, store.dag.parents, store.head, SafeSlot(store), finalizedSlot, None, None);
      return None;
    }
    var x := BackToJustifiable(store.dag.blocks, store.dag.parents, from.value, finalizedSlot, store.tree);
    assert EndsOn(store.dag.blocks, store.dag.parents, store.head, SafeSlot(store), finalizedSlot, from, x);
    if x.None? {
      return None;
    }
    var slot := store.dag.blocks[x.value].block.slot;
    if slot < store.latestJustified.slot {
      return Some(store.latestJustified);
    }
    return Some(Checkpoint(x.value, slot));
  }

  /** So the target is determined. */
  lemma TargetUnique(blocks: BlockMap, parents: ParentMap, head: Root, safeSlot: nat, fin: nat, justified: Checkpoint,
                     r: Option<Checkpoint>, r': Option<Checkpoint>)
    requires Targets(blocks, parents, head, safeSlot, fin, justified, r)
    requires Targets(blocks, parents, head, safeSlot, fin, justified, r')
    ensures r == r'
  {
    var from, x :| EndsOn(blocks, parents, head, safeSlot, fin, from, x) && r == TargetFor(blocks, x, justified);
    var from', x' :| EndsOn(blocks, parents, head, safeSlot, fin, from', x') && r' == TargetFor(blocks, x', justified);
    LooksToUnique(blocks, parents, head, safeSlot, from, from');
    if from.Some? {
      WalksToUnique(blocks, parents, from.value, fin, x, x');
    }
  }

  /** The blocks from `r` up to `a`, without `a`. */
  ghost function Between(t: Tree, r: Root, a: Root): set<Root> {
    set x | x in t.slots && Descends(t, r, x) && Descends(t, x, a) && x != a
  }

  lemma NothingBetween(t: Tree, r: Root)
    requires Ordered(t)
    ensures Between(t, r, r) == {}
  {
    forall x | x in Between(t, r, r)
      ensures false
    {
      DescendsRank(t, r, x);
      DescendsRank(t, x, r);
    }
  }

  lemma BetweenParent(t: Tree, r: Root, a: Root)
    requires Ordered(t) && r in t.slots && Descends(t, r, a) && a in t.up
    ensures Between(t, r, t.up[a]) == Between(t, r, a) + {a} && a !in Between(t, r, a)
  {
    var b := t.up[a];
    assert Descends(t, a, b) && Rank(t, b) < Rank(t, a);
    DescendsTransitive(t, r, a, b);
    forall x
      ensures x in Between(t, r, b) <==> x in Between(t, r, a) || x == a
    {
      if x in Between(t, r, b) {
        AncestorsComparable(t, r, x, a);
        if Descends(t, a, x) && x != a {
          DescendsRank(t, b, x);
          DescendsRank(t, x, b);
        }
      }
      if x in Between(t, r, a) {
        DescendsTransitive(t, x, a, b);
        DescendsRank(t, x, a);
      }
    }
  }

  /** A walk along the chain passes as many blocks as it takes links. */
  lemma {:induction false} WalkCounts(blocks: BlockMap, parents: ParentMap, t: Tree, r: Root, why: Reason, n: nat)
    requires t == TreeFrom(blocks, parents) && Ordered(t) && r in blocks
    requires Walks(blocks, parents, r, why, n) && Line(parents, r, n) in blocks
    ensures |Between(t, r, Line(parents, r, n))| == n
  {
    if n == 0 {
      NothingBetween(t, r);
    } else {
      var c := Line(parents, r, n - 1);
      assert PassesOn(blocks, parents, c, why);
      WalkCounts(blocks, parents, t, r, why, n - 1);
      WalkReaches(blocks, parents, t, r, why, n - 1);
      BetweenParent(t, r, c);
    }
  }

  lemma LookedBack(blocks: BlockMap, parents: ParentMap, t: Tree, head: Root, safeSlot: nat, from: Root)
    requires t == TreeFrom(blocks, parents) && Ordered(t) && parents.Keys == blocks.Keys && head in blocks
    requires LooksTo(blocks, parents, head, safeSlot, Some(from))
    ensures from in blocks && Descends(t, head, from) && |Between(t, head, from)| <= 3
    ensures forall y :: y in Between(t, head, from) ==> t.slots[y] > safeSlot
    ensures |Between(t, head, from)| == 3 || t.slots[from] <= safeSlot || parents[from] == ZERO
  {
    var n: nat :| LooksBack(blocks, parents, head, safeSlot, n, Some(from));
    WalkReaches(blocks, parents, t, head, AboveSafe(safeSlot), n);
    WalkCounts(blocks, parents, t, head, AboveSafe(safeSlot), n);
  }

  /** As long as no parent is missing and nothing lies below the finalized slot, there is a
      target. */
  lemma TargetFound(blocks: BlockMap, parents: ParentMap, head: Root, safeSlot: nat, fin: nat, justified: Checkpoint,
                    r: Option<Checkpoint>)
    requires head in blocks && parents.Keys == blocks.Keys && Targets(blocks, parents, head, safeSlot, fin, justified, r)
    requires forall x :: x in blocks ==> parents[x] == ZERO || parents[x] in blocks
    requires forall x :: x in blocks ==> blocks[x].block.slot >= fin
    ensures r.Some?
  {
    var from, x :| EndsOn(blocks, parents, head, safeSlot, fin, from, x) && r == TargetFor(blocks, x, justified);
    var n: nat :| LooksBack(blocks, parents, head, safeSlot, n, from);
    StaysKnown(blocks, parents, head, AboveSafe(safeSlot), n);
    var m: nat :| WalksBack(blocks, parents, from.value, fin, m, x);
    StaysKnown(blocks, parents, from.value, OpenAbove(fin), m);
  }

  lemma {:induction false} StaysKnown(blocks: BlockMap, parents: ParentMap, r: Root, why: Reason, n: nat)
    requires r in blocks && Walks(blocks, parents, r, why, n)
    requires forall x :: x in blocks && x in parents ==> parents[x] == ZERO || parents[x] in blocks
    ensures Line(parents, r, n) in blocks
  {
    if n > 0 {
      StaysKnown(blocks, parents, r, why, n - 1);
      assert PassesOn(blocks, parents, Line(parents, r, n - 1), why);
    }
  }

  lemma WalkedOnChain(blocks: BlockMap, parents: ParentMap, t: Tree, head: Root, safeSlot: nat, fin: nat, from: Root, x: Root)
    requires t == TreeFrom(blocks, parents) && Ordered(t) && parents.Keys == blocks.Keys && head in blocks
    requires LooksTo(blocks, parents, head, safeSlot, Some(from)) && WalksTo(blocks, parents, from, fin, Some(x))
    ensures Passes(t, head, from, AboveSafe(safeSlot)) && Passes(t, from, x, OpenAbove(fin)) && Descends(t, head, x)
    ensures t.slots[x] >= fin && (Transition.AcceptedAfter(t.slots[x], fin) || parents[x] == ZERO)
  {
    var n: nat :| LooksBack(blocks, parents, head, safeSlot, n, Some(from));
    var m: nat :| WalksBack(blocks, parents, from, fin, m, Some(x));
    WalkReaches(blocks, parents, t, head, AboveSafe(safeSlot), n);
    WalkReaches(blocks, parents, t, from, OpenAbove(fin), m);
    DescendsTransitive(t, head, from, x);
  }

  /** The first walk passes at most three blocks, all above the safe target, and ends sooner
      only at a block that is not or has no parent. The second passes only blocks that may
      not be justified and ends at one that may, or has no parent. Both stay on the head's
      chain and at or above finality. The target is that block or, if it
      is higher, the justified checkpoint, which lies on the chain as well if it is known. */
  lemma TargetOnChain(blocks: BlockMap, parents: ParentMap, t: Tree, votes: Votes, head: Root, safeSlot: nat, fin: nat,
                      justified: Checkpoint, target: Checkpoint) returns (from: Root, x: Root)
    requires t == TreeFrom(blocks, parents) && Ordered(t) && parents.Keys == blocks.Keys && head in blocks
    requires head == HeadOf(t, votes, justified.root, head)
    requires Targets(blocks, parents, head, safeSlot, fin, justified, Some(target))
    ensures from in t.slots && Descends(t, head, from) && |Between(t, head, from)| <= 3
    ensures forall y :: y in Between(t, head, from) ==> t.slots[y] > safeSlot
    ensures |Between(t, head, from)| == 3 || t.slots[from] <= safeSlot || parents[from] == ZERO
    ensures x in t.slots && Descends(t, from, x) && Descends(t, head, x)
    ensures forall y :: y in Between(t, from, x) ==> t.slots[y] >= fin && !Transition.AcceptedAfter(t.slots[y], fin)
    ensures t.slots[x] >= fin && (Transition.AcceptedAfter(t.slots[x], fin) || parents[x] == ZERO)
    ensures target == if t.slots[x] < justified.slot then justified else Checkpoint(x, t.slots[x])
    ensures justified.root in t.slots ==> Descends(t, head, target.root)
  {
    var f, y :| EndsOn(blocks, parents, head, safeSlot, fin, f, y) && Some(target) == TargetFor(blocks, y, justified);
    from, x := f.value, y.value;
    if justified.root in t.slots {
      GhostDescends(t, votes, justified.root);
    }
    LookedBack(blocks, parents, t, head, safeSlot, from);
    WalkedOnChain(blocks, parents, t, head, safeSlot, fin, from, x);
  }

  function SafeSlot(store: ForkChoiceStore): nat
    reads store
  {
    if store.safeTarget in store.dag.blocks then store.dag.blocks[store.safeTarget].block.slot else store.headSlot
  }
}

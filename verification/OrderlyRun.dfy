/** Runs of fork choice in which every block comes from a chain and after its parent: the
    justified block is known and decides the head. */
module OrderlyRun {
  import opened Containers
  import opened ForkTree
  import opened ForkTheorems
  import opened ForkPrune
  import opened ForkInsert
  import opened ForkChoice
  import opened ImportLink
  import opened ForkRun
  import opened Seal
  import Transition
  import Chain

  // -------------------------------------------------------------- runs of a chain

  /** The last block of a run, or genesis. */
  ghost function Tip(g: Chain.Setup, blocks: seq<Block>): Root {
    if blocks == [] then g.h.header(Chain.Start(g).header) else BlockRoot(g.h, blocks[|blocks| - 1])
  }

  /** Every block of a run names the one before it as its parent. */
  lemma ParentIsTip(g: Chain.Setup, blocks: seq<Block>, s: StateValue) returns (before: StateValue)
    requires Chain.Reached(g, blocks, s) && blocks != []
    ensures Chain.Reached(g, blocks[..|blocks| - 1], before)
    ensures Transition.StateTransition(g.h, before, blocks[|blocks| - 1]) == Ok(s)
    ensures blocks[|blocks| - 1].parentRoot == Tip(g, blocks[..|blocks| - 1]) && SoundHeaders(g.h)
  {
    var init, last := blocks[..|blocks| - 1], blocks[|blocks| - 1];
    before := Chain.ReachedBefore(g, blocks, s);
    Chain.RunSettles(g, init, before);
    Chain.AdvancedOnlySlot(g.h, before, last.slot);
  }

  ghost predicate CheckpointsSet(justified: Checkpoint, finalized: Checkpoint) {
    justified.root != ZERO && finalized.root != ZERO
  }

  lemma {:induction false} StepsKeepSet(c: Transition.Context, t: Transition.Tally, atts: seq<Attestation>)
    requires CheckpointsSet(t.justified, t.finalized) && Transition.Steps(c, t, atts).Ok?
    ensures CheckpointsSet(Transition.Steps(c, t, atts).value.justified, Transition.Steps(c, t, atts).value.finalized)
  {
    if atts != [] {
      StepsKeepSet(c, t, atts[..|atts| - 1]);
    }
  }

  /** From the first block on both checkpoints name blocks. */
  lemma {:induction false} CheckpointsNamed(g: Chain.Setup, blocks: seq<Block>, s: StateValue)
    requires Chain.Reached(g, blocks, s) && blocks != []
    ensures CheckpointsSet(s.justified, s.finalized)
  {
    var init, last := blocks[..|blocks| - 1], blocks[|blocks| - 1];
    var before := ParentIsTip(g, blocks, s);
    Chain.RunSettles(g, init, before);
    Chain.AdvancedOnlySlot(g.h, before, last.slot);
    if init != [] {
      CheckpointsNamed(g, init, before);
    }
    BlockKeepsSet(g.h, before, last, s);
  }

  lemma BlockKeepsSet(h: Hashes, before: StateValue, block: Block, s: StateValue)
    requires SoundHeaders(h) && Transition.StateTransition(h, before, block) == Ok(s)
    requires Transition.AdvancedTo(h, before, block.slot) == before.(slot := block.slot)
    requires before.header.slot == 0 || CheckpointsSet(before.justified, before.finalized)
    ensures CheckpointsSet(s.justified, s.finalized)
  {
    var staged := Transition.ProcessHeader(h, before.(slot := block.slot), HeaderOf(h, block)).value;
    assert CheckpointsSet(staged.justified, staged.finalized);
    var t := Transition.Steps(Transition.ContextOf(h, staged), Transition.StartTally(staged), block.attestations);
    assert t.Ok?;
    StepsKeepSet(Transition.ContextOf(h, staged), Transition.StartTally(staged), block.attestations);
  }

  /** Finality trails justification once it leaves slot 0. */
  ghost predicate Trails(justified: Checkpoint, finalized: Checkpoint) {
    finalized.slot == 0 || finalized.slot < justified.slot
  }

  lemma {:induction false} StepsTrail(c: Transition.Context, t: Transition.Tally, atts: seq<Attestation>)
    requires Trails(t.justified, t.finalized) && Transition.Steps(c, t, atts).Ok?
    ensures Trails(Transition.Steps(c, t, atts).value.justified, Transition.Steps(c, t, atts).value.finalized)
  {
    if atts != [] {
      StepsTrail(c, t, atts[..|atts| - 1]);
    }
  }

  lemma {:induction false} RunTrails(g: Chain.Setup, blocks: seq<Block>, s: StateValue)
    requires Chain.Reached(g, blocks, s)
    ensures Trails(s.justified, s.finalized)
  {
    if blocks == [] {
      Chain.ReachedStart(g, s);
    } else {
      var init, last := blocks[..|blocks| - 1], blocks[|blocks| - 1];
      var before := ParentIsTip(g, blocks, s);
      RunTrails(g, init, before);
      Chain.RunSettles(g, init, before);
      Chain.AdvancedOnlySlot(g.h, before, last.slot);
      var staged := Transition.ProcessHeader(g.h, before.(slot := last.slot), HeaderOf(g.h, last)).value;
      StepsTrail(Transition.ContextOf(g.h, staged), Transition.StartTally(staged), last.attestations);
    }
  }

  /** A block can finalize its grandparent at best: the newest two blocks of a run are never
      final in it. */
  lemma FinalityIsLate(g: Chain.Setup, blocks: seq<Block>, s: StateValue)
    requires Chain.Reached(g, blocks, s) && |blocks| >= 2
    ensures s.finalized.slot == 0 || s.finalized.slot < blocks[|blocks| - 2].slot
  {
    RunTrails(g, blocks, s);
    CheckpointsNamed(g, blocks, s);
    Chain.HistoryOfRun(g, blocks, s);
    var slot := s.justified.slot;
    if slot > blocks[|blocks| - 2].slot {
      Chain.NoBlockAt(g, blocks, slot);
    }
  }

  // ------------------------------------------------------------------ rooted stores

  /** Everything descends from `root`. Sealed. */
  ghost predicate AllDescend(t: Tree, root: Root) {
    forall k: int :: Opens(k) ==> forall r :: r in t.slots ==> Descends(t, r, root)
  }

  lemma DescendsRoot(t: Tree, root: Root, r: Root)
    requires AllDescend(t, root) && r in t.slots
    ensures Descends(t, r, root)
  {
    assert Opens(0);
  }

  /** A store of accepted blocks that all descend from `root`. */
  ghost predicate Rooted(h: Hashes, k: Known, root: Root) {
    && root in k.blocks && k.parents.Keys == k.blocks.Keys
    && HoldsAccepted(h, k.blocks, k.parents)
    && AllDescend(TreeOf(k), root)
  }

  lemma AcceptedOrdered(h: Hashes, blocks: BlockMap, parents: ParentMap)
    requires SoundHeaders(h) && HoldsAccepted(h, blocks, parents)
    ensures Ordered(TreeFrom(blocks, parents)) && ZERO !in blocks
  {
    var t := TreeFrom(blocks, parents);
    forall r | r in t.up
      ensures r in t.slots && t.up[r] in t.slots && t.slots[t.up[r]] < t.slots[r]
    {
      var p := t.up[r];
      assert h.header(HeaderOf(h, blocks[p].block)) == p == blocks[r].block.parentRoot;
    }
  }

  /** A known root stands for one header only. */
  lemma KnownSlot(h: Hashes, k: Known, r: Root, header: BlockHeader)
    requires SoundHeaders(h) && HoldsAccepted(h, k.blocks, k.parents) && r in k.blocks && h.header(header) == r
    ensures k.blocks[r].block.slot == header.slot
  {
    assert h.header(HeaderOf(h, k.blocks[r].block)) == r;
  }

  /** Nothing known is older than the root. */
  lemma RootIsOldest(h: Hashes, k: Known, root: Root, r: Root)
    requires SoundHeaders(h) && Rooted(h, k, root) && r in k.blocks
    ensures k.blocks[root].block.slot <= k.blocks[r].block.slot
    ensures r != root ==> r in TreeOf(k).up && TreeOf(k).up[r] == k.blocks[r].block.parentRoot
  {
    AcceptedOrdered(h, k.blocks, k.parents);
    DescendsRoot(TreeOf(k), root, r);
    DescendsRank(TreeOf(k), r, root);
  }

  lemma TipSlot(g: Chain.Setup, blocks: seq<Block>, s: StateValue, k: Known)
    requires Chain.Reached(g, blocks, s) && SoundHeaders(g.h) && HoldsAccepted(g.h, k.blocks, k.parents)
    requires Tip(g, blocks) in k.blocks
    ensures k.blocks[Tip(g, blocks)].block.slot == s.slot
    ensures forall i: nat :: i > s.slot ==> Chain.RootAtSlot(g, blocks, i) == ZERO
  {
    Chain.RunSettles(g, blocks, s);
    KnownSlot(g.h, k, Tip(g, blocks), s.header);
    forall i: nat | i > s.slot
      ensures Chain.RootAtSlot(g, blocks, i) == ZERO
    {
      Chain.RootFromHead(g, blocks, s, i);
    }
  }

  /** With the end of a run its whole path down to the root is known. */
  lemma {:induction false} PathKnown(g: Chain.Setup, blocks: seq<Block>, s: StateValue, k: Known, root: Root, i: nat)
    requires Chain.Reached(g, blocks, s) && SoundHeaders(g.h) && Rooted(g.h, k, root) && Tip(g, blocks) in k.blocks
    requires i >= k.blocks[root].block.slot && Chain.RootAtSlot(g, blocks, i) != ZERO
    ensures Chain.RootAtSlot(g, blocks, i) in k.blocks
    decreases |blocks|
  {
    TipSlot(g, blocks, s, k);
    if blocks != [] && blocks[|blocks| - 1].slot != i {
      var tip := Tip(g, blocks);
      var before := ParentIsTip(g, blocks, s);
      KnownSlot(g.h, k, tip, HeaderOf(g.h, blocks[|blocks| - 1]));
      RootIsOldest(g.h, k, root, tip);
      assert HeaderOf(g.h, k.blocks[tip].block) == HeaderOf(g.h, blocks[|blocks| - 1]);
      PathKnown(g, blocks[..|blocks| - 1], before, k, root, i);
    }
  }

  /** A checkpoint of a run whose end is known is itself known exactly when it is not
      older than the root. */
  lemma CheckpointKnown(g: Chain.Setup, blocks: seq<Block>, s: StateValue, k: Known, root: Root, c: Checkpoint)
    requires Chain.Reached(g, blocks, s) && SoundHeaders(g.h) && Rooted(g.h, k, root) && Tip(g, blocks) in k.blocks
    requires blocks != [] && c.root != ZERO && Transition.InHistory(s.history, c)
    ensures c.root in k.blocks <==> c.slot >= k.blocks[root].block.slot
    ensures c.root in k.blocks ==> k.blocks[c.root].block.slot == c.slot
  {
    Chain.HistoryOfRun(g, blocks, s);
    assert Chain.RootAtSlot(g, blocks, c.slot) == c.root;
    var header := Chain.RootHasSlot(g, blocks, c.slot);
    if c.slot >= k.blocks[root].block.slot {
      PathKnown(g, blocks, s, k, root, c.slot);
    }
    if c.root in k.blocks {
      KnownSlot(g.h, k, c.root, header);
      RootIsOldest(g.h, k, root, c.root);
    }
  }

  // ------------------------------------------------------------------ one arrival

  ghost predicate KeepsLinks(t: Tree, t': Tree) {
    forall x :: x in t.up ==> x in t'.up && t'.up[x] == t.up[x]
  }

  /** With more links, what descended still does. */
  lemma {:induction false} DescendsMore(t: Tree, t': Tree, r: Root, a: Root)
    requires Ordered(t) && Ordered(t') && Descends(t, r, a) && KeepsLinks(t, t')
    ensures Descends(t', r, a)
    decreases Rank(t, r)
  {
    if r != a {
      DescendsMore(t, t', t.up[r], a);
    }
  }

  ghost predicate Joins(h: Hashes, k: Known, signed: SignedBlock, k': Known) {
    var root := BlockRoot(h, signed.block);
    k'.blocks == k.blocks[root := signed] && k'.parents == k.parents[root := signed.block.parentRoot]
  }

  lemma JoinedHolds(h: Hashes, k: Known, signed: SignedBlock, k': Known)
    requires HoldsAccepted(h, k.blocks, k.parents) && OlderParent(h, signed.block) && Joins(h, k, signed, k')
    ensures HoldsAccepted(h, k'.blocks, k'.parents)
  {
  }

  /** A known root comes with the parent it has. */
  lemma SameParent(h: Hashes, k: Known, signed: SignedBlock)
    requires SoundHeaders(h) && HoldsAccepted(h, k.blocks, k.parents) && BlockRoot(h, signed.block) in k.blocks
    ensures k.blocks[BlockRoot(h, signed.block)].block.slot == signed.block.slot
    ensures k.blocks[BlockRoot(h, signed.block)].block.parentRoot == signed.block.parentRoot
  {
    var known := k.blocks[BlockRoot(h, signed.block)].block;
    assert h.header(HeaderOf(h, known)) == h.header(HeaderOf(h, signed.block));
    assert HeaderOf(h, known) == HeaderOf(h, signed.block);
  }

  lemma JoinedLink(h: Hashes, k: Known, signed: SignedBlock, k': Known, x: Root)
    requires SoundHeaders(h) && HoldsAccepted(h, k.blocks, k.parents) && ZERO !in k.blocks && Joins(h, k, signed, k')
    requires x in k.blocks && x in k.parents && k.parents[x] in k.blocks
    ensures k'.parents[x] == k.parents[x]
  {
    if x == BlockRoot(h, signed.block) {
      SameParent(h, k, signed);
    }
  }

  lemma JoinedLinks(h: Hashes, k: Known, signed: SignedBlock, k': Known)
    requires SoundHeaders(h) && HoldsAccepted(h, k.blocks, k.parents) && ZERO !in k.blocks && Joins(h, k, signed, k')
    ensures KeepsLinks(TreeOf(k), TreeOf(k'))
  {
    forall x | x in k.blocks && x in k.parents && k.parents[x] in k.blocks
      ensures k'.parents[x] == k.parents[x]
    {
      JoinedLink(h, k, signed, k', x);
    }
    LinksKept(k.blocks, k.parents, k'.blocks, k'.parents);
  }

  lemma LinksKept(blocks: BlockMap, parents: ParentMap, blocks': BlockMap, parents': ParentMap)
    requires blocks.Keys <= blocks'.Keys && parents.Keys <= parents'.Keys
    requires forall x :: x in blocks && x in parents && parents[x] in blocks ==> parents'[x] == parents[x]
    ensures KeepsLinks(TreeFrom(blocks, parents), TreeFrom(blocks', parents'))
  {
  }

  lemma JoinedDescends(t: Tree, t': Tree, root: Root, b: Root)
    requires Ordered(t) && Ordered(t') && KeepsLinks(t, t') && t'.slots.Keys == t.slots.Keys + {b}
    requires AllDescend(t, root) && b in t'.up && t'.up[b] in t.slots
    ensures AllDescend(t', root)
  {
    forall r | r in t.slots
      ensures Descends(t', r, root)
    {
      DescendsRoot(t, root, r);
      DescendsMore(t, t', r, root);
    }
  }

  lemma JoinedTip(k: Known, signed: SignedBlock, b: Root, k': Known)
    requires k'.blocks == k.blocks[b := signed] && k'.parents == k.parents[b := signed.block.parentRoot]
    requires signed.block.parentRoot in k.blocks
    ensures b in TreeOf(k').up && TreeOf(k').up[b] in TreeOf(k).slots
    ensures TreeOf(k').slots.Keys == TreeOf(k).slots.Keys + {b}
  {
  }

  /** A block that follows its parent keeps the store rooted. */
  lemma JoinedRooted(h: Hashes, k: Known, root: Root, signed: SignedBlock, k': Known)
    requires SoundHeaders(h) && Rooted(h, k, root) && OlderParent(h, signed.block)
    requires signed.block.parentRoot in k.blocks && Joins(h, k, signed, k')
    ensures Rooted(h, k', root)
  {
    JoinedHolds(h, k, signed, k');
    AcceptedOrdered(h, k.blocks, k.parents);
    AcceptedOrdered(h, k'.blocks, k'.parents);
    JoinedLinks(h, k, signed, k');
    JoinedTip(k, signed, BlockRoot(h, signed.block), k');
    JoinedDescends(TreeOf(k), TreeOf(k'), root, BlockRoot(h, signed.block));
  }

  /** It cannot repeat a block whose parent was forgotten. */
  lemma FollowsLinks(h: Hashes, k: Known, root: Root, e: Event)
    requires SoundHeaders(h) && Rooted(h, k, root)
    requires e.Arrives? ==> e.signed.block.parentRoot in k.blocks && OlderParent(h, e.signed.block)
    ensures Links(h, k, e)
  {
    if e.Arrives? {
      var b, p := BlockRoot(h, e.signed.block), e.signed.block.parentRoot;
      AcceptedOrdered(h, k.blocks, k.parents);
      ParentOlder(h, k, e.signed);
      RootIsOldest(h, k, root, p);
      if b in k.blocks {
        RootIsOldest(h, k, root, b);
        SameParent(h, k, e.signed);
      }
    }
  }

  lemma ParentOlder(h: Hashes, k: Known, signed: SignedBlock)
    requires HoldsAccepted(h, k.blocks, k.parents) && OlderParent(h, signed.block) && signed.block.parentRoot in k.blocks
    ensures k.blocks[signed.block.parentRoot].block.slot < signed.block.slot
  {
    var p := signed.block.parentRoot;
    assert h.header(HeaderOf(h, k.blocks[p].block)) == p;
  }

  /** The blocks and parents that a prune to `f` leaves. */
  ghost predicate CutTo(k: Known, f: Root, k': Known) {
    var t := TreeOf(k);
    && k'.blocks.Keys == k'.parents.Keys == Kept(t, f)
    && (forall r :: r in k'.blocks ==>
          k'.blocks[r] == k.blocks[r] && k'.parents[r] == if r != f && r in t.up then t.up[r] else ZERO)
  }

  lemma CutUpAt(k: Known, f: Root, k': Known, r: Root)
    requires Ordered(TreeOf(k)) && ZERO !in k.blocks && f in k.blocks && CutTo(k, f, k')
    ensures var up, up' := TreeOf(k').up, PrunedTree(TreeOf(k), f).up;
            (r in up <==> r in up') && (r in up ==> up[r] == up'[r])
  {
    var t := TreeOf(k);
    if r in Kept(t, f) && r in t.up && r != f {
      assert Descends(t, t.up[r], f) && t.up[r] in Kept(t, f);
    }
  }

  lemma CutUp(k: Known, f: Root, k': Known)
    requires Ordered(TreeOf(k)) && ZERO !in k.blocks && f in k.blocks && CutTo(k, f, k')
    ensures TreeOf(k').up == PrunedTree(TreeOf(k), f).up
  {
    var up, up' := TreeOf(k').up, PrunedTree(TreeOf(k), f).up;
    forall r
      ensures (r in up <==> r in up') && (r in up ==> up[r] == up'[r])
    {
      CutUpAt(k, f, k', r);
    }
  }

  lemma CutSlots(k: Known, f: Root, k': Known)
    requires CutTo(k, f, k')
    ensures TreeOf(k').slots == PrunedTree(TreeOf(k), f).slots
  {
  }

  lemma CutTree(k: Known, f: Root, k': Known)
    requires Ordered(TreeOf(k)) && ZERO !in k.blocks && f in k.blocks && CutTo(k, f, k')
    ensures TreeOf(k') == PrunedTree(TreeOf(k), f)
  {
    CutSlots(k, f, k');
    CutUp(k, f, k');
  }

  lemma CutRooted(h: Hashes, k: Known, f: Root, k': Known)
    requires SoundHeaders(h) && HoldsAccepted(h, k.blocks, k.parents) && f in k.blocks && CutTo(k, f, k')
    ensures Rooted(h, k', f)
  {
    AcceptedOrdered(h, k.blocks, k.parents);
    CutTree(k, f, k');
    forall r | r in k'.blocks
      ensures Descends(TreeOf(k'), r, f)
    {
      PrunedDescends(TreeOf(k), f, r, f);
    }
  }

  // ------------------------------------------------------------------- one event

  /** The run that ends with the block leads to the post-state. */
  ghost predicate EndsRun(g: Chain.Setup, blocks: seq<Block>, signed: SignedBlock, post: StateValue) {
    blocks != [] && blocks[|blocks| - 1] == signed.block && Chain.Reached(g, blocks, post)
  }

  /** A block comes from a chain and after its parent. */
  ghost predicate Follows(g: Chain.Setup, k: Known, e: Event) {
    e.Arrives? ==> e.signed.block.parentRoot in k.blocks && exists blocks :: EndsRun(g, blocks, e.signed, e.post)
  }

  lemma FollowsAccepted(g: Chain.Setup, k: Known, e: Event)
    requires Follows(g, k, e) && e.Arrives?
    ensures Accepted(g.h, e) && SoundHeaders(g.h) && OlderParent(g.h, e.signed.block)
  {
    var blocks :| EndsRun(g, blocks, e.signed, e.post);
    var before := ParentIsTip(g, blocks, e.post);
    AcceptedOlderParent(g.h, before, e.signed.block);
  }

  ghost predicate PrunesAt(h: Hashes, k: Known, e: Event) {
    e.Arrives? && Prunes(k.blocks[BlockRoot(h, e.signed.block) := e.signed], k.finalized, e.post.finalized)
  }

  ghost function RootAfter(h: Hashes, k: Known, root: Root, e: Event): Root {
    if PrunesAt(h, k, e) then e.post.finalized.root else root
  }

  lemma SameRooted(h: Hashes, k: Known, root: Root, k': Known)
    requires Rooted(h, k, root) && k'.blocks == k.blocks && k'.parents == k.parents
    ensures Rooted(h, k', root)
  {
  }

  lemma VotesKeepBlocks(h: Hashes, k: Known, e: Event)
    requires !e.Arrives?
    ensures AfterEvent(h, k, e).blocks == k.blocks && AfterEvent(h, k, e).parents == k.parents
    ensures AfterEvent(h, k, e).justified == k.justified
  {
  }

  /** The store before checkpoints are looked at. */
  lemma AbsorbedRooted(g: Chain.Setup, k: Known, root: Root, e: Event)
    requires Rooted(g.h, k, root) && Follows(g, k, e) && e.Arrives?
    ensures var k' := Absorbed(g.h, k, e.signed, e.post);
            && SoundHeaders(g.h) && Rooted(g.h, k', root) && Joins(g.h, k, e.signed, k')
            && k'.blocks[root].block.slot == k.blocks[root].block.slot
  {
    FollowsAccepted(g, k, e);
    JoinedRooted(g.h, k, root, e.signed, Absorbed(g.h, k, e.signed, e.post));
    if BlockRoot(g.h, e.signed.block) in k.blocks {
      SameParent(g.h, k, e.signed);
    }
  }

  lemma StepRooted(g: Chain.Setup, k: Known, root: Root, e: Event)
    requires SoundHeaders(g.h) && Rooted(g.h, k, root) && Follows(g, k, e)
    ensures Rooted(g.h, AfterEvent(g.h, k, e), RootAfter(g.h, k, root, e))
  {
    var after := AfterEvent(g.h, k, e);
    if !e.Arrives? {
      VotesKeepBlocks(g.h, k, e);
      SameRooted(g.h, k, root, after);
    } else {
      var grown := Absorbed(g.h, k, e.signed, e.post);
      AbsorbedRooted(g, k, root, e);
      ArrivalGrows(g.h, k, e);
      if PrunesAt(g.h, k, e) {
        ArrivalCuts(g.h, k, e);
        CutRooted(g.h, grown, e.post.finalized.root, after);
      } else {
        SameRooted(g.h, grown, root, after);
      }
    }
  }

  /** A newer justified slot below the root of the store. */
  ghost predicate Gap(h: Hashes, k: Known, root: Root, e: Event) {
    && e.Arrives? && !PrunesAt(h, k, e) && root in k.blocks
    && k.justified.slot < e.post.justified.slot < k.blocks[root].block.slot
  }

  lemma ArrivalJustified(h: Hashes, k: Known, e: Event)
    requires e.Arrives?
    ensures var after, justified := AfterEvent(h, k, e), Newer(k.justified, e.post.justified);
            if PrunesAt(h, k, e) then
              after.justified == Settled(after.blocks, justified, e.post.finalized)
            else after.justified == justified
  {
  }

  /** Checkpoints of the post-state are known in the store that has taken the block in,
      exactly from the root on. */
  lemma ArrivalCheckpoints(g: Chain.Setup, k: Known, root: Root, e: Event)
    requires Rooted(g.h, k, root) && Follows(g, k, e) && e.Arrives?
    ensures var k' := Absorbed(g.h, k, e.signed, e.post);
            && (e.post.justified.root in k'.blocks <==> e.post.justified.slot >= k'.blocks[root].block.slot)
            && (e.post.justified.root in k'.blocks ==> k'.blocks[e.post.justified.root].block.slot == e.post.justified.slot)
            && (e.post.finalized.root in k'.blocks ==> k'.blocks[e.post.finalized.root].block.slot == e.post.finalized.slot)
  {
    var k' := Absorbed(g.h, k, e.signed, e.post);
    AbsorbedRooted(g, k, root, e);
    var blocks :| EndsRun(g, blocks, e.signed, e.post);
    CheckpointsNamed(g, blocks, e.post);
    Chain.HistoryOfRun(g, blocks, e.post);
    CheckpointKnown(g, blocks, e.post, k', root, e.post.justified);
    CheckpointKnown(g, blocks, e.post, k', root, e.post.finalized);
  }

  lemma JustifiedGrown(g: Chain.Setup, k: Known, root: Root, e: Event)
    requires Rooted(g.h, k, root) && Follows(g, k, e) && k.justified.root in k.blocks && e.Arrives?
    ensures var grown := Absorbed(g.h, k, e.signed, e.post).blocks;
            Newer(k.justified, e.post.justified).root in grown <==>
            !(k.justified.slot < e.post.justified.slot < k.blocks[root].block.slot)
  {
    AbsorbedRooted(g, k, root, e);
    ArrivalCheckpoints(g, k, root, e);
  }

  lemma PruneJustifies(h: Hashes, k: Known, e: Event)
    requires PrunesAt(h, k, e)
    ensures AfterEvent(h, k, e).justified.root in AfterEvent(h, k, e).blocks
  {
    FinalizedForgotten(h, k, e);
    ArrivalJustified(h, k, e);
  }

  /** The justified block stays known exactly when the event opens no gap. */
  lemma JustifiedStep(g: Chain.Setup, k: Known, root: Root, e: Event)
    requires SoundHeaders(g.h) && Rooted(g.h, k, root) && Follows(g, k, e) && k.justified.root in k.blocks
    ensures var after := AfterEvent(g.h, k, e);
            after.justified.root in after.blocks <==> !Gap(g.h, k, root, e)
  {
    if !e.Arrives? {
      VotesKeepBlocks(g.h, k, e);
    } else if PrunesAt(g.h, k, e) {
      PruneJustifies(g.h, k, e);
    } else {
      JustifiedGrown(g, k, root, e);
      ArrivalJustified(g.h, k, e);
      ArrivalGrows(g.h, k, e);
    }
  }

  /** The justified checkpoint is a known block at its own slot. */
  ghost predicate Covered(k: Known) {
    k.justified.root in k.blocks && k.justified.slot == k.blocks[k.justified.root].block.slot
  }

  /** A checkpoint, if it names a known block, has its slot. */
  ghost predicate Placed(blocks: BlockMap, c: Checkpoint) {
    c.root in blocks ==> blocks[c.root].block.slot == c.slot
  }

  /** Kept blocks are as they were, and a dropped justified block is replaced by the
      finalized one. */
  lemma CutCovers(grown: BlockMap, after: Known, justified: Checkpoint, finalized: Checkpoint)
    requires Placed(grown, justified) && Placed(grown, finalized) && finalized.root in after.blocks
    requires forall r :: r in after.blocks ==> r in grown && after.blocks[r] == grown[r]
    requires after.justified == Settled(after.blocks, justified, finalized)
    ensures Covered(after)
  {
  }

  lemma NewerPlaced(g: Chain.Setup, k: Known, root: Root, e: Event)
    requires SoundHeaders(g.h) && Rooted(g.h, k, root) && Follows(g, k, e) && Covered(k) && e.Arrives?
    ensures var grown, justified := Absorbed(g.h, k, e.signed, e.post).blocks, Newer(k.justified, e.post.justified);
            && justified.root in grown && Placed(grown, justified) && Placed(grown, e.post.finalized)
  {
    RootIsOldest(g.h, k, root, k.justified.root);
    AbsorbedRooted(g, k, root, e);
    ArrivalCheckpoints(g, k, root, e);
    AbsorbedCovers(g, k, e);
  }

  /** From then on no event can open a gap. */
  lemma CoveredStep(g: Chain.Setup, k: Known, root: Root, e: Event)
    requires SoundHeaders(g.h) && Rooted(g.h, k, root) && Follows(g, k, e) && Covered(k)
    ensures Covered(AfterEvent(g.h, k, e)) && !Gap(g.h, k, root, e)
  {
    RootIsOldest(g.h, k, root, k.justified.root);
    var after := AfterEvent(g.h, k, e);
    if !e.Arrives? {
      VotesKeepBlocks(g.h, k, e);
    } else {
      var grown, justified := Absorbed(g.h, k, e.signed, e.post).blocks, Newer(k.justified, e.post.justified);
      NewerPlaced(g, k, root, e);
      ArrivalJustified(g.h, k, e);
      if PrunesAt(g.h, k, e) {
        FinalizedForgotten(g.h, k, e);
        ArrivalCuts(g.h, k, e);
        CutCovers(grown, after, justified, e.post.finalized);
      } else {
        ArrivalGrows(g.h, k, e);
      }
    }
  }

  lemma AbsorbedCovers(g: Chain.Setup, k: Known, e: Event)
    requires SoundHeaders(g.h) && HoldsAccepted(g.h, k.blocks, k.parents) && Covered(k) && e.Arrives?
    ensures Covered(Absorbed(g.h, k, e.signed, e.post))
  {
    if BlockRoot(g.h, e.signed.block) in k.blocks {
      SameParent(g.h, k, e.signed);
    }
  }

  // --------------------------------------------------------------------- all runs

  /** Every block of the run comes from a chain and after its parent. */
  ghost predicate Orderly(g: Chain.Setup, k: Known, events: seq<Event>) {
    forall i :: 0 <= i < |events| ==> Follows(g, AfterEvents(g.h, k, events[..i]), events[i])
  }

  ghost function RootAfterAll(h: Hashes, k: Known, root: Root, events: seq<Event>): Root {
    if events == [] then root
    else
      var init := events[..|events| - 1];
      RootAfter(h, AfterEvents(h, k, init), RootAfterAll(h, k, root, init), events[|events| - 1])
  }

  lemma OrderlyPrefix(g: Chain.Setup, k: Known, events: seq<Event>)
    requires Orderly(g, k, events) && events != []
    ensures Orderly(g, k, events[..|events| - 1])
    ensures Follows(g, AfterEvents(g.h, k, events[..|events| - 1]), events[|events| - 1])
  {
    var init := events[..|events| - 1];
    forall i | 0 <= i < |init|
      ensures Follows(g, AfterEvents(g.h, k, init[..i]), init[i])
    {
      assert init[..i] == events[..i];
    }
  }

  lemma {:induction false} RunRooted(g: Chain.Setup, k: Known, root: Root, events: seq<Event>)
    requires SoundHeaders(g.h) && Rooted(g.h, k, root) && Orderly(g, k, events)
    ensures Rooted(g.h, AfterEvents(g.h, k, events), RootAfterAll(g.h, k, root, events))
  {
    if events != [] {
      var init, last := events[..|events| - 1], events[|events| - 1];
      OrderlyPrefix(g, k, events);
      RunRooted(g, k, root, init);
      StepRooted(g, AfterEvents(g.h, k, init), RootAfterAll(g.h, k, root, init), last);
    }
  }

  ghost predicate JustifiedKnown(k: Known) {
    k.justified.root in k.blocks
  }

  /** The event after the first `i` opens a gap. */
  ghost predicate GapAt(h: Hashes, k: Known, root: Root, events: seq<Event>, i: nat) {
    i < |events| && Gap(h, AfterEvents(h, k, events[..i]), RootAfterAll(h, k, root, events[..i]), events[i])
  }

  lemma KnownNext(g: Chain.Setup, k: Known, root: Root, events: seq<Event>, i: nat)
    requires SoundHeaders(g.h) && Rooted(g.h, k, root) && Orderly(g, k, events) && i < |events|
    requires JustifiedKnown(AfterEvents(g.h, k, events[..i]))
    ensures JustifiedKnown(AfterEvents(g.h, k, events[..i + 1])) <==> !GapAt(g.h, k, root, events, i)
  {
    OrderlyTo(g, k, events, i);
    RunRooted(g, k, root, events[..i]);
    NextEvent(g.h, k, events, i);
    JustifiedStep(g, AfterEvents(g.h, k, events[..i]), RootAfterAll(g.h, k, root, events[..i]), events[i]);
  }

  lemma {:induction false} KnownWithoutGaps(g: Chain.Setup, k: Known, root: Root, events: seq<Event>, n: nat)
    requires SoundHeaders(g.h) && Rooted(g.h, k, root) && Orderly(g, k, events) && JustifiedKnown(k) && n <= |events|
    requires forall i :: 0 <= i < n ==> !GapAt(g.h, k, root, events, i)
    ensures JustifiedKnown(AfterEvents(g.h, k, events[..n]))
  {
    if n > 0 {
      KnownWithoutGaps(g, k, root, events, n - 1);
      KnownNext(g, k, root, events, n - 1);
    }
  }

  /** The justified block is known all along an orderly run exactly when no event offers a
      newer justified slot below the root of the store. */
  lemma JustifiedOfRun(g: Chain.Setup, k: Known, root: Root, events: seq<Event>)
    requires SoundHeaders(g.h) && Rooted(g.h, k, root) && Orderly(g, k, events) && JustifiedKnown(k)
    ensures (forall i :: 0 <= i <= |events| ==> JustifiedKnown(AfterEvents(g.h, k, events[..i]))) <==>
            (forall i :: 0 <= i < |events| ==> !GapAt(g.h, k, root, events, i))
  {
    if forall i :: 0 <= i < |events| ==> !GapAt(g.h, k, root, events, i) {
      forall i | 0 <= i <= |events|
        ensures JustifiedKnown(AfterEvents(g.h, k, events[..i]))
      {
        KnownWithoutGaps(g, k, root, events, i);
      }
    } else {
      var i :| 0 <= i < |events| && GapAt(g.h, k, root, events, i);
      if JustifiedKnown(AfterEvents(g.h, k, events[..i])) {
        KnownNext(g, k, root, events, i);
        assert !JustifiedKnown(AfterEvents(g.h, k, events[..i + 1]));
      }
    }
  }

  /** From a store whose justified checkpoint is a known block at its slot, it stays one. */
  lemma {:induction false} CoveredRun(g: Chain.Setup, k: Known, root: Root, events: seq<Event>)
    requires SoundHeaders(g.h) && Rooted(g.h, k, root) && Orderly(g, k, events) && Covered(k)
    ensures Covered(AfterEvents(g.h, k, events))
  {
    if events != [] {
      var init, last := events[..|events| - 1], events[|events| - 1];
      OrderlyPrefix(g, k, events);
      CoveredRun(g, k, root, init);
      RunRooted(g, k, root, init);
      CoveredStep(g, AfterEvents(g.h, k, init), RootAfterAll(g.h, k, root, init), last);
    }
  }

  lemma OrderlyLinks(g: Chain.Setup, k: Known, root: Root, events: seq<Event>)
    requires SoundHeaders(g.h) && Rooted(g.h, k, root) && Orderly(g, k, events)
    ensures AllLink(g.h, k, events) && forall i :: 0 <= i < |events| ==> Accepted(g.h, events[i])
  {
    forall i | 0 <= i < |events|
      ensures Links(g.h, AfterEvents(g.h, k, events[..i]), events[i]) && Accepted(g.h, events[i])
    {
      var before := AfterEvents(g.h, k, events[..i]);
      assert Follows(g, before, events[i]);
      OrderlyTo(g, k, events, i);
      RunRooted(g, k, root, events[..i]);
      if events[i].Arrives? {
        FollowsAccepted(g, before, events[i]);
      }
      FollowsLinks(g.h, before, RootAfterAll(g.h, k, root, events[..i]), events[i]);
    }
  }

  lemma OrderlyTo(g: Chain.Setup, k: Known, events: seq<Event>, n: nat)
    requires Orderly(g, k, events) && n <= |events|
    ensures Orderly(g, k, events[..n])
  {
    forall i | 0 <= i < n
      ensures Follows(g, AfterEvents(g.h, k, events[..n][..i]), events[..n][i])
    {
      assert events[..n][..i] == events[..i];
    }
  }

  // ---------------------------------------------------------------- from genesis

  /** The anchor is the genesis block of the chain. */
  ghost predicate IsGenesis(g: Chain.Setup, anchor: SignedBlock) {
    HeaderOf(g.h, anchor.block) == Chain.Start(g).header
  }

  /** Any anchor gives a store rooted in it. */
  lemma AnchorRooted(h: Hashes, anchor: SignedBlock, state: StateValue)
    requires OlderParent(h, anchor.block)
    ensures var k, root := AnchorKnown(h, anchor, state), BlockRoot(h, anchor.block);
            Rooted(h, k, root) && JustifiedKnown(k) && (Covered(k) <==> state.justified.slot == anchor.block.slot)
  {
  }

  lemma GenesisRooted(g: Chain.Setup, anchor: SignedBlock)
    requires SoundHeaders(g.h) && IsGenesis(g, anchor)
    ensures var k := AnchorKnown(g.h, anchor, Chain.Start(g));
            Rooted(g.h, k, BlockRoot(g.h, anchor.block)) && Covered(k) && OlderParent(g.h, anchor.block)
  {
    AnchorRooted(g.h, anchor, Chain.Start(g));
  }

  /** From genesis, in an orderly run, the justified block is always known: the head is the
      one the naive rule finds from it and never just the one it was before. */
  method FromGenesis(g: Chain.Setup, anchor: SignedBlock, state: StateValue, events: seq<Event>) returns (store: ForkChoiceStore)
    requires SoundHeaders(g.h) && IsGenesis(g, anchor) && state == Chain.Start(g)
    requires Orderly(g, AnchorKnown(g.h, anchor, state), events)
    ensures fresh(store) && store.Valid() && store.validatorCount == |g.validators|
    ensures StoreKnown(store) == AfterEvents(g.h, AnchorKnown(g.h, anchor, state), events)
    ensures store.latestJustified.root in store.dag.blocks
    ensures store.dag.blocks[store.latestJustified.root].block.slot == store.latestJustified.slot
    ensures store.head == GhostHead(store.tree, store.latestVotes, store.latestJustified.root)
  {
    ghost var k := AnchorKnown(g.h, anchor, state);
    ghost var root := BlockRoot(g.h, anchor.block);
    GenesisRooted(g, anchor);
    OrderlyLinks(g, k, root, events);
    CoveredRun(g, k, root, events);
    var r := FromAnchor(g.h, anchor, state, events);
    store := r.value;
    SoundDescribes(store.tree, store.dag, store.latestVotes, store.latestNewVotes);
  }
}

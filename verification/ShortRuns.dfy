/** Runs of fork choice over short chains: the two things that can go wrong do. */
module ShortRuns {
  import opened Containers
  import opened ForkTree
  import opened ForkPrune
  import opened ForkInsert
  import opened ForkChoice
  import opened ImportLink
  import opened ForkRun
  import opened OrderlyRun
  import opened Seal
  import Chain
  import ShortChains

  /** A block as it arrives, with nothing in it that fork choice counts. */
  ghost function Bare(block: Block): SignedBlock {
    var none := Checkpoint(ZERO, 0);
    SignedBlock(block, Attestation(BitList([], 0), AttestationData(0, none, none, none)), [], [])
  }

  /** The block is the last one of a run that leads to the post-state. Sealed. */
  ghost predicate ComesFrom(g: Chain.Setup, e: Event)
    requires e.Arrives?
  {
    forall k: int :: Opens(k) ==> Accepted(g.h, e) && exists blocks :: EndsRun(g, blocks, e.signed, e.post)
  }

  ghost predicate OnChain(g: Chain.Setup, e: Event) {
    e.Arrives? && ComesFrom(g, e)
  }

  ghost predicate AllOnChain(g: Chain.Setup, events: seq<Event>) {
    forall i :: 0 <= i < |events| ==> OnChain(g, events[i])
  }

  ghost function Arrival(blocks: seq<Block>, post: StateValue): Event
    requires blocks != []
  {
    Arrives(Bare(blocks[|blocks| - 1]), post)
  }

  lemma ArrivalOnChain(g: Chain.Setup, blocks: seq<Block>, post: StateValue)
    requires Chain.Reached(g, blocks, post) && blocks != []
    ensures OnChain(g, Arrival(blocks, post)) && Accepted(g.h, Arrival(blocks, post)) && SoundHeaders(g.h)
    ensures blocks[|blocks| - 1].parentRoot == Tip(g, blocks[..|blocks| - 1])
    ensures OlderParent(g.h, blocks[|blocks| - 1])
  {
    assert EndsRun(g, blocks, Bare(blocks[|blocks| - 1]), post);
    var before := ParentIsTip(g, blocks, post);
    AcceptedOlderParent(g.h, before, blocks[|blocks| - 1]);
  }

  // --------------------------------------------------------------------------- a gap

  /** From this anchor a single block of the chain leaves the justified block unknown. */
  ghost predicate OpensGap(g: Chain.Setup, anchor: Event, e: Event) {
    && OnChain(g, anchor)
    && var k, root := AnchorKnown(g.h, anchor.signed, anchor.post), BlockRoot(g.h, anchor.signed.block);
    && Rooted(g.h, k, root) && JustifiedKnown(k)
    && Orderly(g, k, [e]) && Gap(g.h, k, root, e) && !JustifiedKnown(AfterEvents(g.h, k, [e]))
  }

  lemma OneEvent(g: Chain.Setup, k: Known, root: Root, e: Event)
    requires SoundHeaders(g.h) && Rooted(g.h, k, root) && JustifiedKnown(k) && Follows(g, k, e) && Gap(g.h, k, root, e)
    ensures Orderly(g, k, [e]) && !JustifiedKnown(AfterEvents(g.h, k, [e]))
  {
    assert [e][..0] == [];
    JustifiedStep(g, k, root, e);
  }

  /** The next block of the anchor's run follows. */
  lemma NextFollows(g: Chain.Setup, blocks: seq<Block>, s: StateValue, block: Block, post: StateValue)
    requires blocks != [] && Chain.Reached(g, blocks + [block], post)
    ensures Follows(g, AnchorKnown(g.h, Bare(blocks[|blocks| - 1]), s), Arrival(blocks + [block], post))
  {
    assert (blocks + [block])[..|blocks|] == blocks;
    assert EndsRun(g, blocks + [block], Bare(block), post);
    var before := ParentIsTip(g, blocks + [block], post);
  }

  lemma GapAfter(g: Chain.Setup, blocks: seq<Block>, s: StateValue, block: Block, post: StateValue)
    requires Chain.Reached(g, blocks, s) && blocks != [] && Chain.Reached(g, blocks + [block], post)
    requires s.justified.slot < post.justified.slot < blocks[|blocks| - 1].slot && post.finalized.slot <= s.finalized.slot
    ensures OpensGap(g, Arrival(blocks, s), Arrival(blocks + [block], post))
  {
    var anchor, e := Bare(blocks[|blocks| - 1]), Arrival(blocks + [block], post);
    ArrivalOnChain(g, blocks, s);
    AnchorRooted(g.h, anchor, s);
    NextFollows(g, blocks, s, block, post);
    OneEvent(g, AnchorKnown(g.h, anchor, s), BlockRoot(g.h, anchor.block), e);
  }

  /** Started at slot 3 and not yet justified there, a store takes in a block at slot 4 whose
      votes justify slot 1: the run is orderly, and yet the justified block is unknown. */
  lemma GapOpens(g: Chain.Setup, bits: BitList) returns (anchor: Event, e: Event)
    requires Chain.SoundSetup(g) && |g.validators| > 0 && ShortChains.Enough(bits, |g.validators|)
    ensures OpensGap(g, anchor, e)
  {
    var blocks, s, block, post := ShortChains.LateJustification(g, bits);
    anchor, e := Arrival(blocks, s), Arrival(blocks + [block], post);
    GapAfter(g, blocks, s, block, post);
  }

  // ---------------------------------------------------------------- a forgotten parent

  /** New blocks on an anchor, and then the anchor again. */
  lemma AgainLinks(h: Hashes, anchor: Event, events: seq<Event>)
    requires anchor.Arrives? && SeenOnce(h, anchor.signed, events)
    requires anchor.signed.block.parentRoot != BlockRoot(h, anchor.signed.block)
    requires forall i :: 0 <= i < |events| && events[i].Arrives? ==>
               BlockRoot(h, events[i].signed.block) != anchor.signed.block.parentRoot
    ensures AllLink(h, AnchorKnown(h, anchor.signed, anchor.post), events + [anchor])
  {
    var all, start := events + [anchor], AnchorKnown(h, anchor.signed, anchor.post);
    SeenOnceLinks(h, anchor.signed, anchor.post, events);
    forall i | 0 <= i < |all|
      ensures Links(h, AfterEvents(h, start, all[..i]), all[i])
    {
      assert all[..i] == events[..i];
      if i == |events| {
        assert events[..i] == events;
        NeverArrived(h, start, events, anchor.signed.block.parentRoot);
      }
    }
  }

  lemma SlotsTellRoots(h: Hashes, a: Block, b: Block)
    requires SoundHeaders(h) && a.slot != b.slot
    ensures BlockRoot(h, a) != BlockRoot(h, b)
  {
    assert HeaderOf(h, a).slot != HeaderOf(h, b).slot;
  }

  /** Blocks at rising slots are all different, and none is the anchor's parent. */
  lemma RisingSeenOnce(h: Hashes, anchor: Event, events: seq<Event>)
    requires SoundHeaders(h) && anchor.Arrives? && OlderParent(h, anchor.signed.block)
    requires forall i :: 0 <= i < |events| ==> events[i].Arrives? && anchor.signed.block.slot < events[i].signed.block.slot
    requires forall i, j :: 0 <= i < j < |events| ==> events[i].signed.block.slot < events[j].signed.block.slot
    ensures SeenOnce(h, anchor.signed, events) && anchor.signed.block.parentRoot != BlockRoot(h, anchor.signed.block)
    ensures forall i :: 0 <= i < |events| ==> BlockRoot(h, events[i].signed.block) != anchor.signed.block.parentRoot
  {
    forall i | 0 <= i < |events|
      ensures BlockRoot(h, events[i].signed.block) != BlockRoot(h, anchor.signed.block)
      ensures BlockRoot(h, events[i].signed.block) != anchor.signed.block.parentRoot
    {
      SlotsTellRoots(h, events[i].signed.block, anchor.signed.block);
    }
    forall i, j | 0 <= i < j < |events|
      ensures BlockRoot(h, events[i].signed.block) != BlockRoot(h, events[j].signed.block)
    {
      SlotsTellRoots(h, events[i].signed.block, events[j].signed.block);
    }
  }

  /** All of these come from a chain, and the store handles all of `events` from the anchor
      on; but not the first of them once more. */
  ghost predicate LosesParent(g: Chain.Setup, anchor: Event, events: seq<Event>) {
    && OnChain(g, anchor) && events != [] && AllOnChain(g, events)
    && FailsAgain(g.h, AnchorKnown(g.h, anchor.signed, anchor.post), events, events[0])
  }

  /** The events can be handled, but not this one after them. */
  ghost predicate FailsAgain(h: Hashes, k: Known, events: seq<Event>, e: Event) {
    AllLink(h, k, events) && !Links(h, AfterEvents(h, k, events), e)
  }

  /** Four blocks of a chain, one on the other, of which the last finalizes the second. */
  ghost predicate FinalizesChild(h: Hashes, anchor: Event, child: Event, grand: Event, great: Event) {
    && anchor.Arrives? && child.Arrives? && grand.Arrives? && great.Arrives?
    && OlderParent(h, anchor.signed.block)
    && child.signed.block.parentRoot == BlockRoot(h, anchor.signed.block)
    && grand.signed.block.parentRoot == BlockRoot(h, child.signed.block)
    && great.signed.block.parentRoot == BlockRoot(h, grand.signed.block)
    && anchor.signed.block.slot < child.signed.block.slot < grand.signed.block.slot < great.signed.block.slot
    && anchor.post.finalized.slot == child.post.finalized.slot == grand.post.finalized.slot == 0
    && great.post.finalized == Checkpoint(BlockRoot(h, child.signed.block), child.signed.block.slot)
  }

  lemma ChildReturns(h: Hashes, anchor: Event, child: Event, grand: Event, great: Event)
    requires SoundHeaders(h) && FinalizesChild(h, anchor, child, grand, great)
    ensures FailsAgain(h, AnchorKnown(h, anchor.signed, anchor.post), [child, grand, great, anchor], child)
  {
    var events := [child, grand, great];
    SlotsTellRoots(h, anchor.signed.block, child.signed.block);
    RisingSeenOnce(h, anchor, events);
    AgainLinks(h, anchor, events);
    assert events + [anchor] == [child, grand, great, anchor];
    ForgottenParentReturns(h, anchor.signed, anchor.post, child, grand, great, anchor);
  }

  lemma FourOnChain(g: Chain.Setup, a: Block, b: Block, c: Block, d: Block,
                    one: StateValue, two: StateValue, three: StateValue, four: StateValue)
    requires Chain.Reached(g, [a], one) && Chain.Reached(g, [a, b], two) && Chain.Reached(g, [a, b, c], three)
    requires Chain.Reached(g, [a, b, c, d], four) && a.slot < b.slot < c.slot < d.slot
    requires one.finalized.slot == two.finalized.slot == three.finalized.slot == 0
    requires four.finalized == Checkpoint(BlockRoot(g.h, b), b.slot)
    ensures OnChain(g, Arrival([a], one)) && OnChain(g, Arrival([a, b], two)) && OnChain(g, Arrival([a, b, c], three))
    ensures OnChain(g, Arrival([a, b, c, d], four)) && SoundHeaders(g.h)
    ensures FinalizesChild(g.h, Arrival([a], one), Arrival([a, b], two), Arrival([a, b, c], three), Arrival([a, b, c, d], four))
  {
    assert [a, b][..1] == [a] && [a, b, c][..2] == [a, b] && [a, b, c, d][..3] == [a, b, c];
    ArrivalOnChain(g, [a], one);
    ArrivalOnChain(g, [a, b], two);
    ArrivalOnChain(g, [a, b, c], three);
    ArrivalOnChain(g, [a, b, c, d], four);
  }

  /** Blocks at slots 1 to 4, the first as the anchor and the last finalizing slot 2, then
      the anchor again: now the block at slot 2 would be linked to a parent its node does
      not have. */
  lemma ParentForgotten(g: Chain.Setup, bits: BitList) returns (anchor: Event, events: seq<Event>)
    requires Chain.SoundSetup(g) && |g.validators| > 0 && ShortChains.Enough(bits, |g.validators|)
    ensures LosesParent(g, anchor, events)
  {
    var a, b, c, d, one, two, three, four := ShortChains.EarlyFinality(g, bits);
    FourOnChain(g, a, b, c, d, one, two, three, four);
    anchor := Arrival([a], one);
    events := ChildLost(g, anchor, Arrival([a, b], two), Arrival([a, b, c], three), Arrival([a, b, c, d], four));
  }

  lemma FourTogether(g: Chain.Setup, a: Event, b: Event, c: Event, d: Event) returns (events: seq<Event>)
    requires OnChain(g, a) && OnChain(g, b) && OnChain(g, c) && OnChain(g, d)
    ensures events == [a, b, c, d] && AllOnChain(g, events)
  {
    events := [a, b, c, d];
  }

  lemma ChildLost(g: Chain.Setup, anchor: Event, child: Event, grand: Event, great: Event) returns (events: seq<Event>)
    requires OnChain(g, anchor) && OnChain(g, child) && OnChain(g, grand) && OnChain(g, great)
    requires SoundHeaders(g.h) && FinalizesChild(g.h, anchor, child, grand, great)
    ensures LosesParent(g, anchor, events)
  {
    events := FourTogether(g, child, grand, great, anchor);
    ChildReturns(g.h, anchor, child, grand, great);
  }
}

/** Every run of fork choice from an anchor. */
module ForkRun {
  import opened Containers
  import opened Bits
  import opened ForkTree
  import opened ForkTheorems
  import opened ForkUpkeep
  import opened ForkPrune
  import opened ForkInsert
  import opened ForkChoice
  import opened ImportLink
  import opened Seal
  import Transition

  /** What can happen to a store: a block with its post-state, a gossip vote, the
      promotion of all buffered votes, or a request for the head to build on. */
  datatype Event =
    | Arrives(signed: SignedBlock, post: StateValue)
    | Attests(attestation: Attestation)
    | Accepts
    | Proposes(pending: seq<Attestation>)

  /** Everything fork choice knows, as a value: the block maps, both vote maps, the
      checkpoints, the head and the number of reorgs. */
  datatype Known = Known(
    blocks: BlockMap, states: StateMap, parents: ParentMap, votes: Votes, newVotes: Votes,
    justified: Checkpoint, previous: Checkpoint, finalized: Checkpoint, head: Root, reorgs: nat)

  ghost function TreeOf(k: Known): Tree {
    TreeFrom(k.blocks, k.parents)
  }

  /** The block and the votes it carries. */
  ghost function Absorbed(h: Hashes, k: Known, signed: SignedBlock, post: StateValue): Known {
    var root := BlockRoot(h, signed.block);
    var k' := k.(blocks := k.blocks[root := signed], states := k.states[root := post],
                 parents := k.parents[root := signed.block.parentRoot]);
    k'.(votes := BlockVotes(TreeOf(k'), k.votes, signed, true))
  }

  ghost function Only<V>(m: map<Root, V>, keys: set<Root>): map<Root, V> {
    map r | r in keys && r in m :: m[r]
  }

  /** The subtree of the finalized block, with its own parent forgotten, the votes that
      still mean something there, and checkpoints that lie in it. */
  ghost function Cut(k: Known): Known {
    var t, f := TreeOf(k), k.finalized.root;
    var blocks := Only(k.blocks, Kept(t, f));
    var justified := Settled(blocks, k.justified, k.finalized);
    k.(blocks := blocks, states := Only(k.states, Kept(t, f)), parents := Only(NewParents(t, f), Kept(t, f)),
       votes := PrunedVotes(t, k.votes, f), newVotes := PrunedVotes(t, k.newVotes, f),
       justified := justified, previous := Settled(blocks, k.previous, justified))
  }

  /** Newer checkpoints are taken over; a newer finalized block that is known prunes. */
  ghost function Advance(k: Known, post: StateValue): Known {
    var next := k.(justified := Newer(k.justified, post.justified), finalized := Newer(k.finalized, post.finalized),
                   previous := if post.justified.slot > k.justified.slot then k.justified else k.previous);
    if Prunes(k.blocks, k.finalized, post.finalized) then Cut(next) else next
  }

  /** The head that the naive rule finds; it stays where it is as long as the justified
      block is unknown. */
  ghost function Rehead(k: Known, counts: bool): Known {
    var head := HeadOf(TreeOf(k), k.votes, k.justified.root, k.head);
    k.(head := head, reorgs := k.reorgs + if !counts || Descends(TreeOf(k), head, k.head) then 0 else 1)
  }

  ghost function Promoted(k: Known): Known {
    k.(votes := k.votes + k.newVotes, newVotes := map[])
  }

  ghost function AfterEvent(h: Hashes, k: Known, e: Event): Known {
    match e
    case Arrives(signed, post) =>
      var grown := Absorbed(h, k, signed, post);
      Rehead(Advance(grown, post), !Prunes(grown.blocks, k.finalized, post.finalized))
    case Attests(attestation) => k.(newVotes := Applied(TreeOf(k), k.newVotes, attestation))
    case Accepts => Rehead(Promoted(k), true)
    case Proposes(pending) => Rehead(Promoted(k.(newVotes := AppliedAll(TreeOf(k), k.newVotes, pending))), true)
  }

  ghost function AfterEvents(h: Hashes, k: Known, events: seq<Event>): Known {
    if events == [] then k
    else AfterEvent(h, AfterEvents(h, k, events[..|events| - 1]), events[|events| - 1])
  }

  /** The post-state comes from some state through the transition. */
  ghost predicate Accepted(h: Hashes, e: Event) {
    e.Arrives? ==> exists s :: Transition.StateTransition(h, s, e.signed.block) == Ok(e.post)
  }

  /** The event does not repeat a root whose parent was forgotten by a prune and is
      known again. */
  ghost predicate Links(h: Hashes, k: Known, e: Event) {
    e.Arrives? ==>
      var root := BlockRoot(h, e.signed.block);
      root in k.blocks && root in k.parents && k.parents[root] == ZERO ==> e.signed.block.parentRoot !in k.blocks
  }

  ghost predicate AllLink(h: Hashes, k: Known, events: seq<Event>) {
    forall i :: 0 <= i < |events| ==> Links(h, AfterEvents(h, k, events[..i]), events[i])
  }

  // ------------------------------------------------------------------ one event

  ghost function KnownOf(v: View, head: Root, reorgs: nat): Known {
    Known(v.dag.blocks, v.dag.states, v.dag.parents, v.votes, v.newVotes, v.justified, v.previous, v.finalized, head, reorgs)
  }

  ghost function StoreKnown(store: ForkChoiceStore): Known
    reads store
  {
    KnownOf(store.ViewOf(), store.head, store.reorgsTotal)
  }

  /** A prune of the store is a cut of what it knows. */
  lemma CutIs(t: Tree, k: Known, maps: Maps, k': Known, t': Tree, maps': Maps)
    requires t == TreeOf(k) && maps.blocks == k.blocks && maps.states == k.states && maps.parents == k.parents
    requires PrunedFrom(t, k.finalized.root, maps, k.votes, k.newVotes, t', maps', k'.votes, k'.newVotes)
    requires maps'.blocks == k'.blocks && maps'.states == k'.states && maps'.parents == k'.parents
    requires k'.finalized == k.finalized && k'.head == k.head && k'.reorgs == k.reorgs
    requires k'.justified == Settled(k'.blocks, k.justified, k.finalized)
    requires k'.previous == Settled(k'.blocks, k.previous, k'.justified)
    ensures k' == Cut(k)
  {
    PrunedMaps(t, k.finalized.root, maps, k.votes, k.newVotes, t', maps', k'.votes, k'.newVotes);
    var f := k.finalized.root;
    CopyIs(k'.blocks, k.blocks, Kept(t, f));
    CopyIs(k'.states, k.states, Kept(t, f));
    CopyIs(k'.parents, NewParents(t, f), Kept(t, f));
  }

  lemma CopyIs<V>(copy: map<Root, V>, original: map<Root, V>, keys: set<Root>)
    requires CopyOf(copy, original, keys)
    ensures copy == Only(original, keys)
  {
  }

  lemma PrunedMaps(t: Tree, f: Root, maps: Maps, votes: Votes, newVotes: Votes,
                   t': Tree, maps': Maps, votes': Votes, newVotes': Votes)
    requires PrunedFrom(t, f, maps, votes, newVotes, t', maps', votes', newVotes')
    ensures CopyOf(maps'.blocks, maps.blocks, Kept(t, f)) && CopyOf(maps'.states, maps.states, Kept(t, f))
    ensures CopyOf(maps'.parents, NewParents(t, f), Kept(t, f))
    ensures votes' == PrunedVotes(t, votes, f) && newVotes' == PrunedVotes(t, newVotes, f)
  {
    assert Opens(0);
  }

  lemma ImportedKnown(h: Hashes, pre: View, signed: SignedBlock, state: StateValue, post: View, head: Root, reorgs: nat)
    requires Imported(pre, BlockRoot(h, signed.block), signed, state, true, post)
    ensures KnownOf(post, head, reorgs) == Advance(Absorbed(h, KnownOf(pre, head, reorgs), signed, state), state)
  {
    var k := Absorbed(h, KnownOf(pre, head, reorgs), signed, state);
    var next := k.(justified := Newer(k.justified, state.justified), finalized := Newer(k.finalized, state.finalized),
                   previous := if state.justified.slot > k.justified.slot then k.justified else k.previous);
    if Prunes(k.blocks, k.finalized, state.finalized) {
      CutIs(TreeOf(k), next, MapsOf(WithBlock(pre.dag, BlockRoot(h, signed.block), signed, state)),
            KnownOf(post, head, reorgs), post.tree, MapsOf(post.dag));
    }
  }

  lemma AcceptedMatches(h: Hashes, e: Event)
    requires SoundHeaders(h) && e.Arrives? && Accepted(h, e)
    ensures OlderParent(h, e.signed.block) && StateMatchesBlockRoot(h, e.post, e.signed.block.stateRoot)
  {
    var s :| Transition.StateTransition(h, s, e.signed.block) == Ok(e.post);
    AcceptedOlderParent(h, s, e.signed.block);
  }

  /** A block with its post-state. */
  method HandleBlock(store: ForkChoiceStore, signed: SignedBlock, post: StateValue)
    requires store.Valid() && SoundHeaders(store.h) && HoldsAccepted(store.h, store.dag.blocks, store.dag.parents)
    requires Accepted(store.h, Arrives(signed, post)) && Links(store.h, StoreKnown(store), Arrives(signed, post))
    modifies store
    ensures store.Valid() && HoldsAccepted(store.h, store.dag.blocks, store.dag.parents)
    ensures StoreKnown(store) == AfterEvent(store.h, old(StoreKnown(store)), Arrives(signed, post))
    ensures store.validatorCount == old(store.validatorCount)
  {
    ghost var h, pre, k := store.h, store.ViewOf(), StoreKnown(store);
    AcceptedMatches(h, Arrives(signed, post));
    AcceptedImportable(h, store.dag.blocks, store.dag.parents, signed.block);
    var _ := store.OnBlock(signed, post);
    ghost var view, after := store.ViewOf(), StoreKnown(store);
    SoundDescribes(store.tree, store.dag, store.latestVotes, store.latestNewVotes);
    ImportedHolds(h, pre, signed, post, true, view);
    ImportedKnown(h, pre, signed, post, view, k.head, k.reorgs);
    Reheaded(h, k, signed, post, after);
  }

  lemma Reheaded(h: Hashes, k: Known, signed: SignedBlock, post: StateValue, after: Known)
    requires after.(head := k.head, reorgs := k.reorgs) == Advance(Absorbed(h, k, signed, post), post)
    requires after.head == HeadOf(TreeOf(after), after.votes, after.justified.root, k.head)
    requires var pruned := Prunes(k.blocks[BlockRoot(h, signed.block) := signed], k.finalized, post.finalized);
             after.reorgs == k.reorgs + if pruned || Descends(TreeOf(after), after.head, k.head) then 0 else 1
    ensures after == AfterEvent(h, k, Arrives(signed, post))
  {
  }

  /** A vote from gossip. */
  method HandleAttests(store: ForkChoiceStore, attestation: Attestation)
    requires store.Valid()
    modifies store
    ensures store.Valid() && store.dag == old(store.dag)
    ensures StoreKnown(store) == AfterEvent(store.h, old(StoreKnown(store)), Attests(attestation))
    ensures store.validatorCount == old(store.validatorCount)
  {
    SoundDescribes(store.tree, store.dag, store.latestVotes, store.latestNewVotes);
    var _ := store.OnAttestation(attestation);
  }

  /** A promotion of all buffered votes. */
  method HandleAccepts(store: ForkChoiceStore)
    requires store.Valid()
    modifies store
    ensures store.Valid() && store.dag.blocks == old(store.dag.blocks) && store.dag.parents == old(store.dag.parents)
    ensures StoreKnown(store) == AfterEvent(store.h, old(StoreKnown(store)), Accepts)
    ensures store.validatorCount == old(store.validatorCount)
  {
    ghost var k := StoreKnown(store);
    SoundDescribes(store.tree, store.dag, store.latestVotes, store.latestNewVotes);
    ghost var t := store.tree;
    store.AcceptNewVotes();
    VotesReheaded(store.h, k, t, Accepts, k.newVotes, StoreKnown(store));
  }

  /** A request for the head to build on. */
  method HandleProposes(store: ForkChoiceStore, pending: seq<Attestation>)
    requires store.Valid()
    modifies store
    ensures store.Valid() && store.dag.blocks == old(store.dag.blocks) && store.dag.parents == old(store.dag.parents)
    ensures StoreKnown(store) == AfterEvent(store.h, old(StoreKnown(store)), Proposes(pending))
    ensures store.validatorCount == old(store.validatorCount)
  {
    ghost var k := StoreKnown(store);
    SoundDescribes(store.tree, store.dag, store.latestVotes, store.latestNewVotes);
    ghost var t := store.tree;
    var _ := store.GetProposalHeadWithPending(pending);
    VotesReheaded(store.h, k, t, Proposes(pending), AppliedAll(t, k.newVotes, pending), StoreKnown(store));
  }

  lemma VotesReheaded(h: Hashes, k: Known, t: Tree, e: Event, newVotes: Votes, after: Known)
    requires t == TreeOf(k)
    requires if e.Proposes? then newVotes == AppliedAll(t, k.newVotes, e.pending) else e.Accepts? && newVotes == k.newVotes
    requires after.blocks == k.blocks && after.states == k.states && after.parents == k.parents
    requires after.justified == k.justified && after.previous == k.previous && after.finalized == k.finalized
    requires after.votes == k.votes + newVotes && after.newVotes == map[]
    requires after.head == HeadOf(t, after.votes, k.justified.root, k.head)
    requires after.reorgs == k.reorgs + if Descends(t, after.head, k.head) then 0 else 1
    ensures after == AfterEvent(h, k, e)
  {
  }

  /** One event on a store. */
  method Handle(store: ForkChoiceStore, e: Event)
    requires store.Valid() && SoundHeaders(store.h) && HoldsAccepted(store.h, store.dag.blocks, store.dag.parents)
    requires Accepted(store.h, e) && Links(store.h, StoreKnown(store), e)
    modifies store
    ensures store.Valid() && HoldsAccepted(store.h, store.dag.blocks, store.dag.parents)
    ensures StoreKnown(store) == AfterEvent(store.h, old(StoreKnown(store)), e)
    ensures store.validatorCount == old(store.validatorCount)
  {
    match e
    case Arrives(signed, post) =>
      HandleBlock(store, signed, post);
    case Attests(attestation) =>
      HandleAttests(store, attestation);
    case Accepts =>
      HandleAccepts(store);
    case Proposes(pending) =>
      HandleProposes(store, pending);
  }

  /** One event after the other. */
  method HandleAll(store: ForkChoiceStore, events: seq<Event>)
    requires store.Valid() && SoundHeaders(store.h) && HoldsAccepted(store.h, store.dag.blocks, store.dag.parents)
    requires forall i :: 0 <= i < |events| ==> Accepted(store.h, events[i])
    requires AllLink(store.h, StoreKnown(store), events)
    modifies store
    ensures store.Valid() && HoldsAccepted(store.h, store.dag.blocks, store.dag.parents)
    ensures StoreKnown(store) == AfterEvents(store.h, old(StoreKnown(store)), events)
    ensures store.validatorCount == old(store.validatorCount)
  {
    ghost var start := StoreKnown(store);
    for k := 0 to |events|
      invariant store.Valid() && HoldsAccepted(store.h, store.dag.blocks, store.dag.parents)
      invariant store.validatorCount == old(store.validatorCount)
      invariant StoreKnown(store) == AfterEvents(store.h, start, events[..k])
    {
      NextEvent(store.h, start, events, k);
      Handle(store, events[k]);
    }
    assert events[..|events|] == events;
  }

  /** From an anchor, any sequence of accepted blocks, votes, promotions and proposals keeps
      the store valid and leaves in it exactly what the events say: head and safe target are
      those of the naive rule over these blocks, votes and checkpoints. */
  method FromAnchor(h: Hashes, anchor: SignedBlock, state: StateValue, events: seq<Event>)
    returns (r: Option<ForkChoiceStore>)
    requires SoundHeaders(h) && OlderParent(h, anchor.block)
    requires forall i :: 0 <= i < |events| ==> Accepted(h, events[i])
    requires AllLink(h, AnchorKnown(h, anchor, state), events)
    ensures r.Some? == (state.header.stateRoot == anchor.block.stateRoot || h.state(state) == anchor.block.stateRoot)
    ensures r.Some? ==>
              && fresh(r.value) && r.value.h == h && r.value.Valid() && r.value.validatorCount == |state.validators|
              && HoldsAccepted(h, r.value.dag.blocks, r.value.dag.parents)
              && StoreKnown(r.value) == AfterEvents(h, AnchorKnown(h, anchor, state), events)
  {
    AnchorHolds(h, anchor, state);
    r := ForkChoiceStore.New(h, anchor, state);
    if r.Some? {
      HandleAll(r.value, events);
    }
  }

  ghost function AnchorKnown(h: Hashes, anchor: SignedBlock, state: StateValue): Known {
    var root := BlockRoot(h, anchor.block);
    var justified := Checkpoint(root, state.justified.slot);
    Known(map[root := anchor], map[root := state], map[root := anchor.block.parentRoot], map[], map[],
          justified, justified, Checkpoint(root, state.finalized.slot), root, 0)
  }

  // ---------------------------------------------------------- blocks seen once

  ghost predicate SeenOnce(h: Hashes, anchor: SignedBlock, events: seq<Event>) {
    && (forall i :: 0 <= i < |events| && events[i].Arrives? ==> BlockRoot(h, events[i].signed.block) != BlockRoot(h, anchor.block))
    && (forall i, j :: 0 <= i < j < |events| && events[i].Arrives? && events[j].Arrives? ==>
          BlockRoot(h, events[i].signed.block) != BlockRoot(h, events[j].signed.block))
  }

  /** Without a prune a block just joins the others. */
  lemma ArrivalGrows(h: Hashes, k: Known, e: Event)
    requires e.Arrives?
    ensures var root, after := BlockRoot(h, e.signed.block), AfterEvent(h, k, e);
            && after.finalized == Newer(k.finalized, e.post.finalized)
            && (!Prunes(k.blocks[root := e.signed], k.finalized, e.post.finalized) ==>
                  && after.blocks == k.blocks[root := e.signed]
                  && after.parents == k.parents[root := e.signed.block.parentRoot])
  {
  }

  /** With a prune only the subtree of the finalized block is left. */
  lemma ArrivalCuts(h: Hashes, k: Known, e: Event)
    requires e.Arrives?
    ensures var root, f, after := BlockRoot(h, e.signed.block), e.post.finalized.root, AfterEvent(h, k, e);
            var t := TreeFrom(k.blocks[root := e.signed], k.parents[root := e.signed.block.parentRoot]);
            Prunes(k.blocks[root := e.signed], k.finalized, e.post.finalized) ==>
              && after.blocks.Keys == after.parents.Keys == Kept(t, f)
              && (forall r :: r in after.blocks ==>
                    && after.blocks[r] == k.blocks[root := e.signed][r]
                    && after.parents[r] == if r != f && r in t.up then t.up[r] else ZERO)
  {
  }

  lemma ArrivalBlocks(h: Hashes, k: Known, e: Event)
    ensures AfterEvent(h, k, e).blocks.Keys <=
            k.blocks.Keys + if e.Arrives? then {BlockRoot(h, e.signed.block)} else {}
  {
    if e.Arrives? {
      ArrivalGrows(h, k, e);
      ArrivalCuts(h, k, e);
    }
  }

  /** A block that never arrives is never known. */
  lemma {:induction false} NeverArrived(h: Hashes, k: Known, events: seq<Event>, r: Root)
    requires r !in k.blocks
    requires forall i :: 0 <= i < |events| && events[i].Arrives? ==> BlockRoot(h, events[i].signed.block) != r
    ensures r !in AfterEvents(h, k, events).blocks
  {
    if events != [] {
      var init, last := events[..|events| - 1], events[|events| - 1];
      NeverArrived(h, k, init, r);
      ArrivalBlocks(h, AfterEvents(h, k, init), last);
    }
  }

  /** In a run that imports each block once, no forgotten parent matters. */
  lemma SeenOnceLinks(h: Hashes, anchor: SignedBlock, state: StateValue, events: seq<Event>)
    requires SeenOnce(h, anchor, events)
    ensures AllLink(h, AnchorKnown(h, anchor, state), events)
  {
    var start := AnchorKnown(h, anchor, state);
    forall i | 0 <= i < |events|
      ensures Links(h, AfterEvents(h, start, events[..i]), events[i])
    {
      if events[i].Arrives? {
        NeverArrived(h, start, events[..i], BlockRoot(h, events[i].signed.block));
      }
    }
  }

  lemma FinalizedForgotten(h: Hashes, k: Known, e: Event)
    requires e.Arrives? && Prunes(k.blocks[BlockRoot(h, e.signed.block) := e.signed], k.finalized, e.post.finalized)
    ensures var f, after := e.post.finalized.root, AfterEvent(h, k, e);
            after.finalized == e.post.finalized && f in after.blocks && f in after.parents && after.parents[f] == ZERO
  {
    ArrivalGrows(h, k, e);
    ArrivalCuts(h, k, e);
  }

  lemma OneMoreEvent(h: Hashes, k: Known, events: seq<Event>, e: Event)
    ensures AfterEvents(h, k, events + [e]) == AfterEvent(h, AfterEvents(h, k, events), e)
  {
    assert (events + [e])[..|events|] == events;
  }

  lemma NextEvent(h: Hashes, k: Known, events: seq<Event>, i: nat)
    requires i < |events|
    ensures AfterEvents(h, k, events[..i + 1]) == AfterEvent(h, AfterEvents(h, k, events[..i]), events[i])
  {
    assert events[..i + 1] == events[..i] + [events[i]];
    OneMoreEvent(h, k, events[..i], events[i]);
  }

  lemma ReturnsAfterPrune(h: Hashes, k: Known, child: Event, great: Event, again: Event)
    requires child.Arrives? && great.Arrives? && again.Arrives? && BlockRoot(h, child.signed.block) in k.blocks
    requires child.signed.block.parentRoot == BlockRoot(h, again.signed.block) != BlockRoot(h, child.signed.block)
    requires great.post.finalized == Checkpoint(BlockRoot(h, child.signed.block), child.signed.block.slot)
    requires k.finalized.slot < child.signed.block.slot && again.post.finalized.slot <= child.signed.block.slot
    ensures !Links(h, AfterEvent(h, AfterEvent(h, k, great), again), child)
  {
    FinalizedForgotten(h, k, great);
    ArrivalGrows(h, AfterEvent(h, k, great), again);
  }

  /** A run that forgets the anchor: its child, a grandchild, and a great-grandchild that
      finalizes the child. When the anchor then comes once more, the child must not. */
  lemma ForgottenParentReturns(h: Hashes, anchor: SignedBlock, state: StateValue,
                               child: Event, grand: Event, great: Event, again: Event)
    requires SoundHeaders(h) && child.Arrives? && grand.Arrives? && great.Arrives? && again.Arrives? && again.signed == anchor
    requires child.signed.block.parentRoot == BlockRoot(h, anchor.block) != BlockRoot(h, child.signed.block)
    requires grand.signed.block.parentRoot == BlockRoot(h, child.signed.block)
    requires great.signed.block.parentRoot == BlockRoot(h, grand.signed.block)
    requires child.post.finalized.slot <= state.finalized.slot < child.signed.block.slot
    requires grand.post.finalized.slot <= state.finalized.slot
    requires great.post.finalized == Checkpoint(BlockRoot(h, child.signed.block), child.signed.block.slot)
    requires again.post.finalized.slot <= child.signed.block.slot
    ensures !Links(h, AfterEvents(h, AnchorKnown(h, anchor, state), [child, grand, great, again]), child)
  {
    var start := AnchorKnown(h, anchor, state);
    var one, two := AfterEvent(h, start, child), AfterEvent(h, AfterEvent(h, start, child), grand);
    FourEvents(h, start, child, grand, great, again);
    ArrivalGrows(h, start, child);
    ArrivalGrows(h, one, grand);
    ReturnsAfterPrune(h, two, child, great, again);
  }

  lemma ThreeEvents(h: Hashes, k: Known, a: Event, b: Event, c: Event)
    ensures AfterEvents(h, k, [a, b, c]) == AfterEvent(h, AfterEvent(h, AfterEvent(h, k, a), b), c)
  {
    assert [a] == [] + [a] && [a, b] == [a] + [b] && [a, b, c] == [a, b] + [c];
    OneMoreEvent(h, k, [], a);
    OneMoreEvent(h, k, [a], b);
    OneMoreEvent(h, k, [a, b], c);
  }

  lemma FourEvents(h: Hashes, k: Known, a: Event, b: Event, c: Event, d: Event)
    ensures AfterEvents(h, k, [a, b, c, d]) == AfterEvent(h, AfterEvent(h, AfterEvent(h, AfterEvent(h, k, a), b), c), d)
  {
    assert [a, b, c, d] == [a, b, c] + [d];
    OneMoreEvent(h, k, [a, b, c], d);
    ThreeEvents(h, k, a, b, c);
  }

  // --------------------------------------------------------------------- who votes

  ghost predicate VotersBelow(votes: Votes, n: nat) {
    forall v :: v in votes ==> v < n
  }

  ghost predicate SignersBelow(atts: seq<Attestation>, n: nat) {
    forall i, v :: 0 <= i < |atts| && v in Participants(atts[i].bits) ==> v < n
  }

  /** All attestations an event brings. */
  ghost function Attestations(e: Event): seq<Attestation> {
    match e
    case Arrives(signed, _) => signed.block.attestations + [signed.proposerAttestation]
    case Attests(attestation) => [attestation]
    case Accepts => []
    case Proposes(pending) => pending
  }

  lemma {:induction false} AppliedAllBelow(t: Tree, votes: Votes, atts: seq<Attestation>, n: nat)
    requires VotersBelow(votes, n) && SignersBelow(atts, n)
    ensures VotersBelow(AppliedAll(t, votes, atts), n)
  {
    if atts != [] {
      var init := atts[..|atts| - 1];
      assert forall i :: 0 <= i < |init| ==> init[i] == atts[i];
      AppliedAllBelow(t, votes, init, n);
    }
  }

  lemma AbsorbedBelow(h: Hashes, k: Known, signed: SignedBlock, post: StateValue, n: nat)
    requires VotersBelow(k.votes, n) && SignersBelow(Attestations(Arrives(signed, post)), n)
    ensures VotersBelow(Absorbed(h, k, signed, post).votes, n)
  {
    var all, own := Attestations(Arrives(signed, post)), signed.block.attestations;
    assert forall i :: 0 <= i < |own| ==> all[i] == own[i];
    assert all[|own|] == signed.proposerAttestation;
    var t := TreeOf(Absorbed(h, k, signed, post));
    AppliedAllBelow(t, k.votes, own, n);
  }

  lemma EventBelow(h: Hashes, k: Known, e: Event, n: nat)
    requires VotersBelow(k.votes, n) && VotersBelow(k.newVotes, n) && SignersBelow(Attestations(e), n)
    ensures VotersBelow(AfterEvent(h, k, e).votes, n) && VotersBelow(AfterEvent(h, k, e).newVotes, n)
  {
    match e
    case Arrives(signed, post) => AbsorbedBelow(h, k, signed, post, n);
    case Attests(attestation) => AppliedAllBelow(TreeOf(k), k.newVotes, [attestation], n);
    case Accepts =>
    case Proposes(pending) => AppliedAllBelow(TreeOf(k), k.newVotes, pending, n);
  }

  /** As long as nobody outside the registry signs, nobody outside it is counted. */
  lemma {:induction false} SignersOfRun(h: Hashes, anchor: SignedBlock, state: StateValue, events: seq<Event>, n: nat)
    requires forall i :: 0 <= i < |events| ==> SignersBelow(Attestations(events[i]), n)
    ensures var k := AfterEvents(h, AnchorKnown(h, anchor, state), events);
            VotersBelow(k.votes, n) && VotersBelow(k.newVotes, n)
  {
    if events != [] {
      var init, last := events[..|events| - 1], events[|events| - 1];
      assert forall i :: 0 <= i < |init| ==> init[i] == events[i];
      SignersOfRun(h, anchor, state, init, n);
      EventBelow(h, AfterEvents(h, AnchorKnown(h, anchor, state), init), last, n);
    }
  }

  /** In such a run, blocks that two thirds of the registry back lie on one chain. */
  lemma BackedOnOneChain(store: ForkChoiceStore, anchor: SignedBlock, state: StateValue, events: seq<Event>, a: Root, b: Root)
    requires store.Valid() && StoreKnown(store) == AfterEvents(store.h, AnchorKnown(store.h, anchor, state), events)
    requires store.validatorCount == |state.validators| > 0
    requires forall i :: 0 <= i < |events| ==> SignersBelow(Attestations(events[i]), |state.validators|)
    requires TwoThirds(store.tree, store.latestVotes, store.validatorCount, a)
    requires TwoThirds(store.tree, store.latestVotes, store.validatorCount, b)
    ensures Descends(store.tree, a, b) || Descends(store.tree, b, a)
  {
    SoundDescribes(store.tree, store.dag, store.latestVotes, store.latestNewVotes);
    SignersOfRun(store.h, anchor, state, events, |state.validators|);
    SupermajorityChain(store.tree, store.latestVotes, store.validatorCount, a, b);
  }

  /** Fork choice counts any bit it is given: with one validator, the votes of 0 and 1 from
      gossip put two thirds behind both sides of any fork. */
  lemma StrangersSplit(h: Hashes, k: Known, a: Root, b: Root, x: Attestation, y: Attestation)
    requires Ordered(TreeOf(k)) && a in k.blocks && b in k.blocks && !Descends(TreeOf(k), a, b) && !Descends(TreeOf(k), b, a)
    requires Participants(x.bits) == {0} && x.data.head.root == a
    requires Participants(y.bits) == {1} && y.data.head.root == b
    ensures var after := AfterEvents(h, k, [Attests(x), Attests(y), Accepts]);
            TreeOf(after) == TreeOf(k) && Splits(TreeOf(k), after.votes, 1, a, b)
  {
    var t := TreeOf(k);
    ThreeEvents(h, k, Attests(x), Attests(y), Accepts);
    StrangersHeard(t, k.votes, k.newVotes, a, b, x, y);
    StrangersCount(t, k.votes + Applied(t, Applied(t, k.newVotes, x), y), a, b);
  }

  lemma StrangersHeard(t: Tree, votes: Votes, newVotes: Votes, a: Root, b: Root, x: Attestation, y: Attestation)
    requires a in t.slots && Participants(x.bits) == {0} && x.data.head.root == a
    requires b in t.slots && Participants(y.bits) == {1} && y.data.head.root == b
    ensures var after := votes + Applied(t, Applied(t, newVotes, x), y);
            0 in after && after[0] == a && 1 in after && after[1] == b
  {
  }

  lemma StrangersCount(t: Tree, votes: Votes, a: Root, b: Root)
    requires Ordered(t) && !Descends(t, a, b) && !Descends(t, b, a)
    requires 0 in votes && votes[0] == a && 1 in votes && votes[1] == b
    ensures Splits(t, votes, 1, a, b)
  {
    assert 0 in Supporters(t, votes, a) && 1 in Supporters(t, votes, b);
  }

  // ------------------------------------------------------------- what votes say

  /** A block lets the last word of its attestations decide. */
  lemma ArrivalLastWord(h: Hashes, k: Known, e: Event)
    requires e.Arrives?
    ensures var after := AfterEvent(h, k, e);
            LastWord(k.blocks.Keys + {BlockRoot(h, e.signed.block)}, k.votes,
                     e.signed.block.attestations + [e.signed.proposerAttestation], after.blocks.Keys, after.votes)
  {
    var grown, after, all := Absorbed(h, k, e.signed, e.post), AfterEvent(h, k, e), Brought(e.signed, true);
    var t := TreeOf(grown);
    assert t.slots.Keys == k.blocks.Keys + {BlockRoot(h, e.signed.block)};
    BlockVotesBrought(t, k.votes, e.signed, true);
    AppliedLastWord(t, k.votes, all, after.blocks.Keys);
    ArrivalCuts(h, k, e);
    ArrivalVotes(h, k, e);
    if Prunes(grown.blocks, k.finalized, e.post.finalized) {
      PrunedLastWord(t, e.post.finalized.root, t.slots.Keys, k.votes, all, grown.votes);
    }
  }

  lemma ArrivalVotes(h: Hashes, k: Known, e: Event)
    requires e.Arrives?
    ensures var grown := Absorbed(h, k, e.signed, e.post);
            AfterEvent(h, k, e).votes ==
            if Prunes(grown.blocks, k.finalized, e.post.finalized) then PrunedVotes(TreeOf(grown), grown.votes, e.post.finalized.root)
            else grown.votes
  {
  }

  /** The event does not touch the vote of `v` for `r`: no attestation that counts at once
      names `v`, no buffered vote of `v` becomes active, and `r` stays known. */
  ghost predicate LeavesVote(h: Hashes, k: Known, e: Event, v: nat, r: Root) {
    && r in AfterEvent(h, k, e).blocks
    && match e
       case Arrives(signed, _) =>
         Unnamed(k.blocks.Keys + {BlockRoot(h, signed.block)}, signed.block.attestations + [signed.proposerAttestation], v)
       case Attests(_) => true
       case Accepts => v !in k.newVotes
       case Proposes(pending) => v !in k.newVotes && Unnamed(k.blocks.Keys, pending, v)
  }

  ghost predicate VotesAs(k: Known, v: nat, r: Root) {
    v in k.votes && k.votes[v] == r
  }

  lemma VoteLeft(h: Hashes, k: Known, e: Event, v: nat, r: Root)
    requires VotesAs(k, v, r) && LeavesVote(h, k, e, v, r)
    ensures VotesAs(AfterEvent(h, k, e), v, r)
  {
    match e
    case Arrives(signed, _) =>
      ArrivalLastWord(h, k, e);
      WordKeeps(k.blocks.Keys + {BlockRoot(h, signed.block)}, k.votes,
                signed.block.attestations + [signed.proposerAttestation],
                AfterEvent(h, k, e).blocks.Keys, AfterEvent(h, k, e).votes, v);
    case Attests(_) =>
    case Accepts =>
    case Proposes(pending) =>
      assert TreeOf(k).slots.Keys == k.blocks.Keys;
      AppliedUnnamed(TreeOf(k), k.newVotes, pending, v);
  }

  lemma {:induction false} VoteStays(h: Hashes, k: Known, events: seq<Event>, m: nat, v: nat, r: Root)
    requires m <= |events| && VotesAs(AfterEvents(h, k, events[..m]), v, r)
    requires forall i :: m <= i < |events| ==> LeavesVote(h, AfterEvents(h, k, events[..i]), events[i], v, r)
    ensures VotesAs(AfterEvents(h, k, events), v, r)
    decreases |events| - m
  {
    if m == |events| {
      assert events[..m] == events;
    } else {
      NextEvent(h, k, events, m);
      VoteLeft(h, AfterEvents(h, k, events[..m]), events[m], v, r);
      VoteStays(h, k, events, m + 1, v, r);
    }
  }

  /** The vote that a block of a run carries stands until something else is said: if
      attestation `i` of event `m` is the last in its block to name `v` and a known head,
      and no later event touches that vote, then it is the vote of `v` after the run. */
  lemma BlockVoteStands(h: Hashes, k: Known, events: seq<Event>, m: nat, i: nat, v: nat)
    requires m < |events| && events[m].Arrives?
    requires var signed := events[m].signed;
             var atts, r := signed.block.attestations + [signed.proposerAttestation], BlockRoot(h, signed.block);
             && Decides(AfterEvents(h, k, events[..m]).blocks.Keys + {r}, atts, v, i)
             && atts[i].data.head.root in AfterEvents(h, k, events[..m + 1]).blocks
             && forall j :: m < j < |events| ==>
                  LeavesVote(h, AfterEvents(h, k, events[..j]), events[j], v, atts[i].data.head.root)
    ensures VotesAs(AfterEvents(h, k, events), v,
                    (events[m].signed.block.attestations + [events[m].signed.proposerAttestation])[i].data.head.root)
  {
    var before, after, signed := AfterEvents(h, k, events[..m]), AfterEvents(h, k, events[..m + 1]), events[m].signed;
    var atts := signed.block.attestations + [signed.proposerAttestation];
    NextEvent(h, k, events, m);
    ArrivalLastWord(h, before, events[m]);
    WordDecides(before.blocks.Keys + {BlockRoot(h, signed.block)}, before.votes, atts, after.blocks.Keys, after.votes, v, i);
    VoteStays(h, k, events, m + 1, v, atts[i].data.head.root);
  }

  /** The event does not touch the buffered vote of `v` for `r`. */
  ghost predicate LeavesBuffered(h: Hashes, k: Known, e: Event, v: nat, r: Root) {
    && r in AfterEvent(h, k, e).blocks && !e.Accepts? && !e.Proposes?
    && (e.Attests? ==> Unnamed(k.blocks.Keys, [e.attestation], v))
  }

  ghost predicate BuffersAs(k: Known, v: nat, r: Root) {
    v in k.newVotes && k.newVotes[v] == r
  }

  lemma BufferLeft(h: Hashes, k: Known, e: Event, v: nat, r: Root)
    requires BuffersAs(k, v, r) && LeavesBuffered(h, k, e, v, r)
    ensures BuffersAs(AfterEvent(h, k, e), v, r)
  {
    match e
    case Arrives(_, _) => ArrivalCuts(h, k, e);
    case Attests(attestation) =>
      assert TreeOf(k).slots.Keys == k.blocks.Keys;
      AppliedOne(TreeOf(k), k.newVotes, attestation);
      AppliedUnnamed(TreeOf(k), k.newVotes, [attestation], v);
  }

  lemma {:induction false} BufferStays(h: Hashes, k: Known, events: seq<Event>, m: nat, v: nat, r: Root)
    requires m <= |events| && BuffersAs(AfterEvents(h, k, events[..m]), v, r)
    requires forall i :: m <= i < |events| ==> LeavesBuffered(h, AfterEvents(h, k, events[..i]), events[i], v, r)
    ensures BuffersAs(AfterEvents(h, k, events), v, r)
    decreases |events| - m
  {
    if m == |events| {
      assert events[..m] == events;
    } else {
      NextEvent(h, k, events, m);
      BufferLeft(h, AfterEvents(h, k, events[..m]), events[m], v, r);
      BufferStays(h, k, events, m + 1, v, r);
    }
  }

  lemma GossipBuffered(h: Hashes, k: Known, e: Event, v: nat)
    requires e.Attests? && v in Participants(e.attestation.bits) && e.attestation.data.head.root in k.blocks
    ensures BuffersAs(AfterEvent(h, k, e), v, e.attestation.data.head.root)
  {
  }

  lemma AcceptedCounts(h: Hashes, k: Known, v: nat, r: Root)
    requires BuffersAs(k, v, r)
    ensures VotesAs(AfterEvent(h, k, Accepts), v, r)
  {
  }

  /** A vote from gossip waits: once accepted it counts, whatever blocks said in between,
      unless another one from gossip came after it or its block was pruned. */
  lemma GossipVoteCounts(h: Hashes, k: Known, events: seq<Event>, m: nat, v: nat)
    requires m < |events| && events[m].Attests?
    requires var before, att := AfterEvents(h, k, events[..m]), events[m].attestation;
             && v in Participants(att.bits) && att.data.head.root in before.blocks
             && forall j :: m < j < |events| ==>
                  LeavesBuffered(h, AfterEvents(h, k, events[..j]), events[j], v, att.data.head.root)
    ensures VotesAs(AfterEvents(h, k, events + [Accepts]), v, events[m].attestation.data.head.root)
  {
    var r := events[m].attestation.data.head.root;
    NextEvent(h, k, events, m);
    GossipBuffered(h, AfterEvents(h, k, events[..m]), events[m], v);
    BufferStays(h, k, events, m + 1, v, r);
    OneMoreEvent(h, k, events, Accepts);
    AcceptedCounts(h, AfterEvents(h, k, events), v, r);
  }
}

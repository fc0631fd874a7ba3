/** What importing a block does to the block maps, the tree, the votes and the checkpoints. */
module ForkInsert {
  import opened Containers
  import opened ForkTree
  import opened ForkTheorems
  import opened ForkArena
  import opened ForkUpkeep
  import opened ForkPrune
  import opened Seal

  /** Slots rise along the parent links the block would add. A block that is known
      already comes with the same slot and parent; only the root of a pruned tree, whose
      recorded parent is gone, may name a parent again, as long as that one is unknown. */
  ghost predicate Importable(blocks: BlockMap, parents: ParentMap, root: Root, block: Block) {
    && root != ZERO && block.parentRoot != root
    && (block.parentRoot in blocks ==> blocks[block.parentRoot].block.slot < block.slot)
    && (forall c :: c in blocks && c in parents && parents[c] == root ==> block.slot < blocks[c].block.slot)
    && (root in blocks ==>
          && blocks[root].block.slot == block.slot
          && root in parents
          && (|| parents[root] == block.parentRoot
              || (parents[root] == ZERO && block.parentRoot !in blocks)))
  }

  /** The block maps after adding `signed` under `root`. */
  function WithBlock(dag: Dag, root: Root, signed: SignedBlock, post: StateValue): Dag {
    var p := signed.block.parentRoot;
    dag.(blocks := dag.blocks[root := signed],
         states := dag.states[root := post],
         parents := dag.parents[root := p],
         children := dag.children[p := ChildList(dag.children, p) + [root]])
  }

  lemma FreshInsertable(t: Tree, blocks: BlockMap, parents: ParentMap, children: ChildMap, root: Root, block: Block)
    requires Describes(t, blocks, parents, children) && Importable(blocks, parents, root, block) && root !in blocks
    ensures Insertable(t, root, block.slot, block.parentRoot, ChildList(children, root))
  {
    var cs := ChildList(children, root);
    forall c | c in cs
      ensures c in parents && parents[c] == root && c in blocks && c !in t.up
    {
    }
  }

  /** Where a fresh block and its waiting children end up. */
  lemma FreshUpAt(t: Tree, blocks: BlockMap, parents: ParentMap, children: ChildMap, root: Root, signed: SignedBlock, r: Root)
    requires Describes(t, blocks, parents, children) && Importable(blocks, parents, root, signed.block) && root !in blocks
    ensures var from := TreeFrom(blocks[root := signed], parents[root := signed.block.parentRoot]);
            var to := Inserted(t, root, signed.block.slot, signed.block.parentRoot, ChildList(children, root));
            && (r in from.slots <==> r in to.slots) && (r in from.slots ==> from.slots[r] == to.slots[r])
            && (r in from.up <==> r in to.up) && (r in from.up ==> from.up[r] == to.up[r])
  {
    var p, cs := signed.block.parentRoot, ChildList(children, root);
    var base := if p in t.slots then Link(Grown(t, root, signed.block.slot), root, p) else Grown(t, root, signed.block.slot);
    AdoptedUp(base, cs, root, r);
    if r in blocks && parents[r] == root {
      assert r in cs;
    }
  }

  lemma FreshTree(t: Tree, blocks: BlockMap, parents: ParentMap, children: ChildMap, root: Root, signed: SignedBlock)
    requires Describes(t, blocks, parents, children) && Importable(blocks, parents, root, signed.block) && root !in blocks
    ensures TreeFrom(blocks[root := signed], parents[root := signed.block.parentRoot]) ==
            Inserted(t, root, signed.block.slot, signed.block.parentRoot, ChildList(children, root))
  {
    var from := TreeFrom(blocks[root := signed], parents[root := signed.block.parentRoot]);
    var to := Inserted(t, root, signed.block.slot, signed.block.parentRoot, ChildList(children, root));
    forall r
      ensures (r in from.slots <==> r in to.slots) && (r in from.slots ==> from.slots[r] == to.slots[r])
      ensures (r in from.up <==> r in to.up) && (r in from.up ==> from.up[r] == to.up[r])
    {
      FreshUpAt(t, blocks, parents, children, root, signed, r);
    }
    SameTree(from, to);
  }

  lemma SameTree(a: Tree, b: Tree)
    requires forall r :: (r in a.slots <==> r in b.slots) && (r in a.slots ==> a.slots[r] == b.slots[r])
    requires forall r :: (r in a.up <==> r in b.up) && (r in a.up ==> a.up[r] == b.up[r])
    ensures a == b
  {
    assert a.slots == b.slots;
    assert a.up == b.up;
  }

  lemma KnownTree(t: Tree, blocks: BlockMap, parents: ParentMap, children: ChildMap, root: Root, signed: SignedBlock)
    requires Describes(t, blocks, parents, children) && Importable(blocks, parents, root, signed.block) && root in blocks
    ensures TreeFrom(blocks[root := signed], parents[root := signed.block.parentRoot]) == t
  {
    var from := TreeFrom(blocks[root := signed], parents[root := signed.block.parentRoot]);
    assert from.slots == t.slots;
    assert from.up == t.up;
  }

  ghost function NextTree(t: Tree, children: ChildMap, root: Root, slot: nat, parentRoot: Root): Tree {
    if root in t.slots then t else Inserted(t, root, slot, parentRoot, ChildList(children, root))
  }

  /** The arena is right for `t` and has a place for `root`. */
  ghost predicate Prepared(t: Tree, votes: Votes, nodes: Arena, index: map<Root, nat>, children: ChildMap,
                        root: Root, slot: nat, parentRoot: Root)
  {
    forall k: int :: Opens(k) ==>
      && Caches(t, votes, nodes, index)
      && VotesKnown(t, votes)
      && (root !in t.slots ==> Insertable(t, root, slot, parentRoot, ChildList(children, root)))
  }

  lemma PreparedFacts(t: Tree, votes: Votes, nodes: Arena, index: map<Root, nat>, children: ChildMap,
                   root: Root, slot: nat, parentRoot: Root)
    requires Prepared(t, votes, nodes, index, children, root, slot, parentRoot)
    ensures Cached(t, votes, nodes, index) && VotesKnown(t, votes) && index.Keys == t.slots.Keys
    ensures root !in t.slots ==> Insertable(t, root, slot, parentRoot, ChildList(children, root)) && root !in t.up
  {
    assert Opens(0);
  }

  lemma SoundReady(t: Tree, dag: Dag, votes: Votes, newVotes: Votes, root: Root, signed: SignedBlock, post: StateValue)
    requires Sound(t, dag, votes, newVotes) && Importable(dag.blocks, dag.parents, root, signed.block)
    ensures Prepared(t, votes, dag.nodes, dag.index, WithBlock(dag, root, signed, post).children,
                  root, signed.block.slot, signed.block.parentRoot)
  {
    assert Opens(0);
    if root !in t.slots {
      FreshInsertable(t, dag.blocks, dag.parents, dag.children, root, signed.block);
    }
  }

  lemma NextTreeFrom(t: Tree, dag: Dag, root: Root, signed: SignedBlock, post: StateValue)
    requires Describes(t, dag.blocks, dag.parents, dag.children)
    requires Importable(dag.blocks, dag.parents, root, signed.block)
    ensures var dag' := WithBlock(dag, root, signed, post);
      NextTree(t, dag'.children, root, signed.block.slot, signed.block.parentRoot) == TreeFrom(dag'.blocks, dag'.parents)
  {
    if root in t.slots {
      KnownTree(t, dag.blocks, dag.parents, dag.children, root, signed);
    } else {
      FreshTree(t, dag.blocks, dag.parents, dag.children, root, signed);
    }
  }

  lemma NextMaps(t: Tree, dag: Dag, votes: Votes, newVotes: Votes, root: Root, signed: SignedBlock, post: StateValue)
    requires Sound(t, dag, votes, newVotes) && Importable(dag.blocks, dag.parents, root, signed.block)
    ensures var dag' := WithBlock(dag, root, signed, post);
      && NextTree(t, dag'.children, root, signed.block.slot, signed.block.parentRoot) == TreeFrom(dag'.blocks, dag'.parents)
      && dag'.states.Keys == dag'.blocks.Keys && dag'.parents.Keys == dag'.blocks.Keys && ZERO !in dag'.blocks
      && ChildLists(dag'.parents, dag'.children)
  {
    SoundDescribes(t, dag, votes, newVotes);
    NextTreeFrom(t, dag, root, signed, post);
    AddChildLists(dag.parents, dag.children, root, signed.block.parentRoot);
  }

  lemma SoundDescribes(t: Tree, dag: Dag, votes: Votes, newVotes: Votes)
    requires Sound(t, dag, votes, newVotes)
    ensures Describes(t, dag.blocks, dag.parents, dag.children) && dag.states.Keys == dag.blocks.Keys
  {
    assert Opens(0);
  }

  lemma TreeKeepsVotes(t: Tree, votes: Votes, t': Tree)
    requires VotesKnown(t, votes) && t.slots.Keys <= t'.slots.Keys
    ensures VotesKnown(t', votes)
  {
  }

  lemma SoundInserted(t: Tree, dag: Dag, votes: Votes, newVotes: Votes, root: Root, signed: SignedBlock, post: StateValue,
                      children': ChildMap, nodes': Arena, index': map<Root, nat>, t': Tree)
    requires Sound(t, dag, votes, newVotes) && Importable(dag.blocks, dag.parents, root, signed.block)
    requires t' == NextTree(t, children', root, signed.block.slot, signed.block.parentRoot)
    requires children' == WithBlock(dag, root, signed, post).children
    requires Cached(t', votes, nodes', index')
    ensures t' == TreeFrom(dag.blocks[root := signed], dag.parents[root := signed.block.parentRoot])
    ensures Ordered(t') && t'.slots.Keys == dag.blocks.Keys + {root}
    ensures Sound(t', WithBlock(dag, root, signed, post).(nodes := nodes', index := index'), votes, newVotes)
  {
    NextMaps(t, dag, votes, newVotes, root, signed, post);
    VotesStayKnown(t, dag, votes, newVotes, t');
    CachedOrdered(t', votes, nodes', index');
  }

  lemma CachedOrdered(t: Tree, votes: Votes, nodes: Arena, index: map<Root, nat>)
    requires Cached(t, votes, nodes, index)
    ensures Ordered(t)
  {
    assert Opens(0);
  }

  lemma VotesStayKnown(t: Tree, dag: Dag, votes: Votes, newVotes: Votes, t': Tree)
    requires Sound(t, dag, votes, newVotes) && dag.blocks.Keys <= t'.slots.Keys
    ensures VotesKnown(t', votes) && VotesKnown(t', newVotes)
  {
    assert Opens(0);
    TreeKeepsVotes(t, votes, t');
    TreeKeepsVotes(t, newVotes, t');
  }

  // ---------------------------------------------------------- a whole import

  /** Everything fork choice depends on, except the cached head and safe target. */
  datatype View = View(
    tree: Tree, dag: Dag, votes: Votes, newVotes: Votes,
    justified: Checkpoint, previous: Checkpoint, finalized: Checkpoint)

  /** The active votes after a block: its attestations in order, then the proposer's own. */
  ghost function BlockVotes(t: Tree, votes: Votes, signed: SignedBlock, includeProposer: bool): Votes {
    var counted := AppliedAll(t, votes, signed.block.attestations);
    if includeProposer then Applied(t, counted, signed.proposerAttestation) else counted
  }

  /** The votes a block brings, in the order in which they count. */
  ghost function Brought(signed: SignedBlock, includeProposer: bool): seq<Attestation> {
    signed.block.attestations + if includeProposer then [signed.proposerAttestation] else []
  }

  lemma BlockVotesBrought(t: Tree, votes: Votes, signed: SignedBlock, includeProposer: bool)
    ensures BlockVotes(t, votes, signed, includeProposer) == AppliedAll(t, votes, Brought(signed, includeProposer))
  {
    var atts, all := signed.block.attestations, Brought(signed, includeProposer);
    if includeProposer {
      assert all[..|all| - 1] == atts;
    } else {
      assert all == atts;
    }
  }

  /** What a prune leaves of the last word. */
  lemma PrunedLastWord(t: Tree, f: Root, known: set<Root>, before: Votes, atts: seq<Attestation>, votes: Votes)
    requires LastWord(known, before, atts, Kept(t, f), votes)
    ensures LastWord(known, before, atts, Kept(t, f), PrunedVotes(t, votes, f))
  {
    forall v, i: nat | Decides(known, atts, v, i) && atts[i].data.head.root in Kept(t, f)
      ensures v in votes && votes[v] == atts[i].data.head.root
    {
      WordDecides(known, before, atts, Kept(t, f), votes, v, i);
    }
    forall v | Unnamed(known, atts, v)
      ensures v in before && before[v] in Kept(t, f) ==> v in votes && votes[v] == before[v]
      ensures v !in before ==> v !in votes
    {
      WordKeeps(known, before, atts, Kept(t, f), votes, v);
    }
  }

  function Newer(current: Checkpoint, offered: Checkpoint): Checkpoint {
    if offered.slot > current.slot then offered else current
  }

  /** An import prunes when it advances finality to a block of the store. */
  predicate Prunes(blocks: BlockMap, finalized: Checkpoint, offered: Checkpoint) {
    offered.slot > finalized.slot && offered.root in blocks
  }

  /** `post` is what the checkpoints of `state` make of `pre`, up to the arena. */
  ghost predicate Advanced(pre: View, state: StateValue, post: View) {
    var justified := Newer(pre.justified, state.justified);
    var previous := if state.justified.slot > pre.justified.slot then pre.justified else pre.previous;
    && post.finalized == Newer(pre.finalized, state.finalized)
    && if Prunes(pre.dag.blocks, pre.finalized, state.finalized) then
         && PrunedFrom(pre.tree, post.finalized.root, MapsOf(pre.dag), pre.votes, pre.newVotes,
                       post.tree, MapsOf(post.dag), post.votes, post.newVotes)
         && post.justified == Settled(post.dag.blocks, justified, post.finalized)
         && post.previous == Settled(post.dag.blocks, previous, post.justified)
       else
         && post.dag == pre.dag.(nodes := post.dag.nodes, index := post.dag.index)
         && post.tree == pre.tree && post.votes == pre.votes && post.newVotes == pre.newVotes
         && post.justified == justified && post.previous == previous
  }

  /** `post` is what importing the block makes of `pre`, up to the arena. */
  ghost predicate Imported(pre: View, root: Root, signed: SignedBlock, state: StateValue, includeProposer: bool, post: View) {
    var dag := WithBlock(pre.dag, root, signed, state);
    var t := TreeFrom(dag.blocks, dag.parents);
    Advanced(pre.(dag := dag, tree := t, votes := BlockVotes(t, pre.votes, signed, includeProposer)), state, post)
  }

  /** After an import everyone whose vote the block brings votes as it says, the last word
      counting, and everyone else as before, as long as the block voted for is kept. */
  lemma ImportedLastWord(pre: View, root: Root, signed: SignedBlock, state: StateValue, includeProposer: bool, post: View)
    requires Imported(pre, root, signed, state, includeProposer, post)
    ensures LastWord(pre.dag.blocks.Keys + {root}, pre.votes, Brought(signed, includeProposer), post.dag.blocks.Keys, post.votes)
  {
    var dag := WithBlock(pre.dag, root, signed, state);
    var t := TreeFrom(dag.blocks, dag.parents);
    assert t.slots.Keys == pre.dag.blocks.Keys + {root};
    BlockVotesBrought(t, pre.votes, signed, includeProposer);
    AppliedLastWord(t, pre.votes, Brought(signed, includeProposer), post.dag.blocks.Keys);
    if Prunes(dag.blocks, pre.finalized, state.finalized) {
      var grown := BlockVotes(t, pre.votes, signed, includeProposer);
      PrunedKept(t, post.finalized.root, MapsOf(dag), grown, pre.newVotes, post.tree, MapsOf(post.dag), post.votes, post.newVotes);
      PrunedLastWord(t, post.finalized.root, t.slots.Keys, pre.votes, Brought(signed, includeProposer), grown);
    }
  }

  lemma PrunedKept(t: Tree, f: Root, maps: Maps, votes: Votes, newVotes: Votes,
                   t': Tree, maps': Maps, votes': Votes, newVotes': Votes)
    requires PrunedFrom(t, f, maps, votes, newVotes, t', maps', votes', newVotes')
    ensures maps'.blocks.Keys == Kept(t, f) && votes' == PrunedVotes(t, votes, f)
  {
    assert Opens(0);
  }

  /** The import prunes: the post-state's finalized block is newer and known by now. */
  ghost predicate MovesFinality(pre: View, root: Root, state: StateValue) {
    state.finalized.slot > pre.finalized.slot && (state.finalized.root in pre.dag.blocks || state.finalized.root == root)
  }

  /** What becomes of the checkpoints: newer ones are taken over, and a justified block that
      a prune has dropped is replaced by the finalized one. */
  ghost predicate CheckpointsLand(pre: View, root: Root, state: StateValue, post: View) {
    var justified := if state.justified.slot > pre.justified.slot then state.justified else pre.justified;
    var previous := if state.justified.slot > pre.justified.slot then pre.justified else pre.previous;
    && post.finalized == (if state.finalized.slot > pre.finalized.slot then state.finalized else pre.finalized)
    && if !MovesFinality(pre, root, state) then post.justified == justified && post.previous == previous
       else
         && post.justified == (if justified.root in post.dag.blocks then justified else post.finalized)
         && post.previous == (if previous.root in post.dag.blocks then previous else post.justified)
  }

  /** What becomes of the blocks: the new one joins the others, and a prune keeps exactly
      those that descend from the finalized block. */
  ghost predicate BlocksLand(pre: View, root: Root, signed: SignedBlock, state: StateValue, post: View) {
    var blocks, parents := pre.dag.blocks[root := signed], pre.dag.parents[root := signed.block.parentRoot];
    && (if MovesFinality(pre, root, state) then
          forall r :: r in post.dag.blocks <==> r in blocks && Descends(TreeFrom(blocks, parents), r, state.finalized.root)
        else post.dag.blocks.Keys == blocks.Keys && post.dag.parents == parents)
    && post.dag.states.Keys == post.dag.blocks.Keys
    && (forall r :: r in post.dag.blocks ==> r in blocks && post.dag.blocks[r] == blocks[r])
    && (forall r :: r in post.dag.states && r in pre.dag.states[root := state] ==>
          post.dag.states[r] == pre.dag.states[root := state][r])
  }

  lemma ImportLands(pre: View, root: Root, signed: SignedBlock, state: StateValue, includeProposer: bool, post: View)
    requires pre.dag.states.Keys == pre.dag.blocks.Keys && Imported(pre, root, signed, state, includeProposer, post)
    ensures CheckpointsLand(pre, root, state, post) && BlocksLand(pre, root, signed, state, post)
  {
    var dag := WithBlock(pre.dag, root, signed, state);
    var t := TreeFrom(dag.blocks, dag.parents);
    if Prunes(dag.blocks, pre.finalized, state.finalized) {
      PrunedMapsKept(t, post.finalized.root, MapsOf(dag), BlockVotes(t, pre.votes, signed, includeProposer), pre.newVotes,
                     post.tree, MapsOf(post.dag), post.votes, post.newVotes);
    }
  }

  lemma PrunedMapsKept(t: Tree, f: Root, maps: Maps, votes: Votes, newVotes: Votes,
                       t': Tree, maps': Maps, votes': Votes, newVotes': Votes)
    requires PrunedFrom(t, f, maps, votes, newVotes, t', maps', votes', newVotes')
    ensures CopyOf(maps'.blocks, maps.blocks, Kept(t, f)) && CopyOf(maps'.states, maps.states, Kept(t, f))
  {
    assert Opens(0);
  }

  // -------------------------------------------------------------- the anchor

  function AnchorDag(root: Root, anchor: SignedBlock, state: StateValue): Dag {
    Dag(map[root := anchor], map[root := state], map[root := anchor.block.parentRoot],
        map[anchor.block.parentRoot := [root]],
        [Leaf(root, None, anchor.block.slot, anchor.block.proposerIndex)], map[root := 0])
  }

  lemma AnchorDescribed(root: Root, anchor: SignedBlock, state: StateValue)
    requires root != ZERO && anchor.block.parentRoot != root
    ensures var dag := AnchorDag(root, anchor, state);
            Describes(Tree(map[root := anchor.block.slot], map[]), dag.blocks, dag.parents, dag.children)
  {
    var t, dag := Tree(map[root := anchor.block.slot], map[]), AnchorDag(root, anchor, state);
    assert TreeFrom(dag.blocks, dag.parents).slots == t.slots;
    assert TreeFrom(dag.blocks, dag.parents).up == t.up;
  }

  lemma AnchorCached(root: Root, anchor: SignedBlock, state: StateValue)
    ensures var dag := AnchorDag(root, anchor, state);
            Caches(Tree(map[root := anchor.block.slot], map[]), map[], dag.nodes, dag.index)
  {
    assert Supporters(Tree(map[root := anchor.block.slot], map[]), map[], root) == {};
    assert BestCachedAt(AnchorDag(root, anchor, state).nodes, 0);
  }

  lemma AnchorSound(root: Root, anchor: SignedBlock, state: StateValue)
    requires root != ZERO && anchor.block.parentRoot != root
    ensures Sound(Tree(map[root := anchor.block.slot], map[]), AnchorDag(root, anchor, state), map[], map[])
  {
    AnchorDescribed(root, anchor, state);
    AnchorCached(root, anchor, state);
  }

  lemma AnchorHead(root: Root, slot: nat, n: nat)
    ensures var t := Tree(map[root := slot], map[]);
      GhostHead(t, map[], root) == root && IsSafeTarget(t, map[], n, root, root)
  {
    var t := Tree(map[root := slot], map[]);
    assert Children(t, root) == {};
  }
}

/** Blocks that the state transition accepts can be imported into fork choice. */
module ImportLink {
  import opened Containers
  import opened ForkTree
  import opened ForkArena
  import opened ForkUpkeep
  import opened ForkPrune
  import opened ForkInsert
  import opened Seal
  import Transition

  /** Whatever header the parent root stands for, it is from an earlier slot. */
  ghost predicate OlderParent(h: Hashes, block: Block) {
    forall p :: h.header(p) == block.parentRoot ==> p.slot < block.slot
  }

  /** A block that extends some state is younger than its parent. */
  lemma AcceptedOlderParent(h: Hashes, s: StateValue, block: Block)
    requires SoundHeaders(h) && Transition.StateTransition(h, s, block).Ok?
    ensures OlderParent(h, block)
  {
    var s1 := Transition.ProcessSlots(h, s, block.slot).value;
    assert Transition.ProcessHeader(h, s1, HeaderOf(h, block)).Ok?;
    assert block.parentRoot == h.header(s1.header) && s1.header.slot < block.slot;
  }

  /** A store of such blocks, each under its own root; a prune forgets the parent of
      the block it keeps as the new root. */
  ghost predicate HoldsAccepted(h: Hashes, blocks: BlockMap, parents: ParentMap) {
    forall r :: r in blocks ==>
      && r == BlockRoot(h, blocks[r].block) && OlderParent(h, blocks[r].block)
      && r in parents && (parents[r] == blocks[r].block.parentRoot || parents[r] == ZERO)
  }

  /** The next accepted block meets the conditions of an import, unless it repeats the
      root of a pruned tree whose parent has come back. */
  lemma AcceptedImportable(h: Hashes, blocks: BlockMap, parents: ParentMap, block: Block)
    requires SoundHeaders(h) && HoldsAccepted(h, blocks, parents) && OlderParent(h, block)
    requires var root := BlockRoot(h, block);
             root in blocks && parents[root] == ZERO ==> block.parentRoot == ZERO || block.parentRoot !in blocks
    ensures Importable(blocks, parents, BlockRoot(h, block), block)
  {
    var root := BlockRoot(h, block);
    assert block.parentRoot != root;
    if block.parentRoot in blocks {
      assert h.header(HeaderOf(h, blocks[block.parentRoot].block)) == block.parentRoot;
    }
    forall c | c in blocks && c in parents && parents[c] == root
      ensures block.slot < blocks[c].block.slot
    {
      assert h.header(HeaderOf(h, block)) == blocks[c].block.parentRoot;
    }
    if root in blocks {
      assert HeaderOf(h, blocks[root].block) == HeaderOf(h, block);
    }
  }

  lemma AcceptedStays(h: Hashes, dag: Dag, signed: SignedBlock, post: StateValue)
    requires HoldsAccepted(h, dag.blocks, dag.parents) && OlderParent(h, signed.block)
    ensures var dag' := WithBlock(dag, BlockRoot(h, signed.block), signed, post);
            HoldsAccepted(h, dag'.blocks, dag'.parents)
  {
  }

  lemma AnchorHolds(h: Hashes, anchor: SignedBlock, state: StateValue)
    requires OlderParent(h, anchor.block)
    ensures var dag := AnchorDag(BlockRoot(h, anchor.block), anchor, state); HoldsAccepted(h, dag.blocks, dag.parents)
  {
  }

  /** A prune keeps recorded parents, except that of the new root. */
  lemma PrunedHolds(h: Hashes, t: Tree, f: Root, maps: Maps, votes: Votes, newVotes: Votes,
                    t': Tree, maps': Maps, votes': Votes, newVotes': Votes)
    requires SoundHeaders(h) && t == TreeFrom(maps.blocks, maps.parents)
    requires HoldsAccepted(h, maps.blocks, maps.parents)
    requires PrunedFrom(t, f, maps, votes, newVotes, t', maps', votes', newVotes')
    ensures HoldsAccepted(h, maps'.blocks, maps'.parents)
  {
    assert Opens(0);
  }

  /** An import keeps the store one of accepted blocks, whether it prunes or not. */
  lemma ImportedHolds(h: Hashes, pre: View, signed: SignedBlock, state: StateValue, includeProposer: bool, post: View)
    requires SoundHeaders(h) && HoldsAccepted(h, pre.dag.blocks, pre.dag.parents) && OlderParent(h, signed.block)
    requires Imported(pre, BlockRoot(h, signed.block), signed, state, includeProposer, post)
    ensures HoldsAccepted(h, post.dag.blocks, post.dag.parents)
  {
    var dag := WithBlock(pre.dag, BlockRoot(h, signed.block), signed, state);
    var t := TreeFrom(dag.blocks, dag.parents);
    AcceptedStays(h, pre.dag, signed, state);
    if Prunes(dag.blocks, pre.finalized, state.finalized) {
      PrunedHolds(h, t, post.finalized.root, MapsOf(dag), BlockVotes(t, pre.votes, signed, includeProposer), pre.newVotes,
                  post.tree, MapsOf(post.dag), post.votes, post.newVotes);
    }
  }

  /** The parent recorded in the arena is the one in the tree. */
  lemma MirroredParent(t: Tree, nodes: Arena, index: map<Root, nat>, root: Root)
    requires Mirrors(t, nodes, index) && root in t.slots
    ensures root in index && index[root] < |nodes| && nodes[index[root]].parent == ParentIndex(t, index, root)
    ensures forall r :: r in index <==> r in t.slots
  {
    assert nodes[index[root]].root == root;
  }

  lemma OneParent(t: Tree, t': Tree, nodes: Arena, index: map<Root, nat>, root: Root)
    requires Mirrors(t, nodes, index) && root in t.slots && root !in t.up
    requires root in t'.slots && root in t'.up && t'.up[root] in t.slots
    ensures !Mirrors(t', nodes, index)
  {
    MirroredParent(t, nodes, index, root);
    if Mirrors(t', nodes, index) {
      MirroredParent(t', nodes, index, root);
    }
  }

  /** Importing a known root again leaves its node alone, so the arena goes on mirroring
      the block maps exactly when the parent is the recorded one or is unknown. */
  lemma ReimportMirrors(blocks: BlockMap, parents: ParentMap, nodes: Arena, index: map<Root, nat>, root: Root, signed: SignedBlock)
    requires Mirrors(TreeFrom(blocks, parents), nodes, index)
    requires parents.Keys == blocks.Keys && ZERO !in blocks
    requires root in blocks && blocks[root].block.slot == signed.block.slot
    requires parents[root] == signed.block.parentRoot || parents[root] == ZERO
    ensures Mirrors(TreeFrom(blocks[root := signed], parents[root := signed.block.parentRoot]), nodes, index)
            <==> (parents[root] == signed.block.parentRoot || signed.block.parentRoot !in blocks)
  {
    RepeatedTree(blocks, parents, root, signed);
    if parents[root] != signed.block.parentRoot && signed.block.parentRoot in blocks {
      OneParent(TreeFrom(blocks, parents), TreeFrom(blocks[root := signed], parents[root := signed.block.parentRoot]),
                nodes, index, root);
    }
  }

  /** What a repeated import does to the tree of the maps. */
  lemma RepeatedTree(blocks: BlockMap, parents: ParentMap, root: Root, signed: SignedBlock)
    requires parents.Keys == blocks.Keys && ZERO !in blocks
    requires root in blocks && blocks[root].block.slot == signed.block.slot
    requires parents[root] == signed.block.parentRoot || parents[root] == ZERO
    ensures var t, t' := TreeFrom(blocks, parents), TreeFrom(blocks[root := signed], parents[root := signed.block.parentRoot]);
            if parents[root] == signed.block.parentRoot || signed.block.parentRoot !in blocks then t' == t
            else root in t.slots && root !in t.up && root in t'.slots && root in t'.up && t'.up[root] in t.slots
  {
    var t := TreeFrom(blocks, parents);
    var t' := TreeFrom(blocks[root := signed], parents[root := signed.block.parentRoot]);
    if parents[root] == signed.block.parentRoot || signed.block.parentRoot !in blocks {
      assert t'.slots == t.slots;
      assert t'.up == t.up;
    }
  }

  // ------------------------------------------------- a parent that comes back

  ghost function PlainBlock(slot: nat, parentRoot: Root): SignedBlock {
    var c := Checkpoint(ZERO, 0);
    SignedBlock(Block(slot, 0, parentRoot, ZERO, []), Attestation(BitList([], 0), AttestationData(0, c, c, c)), [], [])
  }

  ghost function PlainState(): StateValue {
    var c := Checkpoint(ZERO, 0);
    StateValue(0, 0, BlockHeader(0, 0, ZERO, ZERO, ZERO), c, c, [], [], [], [], [])
  }

  /** Block 2 at slot 2 is what a prune left; its parent, block 1, has been imported
      again since. */
  ghost function ReturnedParent(): Dag {
    Dag(map[2 := PlainBlock(2, 1), 1 := PlainBlock(1, 9)], map[2 := PlainState(), 1 := PlainState()],
        map[2 := ZERO, 1 := 9], map[9 := [1]],
        [Leaf(2, None, 2, 0), Leaf(1, None, 1, 0)], map[2 := 0, 1 := 1])
  }

  ghost function TwoRoots(): Tree {
    Tree(map[2 := 2, 1 := 1], map[])
  }

  lemma ReturnedTree()
    ensures TreeFrom(ReturnedParent().blocks, ReturnedParent().parents) == TwoRoots()
  {
    var t := TreeFrom(ReturnedParent().blocks, ReturnedParent().parents);
    assert t.slots == TwoRoots().slots;
    assert t.up == TwoRoots().up;
  }

  lemma ReturnedDescribes()
    ensures var dag := ReturnedParent(); Describes(TwoRoots(), dag.blocks, dag.parents, dag.children)
  {
    ReturnedTree();
  }

  lemma FirstCaches()
    ensures var dag := AnchorDag(2, PlainBlock(2, ZERO), PlainState());
            Caches(Tree(map[2 := 2], map[]), map[], dag.nodes, dag.index)
  {
    AnchorSound(2, PlainBlock(2, ZERO), PlainState());
    assert Opens(0);
  }

  /** One block and then a second one, unlinked, as imports build them. */
  lemma ReturnedCaches()
    ensures Caches(TwoRoots(), map[], ReturnedParent().nodes, ReturnedParent().index)
  {
    var t, dag := Tree(map[2 := 2], map[]), AnchorDag(2, PlainBlock(2, ZERO), PlainState());
    FirstCaches();
    GrownCaches(t, map[], dag.nodes, dag.index, 1, 1, 0);
    assert Grown(t, 1, 1) == TwoRoots();
    assert dag.nodes + [Leaf(1, None, 1, 0)] == ReturnedParent().nodes;
    assert dag.index[1 := 1] == ReturnedParent().index;
  }

  lemma SoundFrom(t: Tree, dag: Dag)
    requires Describes(t, dag.blocks, dag.parents, dag.children) && dag.states.Keys == dag.blocks.Keys
    requires Caches(t, map[], dag.nodes, dag.index)
    ensures Sound(t, dag, map[], map[]) && Mirrors(t, dag.nodes, dag.index)
  {
  }

  lemma ReturnedSound()
    ensures Sound(TwoRoots(), ReturnedParent(), map[], map[])
    ensures Mirrors(TwoRoots(), ReturnedParent().nodes, ReturnedParent().index)
  {
    ReturnedDescribes();
    ReturnedCaches();
    SoundFrom(TwoRoots(), ReturnedParent());
  }

  lemma ForgottenLink(t: Tree, dag: Dag, root: Root, signed: SignedBlock, post: StateValue)
    requires t == TreeFrom(dag.blocks, dag.parents) && Mirrors(t, dag.nodes, dag.index)
    requires dag.parents.Keys == dag.blocks.Keys && ZERO !in dag.blocks
    requires root in dag.blocks && dag.blocks[root].block.slot == signed.block.slot
    requires dag.parents[root] == ZERO && signed.block.parentRoot in dag.blocks
    ensures var dag' := WithBlock(dag, root, signed, post);
            !Mirrors(TreeFrom(dag'.blocks, dag'.parents), dag.nodes, dag.index)
  {
    ReimportMirrors(dag.blocks, dag.parents, dag.nodes, dag.index, root, signed);
  }

  lemma ReturnedKeys()
    ensures var dag := ReturnedParent();
            && dag.parents.Keys == dag.blocks.Keys && ZERO !in dag.blocks && 2 in dag.blocks && 1 in dag.blocks
            && dag.blocks[2] == PlainBlock(2, 1) && dag.parents[2] == ZERO
  {
    assert ReturnedParent().blocks.Keys == {1, 2};
  }

  /** That store is sound, but importing block 2 once more links it to block 1 in the
      maps and not in the arena. */
  lemma ReimportGoesWrong(dag: Dag, dag': Dag)
    requires dag == ReturnedParent() && dag' == WithBlock(dag, 2, PlainBlock(2, 1), PlainState())
    ensures Sound(TreeFrom(dag.blocks, dag.parents), dag, map[], map[])
    ensures !Mirrors(TreeFrom(dag'.blocks, dag'.parents), dag.nodes, dag.index)
  {
    ReturnedTree();
    ReturnedSound();
    ReturnedKeys();
    ForgottenLink(TwoRoots(), dag, 2, PlainBlock(2, 1), PlainState());
  }
}

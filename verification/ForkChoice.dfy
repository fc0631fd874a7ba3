/** The fork-choice store: blocks and votes arrive one at a time, and the head is
    read off the cached best children. */
module ForkChoice {
  import opened Containers
  import opened Bits
  import opened ForkTree
  import opened ForkTheorems
  import opened ForkArena
  import opened ForkUpkeep
  import opened ForkPrune
  import opened ForkInsert
  import opened Seal

  datatype VoteDisposition = Active | Pending

  /** The set positions of a bit list, in ascending order. */
  method BitlistIndices(bits: BitList) returns (out: seq<nat>)
    ensures forall v: nat :: v in out <==> v in Participants(bits)
    ensures forall i, j :: 0 <= i < j < |out| ==> out[i] < out[j]
  {
    out := [];
    for i := 0 to bits.len
      invariant forall v: nat :: v in out <==> v < i && BitIsSet(bits, v)
      invariant forall j, k :: 0 <= j < k < |out| ==> out[j] < out[k]
    {
      if i / 8 >= |bits.data| {
        NoBitsFrom(bits, i);
        break;
      }
      if TestBit(bits.data[i / 8], i % 8) {
        assert BitIsSet(bits, i);
        assert forall j :: 0 <= j < |out| ==> out[j] in out;
        out := out + [i];
      }
    }
  }

  lemma NoBitsFrom(bits: BitList, i: nat)
    requires i / 8 >= |bits.data|
    ensures forall v: nat :: v >= i ==> !BitIsSet(bits, v)
  {
  }

  lemma OneMoreVote(votes: Votes, rest: set<nat>, v: nat)
    requires rest <= votes.Keys && v in rest
    ensures (votes - rest)[v := votes[v]] == votes - (rest - {v}) && v !in votes - rest
  {
  }

  class ForkChoiceStore {
    const h: Hashes

    var head: Root
    var safeTarget: Root
    var headSlot: nat
    var latestJustified: Checkpoint
    var previousJustified: Checkpoint
    var latestFinalized: Checkpoint
    var reorgsTotal: nat
    var validatorCount: nat
    /** Blocks, post-states, parents and children by block root, and the arena of nodes
        with its index. */
    var dag: Dag
    var latestVotes: Votes
    var latestNewVotes: Votes

    /** The block tree that the block and parent maps describe. */
    ghost var tree: Tree

    ghost predicate Intact()
      reads `dag, `latestVotes, `latestNewVotes, `tree
    {
      Sound(tree, dag, latestVotes, latestNewVotes)
    }

    ghost predicate Consistent()
      reads this
    {
      Intact() && head in dag.blocks && headSlot == dag.blocks[head].block.slot
    }

    ghost function ViewOf(): View
      reads this
    {
      View(tree, dag, latestVotes, latestNewVotes, latestJustified, previousJustified, latestFinalized)
    }

    ghost predicate SafeTargetHolds()
      reads this
    {
      if validatorCount == 0 then safeTarget == head
      else IsSafeTarget(tree, latestVotes, validatorCount, AnchorRoot(), safeTarget)
    }

    /** The store is consistent, its head is the one the naive rule finds, and its safe
        target is the highest block with two thirds of the votes. */
    ghost predicate Valid()
      reads this
    {
      && Consistent()
      && head == HeadOf(tree, latestVotes, latestJustified.root, head)
      && SafeTargetHolds()
    }

    /** A store that holds one anchor block, to which all checkpoints point. */
    constructor Anchored(h: Hashes, anchor: SignedBlock, state: StateValue)
      requires BlockRoot(h, anchor.block) != ZERO && anchor.block.parentRoot != BlockRoot(h, anchor.block)
      ensures Valid() && this.h == h && validatorCount == |state.validators|
      ensures dag == AnchorDag(BlockRoot(h, anchor.block), anchor, state)
      ensures latestVotes == map[] && latestNewVotes == map[] && reorgsTotal == 0
      ensures head == safeTarget == BlockRoot(h, anchor.block)
      ensures latestJustified == previousJustified == Checkpoint(head, state.justified.slot)
      ensures latestFinalized == Checkpoint(head, state.finalized.slot)
    {
      var root := BlockRoot(h, anchor.block);
      this.h := h;
      dag := AnchorDag(root, anchor, state);
      tree := Tree(map[root := anchor.block.slot], map[]);
      latestVotes, latestNewVotes := map[], map[];
      head, safeTarget, headSlot := root, root, anchor.block.slot;
      latestJustified := Checkpoint(root, state.justified.slot);
      previousJustified := Checkpoint(root, state.justified.slot);
      latestFinalized := Checkpoint(root, state.finalized.slot);
      reorgsTotal, validatorCount := 0, |state.validators|;
      new;
      AnchorSound(root, anchor, state);
      AnchorHead(root, anchor.block.slot, validatorCount);
    }

    /** The anchor is refused unless its post-state belongs to it. */
    static method New(h: Hashes, anchor: SignedBlock, state: StateValue) returns (r: Option<ForkChoiceStore>)
      requires BlockRoot(h, anchor.block) != ZERO && anchor.block.parentRoot != BlockRoot(h, anchor.block)
      ensures r.Some? == (state.header.stateRoot == anchor.block.stateRoot || h.state(state) == anchor.block.stateRoot)
      ensures r.Some? ==> fresh(r.value) && r.value.Valid() && r.value.h == h
      ensures r.Some? ==>
                var root := BlockRoot(h, anchor.block);
                && r.value.dag == AnchorDag(root, anchor, state) && r.value.validatorCount == |state.validators|
                && r.value.latestVotes == map[] && r.value.latestNewVotes == map[] && r.value.reorgsTotal == 0
                && r.value.head == r.value.safeTarget == root
                && r.value.latestJustified == r.value.previousJustified == Checkpoint(root, state.justified.slot)
                && r.value.latestFinalized == Checkpoint(root, state.finalized.slot)
    {
      if !StateMatchesBlockRoot(h, state, anchor.block.stateRoot) {
        return None;
      }
      var store := new ForkChoiceStore.Anchored(h, anchor, state);
      return Some(store);
    }

    // ------------------------------------------------------- arena upkeep

    method RecomputeBestChild(p: nat)
      requires p < |dag.nodes| && RootsIndexed(dag.nodes, dag.index) && (forall c :: c in dag.nodes[p].children ==> c < |dag.nodes|)
      modifies `dag
      ensures dag == old(dag).(nodes := dag.nodes)
      ensures |dag.nodes| == |old(dag.nodes)|
      ensures dag.nodes == old(dag.nodes)[p := old(dag.nodes)[p].(bestChild := dag.nodes[p].bestChild)]
      ensures BestCachedAt(dag.nodes, p)
    {
      var childIndices := dag.nodes[p].children;
      var best: Option<nat> := None;
      for k := 0 to |childIndices|
        invariant dag.nodes == old(dag.nodes)
        invariant forall c :: c in childIndices[..k] ==> c < |dag.nodes|
        invariant BestAmong(dag.nodes, childIndices[..k], best)
      {
        var c := childIndices[k];
        assert c in childIndices;
        assert childIndices[..k + 1] == childIndices[..k] + [c];
        if best.None? || Better(dag.nodes, c, best.value) {
          best := Some(c);
        }
      }
      assert childIndices[..|childIndices|] == childIndices;
      dag := dag.(nodes := dag.nodes[p := dag.nodes[p].(bestChild := best)]);
    }

    /** One step of the walk: node `idx` gains `delta`, and its parent looks for its
        best child again. */
    method AddWeightAt(idx: nat, delta: int) returns (parent: Option<nat>)
      requires ChildrenListed(dag.nodes) && RootsIndexed(dag.nodes, dag.index) && BestCached(dag.nodes)
      requires idx < |dag.nodes| && dag.nodes[idx].weight + delta >= 0
      requires dag.nodes[idx].parent.Some? ==> dag.nodes[idx].parent.value < |dag.nodes|
      modifies `dag
      ensures dag == old(dag).(nodes := dag.nodes)
      ensures Reweighed(old(dag.nodes), dag.nodes, idx, delta)
      ensures BestCached(dag.nodes)
      ensures parent == old(dag.nodes)[idx].parent
    {
      dag := dag.(nodes := dag.nodes[idx := dag.nodes[idx].(weight := dag.nodes[idx].weight + delta)]);
      assert dag.nodes[idx].weight >= 0;
      parent := dag.nodes[idx].parent;
      if parent.Some? {
        assert BestCachedAt(old(dag.nodes), parent.value);
        assert dag.nodes[parent.value].children == old(dag.nodes)[parent.value].children;
        RecomputeBestChild(parent.value);
      }
      ReweighKeepsBest(old(dag.nodes), dag.nodes, idx, delta);
    }

    method PropagateWeightFromIndex(start: nat, delta: int, ghost t: Tree)
      requires Mirrors(t, dag.nodes, dag.index) && BestCached(dag.nodes) && start < |dag.nodes|
      requires forall i :: 0 <= i < |dag.nodes| && Descends(t, dag.nodes[start].root, dag.nodes[i].root) ==>
                             dag.nodes[i].weight + delta >= 0
      modifies `dag
      ensures dag == old(dag).(nodes := dag.nodes)
      ensures Raised(t, old(dag.nodes), dag.nodes, old(dag.nodes)[start].root, delta)
      ensures BestCached(dag.nodes)
    {
      var current: Option<nat> := Some(start);
      ghost var was, s := dag.nodes, dag.nodes[start].root;
      while current.Some?
        invariant dag == old(dag).(nodes := dag.nodes)
        invariant SameShape(was, dag.nodes) && BestCached(dag.nodes)
        invariant current.Some? ==> current.value < |was| && Descends(t, s, was[current.value].root)
        invariant PartlyRaised(t, was, dag.nodes, s, current, delta)
        decreases if current.Some? then was[current.value].slot + 1 else 0
      {
        var idx := current.value;
        ghost var before := dag.nodes;
        SameShapeMirrors(t, was, dag.nodes, dag.index);
        PathStep(t, was, dag.index, idx);
        var parent := AddWeightAt(idx, delta);
        RaiseStep(t, was, before, dag.nodes, dag.index, s, idx, delta);
        current := parent;
      }
    }

    // ---------------------------------------------------------------- votes

    /** Adds the vote of `validator` for `root` to the weights, or takes it back. A root
        that is not in the store carries no weight. */
    method ApplyVoteDelta(root: Root, delta: int, ghost t: Tree, ghost votes: Votes, ghost validator: nat)
      requires Caches(t, votes, dag.nodes, dag.index)
      requires || (delta == 1 && validator !in votes)
               || (delta == -1 && validator in votes && votes[validator] == root)
      modifies `dag
      ensures dag == old(dag).(nodes := dag.nodes)
      ensures Caches(t, if delta == 1 then votes[validator := root] else votes - {validator}, dag.nodes, dag.index)
    {
      ghost var before := dag.nodes;
      if delta == -1 {
        WithdrawWeights(t, votes, dag.nodes, validator);
      }
      if root in dag.index {
        PropagateWeightFromIndex(dag.index[root], delta, t);
      }
      SameShapeMirrors(t, before, dag.nodes, dag.index);
      if delta == 1 {
        RaisedCast(t, votes, before, dag.nodes, validator, root);
      } else {
        RaisedWithdraw(t, votes, before, dag.nodes, validator);
      }
    }

    method SetLatestVote(validator: nat, root: Root, ghost t: Tree)
      requires Cached(t, latestVotes, dag.nodes, dag.index)
      modifies `dag, `latestVotes
      ensures dag == old(dag).(nodes := dag.nodes)
      ensures latestVotes == old(latestVotes)[validator := root]
      ensures Cached(t, latestVotes, dag.nodes, dag.index)
    {
      assert Opens(0);
      var previous := if validator in latestVotes then Some(latestVotes[validator]) else None;
      ghost var was := latestVotes;
      latestVotes := latestVotes[validator := root];
      if previous == Some(root) {
        assert latestVotes == was;
        return;
      }
      ghost var others := was - {validator};
      if previous.Some? {
        ApplyVoteDelta(previous.value, -1, t, was, validator);
      } else {
        assert others == was;
      }
      ApplyVoteDelta(root, 1, t, others, validator);
      assert latestVotes == others[validator := root];
    }

    method RecordVote(validator: nat, root: Root, disposition: VoteDisposition)
      requires Intact() && root in dag.blocks
      modifies `dag, `latestVotes, `latestNewVotes
      ensures dag == old(dag).(nodes := dag.nodes)
      ensures disposition.Active? ==>
                latestVotes == old(latestVotes)[validator := root] && latestNewVotes == old(latestNewVotes)
      ensures disposition.Pending? ==>
                && latestNewVotes == old(latestNewVotes)[validator := root]
                && latestVotes == old(latestVotes) && dag.nodes == old(dag.nodes)
      ensures Intact()
    {
      SoundCached(tree, dag, latestVotes, latestNewVotes);
      match disposition
      case Active =>
        SetLatestVote(validator, root, tree);
        SoundAfterVote(tree, old(dag), old(latestVotes), latestNewVotes, dag.nodes, validator, root);
      case Pending =>
        SoundAfterVote(tree, dag, latestVotes, latestNewVotes, dag.nodes, validator, root);
        latestNewVotes := latestNewVotes[validator := root];
    }

    /** Records the attestation's head vote for each participant, as an active or as a
        pending vote; a vote for an unknown block is dropped. */
    method ApplyAttestationVotes(attestation: Attestation, disposition: VoteDisposition) returns (known: bool)
      requires Intact()
      modifies `dag, `latestVotes, `latestNewVotes
      ensures dag == old(dag).(nodes := dag.nodes)
      ensures known == (attestation.data.head.root in dag.blocks)
      ensures latestVotes ==
              if disposition.Active? then Applied(tree, old(latestVotes), attestation) else old(latestVotes)
      ensures latestNewVotes ==
              if disposition.Pending? then Applied(tree, old(latestNewVotes), attestation) else old(latestNewVotes)
      ensures disposition.Pending? ==> dag.nodes == old(dag.nodes)
      ensures Intact()
    {
      var voteRoot := attestation.data.head.root;
      SoundAt(tree, dag, latestVotes, latestNewVotes, voteRoot);
      if voteRoot !in dag.blocks {
        return false;
      }
      var ids := BitlistIndices(attestation.bits);
      for k := 0 to |ids|
        invariant disposition.Active? ==> latestVotes == CastSeq(old(latestVotes), ids[..k], voteRoot)
        invariant disposition.Active? ==> latestNewVotes == old(latestNewVotes)
        invariant disposition.Pending? ==> latestNewVotes == CastSeq(old(latestNewVotes), ids[..k], voteRoot)
        invariant disposition.Pending? ==> latestVotes == old(latestVotes) && dag.nodes == old(dag.nodes)
        invariant Intact() && dag == old(dag).(nodes := dag.nodes)
      {
        assert ids[..k + 1][..k] == ids[..k];
        RecordVote(ids[k], voteRoot, disposition);
      }
      assert ids[..|ids|] == ids;
      CastSeqIsApplied(tree, old(latestVotes), attestation, ids);
      CastSeqIsApplied(tree, old(latestNewVotes), attestation, ids);
      return true;
    }

    // ------------------------------------------------------------ insertion

    /** Links two nodes both ways. */
    method LinkNodes(p: nat, c: nat)
      requires p < |dag.nodes| && c < |dag.nodes| && p != c
      modifies `dag
      ensures dag == old(dag).(nodes := dag.nodes)
      ensures IsLinked(old(dag.nodes), dag.nodes, p, c)
    {
      dag := dag.(nodes := dag.nodes[c := dag.nodes[c].(parent := Some(p))]);
      if c !in dag.nodes[p].children {
        dag := dag.(nodes := dag.nodes[p := dag.nodes[p].(children := dag.nodes[p].children + [c])]);
      }
    }

    /** Links two nodes and lets the parent look for its best child again. */
    method LinkAndRank(p: nat, c: nat, ghost t: Tree)
      requires Mirrors(t, dag.nodes, dag.index) && BestCached(dag.nodes)
      requires p < |dag.nodes| && c < |dag.nodes| && dag.nodes[p].slot < dag.nodes[c].slot && dag.nodes[c].parent.None?
      modifies `dag
      ensures dag == old(dag).(nodes := dag.nodes)
      ensures Mirrors(Link(t, old(dag.nodes)[c].root, old(dag.nodes)[p].root), dag.nodes, dag.index)
      ensures BestCached(dag.nodes) && SameWeights(old(dag.nodes), dag.nodes)
    {
      ghost var was, t' := dag.nodes, Link(t, dag.nodes[c].root, dag.nodes[p].root);
      LinkNodes(p, c);
      LinkMirrors(t, was, dag.nodes, dag.index, p, c);
      ghost var linked := dag.nodes;
      RecomputeBestChild(p);
      LinkedBest(t', was, linked, dag.nodes, dag.index, p, c);
    }

    method AttachChild(p: nat, c: nat, ghost t: Tree)
      requires Caches(t, latestVotes, dag.nodes, dag.index)
      requires p < |dag.nodes| && c < |dag.nodes| && dag.nodes[p].slot < dag.nodes[c].slot
      modifies `dag
      ensures dag == old(dag).(nodes := dag.nodes)
      ensures old(dag.nodes)[c].parent.Some? ==> dag.nodes == old(dag.nodes)
      ensures old(dag.nodes)[c].parent.None? ==>
                Caches(Link(t, old(dag.nodes)[c].root, old(dag.nodes)[p].root), latestVotes, dag.nodes, dag.index)
    {
      if dag.nodes[c].parent == Some(p) {
        return;
      }
      if dag.nodes[c].parent.Some? {
        return;
      }
      ghost var was, t' := dag.nodes, Link(t, dag.nodes[c].root, dag.nodes[p].root);
      LinkAndRank(p, c, t);
      ghost var before := dag.nodes;
      var childWeight := dag.nodes[c].weight;
      LinkRaisable(t, t', latestVotes, was, before, was[p].root, c);
      if childWeight != 0 {
        PropagateWeightFromIndex(p, childWeight, t');
      } else {
        NotRaised(t', before, was[p].root);
      }
      SameShapeMirrors(t', before, dag.nodes, dag.index);
      LinkWeights(t, latestVotes, was, before, dag.nodes, dag.index, p, c);
    }

    /** Links the waiting block `c`, if it is known, under node `p`. */
    method AttachKnownChild(c: Root, parentRoot: Root, p: nat, ghost t: Tree) returns (ghost t': Tree)
      requires Cached(t, latestVotes, dag.nodes, dag.index)
      requires parentRoot in dag.index && dag.index[parentRoot] == p && parentRoot in t.slots
      requires c in t.slots && c != parentRoot ==> t.slots[parentRoot] < t.slots[c]
      modifies `dag
      ensures dag == old(dag).(nodes := dag.nodes)
      ensures t' == AdoptStep(t, c, parentRoot)
      ensures Cached(t', latestVotes, dag.nodes, dag.index)
    {
      assert Opens(0);
      t' := t;
      if c == parentRoot {
        return;
      }
      if c !in dag.index {
        return;
      }
      var childIdx := dag.index[c];
      if dag.nodes[childIdx].parent.None? {
        t' := Link(t, c, parentRoot);
      }
      AttachChild(p, childIdx, t);
    }

    /** Blocks whose parent arrived after them are linked now. */
    method AttachKnownChildren(parentRoot: Root, p: nat, ghost t: Tree) returns (ghost t': Tree)
      requires Cached(t, latestVotes, dag.nodes, dag.index)
      requires parentRoot in dag.index && dag.index[parentRoot] == p
      requires Adoptable(t, ChildList(dag.children, parentRoot), parentRoot)
      modifies `dag
      ensures dag == old(dag).(nodes := dag.nodes)
      ensures t' == WithChildren(t, ChildList(dag.children, parentRoot), parentRoot)
      ensures Cached(t', latestVotes, dag.nodes, dag.index)
    {
      var childRoots := ChildList(dag.children, parentRoot);
      t' := t;
      for k := 0 to |childRoots|
        invariant t' == WithChildren(t, childRoots[..k], parentRoot) && t'.slots == t.slots
        invariant Cached(t', latestVotes, dag.nodes, dag.index) && dag == old(dag).(nodes := dag.nodes)
      {
        assert childRoots[..k + 1][..k] == childRoots[..k];
        assert childRoots[k] in childRoots;
        t' := AttachKnownChild(childRoots[k], parentRoot, p, t');
      }
      assert childRoots[..|childRoots|] == childRoots;
    }

    /** Links a new block under its parent, if that one is known. */
    method AttachToParent(root: Root, idx: nat, parentRoot: Root, ghost t: Tree) returns (ghost t': Tree)
      requires Cached(t, latestVotes, dag.nodes, dag.index)
      requires root in dag.index && dag.index[root] == idx && root in t.slots && root !in t.up
      requires parentRoot in t.slots ==> t.slots[parentRoot] < t.slots[root]
      modifies `dag
      ensures dag == old(dag).(nodes := dag.nodes)
      ensures t' == if parentRoot in t.slots then Link(t, root, parentRoot) else t
      ensures Cached(t', latestVotes, dag.nodes, dag.index)
    {
      assert Opens(0);
      t' := t;
      if parentRoot in dag.index {
        AttachChild(dag.index[parentRoot], idx, t);
        t' := Link(t, root, parentRoot);
      }
    }

    /** Appends a node that is linked to nothing. */
    method PushNode(root: Root, slot: nat, proposerIndex: nat, ghost t: Tree)
      requires Cached(t, latestVotes, dag.nodes, dag.index) && VotesKnown(t, latestVotes) && root !in t.slots
      modifies `dag
      ensures dag == old(dag).(nodes := dag.nodes, index := dag.index)
      ensures Cached(Grown(t, root, slot), latestVotes, dag.nodes, dag.index)
      ensures dag.index == old(dag.index)[root := |old(dag.nodes)|]
    {
      assert Opens(0);
      GrownCaches(t, latestVotes, dag.nodes, dag.index, root, slot, proposerIndex);
      dag := dag.(nodes := dag.nodes + [Leaf(root, None, slot, proposerIndex)], index := dag.index[root := |dag.nodes|]);
    }

    method InsertProtoNode(root: Root, parentRoot: Root, slot: nat, proposerIndex: nat, ghost t: Tree)
      returns (ghost t': Tree)
      requires Prepared(t, latestVotes, dag.nodes, dag.index, dag.children, root, slot, parentRoot)
      modifies `dag
      ensures dag == old(dag).(nodes := dag.nodes, index := dag.index)
      ensures t' == NextTree(t, dag.children, root, slot, parentRoot)
      ensures Cached(t', latestVotes, dag.nodes, dag.index)
    {
      PreparedFacts(t, latestVotes, dag.nodes, dag.index, dag.children, root, slot, parentRoot);
      t' := t;
      if root in dag.index {
        return;
      }
      var idx := |dag.nodes|;
      PushNode(root, slot, proposerIndex, t);
      t' := Grown(t, root, slot);
      t' := AttachToParent(root, idx, parentRoot, t');
      t' := AttachKnownChildren(root, idx, t');
    }

    /** Adds a block with its post-state to the maps and its node to the arena. */
    method InsertBlock(root: Root, signed: SignedBlock, post: StateValue)
      requires Intact() && Importable(dag.blocks, dag.parents, root, signed.block)
      modifies `dag, `tree
      ensures dag == WithBlock(old(dag), root, signed, post).(nodes := dag.nodes, index := dag.index)
      ensures tree == TreeFrom(dag.blocks, dag.parents)
      ensures Intact()
    {
      ghost var t, was := tree, dag;
      SoundReady(t, was, latestVotes, latestNewVotes, root, signed, post);
      dag := WithBlock(dag, root, signed, post);
      ghost var t' := InsertProtoNode(root, signed.block.parentRoot, signed.block.slot, signed.block.proposerIndex, t);
      ghost var now := dag;
      SoundInserted(t, was, latestVotes, latestNewVotes, root, signed, post, now.children, now.nodes, now.index, t');
      tree := t';
    }

    // ------------------------------------------------------------ the head

    method FindHead() returns (r: Root)
      requires Intact()
      ensures r == HeadOf(tree, latestVotes, latestJustified.root, head)
    {
      assert Opens(0);
      if latestJustified.root !in dag.index {
        return head;
      }
      var current: nat := dag.index[latestJustified.root];
      BestChildStep(tree, latestVotes, dag.nodes, dag.index, current);
      while dag.nodes[current].bestChild.Some?
        invariant current < |dag.nodes|
        invariant HeadBelow(tree, latestVotes, dag.nodes, current) == GhostHead(tree, latestVotes, latestJustified.root)
        decreases Above(tree, dag.nodes[current].root)
      {
        BestChildStep(tree, latestVotes, dag.nodes, dag.index, current);
        current := dag.nodes[current].bestChild.value;
      }
      BestChildStep(tree, latestVotes, dag.nodes, dag.index, current);
      return dag.nodes[current].root;
    }

    method IsDescendant(node: Root, ancestor: Root) returns (r: bool)
      requires Intact() && ancestor in dag.blocks
      ensures r == Descends(tree, node, ancestor)
    {
      assert Opens(0);
      if node == ancestor {
        return true;
      }
      var cursor := node;
      while cursor in dag.parents
        invariant cursor != ancestor && Descends(tree, node, ancestor) == Descends(tree, cursor, ancestor)
        decreases Rank(tree, cursor)
      {
        var parent := dag.parents[cursor];
        if parent == ancestor {
          return true;
        }
        if parent == ZERO {
          break;
        }
        cursor := parent;
      }
      return false;
    }

    method HeadChangeIsReorg(oldHead: Root, newHead: Root) returns (r: bool)
      requires Intact() && oldHead in dag.blocks
      ensures r == !Descends(tree, newHead, oldHead)
    {
      assert Opens(0);
      if oldHead == newHead {
        return false;
      }
      var cursor := newHead;
      while true
        invariant Descends(tree, newHead, oldHead) == Descends(tree, cursor, oldHead)
        decreases Rank(tree, cursor)
      {
        if cursor == oldHead {
          return false;
        }
        if cursor in dag.parents && dag.parents[cursor] != ZERO {
          cursor := dag.parents[cursor];
        } else {
          return true;
        }
      }
    }

    // ------------------------------------------------------- the safe target

    function SubtreeWeight(root: Root): nat
      reads this
    {
      if root in dag.index && dag.index[root] < |dag.nodes| && dag.nodes[dag.index[root]].weight >= 0
      then dag.nodes[dag.index[root]].weight else 0
    }

    function AnchorRoot(): Root
      reads this
    {
      if latestFinalized.root in dag.blocks then latestFinalized.root
      else if latestJustified.root in dag.blocks then latestJustified.root
      else head
    }

    /** `best` is the highest block among the anchor and the blocks of its subtree
        backed by two thirds of the validators; ties go to the smaller root. */
    method RefreshSafeTarget()
      requires Intact() && head in dag.blocks
      modifies `safeTarget
      ensures SafeTargetHolds()
    {
      if validatorCount == 0 {
        safeTarget := head;
        return;
      }
      var anchorRoot := AnchorRoot();
      var bestRoot := anchorRoot;
      var rest := dag.blocks.Keys;
      SoundKeys(tree, dag, latestVotes, latestNewVotes);
      SafeAnchor(tree, latestVotes, validatorCount, anchorRoot);
      assert dag.blocks.Keys - rest == {};
      while rest != {}
        invariant rest <= dag.blocks.Keys && bestRoot in dag.blocks
        invariant BestSafe(tree, latestVotes, validatorCount, anchorRoot, dag.blocks.Keys - rest, bestRoot)
        decreases rest
      {
        var root :| root in rest;
        ghost var seen := dag.blocks.Keys - rest;
        rest := rest - {root};
        bestRoot := SaferOf(root, bestRoot, anchorRoot, seen);
        assert seen + {root} == dag.blocks.Keys - rest;
      }
      assert dag.blocks.Keys - rest == tree.slots.Keys;
      safeTarget := bestRoot;
    }

    /** One step of the search for the safe target: `root` replaces `best` if it is a
        higher block with two thirds of the votes in the anchor's subtree. */
    method SaferOf(root: Root, best: Root, anchorRoot: Root, ghost seen: set<Root>) returns (best': Root)
      requires Intact() && anchorRoot in dag.blocks && root in dag.blocks && best in dag.blocks
      requires BestSafe(tree, latestVotes, validatorCount, anchorRoot, seen, best)
      ensures best' in dag.blocks
      ensures BestSafe(tree, latestVotes, validatorCount, anchorRoot, seen + {root}, best')
    {
      SoundAt(tree, dag, latestVotes, latestNewVotes, root);
      SoundAt(tree, dag, latestVotes, latestNewVotes, best);
      SafeStep(tree, latestVotes, validatorCount, anchorRoot, seen, best, root);
      var below := IsDescendant(root, anchorRoot);
      if !below {
        return best;
      }
      if 3 * SubtreeWeight(root) < 2 * validatorCount {
        return best;
      }
      var slot, bestSlot := dag.blocks[root].block.slot, dag.blocks[best].block.slot;
      return if slot > bestSlot || (slot == bestSlot && root < best) then root else best;
    }

    // --------------------------------------------------------------- pruning

    method RecomputeAll()
      requires Mirrors(tree, dag.nodes, dag.index)
      modifies `dag
      ensures dag == old(dag).(nodes := dag.nodes)
      ensures SameShape(old(dag.nodes), dag.nodes) && SameWeights(old(dag.nodes), dag.nodes)
      ensures BestCached(dag.nodes)
    {
      for idx := |dag.nodes| downto 0
        invariant dag == old(dag).(nodes := dag.nodes)
        invariant SameShape(old(dag.nodes), dag.nodes) && SameWeights(old(dag.nodes), dag.nodes)
        invariant forall j :: idx <= j < |dag.nodes| ==> BestCachedAt(dag.nodes, j)
      {
        ghost var before := dag.nodes;
        MirrorsChildren(tree, old(dag.nodes), dag.nodes, dag.index, idx);
        RecomputeBestChild(idx);
        RepointKeepsOthers(before, dag.nodes, idx);
      }
    }

    method ReapplyVotes()
      requires Mirrors(tree, dag.nodes, dag.index) && BestCached(dag.nodes) && Weighted(tree, map[], dag.nodes)
      modifies `dag
      ensures dag == old(dag).(nodes := dag.nodes)
      ensures Caches(tree, latestVotes, dag.nodes, dag.index)
    {
      var rest := latestVotes.Keys;
      ghost var applied: Votes := map[];
      while rest != {}
        invariant rest <= latestVotes.Keys && applied == latestVotes - rest
        invariant Caches(tree, applied, dag.nodes, dag.index) && dag == old(dag).(nodes := dag.nodes)
        decreases rest
      {
        var validator :| validator in rest;
        ApplyVoteDelta(latestVotes[validator], 1, tree, applied, validator);
        OneMoreVote(latestVotes, rest, validator);
        applied := applied[validator := latestVotes[validator]];
        rest := rest - {validator};
      }
      assert applied == latestVotes;
    }

    /** Installs rebuilt maps, arena and votes. */
    method Replace(dag': Dag, votes: Votes, newVotes: Votes, ghost t: Tree)
      modifies `dag, `latestVotes, `latestNewVotes, `tree
      ensures tree == t && dag == dag' && latestVotes == votes && latestNewVotes == newVotes
    {
      dag, latestVotes, latestNewVotes, tree := dag', votes, newVotes, t;
    }

    /** Fills a blank arena: best children first, then one vote after another. */
    method FillCaches()
      requires Unweighted(tree, dag, latestVotes, latestNewVotes)
      modifies `dag
      ensures dag == old(dag).(nodes := dag.nodes)
      ensures Sound(tree, dag, latestVotes, latestNewVotes)
    {
      assert Opens(0);
      ghost var blank := dag.nodes;
      BlankWeighted(tree, dag.nodes);
      RecomputeAll();
      SameShapeMirrors(tree, blank, dag.nodes, dag.index);
      SameWeightsWeighted(tree, map[], blank, dag.nodes);
      ReapplyVotes();
    }

    /** Drops everything outside the subtree of the finalized block and rebuilds maps,
        arena and votes for that subtree. */
    method PruneToFinalized()
      requires Intact() && latestFinalized.root in dag.blocks
      modifies `dag, `latestVotes, `latestNewVotes, `tree
      ensures Intact() && latestFinalized.root in dag.blocks
      ensures PrunedFrom(old(tree), latestFinalized.root, MapsOf(old(dag)), old(latestVotes), old(latestNewVotes),
                         tree, MapsOf(dag), latestVotes, latestNewVotes)
    {
      var dag', votes, newVotes := PruneTo(latestFinalized.root, dag, latestVotes, latestNewVotes, tree);
      Replace(dag', votes, newVotes, PrunedTree(tree, latestFinalized.root));
      FillCaches();
    }

    /** Checkpoints whose block was dropped fall back to the finalized one. */
    method SettleCheckpoints()
      modifies `latestJustified, `previousJustified, `safeTarget
      ensures latestJustified ==
              if old(latestJustified).root in dag.index then old(latestJustified) else latestFinalized
      ensures previousJustified ==
              if old(previousJustified).root in dag.index then old(previousJustified) else latestJustified
      ensures safeTarget == if old(safeTarget) in dag.index then old(safeTarget) else latestFinalized.root
    {
      if latestJustified.root !in dag.index {
        latestJustified := latestFinalized;
      }
      if previousJustified.root !in dag.index {
        previousJustified := latestJustified;
      }
      if safeTarget !in dag.index {
        safeTarget := latestFinalized.root;
      }
    }

    method SetHead(root: Root, slot: nat)
      modifies `head, `headSlot
      ensures head == root && headSlot == slot
    {
      head, headSlot := root, slot;
    }

    /** Moves the head to where the naive rule puts it. */
    method RefreshHead()
      requires Intact() && (head in dag.blocks || latestJustified.root in dag.blocks)
      modifies `head, `headSlot
      ensures head == HeadOf(tree, latestVotes, latestJustified.root, old(head))
      ensures head in dag.blocks && headSlot == dag.blocks[head].block.slot
    {
      SoundHead(tree, dag, latestVotes, latestNewVotes, latestJustified.root);
      var found := FindHead();
      SetHead(found, dag.blocks[found].block.slot);
    }

    /** After a prune: checkpoints, head and safe target move back into the kept tree. */
    method Settle()
      requires Intact() && latestFinalized.root in dag.blocks
      modifies `latestJustified, `previousJustified, `safeTarget, `head, `headSlot
      ensures latestJustified == Settled(dag.blocks, old(latestJustified), latestFinalized)
      ensures previousJustified == Settled(dag.blocks, old(previousJustified), latestJustified)
      ensures head == GhostHead(tree, latestVotes, latestJustified.root) && latestJustified.root in dag.blocks
      ensures head in dag.blocks && headSlot == dag.blocks[head].block.slot
    {
      SoundKeys(tree, dag, latestVotes, latestNewVotes);
      SettleCheckpoints();
      RefreshHead();
      RefreshSafeTarget();
    }

    /** Drops everything that is not the finalized block or a descendant of it. */
    method PruneKnown()
      requires Intact() && latestFinalized.root in dag.blocks
      modifies `dag, `latestVotes, `latestNewVotes, `tree,
               `latestJustified, `previousJustified, `safeTarget, `head, `headSlot
      ensures Intact()
      ensures PrunedFrom(old(tree), latestFinalized.root, MapsOf(old(dag)), old(latestVotes), old(latestNewVotes),
                         tree, MapsOf(dag), latestVotes, latestNewVotes)
      ensures latestJustified == Settled(dag.blocks, old(latestJustified), latestFinalized)
      ensures previousJustified == Settled(dag.blocks, old(previousJustified), latestJustified)
      ensures head == GhostHead(tree, latestVotes, latestJustified.root) && latestJustified.root in dag.blocks
      ensures head in dag.blocks && headSlot == dag.blocks[head].block.slot
    {
      PruneToFinalized();
      Settle();
    }

    // ------------------------------------------------------------- importing

    method ApplyBlockVotes(signed: SignedBlock, includeProposer: bool)
      requires Intact()
      modifies `dag, `latestVotes, `latestNewVotes
      ensures Intact() && dag == old(dag).(nodes := dag.nodes)
      ensures latestVotes == BlockVotes(tree, old(latestVotes), signed, includeProposer)
      ensures LastWord(tree.slots.Keys, old(latestVotes), Brought(signed, includeProposer), tree.slots.Keys, latestVotes)
      ensures latestNewVotes == old(latestNewVotes)
    {
      BlockVotesBrought(tree, latestVotes, signed, includeProposer);
      AppliedLastWord(tree, latestVotes, Brought(signed, includeProposer), tree.slots.Keys);
      var atts := signed.block.attestations;
      for k := 0 to |atts|
        invariant Intact() && dag == old(dag).(nodes := dag.nodes)
        invariant latestVotes == AppliedAll(tree, old(latestVotes), atts[..k]) && latestNewVotes == old(latestNewVotes)
      {
        assert atts[..k + 1][..k] == atts[..k];
        var _ := ApplyAttestationVotes(atts[k], Active);
      }
      assert atts[..|atts|] == atts;
      if includeProposer {
        var _ := ApplyAttestationVotes(signed.proposerAttestation, Active);
      }
    }

    /** Checkpoints only move to higher slots. */
    method AdvanceCheckpoints(post: StateValue) returns (finalizedAdvanced: bool)
      modifies `latestJustified, `previousJustified, `latestFinalized
      ensures latestJustified == Newer(old(latestJustified), post.justified)
      ensures previousJustified ==
              if post.justified.slot > old(latestJustified).slot then old(latestJustified) else old(previousJustified)
      ensures latestFinalized == Newer(old(latestFinalized), post.finalized)
      ensures finalizedAdvanced == (post.finalized.slot > old(latestFinalized).slot)
    {
      if post.justified.slot > latestJustified.slot {
        previousJustified := latestJustified;
        latestJustified := post.justified;
      }
      finalizedAdvanced := post.finalized.slot > latestFinalized.slot;
      if finalizedAdvanced {
        latestFinalized := post.finalized;
      }
    }

    method PruneFinalizedHistory()
      requires Intact()
      modifies `dag, `latestVotes, `latestNewVotes, `tree,
               `latestJustified, `previousJustified, `safeTarget, `head, `headSlot
      ensures Intact()
      ensures latestFinalized.root !in old(dag.blocks) ==> unchanged(this)
      ensures latestFinalized.root in old(dag.blocks) ==>
                && PrunedFrom(old(tree), latestFinalized.root, MapsOf(old(dag)), old(latestVotes), old(latestNewVotes),
                              tree, MapsOf(dag), latestVotes, latestNewVotes)
                && latestJustified == Settled(dag.blocks, old(latestJustified), latestFinalized)
                && previousJustified == Settled(dag.blocks, old(previousJustified), latestJustified)
                && head == GhostHead(tree, latestVotes, latestJustified.root) && latestJustified.root in dag.blocks
                && head in dag.blocks && headSlot == dag.blocks[head].block.slot
    {
      SoundKeys(tree, dag, latestVotes, latestNewVotes);
      if latestFinalized.root == ZERO || latestFinalized.root !in dag.blocks {
        return;
      }
      PruneKnown();
    }

    /** Takes in a block and its votes. */
    method AddBlockAndVotes(root: Root, signed: SignedBlock, post: StateValue, includeProposer: bool)
      requires Intact() && Importable(dag.blocks, dag.parents, root, signed.block)
      modifies `dag, `tree, `latestVotes, `latestNewVotes
      ensures Intact()
      ensures dag == WithBlock(old(dag), root, signed, post).(nodes := dag.nodes, index := dag.index)
      ensures tree == TreeFrom(dag.blocks, dag.parents)
      ensures latestVotes == BlockVotes(tree, old(latestVotes), signed, includeProposer)
      ensures latestNewVotes == old(latestNewVotes)
    {
      InsertBlock(root, signed, post);
      ApplyBlockVotes(signed, includeProposer);
    }

    /** Takes over newer checkpoints and prunes when finality advances. */
    method AdvanceAndPrune(post: StateValue)
      requires Consistent()
      modifies this
      ensures Consistent() && validatorCount == old(validatorCount) && reorgsTotal == old(reorgsTotal)
      ensures Advanced(old(ViewOf()), post, ViewOf())
      ensures if Prunes(old(dag.blocks), old(latestFinalized), post.finalized)
              then head == HeadOf(tree, latestVotes, latestJustified.root, old(head))
              else head == old(head)
    {
      var finalizedAdvanced := AdvanceCheckpoints(post);
      if finalizedAdvanced {
        PruneFinalizedHistory();
      }
      SoundHead(tree, dag, latestVotes, latestNewVotes, latestJustified.root);
    }

    /** Takes in a block, its votes and the checkpoints of its post-state. */
    method AbsorbBlock(root: Root, signed: SignedBlock, post: StateValue, includeProposer: bool)
      requires Consistent() && Importable(dag.blocks, dag.parents, root, signed.block)
      modifies this
      ensures Consistent() && validatorCount == old(validatorCount) && reorgsTotal == old(reorgsTotal)
      ensures Imported(old(ViewOf()), root, signed, post, includeProposer, ViewOf())
      ensures if Prunes(old(dag.blocks)[root := signed], old(latestFinalized), post.finalized)
              then head == HeadOf(tree, latestVotes, latestJustified.root, old(head))
              else head == old(head)
    {
      AddBlockAndVotes(root, signed, post, includeProposer);
      AdvanceAndPrune(post);
    }

    /** Recomputes head and safe target; leaving the old head's chain counts as a reorg. */
    method UpdateHead()
      requires Consistent()
      modifies `head, `headSlot, `reorgsTotal, `safeTarget
      ensures Valid()
      ensures head == HeadOf(tree, latestVotes, latestJustified.root, old(head))
      ensures reorgsTotal == old(reorgsTotal) + (if Descends(tree, head, old(head)) then 0 else 1)
    {
      var oldHead := head;
      RefreshHead();
      var reorg := HeadChangeIsReorg(oldHead, head);
      if reorg {
        reorgsTotal := reorgsTotal + 1;
      }
      RefreshSafeTarget();
    }

    method ImportBlockInternal(signed: SignedBlock, post: StateValue, includeProposer: bool) returns (ok: bool)
      requires Consistent() && Importable(dag.blocks, dag.parents, BlockRoot(h, signed.block), signed.block)
      modifies this
      ensures ok == (post.header.stateRoot == signed.block.stateRoot || h.state(post) == signed.block.stateRoot)
      ensures !ok ==> unchanged(this)
      ensures ok ==> Valid() && validatorCount == old(validatorCount)
      ensures ok ==> Imported(old(ViewOf()), BlockRoot(h, signed.block), signed, post, includeProposer, ViewOf())
      ensures ok ==> LastWord(old(dag.blocks).Keys + {BlockRoot(h, signed.block)}, old(latestVotes),
                              Brought(signed, includeProposer), dag.blocks.Keys, latestVotes)
      ensures ok ==> CheckpointsLand(old(ViewOf()), BlockRoot(h, signed.block), post, ViewOf())
      ensures ok ==> BlocksLand(old(ViewOf()), BlockRoot(h, signed.block), signed, post, ViewOf())
      ensures ok ==> head == HeadOf(tree, latestVotes, latestJustified.root, old(head))
      ensures ok ==>
                var pruned := Prunes(old(dag.blocks)[BlockRoot(h, signed.block) := signed], old(latestFinalized), post.finalized);
                reorgsTotal == old(reorgsTotal) + (if pruned || Descends(tree, head, old(head)) then 0 else 1)
    {
      if !StateMatchesBlockRoot(h, post, signed.block.stateRoot) {
        return false;
      }
      SoundDescribes(tree, dag, latestVotes, latestNewVotes);
      AbsorbBlock(BlockRoot(h, signed.block), signed, post, includeProposer);
      UpdateHead();
      ImportedLastWord(old(ViewOf()), BlockRoot(h, signed.block), signed, post, includeProposer, ViewOf());
      ImportLands(old(ViewOf()), BlockRoot(h, signed.block), signed, post, includeProposer, ViewOf());
      return true;
    }

    method OnBlock(signed: SignedBlock, post: StateValue) returns (ok: bool)
      requires Valid() && Importable(dag.blocks, dag.parents, BlockRoot(h, signed.block), signed.block)
      modifies this
      ensures ok == (post.header.stateRoot == signed.block.stateRoot || h.state(post) == signed.block.stateRoot)
      ensures Valid() && validatorCount == old(validatorCount)
      ensures !ok ==> unchanged(this)
      ensures ok ==> Imported(old(ViewOf()), BlockRoot(h, signed.block), signed, post, true, ViewOf())
      ensures ok ==> LastWord(old(dag.blocks).Keys + {BlockRoot(h, signed.block)}, old(latestVotes),
                              signed.block.attestations + [signed.proposerAttestation], dag.blocks.Keys, latestVotes)
      ensures ok ==> CheckpointsLand(old(ViewOf()), BlockRoot(h, signed.block), post, ViewOf())
      ensures ok ==> BlocksLand(old(ViewOf()), BlockRoot(h, signed.block), signed, post, ViewOf())
      ensures ok ==> head == HeadOf(tree, latestVotes, latestJustified.root, old(head))
      ensures ok ==>
                var pruned := Prunes(old(dag.blocks)[BlockRoot(h, signed.block) := signed], old(latestFinalized), post.finalized);
                reorgsTotal == old(reorgsTotal) + (if pruned || Descends(tree, head, old(head)) then 0 else 1)
    {
      ok := ImportBlockInternal(signed, post, true);
    }

    // ----------------------------------------------------------- gossip votes

    /** Buffers a vote from gossip; head and weights do not move. */
    method OnAttestation(attestation: Attestation) returns (known: bool)
      requires Valid()
      modifies `dag, `latestVotes, `latestNewVotes
      ensures Valid() && known == (attestation.data.head.root in dag.blocks)
      ensures latestNewVotes == Applied(tree, old(latestNewVotes), attestation)
      ensures LastWord(dag.blocks.Keys, old(latestNewVotes), [attestation], dag.blocks.Keys, latestNewVotes)
      ensures latestVotes == old(latestVotes) && dag == old(dag)
    {
      SoundKeys(tree, dag, latestVotes, latestNewVotes);
      AppliedLastWord(tree, latestNewVotes, [attestation], dag.blocks.Keys);
      AppliedOne(tree, latestNewVotes, attestation);
      known := ApplyAttestationVotes(attestation, Pending);
    }

    /** Makes the pending votes active, in whatever order they come. */
    method PromoteVotes()
      requires Intact()
      modifies `dag, `latestVotes, `latestNewVotes
      ensures Intact() && dag == old(dag).(nodes := dag.nodes)
      ensures latestVotes == old(latestVotes) + old(latestNewVotes) && latestNewVotes == map[]
    {
      var pending := latestNewVotes;
      ghost var votes := latestVotes;
      latestNewVotes := map[];
      SoundEmptied(tree, dag, latestVotes, pending);
      var rest := pending.Keys;
      MergeEnds(votes, pending);
      while rest != {}
        invariant rest <= pending.Keys && Intact() && dag == old(dag).(nodes := dag.nodes)
        invariant latestVotes == votes + (pending - rest) && latestNewVotes == map[]
        decreases rest
      {
        var v :| v in rest;
        SoundPending(tree, old(dag), votes, pending, v);
        MergeStep(votes, pending, rest, v);
        RecordVote(v, pending[v], Active);
        rest := rest - {v};
      }
    }

    method AcceptNewVotes()
      requires Valid()
      modifies `dag, `latestVotes, `latestNewVotes, `head, `headSlot, `reorgsTotal, `safeTarget
      ensures Valid() && dag == old(dag).(nodes := dag.nodes)
      ensures latestVotes == old(latestVotes) + old(latestNewVotes) && latestNewVotes == map[]
      ensures head == HeadOf(tree, latestVotes, latestJustified.root, old(head))
      ensures reorgsTotal == old(reorgsTotal) + (if Descends(tree, head, old(head)) then 0 else 1)
    {
      if latestNewVotes == map[] {
        assert latestVotes + map[] == latestVotes;
        return;
      }
      PromoteVotes();
      UpdateHead();
    }

    method UpdateSafeTarget()
      requires Valid()
      modifies `safeTarget
      ensures Valid() && safeTarget == old(safeTarget)
    {
      RefreshSafeTarget();
      if validatorCount != 0 {
        SafeTargetUnique(tree, latestVotes, validatorCount, AnchorRoot(), safeTarget, old(safeTarget));
      }
    }

    /** The block a proposer should build on. */
    method GetProposalHead() returns (r: Root)
      requires Valid()
      modifies `dag, `latestVotes, `latestNewVotes, `head, `headSlot, `reorgsTotal, `safeTarget
      ensures Valid() && dag == old(dag).(nodes := dag.nodes)
      ensures latestVotes == old(latestVotes) + old(latestNewVotes) && latestNewVotes == map[]
      ensures r == head == HeadOf(tree, latestVotes, latestJustified.root, old(head))
      ensures reorgsTotal == old(reorgsTotal) + (if Descends(tree, head, old(head)) then 0 else 1)
    {
      AcceptNewVotes();
      RefreshHead();
      return head;
    }

    method BufferVotes(pending: seq<Attestation>)
      requires Intact()
      modifies `dag, `latestVotes, `latestNewVotes
      ensures Intact() && dag == old(dag) && latestVotes == old(latestVotes)
      ensures latestNewVotes == AppliedAll(tree, old(latestNewVotes), pending)
      ensures LastWord(dag.blocks.Keys, old(latestNewVotes), pending, dag.blocks.Keys, latestNewVotes)
    {
      SoundKeys(tree, dag, latestVotes, latestNewVotes);
      AppliedLastWord(tree, latestNewVotes, pending, dag.blocks.Keys);
      for k := 0 to |pending|
        invariant Intact() && dag == old(dag) && latestVotes == old(latestVotes)
        invariant latestNewVotes == AppliedAll(tree, old(latestNewVotes), pending[..k])
      {
        assert pending[..k + 1][..k] == pending[..k];
        var _ := ApplyAttestationVotes(pending[k], Pending);
      }
      assert pending[..|pending|] == pending;
    }

    method GetProposalHeadWithPending(pending: seq<Attestation>) returns (r: Root)
      requires Valid()
      modifies `dag, `latestVotes, `latestNewVotes, `head, `headSlot, `reorgsTotal, `safeTarget
      ensures Valid() && dag == old(dag).(nodes := dag.nodes)
      ensures latestVotes == old(latestVotes) + AppliedAll(tree, old(latestNewVotes), pending) && latestNewVotes == map[]
      ensures r == head == HeadOf(tree, latestVotes, latestJustified.root, old(head))
      ensures reorgsTotal == old(reorgsTotal) + (if Descends(tree, head, old(head)) then 0 else 1)
    {
      BufferVotes(pending);
      AcceptNewVotes();
      assert latestVotes + map[] == latestVotes;
      r := GetProposalHead();
    }
  }

  /** What every valid store promises: head and safe target belong to the blocks and votes in
      it. The head is the greedy one from the justified block, if that is known; the safe
      target is the highest block with two thirds of the votes below the finalized block,
      or else below the justified one, or else below the head. */
  lemma StorePromises(store: ForkChoiceStore)
    requires store.Valid()
    ensures store.tree == TreeFrom(store.dag.blocks, store.dag.parents) && store.head in store.dag.blocks
    ensures store.latestJustified.root in store.dag.blocks ==>
              Greedy(store.tree, store.latestVotes, store.latestJustified.root, store.head)
    ensures if store.validatorCount == 0 then store.safeTarget == store.head
            else
              var t, n := store.tree, store.validatorCount;
              var anchor := if store.latestFinalized.root in store.dag.blocks then store.latestFinalized.root
                            else if store.latestJustified.root in store.dag.blocks then store.latestJustified.root
                            else store.head;
              && store.safeTarget in t.slots && Descends(t, store.safeTarget, anchor)
              && (store.safeTarget == anchor || 3 * Weight(t, store.latestVotes, store.safeTarget) >= 2 * n)
              && forall r :: r in t.slots && Descends(t, r, anchor) && 3 * Weight(t, store.latestVotes, r) >= 2 * n ==>
                   || t.slots[r] < t.slots[store.safeTarget]
                   || (t.slots[r] == t.slots[store.safeTarget] && store.safeTarget <= r)
  {
    SoundDescribes(store.tree, store.dag, store.latestVotes, store.latestNewVotes);
    SoundKeys(store.tree, store.dag, store.latestVotes, store.latestNewVotes);
    HeadExactly(store.tree, store.latestVotes, store.latestJustified.root, store.head, store.head);
    if store.validatorCount != 0 {
      SafeExactly(store.tree, store.latestVotes, store.validatorCount, store.AnchorRoot(), store.safeTarget);
    }
  }

  /** A post-state belongs to a block when its header carries the block's state root, or
      when it hashes to it. */
  predicate StateMatchesBlockRoot(h: Hashes, state: StateValue, expected: Root) {
    state.header.stateRoot == expected || h.state(state) == expected
  }
}

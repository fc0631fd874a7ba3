/** Rebuilding the store's maps and arena from the subtree of the finalized block. */
module ForkPrune {
  import opened Containers
  import opened ForkTree
  import opened ForkTheorems
  import opened ForkArena
  import opened ForkUpkeep
  import opened Seal

  type BlockMap = map<Root, SignedBlock>
  type StateMap = map<Root, StateValue>
  type ParentMap = map<Root, Root>
  type ChildMap = map<Root, seq<Root>>

  /** `children[p]` lists exactly the blocks whose recorded parent is `p`. */
  ghost predicate ChildLists(parents: ParentMap, children: ChildMap) {
    && (forall p, c {:trigger c in children[p]} ::
          p != ZERO && p in children && c in children[p] ==> c in parents && parents[c] == p)
    && (forall c {:trigger parents[c]} ::
          c in parents && parents[c] != ZERO ==> parents[c] in children && c in children[parents[c]])
  }

  /** The block maps describe the tree `t`. */
  ghost predicate Describes(t: Tree, blocks: BlockMap, parents: ParentMap, children: ChildMap) {
    && t == TreeFrom(blocks, parents)
    && Ordered(t)
    && parents.Keys == blocks.Keys
    && ZERO !in blocks
    && ChildLists(parents, children)
  }

  lemma ListedChildren(t: Tree, blocks: BlockMap, parents: ParentMap, children: ChildMap, r: Root, c: Root)
    requires Describes(t, blocks, parents, children) && r in blocks
    ensures c in ChildList(children, r) <==> c in Children(t, r)
    ensures c in Children(t, r) ==> c in blocks && c != ZERO
  {
  }

  /** A set that holds `f` and is closed under children holds the whole subtree. */
  lemma {:induction false} ClosedHoldsSubtree(t: Tree, f: Root, s: set<Root>, x: Root)
    requires Ordered(t) && f in s && (forall r, c :: r in s && c in Children(t, r) ==> c in s)
    requires Descends(t, x, f)
    ensures x in s
    decreases Rank(t, x)
  {
    if x != f {
      ClosedHoldsSubtree(t, f, s, t.up[x]);
      assert x in Children(t, t.up[x]);
    }
  }

  lemma KeptChild(t: Tree, f: Root, r: Root, c: Root)
    requires Ordered(t) && r in Kept(t, f) && c in Children(t, r)
    ensures c in Kept(t, f) && c != f
  {
    if c == f {
      DescendsRank(t, r, f);
    }
  }

  /** The search has seen `kept` and still has `stack` to visit. */
  ghost predicate Searching(t: Tree, f: Root, kept: set<Root>, stack: seq<Root>)
  {
    && kept <= Kept(t, f)
    && (forall r :: r in stack ==> r in Kept(t, f))
    && (f in kept || f in stack)
    && (forall r, c :: r in kept && c in Children(t, r) ==> c in kept || c in stack)
  }

  lemma SearchStep(t: Tree, f: Root, kept: set<Root>, stack: seq<Root>, stack': seq<Root>)
    requires Ordered(t) && stack != [] && Searching(t, f, kept, stack)
    requires var root := stack[|stack| - 1];
      forall x :: x in stack' <==> x in stack[..|stack| - 1] || (root !in kept && x in Children(t, root))
    ensures Searching(t, f, kept + {stack[|stack| - 1]}, stack')
  {
    var root := stack[|stack| - 1];
    assert stack == stack[..|stack| - 1] + [root];
    forall c | c in Children(t, root)
      ensures c in Kept(t, f)
    {
      KeptChild(t, f, root, c);
    }
  }

  method PushChildren(stack: seq<Root>, root: Root, blocks: BlockMap, children: ChildMap,
                      ghost t: Tree, ghost parents: ParentMap)
    returns (stack': seq<Root>)
    requires Describes(t, blocks, parents, children) && root in blocks
    ensures forall x :: x in stack' <==> x in stack || x in Children(t, root)
  {
    var cs := ChildList(children, root);
    stack' := stack;
    for j := 0 to |cs|
      invariant stack' == stack + cs[..j]
    {
      ListedChildren(t, blocks, parents, children, root, cs[j]);
      if cs[j] in blocks {
        stack' := stack' + [cs[j]];
      }
    }
    assert cs[..|cs|] == cs;
    forall c
      ensures c in cs <==> c in Children(t, root)
    {
      ListedChildren(t, blocks, parents, children, root, c);
    }
  }

  /** The roots reachable from `f` through the child lists. */
  method KeptRoots(f: Root, blocks: BlockMap, children: ChildMap, ghost t: Tree, ghost parents: ParentMap)
    returns (kept: set<Root>)
    requires Describes(t, blocks, parents, children) && f in blocks
    ensures kept == Kept(t, f)
  {
    kept := {};
    var stack := [f];
    while stack != []
      invariant Searching(t, f, kept, stack)
      decreases Kept(t, f) - kept, |stack|
    {
      var root := stack[|stack| - 1];
      ghost var was, seen := stack, kept;
      assert root in stack;
      stack := stack[..|stack| - 1];
      if root in kept {
        SearchStep(t, f, seen, was, stack);
        assert kept + {root} == kept;
        continue;
      }
      kept := kept + {root};
      stack := PushChildren(stack, root, blocks, children, t, parents);
      SearchStep(t, f, seen, was, stack);
    }
    forall x | x in Kept(t, f)
      ensures x in kept
    {
      ClosedHoldsSubtree(t, f, kept, x);
    }
  }

  // ---------------------------------------------------------------- rebuilding

  /** The block maps of a store together with its arena. */
  datatype Dag = Dag(
    blocks: BlockMap, states: StateMap, parents: ParentMap, children: ChildMap, nodes: Arena, index: map<Root, nat>)

  /** The block maps alone. */
  datatype Maps = Maps(blocks: BlockMap, states: StateMap, parents: ParentMap, children: ChildMap)

  function MapsOf(dag: Dag): Maps {
    Maps(dag.blocks, dag.states, dag.parents, dag.children)
  }

  /** Only `keys` are parents, and each list names blocks of `keys` once. */
  ghost predicate ListedOnce(children: ChildMap, keys: set<Root>) {
    forall p :: p in children ==> p in keys && Once(children[p], keys)
  }

  ghost predicate Once(list: seq<Root>, keys: set<Root>) {
    && (forall i :: 0 <= i < |list| ==> list[i] in keys)
    && (forall i, j :: 0 <= i < j < |list| ==> list[i] != list[j])
  }

  lemma ListedMore(children: ChildMap, keys: set<Root>, root: Root, p: Option<Root>)
    requires ListedOnce(children, keys) && root !in keys && (p.Some? ==> p.value in keys)
    ensures ListedOnce(if p.Some? then children[p.value := ChildList(children, p.value) + [root]] else children, keys + {root})
  {
    if p.Some? {
      assert Once(ChildList(children, p.value) + [root], keys + {root});
    }
  }

  /** The part of `t` on the blocks of `built`, cut off above `f`. */
  ghost function Part(t: Tree, f: Root, built: set<Root>): Tree {
    Tree(map r | r in built && r in t.slots :: t.slots[r],
         map r | r in built && r in t.up && r != f :: t.up[r])
  }

  /** The parent roots recorded after the cut: none for `f`. */
  ghost function NewParents(t: Tree, f: Root): ParentMap {
    map r | r in t.slots :: if r != f && r in t.up then t.up[r] else ZERO
  }

  /** `copy` is `original` on exactly the keys `keys`. */
  ghost predicate CopyOf<V>(copy: map<Root, V>, original: map<Root, V>, keys: set<Root>) {
    copy.Keys == keys && forall r :: r in copy ==> r in original && copy[r] == original[r]
  }

  lemma CopyOne<V>(copy: map<Root, V>, original: map<Root, V>, keys: set<Root>, r: Root)
    requires CopyOf(copy, original, keys) && r in original
    ensures CopyOf(copy[r := original[r]], original, keys + {r})
  {
  }

  ghost predicate Copied(t: Tree, f: Root, blocks: BlockMap, states: StateMap, rb: Dag) {
    && CopyOf(rb.blocks, blocks, rb.index.Keys)
    && CopyOf(rb.states, states, rb.index.Keys)
    && CopyOf(rb.parents, NewParents(t, f), rb.index.Keys)
  }

  ghost predicate Blank(nodes: Arena) {
    forall i {:trigger nodes[i].weight} {:trigger nodes[i].bestChild} :: 0 <= i < |nodes| ==>
      nodes[i].weight == 0 && nodes[i].bestChild.None?
  }

  ghost predicate Building(t: Tree, f: Root, blocks: BlockMap, states: StateMap, rb: Dag)
  {
    && rb.index.Keys <= Kept(t, f)
    && Copied(t, f, blocks, states, rb)
    && ChildLists(rb.parents, rb.children)
    && Mirrors(Part(t, f, rb.index.Keys), rb.nodes, rb.index)
    && Blank(rb.nodes)
  }

  /** Where `root` hangs in the arena under construction. */
  ghost predicate HangsAt(t: Tree, f: Root, index: map<Root, nat>, root: Root, parentIdx: Option<nat>) {
    if root == f then parentIdx.None?
    else root in t.up && t.up[root] in index && parentIdx == Some(index[t.up[root]])
  }

  method AddNode(nodes: Arena, root: Root, parentIdx: Option<nat>, slot: nat, proposerIndex: nat) returns (nodes': Arena)
    requires parentIdx.Some? ==> parentIdx.value < |nodes|
    ensures parentIdx.None? ==> nodes' == nodes + [Leaf(root, None, slot, proposerIndex)]
    ensures parentIdx.Some? ==> IsLinked(nodes + [Leaf(root, None, slot, proposerIndex)], nodes', parentIdx.value, |nodes|)
    ensures Blank(nodes) ==> Blank(nodes')
  {
    nodes' := nodes + [Leaf(root, parentIdx, slot, proposerIndex)];
    if parentIdx.Some? {
      var p := parentIdx.value;
      nodes' := nodes'[p := nodes'[p].(children := nodes'[p].children + [|nodes|])];
    }
  }

  lemma PartGrows(t: Tree, f: Root, built: set<Root>, root: Root)
    requires root in t.slots && root !in built && (root == f || root in t.up)
    ensures root == f ==> Part(t, f, built + {root}) == Grown(Part(t, f, built), root, t.slots[root])
    ensures root != f ==>
              Part(t, f, built + {root}) == Link(Grown(Part(t, f, built), root, t.slots[root]), root, t.up[root])
  {
    var small, big := Part(t, f, built), Part(t, f, built + {root});
    assert big.slots == small.slots[root := t.slots[root]];
    if root == f {
      assert big.up == small.up;
    } else {
      assert big.up == small.up[root := t.up[root]];
    }
  }

  lemma AddedMirrors(t: Tree, f: Root, rb: Dag, nodes': Arena, root: Root, parentIdx: Option<nat>, proposer: nat)
    requires Ordered(t) && root in Kept(t, f) && root !in rb.index && rb.index.Keys <= Kept(t, f)
    requires Mirrors(Part(t, f, rb.index.Keys), rb.nodes, rb.index) && HangsAt(t, f, rb.index, root, parentIdx)
    requires parentIdx.Some? ==> parentIdx.value < |rb.nodes|
    requires var grown := rb.nodes + [Leaf(root, None, t.slots[root], proposer)];
      if parentIdx.None? then nodes' == grown else IsLinked(grown, nodes', parentIdx.value, |rb.nodes|)
    ensures Mirrors(Part(t, f, rb.index[root := |rb.nodes|].Keys), nodes', rb.index[root := |rb.nodes|])
  {
    assert rb.index[root := |rb.nodes|].Keys == rb.index.Keys + {root};
    var part, slot := Part(t, f, rb.index.Keys), t.slots[root];
    var grown := rb.nodes + [Leaf(root, None, slot, proposer)];
    PartGrows(t, f, rb.index.Keys, root);
    GrownMirrors(part, rb.nodes, grown, rb.index, root, slot, proposer);
    if parentIdx.Some? {
      var p := parentIdx.value;
      assert grown[p] == rb.nodes[p] && grown[p].root == t.up[root] && grown[p].slot == part.slots[t.up[root]];
      LinkMirrors(Grown(part, root, slot), grown, nodes', rb.index[root := |rb.nodes|], p, |rb.nodes|);
    }
  }

  lemma AddChildLists(parents: ParentMap, children: ChildMap, root: Root, p: Root)
    requires ChildLists(parents, children)
    requires root in parents ==> parents[root] == p || parents[root] == ZERO
    ensures ChildLists(parents[root := p], children[p := ChildList(children, p) + [root]])
  {
  }

  lemma RootChildLists(parents: ParentMap, children: ChildMap, root: Root)
    requires ChildLists(parents, children) && root !in parents
    ensures ChildLists(parents[root := ZERO], children)
  {
  }

  /** Records the parent of a copied block and lists the block under it. */
  method AddLink(parents: ParentMap, children: ChildMap, root: Root, parentRoot: Option<Root>)
    returns (parents': ParentMap, children': ChildMap)
    requires ChildLists(parents, children) && root !in parents && (parentRoot.Some? ==> parentRoot.value in parents)
    requires ListedOnce(children, parents.Keys)
    ensures ChildLists(parents', children') && ListedOnce(children', parents'.Keys)
    ensures parents' == parents[root := if parentRoot.Some? then parentRoot.value else ZERO]
    ensures children' ==
            if parentRoot.Some? then children[parentRoot.value := ChildList(children, parentRoot.value) + [root]] else children
  {
    ListedMore(children, parents.Keys, root, parentRoot);
    if parentRoot.Some? {
      var p := parentRoot.value;
      AddChildLists(parents, children, root, p);
      parents', children' := parents[root := p], children[p := ChildList(children, p) + [root]];
    } else {
      RootChildLists(parents, children, root);
      parents', children' := parents[root := ZERO], children;
    }
    assert parents'.Keys == parents.Keys + {root};
  }

  lemma AddedBuilding(t: Tree, f: Root, blocks: BlockMap, states: StateMap, rb: Dag, rb': Dag,
                      root: Root, parentIdx: Option<nat>)
    requires Ordered(t) && Building(t, f, blocks, states, rb)
    requires root in Kept(t, f) && root !in rb.index && root in blocks && root in states
    requires HangsAt(t, f, rb.index, root, parentIdx) && (parentIdx.Some? ==> parentIdx.value < |rb.nodes|)
    requires var grown := rb.nodes + [Leaf(root, None, t.slots[root], blocks[root].block.proposerIndex)];
      if parentIdx.None? then rb'.nodes == grown else IsLinked(grown, rb'.nodes, parentIdx.value, |rb.nodes|)
    requires Blank(rb'.nodes) && ChildLists(rb'.parents, rb'.children)
    requires rb'.blocks == rb.blocks[root := blocks[root]] && rb'.states == rb.states[root := states[root]]
    requires rb'.parents == rb.parents[root := NewParents(t, f)[root]]
    requires rb'.index == rb.index[root := |rb.nodes|]
    ensures Building(t, f, blocks, states, rb')
  {
    AddedMirrors(t, f, rb, rb'.nodes, root, parentIdx, blocks[root].block.proposerIndex);
    AddedCopied(t, f, blocks, states, rb, rb', root);
  }

  lemma AddedCopied(t: Tree, f: Root, blocks: BlockMap, states: StateMap, rb: Dag, rb': Dag, root: Root)
    requires Copied(t, f, blocks, states, rb) && root in blocks && root in states && root in t.slots
    requires rb'.blocks == rb.blocks[root := blocks[root]] && rb'.states == rb.states[root := states[root]]
    requires rb'.parents == rb.parents[root := NewParents(t, f)[root]]
    requires rb'.index == rb.index[root := |rb.nodes|]
    ensures Copied(t, f, blocks, states, rb')
  {
    assert rb'.index.Keys == rb.index.Keys + {root};
    CopyOne(rb.blocks, blocks, rb.index.Keys, root);
    CopyOne(rb.states, states, rb.index.Keys, root);
    CopyOne(rb.parents, NewParents(t, f), rb.index.Keys, root);
  }

  /** Copies one block over and hangs its node below its parent's. */
  method AddBlock(rb: Dag, root: Root, parentIdx: Option<nat>, signed: SignedBlock, state: StateValue,
                  ghost t: Tree, ghost f: Root, ghost blocks: BlockMap, ghost states: StateMap)
    returns (rb': Dag)
    requires Ordered(t) && Building(t, f, blocks, states, rb)
    requires root in Kept(t, f) && root !in rb.index && HangsAt(t, f, rb.index, root, parentIdx)
    requires root in blocks && blocks[root] == signed && signed.block.slot == t.slots[root]
    requires root in states && states[root] == state && ListedOnce(rb.children, rb.parents.Keys)
    ensures Building(t, f, blocks, states, rb') && ListedOnce(rb'.children, rb'.parents.Keys)
    ensures rb'.index == rb.index[root := |rb.nodes|]
  {
    var nodes' := AddNode(rb.nodes, root, parentIdx, signed.block.slot, signed.block.proposerIndex);
    var parentRoot := if parentIdx.Some? then Some(rb.nodes[parentIdx.value].root) else None;
    var parents', children' := AddLink(rb.parents, rb.children, root, parentRoot);
    rb' := Dag(rb.blocks[root := signed], rb.states[root := state], parents', children', nodes',
               rb.index[root := |rb.nodes|]);
    AddedBuilding(t, f, blocks, states, rb, rb', root, parentIdx);
  }

  type Entry = (Root, Option<nat>)

  /** The stack holds every child that the rebuilt blocks still lack. */
  ghost predicate Unfinished(t: Tree, f: Root, index: map<Root, nat>, stack: seq<Entry>)
  {
    && (forall e :: e in stack ==> e.0 in Kept(t, f) && HangsAt(t, f, index, e.0, e.1))
    && (f in index || (f, None) in stack)
    && (forall r, c :: r in index && c in Children(t, r) ==> c in index || (c, Some(index[r])) in stack)
  }

  lemma SkipStep(t: Tree, f: Root, index: map<Root, nat>, stack: seq<Entry>)
    requires Ordered(t) && stack != [] && Unfinished(t, f, index, stack) && stack[|stack| - 1].0 in index
    ensures Unfinished(t, f, index, stack[..|stack| - 1])
  {
    assert stack == stack[..|stack| - 1] + [stack[|stack| - 1]];
  }

  lemma BuildStep(t: Tree, f: Root, index: map<Root, nat>, stack: seq<Entry>, idx: nat, stack': seq<Entry>)
    requires Ordered(t) && stack != [] && Unfinished(t, f, index, stack) && stack[|stack| - 1].0 !in index
    requires index.Keys <= Kept(t, f)
    requires var root := stack[|stack| - 1].0;
      forall e :: e in stack' <==> e in stack[..|stack| - 1] || (e.1 == Some(idx) && e.0 in Children(t, root))
    ensures Unfinished(t, f, index[stack[|stack| - 1].0 := idx], stack')
  {
    var top := stack[|stack| - 1];
    var root, index' := top.0, index[top.0 := idx];
    assert top in stack;
    assert stack == stack[..|stack| - 1] + [top];
    forall c | c in Children(t, root)
      ensures c in Kept(t, f) && c != f && (c, Some(idx)) in stack'
    {
      KeptChild(t, f, root, c);
    }
    forall r, c | r in index && c in Children(t, r)
      ensures c in index' || (c, Some(index[r])) in stack'
    {
      assert c in index || (c, Some(index[r])) in stack;
    }
  }

  method PushBuild(stack: seq<Entry>, root: Root, idx: nat, kept: set<Root>, blocks: BlockMap, children: ChildMap,
                   ghost t: Tree, ghost f: Root, ghost parents: ParentMap)
    returns (stack': seq<Entry>)
    requires Describes(t, blocks, parents, children) && root in blocks && root in Kept(t, f) && kept == Kept(t, f)
    ensures forall e :: e in stack' <==> e in stack || (e.1 == Some(idx) && e.0 in Children(t, root))
  {
    var cs := ChildList(children, root);
    stack' := stack;
    for j := |cs| downto 0
      invariant forall e :: e in stack' <==> e in stack || (e.1 == Some(idx) && e.0 in cs[j..])
    {
      ListedChildren(t, blocks, parents, children, root, cs[j]);
      KeptChild(t, f, root, cs[j]);
      assert cs[j..] == [cs[j]] + cs[j + 1..];
      if cs[j] in kept {
        stack' := stack' + [(cs[j], Some(idx))];
      }
    }
    forall c
      ensures c in cs <==> c in Children(t, root)
    {
      ListedChildren(t, blocks, parents, children, root, c);
    }
  }

  /** Takes one entry off the stack and copies its block, unless it is there already. */
  method BuildOne(rb: Dag, stack: seq<Entry>, kept: set<Root>, blocks: BlockMap, states: StateMap, children: ChildMap,
                  ghost t: Tree, ghost f: Root, ghost parents: ParentMap)
    returns (rb': Dag, stack': seq<Entry>)
    requires Describes(t, blocks, parents, children) && states.Keys == blocks.Keys && kept == Kept(t, f)
    requires Building(t, f, blocks, states, rb) && Unfinished(t, f, rb.index, stack) && stack != []
    requires ListedOnce(rb.children, rb.parents.Keys)
    ensures Building(t, f, blocks, states, rb') && Unfinished(t, f, rb'.index, stack')
    ensures ListedOnce(rb'.children, rb'.parents.Keys)
    ensures (rb' == rb && |stack'| < |stack|) || rb.index.Keys < rb'.index.Keys
  {
    var top := stack[|stack| - 1];
    assert top in stack;
    var root, parentIdx := top.0, top.1;
    stack' := stack[..|stack| - 1];
    if root in rb.index {
      SkipStep(t, f, rb.index, stack);
      return rb, stack';
    }
    var idx := |rb.nodes|;
    rb' := AddBlock(rb, root, parentIdx, blocks[root], states[root], t, f, blocks, states);
    stack' := PushBuild(stack', root, idx, kept, blocks, children, t, f, parents);
    BuildStep(t, f, rb.index, stack, idx, stack');
  }

  function Nothing(): Dag {
    Dag(map[], map[], map[], map[], [], map[])
  }

  lemma BuildingNothing(t: Tree, f: Root, blocks: BlockMap, states: StateMap)
    requires Ordered(t) && f in t.slots
    ensures Building(t, f, blocks, states, Nothing())
    ensures Unfinished(t, f, Nothing().index, [(f, None)])
  {
    var rb := Nothing();
    assert rb.index.Keys == {} && rb.blocks.Keys == {} && rb.states.Keys == {} && rb.parents.Keys == {};
    assert Part(t, f, rb.index.Keys) == Tree(map[], map[]);
  }

  lemma Finished(t: Tree, f: Root, index: map<Root, nat>)
    requires Ordered(t) && Unfinished(t, f, index, []) && index.Keys <= Kept(t, f)
    ensures index.Keys == Kept(t, f)
  {
    forall x | x in Kept(t, f)
      ensures x in index.Keys
    {
      ClosedHoldsSubtree(t, f, index.Keys, x);
    }
  }

  /** Rebuilds maps and arena on exactly the subtree of `f`, depth first. */
  method RebuildTree(f: Root, kept: set<Root>, blocks: BlockMap, states: StateMap, children: ChildMap,
                     ghost t: Tree, ghost parents: ParentMap)
    returns (rb: Dag)
    requires Describes(t, blocks, parents, children) && f in blocks && states.Keys == blocks.Keys
    requires kept == Kept(t, f)
    ensures Building(t, f, blocks, states, rb)
    ensures rb.index.Keys == Kept(t, f) && ListedOnce(rb.children, Kept(t, f))
  {
    rb := Nothing();
    var stack: seq<Entry> := [(f, None)];
    BuildingNothing(t, f, blocks, states);
    while stack != []
      invariant Building(t, f, blocks, states, rb) && Unfinished(t, f, rb.index, stack)
      invariant ListedOnce(rb.children, rb.parents.Keys)
      decreases Kept(t, f) - rb.index.Keys, |stack|
    {
      rb, stack := BuildOne(rb, stack, kept, blocks, states, children, t, f, parents);
    }
    Finished(t, f, rb.index);
  }

  lemma PartIsPruned(t: Tree, f: Root)
    requires Ordered(t) && f in t.slots
    ensures Part(t, f, Kept(t, f)) == PrunedTree(t, f)
  {
    assert Part(t, f, Kept(t, f)).slots == PrunedTree(t, f).slots;
    assert Part(t, f, Kept(t, f)).up == PrunedTree(t, f).up;
  }

  /** The rebuilt maps describe the pruned tree. */
  lemma RebuiltDescribes(t: Tree, f: Root, blocks: BlockMap, states: StateMap, parents: ParentMap, children: ChildMap,
                         rb: Dag)
    requires Describes(t, blocks, parents, children) && f in blocks
    requires Copied(t, f, blocks, states, rb) && ChildLists(rb.parents, rb.children)
    requires rb.index.Keys == Kept(t, f)
    ensures Describes(PrunedTree(t, f), rb.blocks, rb.parents, rb.children)
  {
    RebuiltTree(t, f, blocks, rb.blocks, rb.parents);
  }

  lemma RebuiltTree(t: Tree, f: Root, blocks: BlockMap, blocks': BlockMap, parents': ParentMap)
    requires Ordered(t) && f in t.slots && ZERO !in t.slots && t.slots.Keys == blocks.Keys
    requires forall r :: r in blocks ==> t.slots[r] == blocks[r].block.slot
    requires CopyOf(blocks', blocks, Kept(t, f)) && CopyOf(parents', NewParents(t, f), Kept(t, f))
    ensures TreeFrom(blocks', parents') == PrunedTree(t, f)
  {
    var t', from := PrunedTree(t, f), TreeFrom(blocks', parents');
    assert t'.slots == from.slots;
    forall r | r in Kept(t, f)
      ensures r in t'.up <==> r in from.up
      ensures r in t'.up ==> t'.up[r] == from.up[r]
    {
      assert r in parents' && r in blocks';
    }
    assert t'.up == from.up;
  }

  // ------------------------------------------------------------------- votes

  /** Where a vote for `root` goes when everything outside the subtree of `f` is dropped. */
  method NormalizePrunedVoteRoot(root: Root, f: Root, kept: set<Root>, parents: ParentMap,
                                 ghost t: Tree, ghost blocks: BlockMap, ghost children: ChildMap)
    returns (r: Option<Root>)
    requires Describes(t, blocks, parents, children) && f in blocks && root in blocks && kept == Kept(t, f)
    ensures r == if Descends(t, root, f) then Some(root) else if Descends(t, f, root) then Some(f) else None
  {
    if root in kept {
      return Some(root);
    }
    var cursor := f;
    while true
      invariant Descends(t, f, root) == Descends(t, cursor, root)
      decreases Rank(t, cursor)
    {
      if cursor == root {
        return Some(f);
      }
      if cursor !in parents {
        return None;
      }
      var parent := parents[cursor];
      if parent == ZERO {
        return None;
      }
      cursor := parent;
    }
  }

  method NormalizeVotes(votes: Votes, f: Root, kept: set<Root>, parents: ParentMap,
                        ghost t: Tree, ghost blocks: BlockMap, ghost children: ChildMap)
    returns (out: Votes)
    requires Describes(t, blocks, parents, children) && f in blocks && kept == Kept(t, f)
    requires VotesKnown(t, votes)
    ensures out == PrunedVotes(t, votes, f)
  {
    out := map[];
    var rest := votes.Keys;
    ghost var goal := PrunedVotes(t, votes, f);
    while rest != {}
      invariant rest <= votes.Keys
      invariant forall v :: v in out <==> v in goal && v !in rest
      invariant forall v :: v in out ==> out[v] == goal[v]
      decreases rest
    {
      var v :| v in rest;
      rest := rest - {v};
      var normalized := NormalizePrunedVoteRoot(votes[v], f, kept, parents, t, blocks, children);
      if normalized.Some? {
        out := out[v := normalized.value];
      }
    }
  }

  /** `rb` holds exactly the subtree of `f`: the same blocks and states, a fresh arena
      with no weights yet. */
  ghost predicate IsPruned(t: Tree, f: Root, blocks: BlockMap, states: StateMap, rb: Dag)
  {
    && Describes(PrunedTree(t, f), rb.blocks, rb.parents, rb.children)
    && CopyOf(rb.blocks, blocks, Kept(t, f))
    && CopyOf(rb.states, states, Kept(t, f))
    && CopyOf(rb.parents, NewParents(t, f), Kept(t, f))
    && Mirrors(PrunedTree(t, f), rb.nodes, rb.index)
    && Blank(rb.nodes)
  }

  lemma BuiltIsPruned(t: Tree, f: Root, blocks: BlockMap, states: StateMap, parents: ParentMap, children: ChildMap,
                      rb: Dag)
    requires Describes(t, blocks, parents, children) && f in blocks
    requires Building(t, f, blocks, states, rb) && rb.index.Keys == Kept(t, f)
    ensures IsPruned(t, f, blocks, states, rb)
  {
    RebuiltDescribes(t, f, blocks, states, parents, children, rb);
    PartIsPruned(t, f);
  }

  lemma BlankWeighted(t: Tree, nodes: Arena)
    requires Ordered(t) && Blank(nodes)
    ensures Weighted(t, map[], nodes)
  {
    forall i | 0 <= i < |nodes|
      ensures nodes[i].weight == Weight(t, map[], nodes[i].root)
    {
      assert Supporters(t, map[], nodes[i].root) == {};
    }
  }

  lemma PrunedVotesKnown(t: Tree, votes: Votes, f: Root)
    requires Ordered(t) && f in t.slots && VotesKnown(t, votes)
    ensures VotesKnown(PrunedTree(t, f), PrunedVotes(t, votes, f))
  {
  }

  /** Tree, block maps and votes after pruning to `f`, given what they were before: the
      kept blocks and states, their parents except that of `f`, and child lists that
      name each kept child once. */
  ghost predicate PrunedFrom(t: Tree, f: Root, maps: Maps, votes: Votes, newVotes: Votes,
                             t': Tree, maps': Maps, votes': Votes, newVotes': Votes)
  {
    forall k: int :: Opens(k) ==>
      && t' == PrunedTree(t, f)
      && CopyOf(maps'.blocks, maps.blocks, Kept(t, f))
      && CopyOf(maps'.states, maps.states, Kept(t, f))
      && CopyOf(maps'.parents, NewParents(t, f), Kept(t, f))
      && ChildLists(maps'.parents, maps'.children) && ListedOnce(maps'.children, Kept(t, f))
      && votes' == PrunedVotes(t, votes, f)
      && newVotes' == PrunedVotes(t, newVotes, f)
  }

  /** The maps agree with each other, and everything the arena caches is right: each
      node's weight is the number of validators whose latest vote lies in its subtree,
      and each best child is the heaviest. */
  ghost predicate Sound(t: Tree, dag: Dag, votes: Votes, newVotes: Votes) {
    forall k: int :: Opens(k) ==>
      && Describes(t, dag.blocks, dag.parents, dag.children)
      && dag.states.Keys == dag.blocks.Keys
      && Caches(t, votes, dag.nodes, dag.index)
      && VotesKnown(t, votes) && VotesKnown(t, newVotes)
  }

  lemma SoundKeys(t: Tree, dag: Dag, votes: Votes, newVotes: Votes)
    requires Sound(t, dag, votes, newVotes)
    ensures t.slots.Keys == dag.blocks.Keys == dag.index.Keys && ZERO !in dag.blocks
  {
    assert Opens(0);
  }

  /** What a sound store caches for one block. */
  lemma SoundAt(t: Tree, dag: Dag, votes: Votes, newVotes: Votes, r: Root)
    requires Sound(t, dag, votes, newVotes)
    ensures r in dag.blocks <==> r in t.slots
    ensures r in dag.blocks <==> r in dag.index
    ensures r in dag.blocks ==>
              && dag.blocks[r].block.slot == t.slots[r] && dag.index[r] < |dag.nodes|
              && dag.nodes[dag.index[r]].root == r && dag.nodes[dag.index[r]].weight == Weight(t, votes, r)
  {
    assert Opens(0);
  }

  /** The head found from a known block is a known block. */
  lemma SoundHead(t: Tree, dag: Dag, votes: Votes, newVotes: Votes, j: Root)
    requires Sound(t, dag, votes, newVotes)
    ensures j in dag.blocks <==> j in t.slots
    ensures j in dag.blocks ==> GhostHead(t, votes, j) in dag.blocks
  {
    assert Opens(0);
    GhostDescends(t, votes, j);
  }

  lemma SoundEmptied(t: Tree, dag: Dag, votes: Votes, newVotes: Votes)
    requires Sound(t, dag, votes, newVotes)
    ensures Sound(t, dag, votes, map[])
  {
  }

  lemma SoundPending(t: Tree, dag: Dag, votes: Votes, newVotes: Votes, v: nat)
    requires Sound(t, dag, votes, newVotes) && v in newVotes
    ensures newVotes[v] in dag.blocks
  {
    assert Opens(0);
  }

  /** The arena's part of soundness. */
  ghost predicate Cached(t: Tree, votes: Votes, nodes: Arena, index: map<Root, nat>) {
    forall k: int :: Opens(k) ==> Caches(t, votes, nodes, index)
  }

  lemma SoundCached(t: Tree, dag: Dag, votes: Votes, newVotes: Votes)
    requires Sound(t, dag, votes, newVotes)
    ensures Cached(t, votes, dag.nodes, dag.index)
  {
  }

  lemma SoundAfterVote(t: Tree, dag: Dag, votes: Votes, newVotes: Votes, nodes': Arena, v: nat, r: Root)
    requires Sound(t, dag, votes, newVotes) && r in dag.blocks
    ensures Cached(t, votes[v := r], nodes', dag.index) ==> Sound(t, dag.(nodes := nodes'), votes[v := r], newVotes)
    ensures Sound(t, dag, votes, newVotes[v := r])
  {
    assert Opens(0);
  }

  /** The same before any vote has been counted. */
  ghost predicate Unweighted(t: Tree, dag: Dag, votes: Votes, newVotes: Votes) {
    forall k: int :: Opens(k) ==>
      && Describes(t, dag.blocks, dag.parents, dag.children)
      && dag.states.Keys == dag.blocks.Keys
      && Mirrors(t, dag.nodes, dag.index) && Blank(dag.nodes)
      && VotesKnown(t, votes) && VotesKnown(t, newVotes)
  }

  /** Prunes blocks, states and both kinds of votes to the subtree of `f`. */
  method PruneTo(f: Root, dag: Dag, votes: Votes, newVotes: Votes, ghost t: Tree)
    returns (dag': Dag, votes': Votes, newVotes': Votes)
    requires f in dag.blocks && Sound(t, dag, votes, newVotes)
    ensures PrunedFrom(t, f, MapsOf(dag), votes, newVotes, PrunedTree(t, f), MapsOf(dag'), votes', newVotes')
    ensures Unweighted(PrunedTree(t, f), dag', votes', newVotes')
    ensures f in dag'.blocks
  {
    assert Opens(0);
    var kept := KeptRoots(f, dag.blocks, dag.children, t, dag.parents);
    dag' := RebuildTree(f, kept, dag.blocks, dag.states, dag.children, t, dag.parents);
    BuiltIsPruned(t, f, dag.blocks, dag.states, dag.parents, dag.children, dag');
    votes' := NormalizeVotes(votes, f, kept, dag.parents, t, dag.blocks, dag.children);
    newVotes' := NormalizeVotes(newVotes, f, kept, dag.parents, t, dag.blocks, dag.children);
    PrunedVotesKnown(t, votes, f);
    PrunedVotesKnown(t, newVotes, f);
  }

  /** A checkpoint whose block was dropped is replaced. */
  function Settled(known: BlockMap, c: Checkpoint, fallback: Checkpoint): Checkpoint {
    if c.root in known then c else fallback
  }
}

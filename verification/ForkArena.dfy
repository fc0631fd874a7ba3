/** The arena of fork-choice nodes: subtree weights and best children are cached
    in each node and maintained incrementally. */
module ForkArena {
  import opened Containers
  import opened ForkTree
  import opened ForkTheorems

  datatype ProtoNode = ProtoNode(
    root: Root,
    parent: Option<nat>,
    children: seq<nat>,
    slot: nat,
    proposerIndex: nat,
    weight: int,
    bestChild: Option<nat>)

  type Arena = seq<ProtoNode>

  function Leaf(root: Root, parent: Option<nat>, slot: nat, proposerIndex: nat): ProtoNode {
    ProtoNode(root, parent, [], slot, proposerIndex, 0, None)
  }

  // --------------------------------------------------- arena against the tree

  ghost function ParentIndex(t: Tree, index: map<Root, nat>, r: Root): Option<nat> {
    if r in t.up && t.up[r] in index then Some(index[t.up[r]]) else None
  }

  /** Each node is found through `index`, so no two nodes share a root. */
  ghost predicate RootsIndexed(nodes: Arena, index: map<Root, nat>) {
    forall i {:trigger nodes[i].root} :: 0 <= i < |nodes| ==> nodes[i].root in index && index[nodes[i].root] == i
  }

  /** One node per known block. */
  ghost predicate Indexed(t: Tree, nodes: Arena, index: map<Root, nat>) {
    && index.Keys == t.slots.Keys
    && (forall r :: r in index ==> index[r] < |nodes| && nodes[index[r]].root == r)
    && RootsIndexed(nodes, index)
  }

  ghost predicate ChildrenListed(nodes: Arena) {
    forall i: nat, c: nat {:trigger c in nodes[i].children} :: i < |nodes| ==>
      (c in nodes[i].children <==> c < |nodes| && nodes[c].parent == Some(i))
  }

  ghost predicate Mirrors(t: Tree, nodes: Arena, index: map<Root, nat>) {
    && Ordered(t)
    && Indexed(t, nodes, index)
    && (forall i {:trigger nodes[i].slot} :: 0 <= i < |nodes| ==> nodes[i].slot == t.slots[nodes[i].root])
    && (forall i {:trigger nodes[i].parent} :: 0 <= i < |nodes| ==>
          nodes[i].parent == ParentIndex(t, index, nodes[i].root))
    && ChildrenListed(nodes)
  }

  ghost predicate Weighted(t: Tree, votes: Votes, nodes: Arena)
  {
    forall i {:trigger nodes[i].weight} :: 0 <= i < |nodes| ==> nodes[i].weight == Weight(t, votes, nodes[i].root)
  }

  predicate Better(nodes: Arena, x: nat, y: nat)
    requires x < |nodes| && y < |nodes|
  {
    || nodes[x].weight > nodes[y].weight
    || (nodes[x].weight == nodes[y].weight && nodes[x].root < nodes[y].root)
  }

  ghost predicate BestAmong(nodes: Arena, candidates: seq<nat>, best: Option<nat>)
    requires forall c :: c in candidates ==> c < |nodes|
  {
    match best
    case None => candidates == []
    case Some(b) => b in candidates && forall c :: c in candidates ==> c == b || Better(nodes, b, c)
  }

  ghost predicate BestCachedAt(nodes: Arena, i: nat)
    requires i < |nodes|
  {
    (forall c :: c in nodes[i].children ==> c < |nodes|) && BestAmong(nodes, nodes[i].children, nodes[i].bestChild)
  }

  ghost predicate BestCached(nodes: Arena) {
    forall i :: 0 <= i < |nodes| ==> BestCachedAt(nodes, i)
  }

  /** Everything the arena caches is right. */
  ghost predicate Caches(t: Tree, votes: Votes, nodes: Arena, index: map<Root, nat>) {
    Mirrors(t, nodes, index) && Weighted(t, votes, nodes) && BestCached(nodes)
  }

  /** The arenas differ in weights and best children only. */
  ghost predicate SameShape(nodes: Arena, nodes': Arena) {
    && |nodes| == |nodes'|
    && forall i :: 0 <= i < |nodes| ==>
         nodes'[i] == nodes[i].(weight := nodes'[i].weight, bestChild := nodes'[i].bestChild)
  }

  /** `nodes'` is `nodes` with `delta` added to the weight of `r` and all its ancestors. */
  ghost predicate Raised(t: Tree, nodes: Arena, nodes': Arena, r: Root, delta: int)
  {
    && SameShape(nodes, nodes')
    && forall i :: 0 <= i < |nodes| ==>
         nodes'[i].weight == nodes[i].weight + if Descends(t, r, nodes[i].root) then delta else 0
  }

  lemma SameShapeMirrors(t: Tree, nodes: Arena, nodes': Arena, index: map<Root, nat>)
    requires Mirrors(t, nodes, index) && SameShape(nodes, nodes')
    ensures Mirrors(t, nodes', index)
  {
    assert forall i :: 0 <= i < |nodes| ==>
        nodes'[i].children == nodes[i].children && nodes'[i].parent == nodes[i].parent && nodes'[i].root == nodes[i].root;
  }

  /** A cached best child is the best child of the naive rule. */
  lemma CachedBestIsBest(t: Tree, votes: Votes, nodes: Arena, index: map<Root, nat>, i: nat)
    requires Caches(t, votes, nodes, index) && i < |nodes|
    ensures nodes[i].bestChild == None ==> Children(t, nodes[i].root) == {}
    ensures nodes[i].bestChild.Some? ==>
              nodes[i].bestChild.value < |nodes| &&
              IsBest(t, votes, Children(t, nodes[i].root), nodes[nodes[i].bestChild.value].root)
  {
    assert BestCachedAt(nodes, i);
    forall c | c in Children(t, nodes[i].root)
      ensures index[c] in nodes[i].children
    {
      assert nodes[index[c]].parent == Some(i);
    }
    forall k | k in nodes[i].children
      ensures nodes[k].root in Children(t, nodes[i].root)
    {
      assert nodes[k].parent == Some(i);
    }
    if nodes[i].bestChild.Some? {
      var b := nodes[i].bestChild.value;
      forall c | c in Children(t, nodes[i].root)
        ensures c == nodes[b].root || Beats(t, votes, nodes[b].root, c)
      {
        assert index[c] == b || Better(nodes, b, index[c]);
      }
    }
  }

  ghost function HeadBelow(t: Tree, votes: Votes, nodes: Arena, i: nat): Root
    requires i < |nodes|
  {
    GhostHead(t, votes, nodes[i].root)
  }

  /** Following a cached best child is one step of the naive descent. */
  lemma BestChildStep(t: Tree, votes: Votes, nodes: Arena, index: map<Root, nat>, i: nat)
    requires Caches(t, votes, nodes, index) && i < |nodes|
    ensures nodes[i].bestChild.None? ==> HeadBelow(t, votes, nodes, i) == nodes[i].root
    ensures nodes[i].bestChild.Some? ==>
              var b := nodes[i].bestChild.value;
              && b < |nodes|
              && HeadBelow(t, votes, nodes, i) == HeadBelow(t, votes, nodes, b)
              && Above(t, nodes[b].root) < Above(t, nodes[i].root)
  {
    CachedBestIsBest(t, votes, nodes, index, i);
    if nodes[i].bestChild.Some? {
      var b := nodes[nodes[i].bestChild.value].root;
      GhostStep(t, votes, nodes[i].root, b);
      assert b in Above(t, nodes[i].root) && b !in Above(t, b);
    }
  }
}

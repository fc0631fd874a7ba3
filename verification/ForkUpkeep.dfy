/** Why each incremental update leaves the arena's caches right. */
module ForkUpkeep {
  import opened Containers
  import opened Bits
  import opened ForkTree
  import opened ForkTheorems
  import opened ForkArena
  import opened Seal

  /** One step of the walk towards the root: the ancestors of a node are the node
      itself and the ancestors of its parent. */
  lemma PathStep(t: Tree, nodes: Arena, index: map<Root, nat>, i: nat)
    requires Mirrors(t, nodes, index) && i < |nodes|
    ensures nodes[i].parent.Some? ==>
              && nodes[i].parent.value < |nodes|
              && nodes[nodes[i].parent.value].slot < nodes[i].slot
              && Descends(t, nodes[i].root, nodes[nodes[i].parent.value].root)
              && (forall a :: Descends(t, nodes[i].root, a) <==>
                              a == nodes[i].root || Descends(t, nodes[nodes[i].parent.value].root, a))
              && !Descends(t, nodes[nodes[i].parent.value].root, nodes[i].root)
    ensures nodes[i].parent.None? ==> forall a :: Descends(t, nodes[i].root, a) <==> a == nodes[i].root
  {
    var r := nodes[i].root;
    if r in t.up && Descends(t, t.up[r], r) {
      DescendsRank(t, t.up[r], r);
    }
  }

  /** The weights part-way up the walk: `current` and its ancestors are still to do. */
  ghost predicate PartlyRaised(t: Tree, was: Arena, nodes: Arena, s: Root, current: Option<nat>, delta: int)
    requires |was| == |nodes| && (current.Some? ==> current.value < |was|)
  {
    forall i :: 0 <= i < |was| ==>
      nodes[i].weight == was[i].weight +
        if Descends(t, s, was[i].root) && !(current.Some? && Descends(t, was[current.value].root, was[i].root))
        then delta else 0
  }

  ghost predicate Reweighed(before: Arena, nodes: Arena, idx: nat, delta: int)
    requires idx < |before|
  {
    && SameShape(before, nodes)
    && (forall i :: 0 <= i < |before| ==> nodes[i].weight == before[i].weight + if i == idx then delta else 0)
    && (forall i :: 0 <= i < |before| && before[idx].parent != Some(i) ==> nodes[i].bestChild == before[i].bestChild)
  }

  lemma ReweighKeepsBest(before: Arena, nodes: Arena, idx: nat, delta: int)
    requires ChildrenListed(before) && BestCached(before) && idx < |before|
    requires Reweighed(before, nodes, idx, delta)
    requires before[idx].parent.Some? ==>
               before[idx].parent.value < |nodes| && BestCachedAt(nodes, before[idx].parent.value)
    ensures BestCached(nodes)
  {
    forall j | 0 <= j < |nodes|
      ensures BestCachedAt(nodes, j)
    {
      assert BestCachedAt(before, j);
      if before[idx].parent != Some(j) {
        assert idx !in before[j].children;
        assert nodes[j].children == before[j].children;
        forall c, d | c in before[j].children && d in before[j].children
          ensures Better(nodes, c, d) == Better(before, c, d)
        {
          assert c != idx && d != idx;
        }
      }
    }
  }

  lemma RaiseStep(t: Tree, was: Arena, before: Arena, nodes: Arena, index: map<Root, nat>, s: Root, idx: nat, delta: int)
    requires Mirrors(t, was, index) && idx < |was| && SameShape(was, before)
    requires Reweighed(before, nodes, idx, delta)
    requires Descends(t, s, was[idx].root)
    requires PartlyRaised(t, was, before, s, Some(idx), delta)
    ensures SameShape(was, nodes)
    ensures was[idx].parent.Some? ==> was[idx].parent.value < |was| && Descends(t, s, was[was[idx].parent.value].root)
    ensures PartlyRaised(t, was, nodes, s, was[idx].parent, delta)
  {
    PathStep(t, was, index, idx);
    var parent := was[idx].parent;
    if parent.Some? {
      DescendsTransitive(t, s, was[idx].root, was[parent.value].root);
    }
    forall i | 0 <= i < |was|
      ensures nodes[i].weight == was[i].weight +
        if Descends(t, s, was[i].root) && !(parent.Some? && Descends(t, was[parent.value].root, was[i].root))
        then delta else 0
    {
      assert i == idx || was[i].root != was[idx].root;
    }
  }

  ghost predicate VotesKnown(t: Tree, votes: Votes) {
    forall v :: v in votes ==> votes[v] in t.slots
  }

  lemma WithdrawWeights(t: Tree, votes: Votes, nodes: Arena, v: nat)
    requires Ordered(t) && Weighted(t, votes, nodes) && v in votes
    ensures forall i :: 0 <= i < |nodes| ==>
              nodes[i].weight == Weight(t, votes - {v}, nodes[i].root) + Delta(t, votes[v], nodes[i].root)
  {
    forall i | 0 <= i < |nodes|
      ensures nodes[i].weight == Weight(t, votes - {v}, nodes[i].root) + Delta(t, votes[v], nodes[i].root)
    {
      WithdrawWeight(t, votes, v, nodes[i].root);
    }
  }

  lemma RaisedWithdraw(t: Tree, votes: Votes, nodes: Arena, nodes': Arena, v: nat)
    requires Ordered(t) && Weighted(t, votes, nodes) && v in votes
    requires Raised(t, nodes, nodes', votes[v], -1)
    ensures Weighted(t, votes - {v}, nodes')
  {
    WithdrawWeights(t, votes, nodes, v);
  }

  lemma RaisedCast(t: Tree, votes: Votes, nodes: Arena, nodes': Arena, v: nat, r: Root)
    requires Ordered(t) && Weighted(t, votes, nodes) && v !in votes
    requires Raised(t, nodes, nodes', r, 1)
    ensures Weighted(t, votes[v := r], nodes')
  {
    forall i | 0 <= i < |nodes|
      ensures nodes'[i].weight == Weight(t, votes[v := r], nodes'[i].root)
    {
      CastWeight(t, votes, v, r, nodes[i].root);
    }
  }

  /** `linked` is `was` with the parent link from `c` to `p` and back. */
  ghost predicate IsLinked(was: Arena, linked: Arena, p: nat, c: nat)
    requires p < |was| && c < |was|
  {
    && |linked| == |was|
    && linked[c] == was[c].(parent := Some(p), children := linked[c].children)
    && linked[p] == was[p].(parent := linked[p].parent, children := linked[p].children)
    && (forall i :: 0 <= i < |was| && i != p && i != c ==> linked[i] == was[i])
    && (c != p ==> linked[c].children == was[c].children && linked[p].parent == was[p].parent)
    && (forall k :: k in linked[p].children <==> k == c || k in was[p].children)
  }

  lemma LinkMirrors(t: Tree, was: Arena, linked: Arena, index: map<Root, nat>, p: nat, c: nat)
    requires Mirrors(t, was, index) && p < |was| && c < |was| && was[p].slot < was[c].slot
    requires was[c].parent.None? && IsLinked(was, linked, p, c)
    ensures Mirrors(Link(t, was[c].root, was[p].root), linked, index)
  {
    LinkChildrenListed(was, linked, p, c);
    LinkParents(t, was, linked, index, p, c);
  }

  lemma LinkChildrenListed(was: Arena, linked: Arena, p: nat, c: nat)
    requires ChildrenListed(was) && p < |was| && c < |was| && p != c
    requires was[c].parent.None? && IsLinked(was, linked, p, c)
    ensures ChildrenListed(linked)
  {
    forall i: nat, k: nat | i < |linked|
      ensures k in linked[i].children <==> k < |linked| && linked[k].parent == Some(i)
    {
      assert k in was[i].children <==> k < |was| && was[k].parent == Some(i);
      assert k in linked[i].children <==> k in was[i].children || (i == p && k == c);
      assert k < |was| && k != c ==> linked[k].parent == was[k].parent;
    }
  }

  lemma LinkParents(t: Tree, was: Arena, linked: Arena, index: map<Root, nat>, p: nat, c: nat)
    requires Mirrors(t, was, index) && p < |was| && c < |was| && was[p].slot < was[c].slot
    requires was[c].parent.None? && IsLinked(was, linked, p, c)
    ensures var t' := Link(t, was[c].root, was[p].root);
      && Ordered(t') && Indexed(t', linked, index)
      && forall i :: 0 <= i < |linked| ==>
           linked[i].slot == t'.slots[linked[i].root] && linked[i].parent == ParentIndex(t', index, linked[i].root)
  {
    var t' := Link(t, was[c].root, was[p].root);
    LinkOrdered(t, was, index, p, c);
    LinkIndexed(t, was, linked, index, p, c);
    forall i | 0 <= i < |linked|
      ensures linked[i].slot == t'.slots[linked[i].root] && linked[i].parent == ParentIndex(t', index, linked[i].root)
    {
      assert linked[i].root == was[i].root && linked[i].slot == was[i].slot;
      assert was[i].parent == ParentIndex(t, index, was[i].root);
      assert i != c ==> was[i].root != was[c].root;
    }
  }

  lemma LinkOrdered(t: Tree, was: Arena, index: map<Root, nat>, p: nat, c: nat)
    requires Mirrors(t, was, index) && p < |was| && c < |was| && was[p].slot < was[c].slot
    ensures Ordered(Link(t, was[c].root, was[p].root))
  {
    assert was[p].root in index && was[c].root in index;
  }

  lemma LinkIndexed(t: Tree, was: Arena, linked: Arena, index: map<Root, nat>, p: nat, c: nat)
    requires Indexed(t, was, index) && p < |was| && c < |was| && IsLinked(was, linked, p, c)
    ensures Indexed(Link(t, was[c].root, was[p].root), linked, index)
  {
    assert forall i :: 0 <= i < |was| ==> linked[i].root == was[i].root;
  }

  lemma LinkedBest(t': Tree, was: Arena, linked: Arena, nodes: Arena, index: map<Root, nat>, p: nat, c: nat)
    requires BestCached(was) && p < |was| && c < |was| && p != c && IsLinked(was, linked, p, c)
    requires Mirrors(t', linked, index)
    requires |nodes| == |linked| && nodes == linked[p := linked[p].(bestChild := nodes[p].bestChild)] && BestCachedAt(nodes, p)
    ensures Mirrors(t', nodes, index) && BestCached(nodes) && SameWeights(was, nodes)
  {
    LinkKeepsBest(was, linked, nodes, p, c);
    SameShapeMirrors(t', linked, nodes, index);
  }

  lemma LinkKeepsBest(was: Arena, linked: Arena, nodes: Arena, p: nat, c: nat)
    requires BestCached(was) && p < |was| && c < |was| && p != c && IsLinked(was, linked, p, c)
    requires |nodes| == |linked| && nodes == linked[p := linked[p].(bestChild := nodes[p].bestChild)] && BestCachedAt(nodes, p)
    ensures BestCached(nodes)
  {
    forall j | 0 <= j < |nodes|
      ensures BestCachedAt(nodes, j)
    {
      assert BestCachedAt(was, j);
      if j != p {
        assert nodes[j].children == was[j].children && nodes[j].bestChild == was[j].bestChild;
        assert forall i :: 0 <= i < |was| ==> nodes[i].weight == was[i].weight && nodes[i].root == was[i].root;
      }
    }
  }

  ghost predicate SameWeights(was: Arena, nodes: Arena) {
    && |nodes| == |was|
    && forall i :: 0 <= i < |nodes| ==> nodes[i].root == was[i].root && nodes[i].weight == was[i].weight
  }

  lemma LinkRaisable(t: Tree, t': Tree, votes: Votes, was: Arena, before: Arena, r: Root, c: nat)
    requires Ordered(t) && Weighted(t, votes, was) && SameWeights(was, before) && c < |was| && Ordered(t')
    ensures forall i :: 0 <= i < |before| && Descends(t', r, before[i].root) ==>
              before[i].weight + before[c].weight >= 0
  {
  }

  lemma NotRaised(t: Tree, nodes: Arena, r: Root)
    requires Ordered(t)
    ensures Raised(t, nodes, nodes, r, 0)
  {
  }

  lemma LinkWeights(t: Tree, votes: Votes, was: Arena, before: Arena, nodes: Arena, index: map<Root, nat>, p: nat, c: nat)
    requires Mirrors(t, was, index) && Weighted(t, votes, was) && p < |was| && c < |was|
    requires was[p].slot < was[c].slot && was[c].parent.None?
    requires Mirrors(Link(t, was[c].root, was[p].root), before, index) && SameWeights(was, before)
    requires Raised(Link(t, was[c].root, was[p].root), before, nodes, was[p].root, was[c].weight)
    ensures Weighted(Link(t, was[c].root, was[p].root), votes, nodes)
  {
    var rc, rp := was[c].root, was[p].root;
    assert rc !in t.up;
    forall i | 0 <= i < |nodes|
      ensures nodes[i].weight == Weight(Link(t, rc, rp), votes, nodes[i].root)
    {
      LinkWeight(t, votes, rc, rp, was[i].root);
      LinkDescends(t, rc, rp, rp, was[i].root);
      if Descends(t, rp, rc) {
        DescendsRank(t, rp, rc);
      }
    }
  }

  // ------------------------------------------------------------ new nodes

  /** `t` with one more block, linked to nothing. */
  ghost function Grown(t: Tree, root: Root, slot: nat): Tree {
    t.(slots := t.slots[root := slot])
  }

  /** `t` with `c` linked under `root`, if `c` is known and waits for a parent. */
  ghost function AdoptStep(t: Tree, c: Root, root: Root): Tree {
    if c in t.slots && c != root && c !in t.up then Link(t, c, root) else t
  }

  ghost function WithChildren(t: Tree, cs: seq<Root>, root: Root): Tree {
    if cs == [] then t else AdoptStep(WithChildren(t, cs[..|cs| - 1], root), cs[|cs| - 1], root)
  }

  lemma {:induction false} GrownDescends(t: Tree, root: Root, slot: nat, x: Root, a: Root)
    requires Ordered(t) && root !in t.slots
    ensures Ordered(Grown(t, root, slot))
    ensures Descends(Grown(t, root, slot), x, a) == Descends(t, x, a)
    decreases Rank(t, x)
  {
    if x != a && x in t.up {
      GrownDescends(t, root, slot, t.up[x], a);
    }
  }

  lemma GrownWeight(t: Tree, votes: Votes, root: Root, slot: nat, a: Root)
    requires Ordered(t) && root !in t.slots
    ensures Ordered(Grown(t, root, slot))
    ensures Weight(Grown(t, root, slot), votes, a) == Weight(t, votes, a)
    ensures VotesKnown(t, votes) ==> Weight(Grown(t, root, slot), votes, root) == 0
  {
    GrownDescends(t, root, slot, a, a);
    forall v | v in votes
      ensures Descends(Grown(t, root, slot), votes[v], a) == Descends(t, votes[v], a)
      ensures VotesKnown(t, votes) ==> !Descends(Grown(t, root, slot), votes[v], root)
    {
      GrownDescends(t, root, slot, votes[v], a);
      GrownDescends(t, root, slot, votes[v], root);
      if Descends(t, votes[v], root) {
        DescendsRank(t, votes[v], root);
      }
    }
    assert Supporters(Grown(t, root, slot), votes, a) == Supporters(t, votes, a);
    assert VotesKnown(t, votes) ==> Supporters(Grown(t, root, slot), votes, root) == {};
  }

  lemma GrownCaches(t: Tree, votes: Votes, nodes: Arena, index: map<Root, nat>, root: Root, slot: nat, proposer: nat)
    requires Caches(t, votes, nodes, index) && VotesKnown(t, votes) && root !in t.slots
    ensures Caches(Grown(t, root, slot), votes, nodes + [Leaf(root, None, slot, proposer)], index[root := |nodes|])
  {
    var t', nodes' := Grown(t, root, slot), nodes + [Leaf(root, None, slot, proposer)];
    GrownWeight(t, votes, root, slot, root);
    forall i | 0 <= i < |nodes'|
      ensures nodes'[i].weight == Weight(t', votes, nodes'[i].root)
    {
      GrownWeight(t, votes, root, slot, nodes'[i].root);
    }
    GrownBest(nodes, nodes');
    GrownMirrors(t, nodes, nodes', index, root, slot, proposer);
  }

  lemma GrownBest(nodes: Arena, nodes': Arena)
    requires BestCached(nodes) && |nodes'| == |nodes| + 1 && nodes <= nodes'
    requires nodes'[|nodes|].children == [] && nodes'[|nodes|].bestChild.None?
    ensures BestCached(nodes')
  {
    forall i | 0 <= i < |nodes'|
      ensures BestCachedAt(nodes', i)
    {
      if i < |nodes| {
        assert BestCachedAt(nodes, i);
        assert nodes'[i] == nodes[i];
      }
    }
  }

  lemma GrownChildren(nodes: Arena, leaf: ProtoNode)
    requires ChildrenListed(nodes) && leaf.parent.None? && leaf.children == []
    requires forall i {:trigger nodes[i].parent} :: 0 <= i < |nodes| && nodes[i].parent.Some? ==> nodes[i].parent.value < |nodes|
    ensures ChildrenListed(nodes + [leaf])
  {
    var nodes' := nodes + [leaf];
    forall i: nat, c: nat | i < |nodes'|
      ensures c in nodes'[i].children <==> c < |nodes'| && nodes'[c].parent == Some(i)
    {
      if i < |nodes| {
        assert c in nodes[i].children <==> c < |nodes| && nodes[c].parent == Some(i);
      }
    }
  }

  lemma GrownIndexed(t: Tree, nodes: Arena, index: map<Root, nat>, leaf: ProtoNode, slot: nat)
    requires Indexed(t, nodes, index) && leaf.root !in t.slots
    ensures Indexed(Grown(t, leaf.root, slot), nodes + [leaf], index[leaf.root := |nodes|])
  {
  }

  lemma GrownParentIndex(t: Tree, index: map<Root, nat>, root: Root, slot: nat, i: nat, r: Root)
    requires Ordered(t) && index.Keys == t.slots.Keys && root !in t.slots
    ensures ParentIndex(Grown(t, root, slot), index[root := i], r) == ParentIndex(t, index, r)
    ensures r == root ==> ParentIndex(t, index, r).None?
  {
  }

  lemma GrownMirrors(t: Tree, nodes: Arena, nodes': Arena, index: map<Root, nat>, root: Root, slot: nat, proposer: nat)
    requires Mirrors(t, nodes, index) && root !in t.slots
    requires nodes' == nodes + [Leaf(root, None, slot, proposer)]
    ensures Mirrors(Grown(t, root, slot), nodes', index[root := |nodes|])
  {
    var leaf := Leaf(root, None, slot, proposer);
    GrownChildren(nodes, leaf);
    GrownIndexed(t, nodes, index, leaf, slot);
    forall i {:trigger nodes'[i].parent} | 0 <= i < |nodes'|
      ensures nodes'[i].parent == ParentIndex(Grown(t, root, slot), index[root := |nodes|], nodes'[i].root)
    {
      GrownParentIndex(t, index, root, slot, |nodes|, nodes'[i].root);
      if i < |nodes| {
        assert nodes[i].parent == ParentIndex(t, index, nodes[i].root);
      }
    }
  }

  function ChildList(children: map<Root, seq<Root>>, r: Root): seq<Root> {
    if r in children then children[r] else []
  }

  /** The known blocks of `cs` wait for `root` as their parent. */
  ghost predicate Adoptable(t: Tree, cs: seq<Root>, root: Root) {
    root in t.slots &&
    forall c :: c in cs && c in t.slots && c != root ==> c !in t.up && t.slots[root] < t.slots[c]
  }

  /** `root` fits into `t` above its waiting children and below its parent. */
  ghost predicate Insertable(t: Tree, root: Root, slot: nat, parentRoot: Root, cs: seq<Root>) {
    && parentRoot != root && parentRoot !in cs
    && (parentRoot in t.slots ==> t.slots[parentRoot] < slot)
    && Adoptable(Grown(t, root, slot), cs, root)
  }

  /** `t` with the new block `root`, linked to its parent and to waiting children. */
  ghost function Inserted(t: Tree, root: Root, slot: nat, parentRoot: Root, cs: seq<Root>): Tree {
    var grown := Grown(t, root, slot);
    WithChildren(if parentRoot in t.slots then Link(grown, root, parentRoot) else grown, cs, root)
  }

  /** Adoption links exactly the known blocks of `cs` that were waiting. */
  lemma {:induction false} AdoptedUp(t: Tree, cs: seq<Root>, root: Root, r: Root)
    ensures var t' := WithChildren(t, cs, root);
      && t'.slots == t.slots
      && (r in t'.up <==> r in t.up || (r in cs && r in t.slots && r != root))
      && (r in t'.up ==> t'.up[r] == if r in t.up then t.up[r] else root)
  {
    if cs != [] {
      AdoptedUp(t, cs[..|cs| - 1], root, r);
      AdoptedUp(t, cs[..|cs| - 1], root, cs[|cs| - 1]);
    }
  }

  // -------------------------------------------------------- attestation votes

  /** The votes after an attestation: each participant now votes for the attested
      head, provided that block is known. */
  ghost function Applied(t: Tree, votes: Votes, att: Attestation): Votes {
    if att.data.head.root in t.slots
    then votes + map v | v in Participants(att.bits) :: att.data.head.root
    else votes
  }

  ghost function AppliedAll(t: Tree, votes: Votes, atts: seq<Attestation>): Votes {
    if atts == [] then votes else Applied(t, AppliedAll(t, votes, atts[..|atts| - 1]), atts[|atts| - 1])
  }

  /** Attestation `i` names `v` and a known head. */
  ghost predicate Names(known: set<Root>, atts: seq<Attestation>, v: nat, i: nat) {
    i < |atts| && v in Participants(atts[i].bits) && atts[i].data.head.root in known
  }

  /** And no later one does. */
  ghost predicate Decides(known: set<Root>, atts: seq<Attestation>, v: nat, i: nat) {
    Names(known, atts, v, i) && forall j: nat :: i < j ==> !Names(known, atts, v, j)
  }

  ghost predicate Unnamed(known: set<Root>, atts: seq<Attestation>, v: nat) {
    forall i: nat :: !Names(known, atts, v, i)
  }

  /** Everyone votes for the head of the last attestation that names them, and those whom
      none names vote as before, as far as the block voted for is still in `kept`. Sealed. */
  ghost predicate LastWord(known: set<Root>, before: Votes, atts: seq<Attestation>, kept: set<Root>, after: Votes) {
    forall k: int :: Opens(k) ==>
      && (forall v, i: nat :: Decides(known, atts, v, i) && atts[i].data.head.root in kept ==>
            v in after && after[v] == atts[i].data.head.root)
      && (forall v :: Unnamed(known, atts, v) && v in before && before[v] in kept ==> v in after && after[v] == before[v])
      && (forall v :: Unnamed(known, atts, v) && v !in before ==> v !in after)
  }

  lemma WordDecides(known: set<Root>, before: Votes, atts: seq<Attestation>, kept: set<Root>, after: Votes, v: nat, i: nat)
    requires LastWord(known, before, atts, kept, after) && Decides(known, atts, v, i) && atts[i].data.head.root in kept
    ensures v in after && after[v] == atts[i].data.head.root
  {
    assert Opens(0);
  }

  lemma WordKeeps(known: set<Root>, before: Votes, atts: seq<Attestation>, kept: set<Root>, after: Votes, v: nat)
    requires LastWord(known, before, atts, kept, after) && Unnamed(known, atts, v)
    ensures v in before && before[v] in kept ==> v in after && after[v] == before[v]
    ensures v !in before ==> v !in after
  {
    assert Opens(0);
  }

  lemma NamesInit(known: set<Root>, atts: seq<Attestation>, v: nat, i: nat)
    requires i < |atts| - 1
    ensures Names(known, atts[..|atts| - 1], v, i) == Names(known, atts, v, i)
  {
  }

  lemma {:induction false} AppliedDecides(t: Tree, votes: Votes, atts: seq<Attestation>, v: nat, i: nat)
    requires Decides(t.slots.Keys, atts, v, i)
    ensures v in AppliedAll(t, votes, atts) && AppliedAll(t, votes, atts)[v] == atts[i].data.head.root
  {
    var known, init := t.slots.Keys, atts[..|atts| - 1];
    if i < |init| {
      forall j: nat | i <= j < |init|
        ensures Names(known, init, v, j) == Names(known, atts, v, j)
      {
        NamesInit(known, atts, v, j);
      }
      assert !Names(known, atts, v, |init|);
      AppliedDecides(t, votes, init, v, i);
    }
  }

  lemma {:induction false} AppliedUnnamed(t: Tree, votes: Votes, atts: seq<Attestation>, v: nat)
    requires Unnamed(t.slots.Keys, atts, v)
    ensures v in AppliedAll(t, votes, atts) <==> v in votes
    ensures v in votes ==> AppliedAll(t, votes, atts)[v] == votes[v]
  {
    if atts != [] {
      var known, init := t.slots.Keys, atts[..|atts| - 1];
      forall j: nat
        ensures !Names(known, init, v, j)
      {
        if j < |init| {
          NamesInit(known, atts, v, j);
        }
      }
      assert !Names(known, atts, v, |init|);
      AppliedUnnamed(t, votes, init, v);
    }
  }

  /** Counting attestations one by one lets the last word decide. */
  lemma AppliedLastWord(t: Tree, votes: Votes, atts: seq<Attestation>, kept: set<Root>)
    ensures LastWord(t.slots.Keys, votes, atts, kept, AppliedAll(t, votes, atts))
  {
    forall v, i: nat | Decides(t.slots.Keys, atts, v, i)
      ensures v in AppliedAll(t, votes, atts) && AppliedAll(t, votes, atts)[v] == atts[i].data.head.root
    {
      AppliedDecides(t, votes, atts, v, i);
    }
    forall v | Unnamed(t.slots.Keys, atts, v)
      ensures v in AppliedAll(t, votes, atts) <==> v in votes
      ensures v in votes ==> AppliedAll(t, votes, atts)[v] == votes[v]
    {
      AppliedUnnamed(t, votes, atts, v);
    }
  }

  lemma AppliedOne(t: Tree, votes: Votes, att: Attestation)
    ensures AppliedAll(t, votes, [att]) == Applied(t, votes, att)
  {
    assert [att][..0] == [];
  }

  /** One vote after another for the same block. */
  ghost function CastSeq(votes: Votes, ids: seq<nat>, r: Root): Votes {
    if ids == [] then votes else CastSeq(votes, ids[..|ids| - 1], r)[ids[|ids| - 1] := r]
  }

  lemma {:induction false} CastSeqAt(votes: Votes, ids: seq<nat>, r: Root, v: nat)
    ensures v in CastSeq(votes, ids, r) <==> v in votes || v in ids
    ensures v in CastSeq(votes, ids, r) ==> CastSeq(votes, ids, r)[v] == if v in ids then r else votes[v]
  {
    if ids != [] {
      CastSeqAt(votes, ids[..|ids| - 1], r, v);
    }
  }

  lemma CastSeqIsApplied(t: Tree, votes: Votes, att: Attestation, ids: seq<nat>)
    requires forall v: nat :: v in ids <==> v in Participants(att.bits)
    requires att.data.head.root in t.slots
    ensures CastSeq(votes, ids, att.data.head.root) == Applied(t, votes, att)
  {
    var r := att.data.head.root;
    forall v: nat
      ensures v in CastSeq(votes, ids, r) <==> v in Applied(t, votes, att)
      ensures v in CastSeq(votes, ids, r) ==> CastSeq(votes, ids, r)[v] == Applied(t, votes, att)[v]
    {
      CastSeqAt(votes, ids, r, v);
    }
  }

  // ---------------------------------------------------- recomputing everything

  lemma MirrorsChildren(t: Tree, was: Arena, nodes: Arena, index: map<Root, nat>, i: nat)
    requires Mirrors(t, was, index) && SameShape(was, nodes) && i < |nodes|
    ensures RootsIndexed(nodes, index) && forall c :: c in nodes[i].children ==> c < |nodes|
  {
    assert nodes[i].children == was[i].children;
  }

  /** Replacing a best child leaves the other nodes' caches alone. */
  lemma RepointKeepsOthers(before: Arena, nodes: Arena, i: nat)
    requires i < |before| && |nodes| == |before|
    requires nodes == before[i := before[i].(bestChild := nodes[i].bestChild)]
    ensures SameShape(before, nodes) && SameWeights(before, nodes)
    ensures forall j {:trigger BestCachedAt(nodes, j)} ::
              0 <= j < |nodes| && j != i && BestCachedAt(before, j) ==> BestCachedAt(nodes, j)
  {
  }

  lemma SameWeightsWeighted(t: Tree, votes: Votes, was: Arena, nodes: Arena)
    requires Ordered(t) && Weighted(t, votes, was) && SameWeights(was, nodes)
    ensures Weighted(t, votes, nodes)
  {
  }

  // -------------------------------------------------------- merging vote books

  lemma MergeEnds(votes: Votes, pending: Votes)
    ensures votes + (pending - pending.Keys) == votes
    ensures pending - {} == pending
  {
  }

  lemma MergeStep(votes: Votes, pending: Votes, rest: set<nat>, v: nat)
    requires v in rest && rest <= pending.Keys
    ensures (votes + (pending - rest))[v := pending[v]] == votes + (pending - (rest - {v}))
  {
  }
}

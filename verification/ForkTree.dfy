/** The block tree and the naive fork-choice rule, stated without any caching:
    count the votes in each subtree, then walk greedily towards the leaves. */
module ForkTree {
  import opened Containers

  /** Known blocks with their slots; `up` maps a block to its parent when the
      parent is known too. */
  datatype Tree = Tree(slots: map<Root, nat>, up: map<Root, Root>)

  /** Latest vote of each validator. */
  type Votes = map<nat, Root>

  /** Slots rise along parent links, so the tree has no cycles. */
  ghost predicate Ordered(t: Tree) {
    forall r :: r in t.up ==> r in t.slots && t.up[r] in t.slots && t.slots[t.up[r]] < t.slots[r]
  }

  ghost function Rank(t: Tree, r: Root): nat {
    if r in t.slots then t.slots[r] + 1 else 0
  }

  /** `a` is `r` or an ancestor of it. The test on ranks makes the definition total; in
      an ordered tree it always succeeds. */
  ghost predicate Descends(t: Tree, r: Root, a: Root)
    decreases Rank(t, r)
  {
    r == a || (r in t.up && Rank(t, t.up[r]) < Rank(t, r) && Descends(t, t.up[r], a))
  }

  lemma {:induction false} DescendsRank(t: Tree, r: Root, a: Root)
    requires Ordered(t) && Descends(t, r, a)
    ensures r != a ==> Rank(t, a) < Rank(t, r) && r in t.slots && a in t.slots
    decreases Rank(t, r)
  {
    if r != a {
      DescendsRank(t, t.up[r], a);
    }
  }

  lemma {:induction false} DescendsTransitive(t: Tree, r: Root, m: Root, a: Root)
    requires Ordered(t) && Descends(t, r, m) && Descends(t, m, a)
    ensures Descends(t, r, a)
    decreases Rank(t, r)
  {
    if r != m {
      DescendsTransitive(t, t.up[r], m, a);
    }
  }

  /** The ancestors of one block lie on one line. */
  lemma {:induction false} AncestorsComparable(t: Tree, r: Root, a: Root, b: Root)
    requires Ordered(t) && Descends(t, r, a) && Descends(t, r, b)
    ensures Descends(t, a, b) || Descends(t, b, a)
    decreases Rank(t, r)
  {
    if r != a && r != b {
      AncestorsComparable(t, t.up[r], a, b);
    }
  }

  ghost function Children(t: Tree, p: Root): set<Root> {
    set c | c in t.up && t.up[c] == p
  }

  /** The child of `a` on the way to its descendant `r`. */
  ghost function ChildTowards(t: Tree, r: Root, a: Root): (c: Root)
    requires Ordered(t) && Descends(t, r, a) && r != a
    ensures c in Children(t, a) && Descends(t, r, c)
    decreases Rank(t, r)
  {
    if t.up[r] == a then r else ChildTowards(t, t.up[r], a)
  }

  // ---------------------------------------------------------------- weights

  /** The validators whose latest vote lies in the subtree of `a`. */
  ghost function Supporters(t: Tree, votes: Votes, a: Root): set<nat>
  {
    set v | v in votes && Descends(t, votes[v], a)
  }

  ghost function Weight(t: Tree, votes: Votes, a: Root): nat
  {
    |Supporters(t, votes, a)|
  }

  /** Heavier first; equal weights are decided by the smaller root. */
  ghost predicate Beats(t: Tree, votes: Votes, x: Root, y: Root)
  {
    || Weight(t, votes, x) > Weight(t, votes, y)
    || (Weight(t, votes, x) == Weight(t, votes, y) && x < y)
  }

  ghost predicate IsBest(t: Tree, votes: Votes, candidates: set<Root>, b: Root)
  {
    b in candidates && forall c :: c in candidates ==> c == b || Beats(t, votes, b, c)
  }

  lemma BestExists(t: Tree, votes: Votes, candidates: set<Root>)
    requires candidates != {}
    ensures exists b :: IsBest(t, votes, candidates, b)
  {
    var c :| c in candidates;
    var rest := candidates - {c};
    if rest == {} {
      assert IsBest(t, votes, candidates, c);
    } else {
      BestExists(t, votes, rest);
      var b :| IsBest(t, votes, rest, b);
      var best := if Beats(t, votes, c, b) then c else b;
      forall x | x in candidates
        ensures x == best || Beats(t, votes, best, x)
      {
        assert x == c || x in rest;
      }
      assert IsBest(t, votes, candidates, best);
    }
  }

  lemma BestUnique(t: Tree, votes: Votes, candidates: set<Root>, b: Root, b': Root)
    requires IsBest(t, votes, candidates, b) && IsBest(t, votes, candidates, b')
    ensures b == b'
  {
  }

  ghost function Above(t: Tree, r: Root): set<Root> {
    set x | x in t.slots && Rank(t, x) > Rank(t, r)
  }

  /** The naive head: the leaf reached from `r` by always taking the best child. Again
      the last test only makes the definition total. */
  ghost function GhostHead(t: Tree, votes: Votes, r: Root): Root
    decreases Above(t, r)
  {
    if Children(t, r) == {} then r
    else
      BestExists(t, votes, Children(t, r));
      var b :| IsBest(t, votes, Children(t, r), b);
      if Above(t, b) < Above(t, r) then GhostHead(t, votes, b) else r
  }

  lemma ChildBelow(t: Tree, r: Root, b: Root)
    requires Ordered(t) && b in Children(t, r)
    ensures Above(t, b) < Above(t, r)
  {
    assert b in Above(t, r) && b !in Above(t, b);
  }

  lemma GhostStep(t: Tree, votes: Votes, r: Root, b: Root)
    requires Ordered(t) && IsBest(t, votes, Children(t, r), b)
    ensures GhostHead(t, votes, r) == GhostHead(t, votes, b)
  {
    ChildBelow(t, r, b);
    forall b' | IsBest(t, votes, Children(t, r), b')
      ensures b' == b
    {
      BestUnique(t, votes, Children(t, r), b, b');
    }
  }

  /** The naive head from the justified root, or the current head when that root
      is not known. */
  ghost function HeadOf(t: Tree, votes: Votes, justified: Root, current: Root): Root {
    if justified in t.slots then GhostHead(t, votes, justified) else current
  }

  /** The tree described by a store's block and parent maps. */
  ghost function TreeFrom(blocks: map<Root, SignedBlock>, parents: map<Root, Root>): Tree {
    Tree(map r | r in blocks :: blocks[r].block.slot,
         map r | r in blocks && r in parents && parents[r] in blocks :: parents[r])
  }
}

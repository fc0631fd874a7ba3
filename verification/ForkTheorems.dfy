/** What holds of the naive fork-choice rule when the tree or the votes change. */
module ForkTheorems {
  import opened Containers
  import opened ForkTree
  import opened Sizes

  // ------------------------------------------------------------ small steps

  ghost function Link(t: Tree, c: Root, p: Root): Tree {
    t.(up := t.up[c := p])
  }

  /** Linking a parentless block `c` under `p` adds exactly the paths through that link. */
  lemma {:induction false} LinkDescends(t: Tree, c: Root, p: Root, x: Root, a: Root)
    requires Ordered(t) && c in t.slots && p in t.slots && c !in t.up && t.slots[p] < t.slots[c]
    ensures Ordered(Link(t, c, p))
    ensures Descends(Link(t, c, p), x, a) == (Descends(t, x, a) || (Descends(t, x, c) && Descends(t, p, a)))
    decreases Rank(t, x)
  {
    if x == c {
      LinkDescends(t, c, p, p, a);
      if Descends(t, p, c) {
        DescendsRank(t, p, c);
      }
    } else if x in t.up {
      LinkDescends(t, c, p, t.up[x], a);
    }
  }

  lemma LinkWeight(t: Tree, votes: Votes, c: Root, p: Root, a: Root)
    requires Ordered(t) && c in t.slots && p in t.slots && c !in t.up && t.slots[p] < t.slots[c]
    ensures Ordered(Link(t, c, p))
    ensures Weight(Link(t, c, p), votes, a) ==
            Weight(t, votes, a) + (if Descends(t, p, a) then Weight(t, votes, c) else 0)
  {
    LinkDescends(t, c, p, c, a);
    var t' := Link(t, c, p);
    var s, s', moved := Supporters(t, votes, a), Supporters(t', votes, a), Supporters(t, votes, c);
    forall v | v in votes
      ensures v in s' <==> v in s || (v in moved && Descends(t, p, a))
    {
      LinkDescends(t, c, p, votes[v], a);
    }
    if Descends(t, p, a) {
      forall v | v in moved
        ensures v !in s
      {
        if v in s {
          AncestorsComparable(t, votes[v], a, c);
          if Descends(t, a, c) {
            DescendsTransitive(t, p, a, c);
            DescendsRank(t, p, c);
          }
        }
      }
      assert s' == s + moved && s !! moved;
    } else {
      assert s' == s;
    }
  }

  ghost function Delta(t: Tree, r: Root, a: Root): nat
  {
    if Descends(t, r, a) then 1 else 0
  }

  /** A first vote of `v` for `r` counts once for `r` and each of its ancestors. */
  lemma CastWeight(t: Tree, votes: Votes, v: nat, r: Root, a: Root)
    requires Ordered(t) && v !in votes
    ensures Weight(t, votes[v := r], a) == Weight(t, votes, a) + Delta(t, r, a)
  {
    var s, s' := Supporters(t, votes, a), Supporters(t, votes[v := r], a);
    assert s' == if Descends(t, r, a) then s + {v} else s;
  }

  lemma WithdrawWeight(t: Tree, votes: Votes, v: nat, a: Root)
    requires Ordered(t) && v in votes
    ensures Weight(t, votes - {v}, a) + Delta(t, votes[v], a) == Weight(t, votes, a)
  {
    CastWeight(t, votes - {v}, v, votes[v], a);
    assert (votes - {v})[v := votes[v]] == votes;
  }

  // --------------------------------------------------------- supermajorities

  ghost predicate TwoThirds(t: Tree, votes: Votes, validators: nat, b: Root)
  {
    3 * Weight(t, votes, b) >= 2 * validators
  }

  /** Branches share no voter. */
  lemma ApartSupport(t: Tree, votes: Votes, a: Root, b: Root)
    requires Ordered(t) && !Descends(t, a, b) && !Descends(t, b, a)
    ensures Weight(t, votes, a) + Weight(t, votes, b) <= |votes.Keys|
  {
    var sa, sb := Supporters(t, votes, a), Supporters(t, votes, b);
    forall v | v in sa
      ensures v !in sb
    {
      if v in sb {
        AncestorsComparable(t, votes[v], a, b);
      }
    }
    assert sa !! sb;
    SubsetSize(sa + sb, votes.Keys);
  }

  lemma DisjointSupport(t: Tree, votes: Votes, n: nat, a: Root, b: Root)
    requires Ordered(t) && (forall v :: v in votes ==> v < n)
    requires !Descends(t, a, b) && !Descends(t, b, a)
    ensures Weight(t, votes, a) + Weight(t, votes, b) <= n
  {
    ApartSupport(t, votes, a, b);
    BelowSize(votes.Keys, n);
  }

  /** Blocks backed by two thirds of the validators lie on one chain. */
  lemma SupermajorityChain(t: Tree, votes: Votes, n: nat, a: Root, b: Root)
    requires Ordered(t) && n > 0 && (forall v :: v in votes ==> v < n)
    requires TwoThirds(t, votes, n, a) && TwoThirds(t, votes, n, b)
    ensures Descends(t, a, b) || Descends(t, b, a)
  {
    if !Descends(t, a, b) && !Descends(t, b, a) {
      DisjointSupport(t, votes, n, a, b);
    }
  }

  /** Two blocks of different branches, both backed by two thirds. */
  ghost predicate Splits(t: Tree, votes: Votes, n: nat, a: Root, b: Root) {
    Ordered(t) && TwoThirds(t, votes, n, a) && TwoThirds(t, votes, n, b) && !Descends(t, a, b) && !Descends(t, b, a)
  }

  /** The least number of voters that makes two thirds. */
  function TwoThirdsOf(n: nat): nat {
    (2 * n + 2) / 3
  }

  lemma {:induction false} SubsetOfSize(s: set<nat>, k: nat) returns (part: set<nat>)
    requires k <= |s|
    ensures part <= s && |part| == k
  {
    if k == |s| {
      part := s;
    } else {
      var x :| x in s;
      part := SubsetOfSize(s - {x}, k);
    }
  }

  /** Some voters for one block and all others for another. */
  ghost function Divided(voters: set<nat>, part: set<nat>, a: Root, b: Root): Votes {
    map v | v in voters :: if v in part then a else b
  }

  lemma DividedSplits(t: Tree, a: Root, b: Root, voters: set<nat>, part: set<nat>, n: nat)
    requires Ordered(t) && !Descends(t, a, b) && !Descends(t, b, a)
    requires part <= voters && |part| >= TwoThirdsOf(n) && |voters| - |part| >= TwoThirdsOf(n)
    ensures Splits(t, Divided(voters, part, a, b), n, a, b)
  {
    var votes := Divided(voters, part, a, b);
    assert Supporters(t, votes, a) == part;
    assert Supporters(t, votes, b) == voters - part;
    assert part + (voters - part) == voters;
  }

  lemma TwoBranches() returns (t: Tree)
    ensures Ordered(t) && !Descends(t, 2, 3) && !Descends(t, 3, 2)
  {
    t := Tree(map[1 := 0, 2 := 1, 3 := 1], map[2 := 1, 3 := 1]);
  }

  /** Voters can be split over two branches exactly when there are enough of them for two
      quorums; a registry of `n` validators never has that many. */
  lemma SplitNeedsTwoQuorums(voters: set<nat>, n: nat)
    ensures (exists t, votes: Votes, a, b :: votes.Keys == voters && Splits(t, votes, n, a, b)) <==>
            2 * TwoThirdsOf(n) <= |voters|
    ensures n > 0 && (forall v :: v in voters ==> v < n) ==> |voters| < 2 * TwoThirdsOf(n)
  {
    if 2 * TwoThirdsOf(n) <= |voters| {
      var part := SubsetOfSize(voters, TwoThirdsOf(n));
      var t := TwoBranches();
      DividedSplits(t, 2, 3, voters, part, n);
      assert Divided(voters, part, 2, 3).Keys == voters;
    }
    forall t, votes: Votes, a, b | votes.Keys == voters && Splits(t, votes, n, a, b)
      ensures 2 * TwoThirdsOf(n) <= |voters|
    {
      ApartSupport(t, votes, a, b);
    }
    if forall v :: v in voters ==> v < n {
      BelowSize(voters, n);
    }
  }

  lemma {:induction false} GhostDescends(t: Tree, votes: Votes, r: Root)
    requires Ordered(t)
    ensures Descends(t, GhostHead(t, votes, r), r)
    ensures r in t.slots ==> GhostHead(t, votes, r) in t.slots
    decreases Above(t, r)
  {
    if Children(t, r) != {} {
      BestExists(t, votes, Children(t, r));
      var b :| IsBest(t, votes, Children(t, r), b);
      GhostStep(t, votes, r, b);
      assert b in Above(t, r) && b !in Above(t, b);
      GhostDescends(t, votes, b);
      DescendsTransitive(t, GhostHead(t, votes, r), b, r);
    }
  }

  lemma SiblingsApart(t: Tree, p: Root, c: Root, d: Root)
    requires Ordered(t) && c in Children(t, p) && d in Children(t, p) && c != d
    ensures !Descends(t, c, d)
  {
    if Descends(t, c, d) {
      DescendsRank(t, p, d);
    }
  }

  /** The child that carries two thirds of the votes is the best child. */
  lemma SupermajorityIsBest(t: Tree, votes: Votes, n: nat, p: Root, c: Root)
    requires Ordered(t) && n > 0 && (forall v :: v in votes ==> v < n)
    requires c in Children(t, p) && TwoThirds(t, votes, n, c)
    ensures IsBest(t, votes, Children(t, p), c)
  {
    forall d | d in Children(t, p) && d != c
      ensures Beats(t, votes, c, d)
    {
      SiblingsApart(t, p, c, d);
      SiblingsApart(t, p, d, c);
      DisjointSupport(t, votes, n, c, d);
    }
  }

  lemma SupportGrowsUpwards(t: Tree, votes: Votes, r: Root, a: Root)
    requires Ordered(t) && Descends(t, r, a)
    ensures Weight(t, votes, r) <= Weight(t, votes, a)
  {
    forall v | v in Supporters(t, votes, r)
      ensures v in Supporters(t, votes, a)
    {
      DescendsTransitive(t, votes[v], r, a);
    }
    SubsetSize(Supporters(t, votes, r), Supporters(t, votes, a));
  }

  /** Every block in the subtree of `j` backed by two thirds of the validators is
      the head found from `j`, or an ancestor of it. */
  lemma {:induction false} SupermajorityUnderHead(t: Tree, votes: Votes, n: nat, j: Root, b: Root)
    requires Ordered(t) && n > 0 && (forall v :: v in votes ==> v < n)
    requires Descends(t, b, j) && TwoThirds(t, votes, n, b)
    ensures Descends(t, GhostHead(t, votes, j), b)
    decreases Above(t, j)
  {
    if b == j {
      GhostDescends(t, votes, j);
    } else {
      var c := ChildTowards(t, b, j);
      SupportGrowsUpwards(t, votes, b, c);
      SupermajorityIsBest(t, votes, n, j, c);
      GhostStep(t, votes, j, c);
      assert c in Above(t, j) && c !in Above(t, c);
      SupermajorityUnderHead(t, votes, n, c, b);
    }
  }

  // ----------------------------------------------------------------- pruning

  ghost function Kept(t: Tree, f: Root): set<Root>
  {
    set r | r in t.slots && Descends(t, r, f)
  }

  /** The subtree of `f`, with `f` as its root. */
  ghost function PrunedTree(t: Tree, f: Root): (t': Tree)
    ensures Ordered(t) && f in t.slots ==> Ordered(t')
  {
    Tree(map r | r in Kept(t, f) :: t.slots[r],
         map r | r in Kept(t, f) && r in t.up && r != f :: t.up[r])
  }

  /** Votes inside the kept subtree stay, votes for ancestors of `f` move to `f`,
      all others are dropped. */
  ghost function PrunedVotes(t: Tree, votes: Votes, f: Root): Votes
  {
    map v | v in votes && (Descends(t, votes[v], f) || Descends(t, f, votes[v])) ::
      if Descends(t, votes[v], f) then votes[v] else f
  }

  lemma {:induction false} PrunedDescends(t: Tree, f: Root, x: Root, a: Root)
    requires Ordered(t) && f in t.slots && x in Kept(t, f) && Descends(t, a, f)
    ensures Descends(PrunedTree(t, f), x, a) == Descends(t, x, a)
    decreases Rank(t, x)
  {
    if x == f {
      if Descends(t, f, a) && a != f {
        DescendsRank(t, f, a);
        DescendsRank(t, a, f);
      }
    } else {
      PrunedDescends(t, f, t.up[x], a);
    }
  }

  /** Votes for blocks strictly above `f`. */
  ghost function AncestorVoters(t: Tree, votes: Votes, f: Root): set<nat>
  {
    set v | v in votes && votes[v] != f && Descends(t, f, votes[v])
  }

  /** Pruning leaves the weight of every kept block unchanged, except that `f`
      gains exactly the votes its ancestors held. */
  lemma PruneWeight(t: Tree, votes: Votes, f: Root, a: Root)
    requires Ordered(t) && f in t.slots && a in Kept(t, f)
    requires forall v :: v in votes ==> votes[v] in t.slots
    ensures a != f ==> Weight(PrunedTree(t, f), PrunedVotes(t, votes, f), a) == Weight(t, votes, a)
    ensures Weight(PrunedTree(t, f), PrunedVotes(t, votes, f), f) ==
            Weight(t, votes, f) + |AncestorVoters(t, votes, f)|
  {
    PruneSupporters(t, votes, f, a);
    PruneSupporters(t, votes, f, f);
    forall v | v in AncestorVoters(t, votes, f)
      ensures v !in Supporters(t, votes, f)
    {
      if v in Supporters(t, votes, f) {
        DescendsRank(t, votes[v], f);
        DescendsRank(t, f, votes[v]);
      }
    }
    assert AncestorVoters(t, votes, f) !! Supporters(t, votes, f);
  }

  lemma PruneSupporters(t: Tree, votes: Votes, f: Root, a: Root)
    requires Ordered(t) && f in t.slots && a in Kept(t, f)
    requires forall v :: v in votes ==> votes[v] in t.slots
    ensures Supporters(PrunedTree(t, f), PrunedVotes(t, votes, f), a) ==
            Supporters(t, votes, a) + (if a == f then AncestorVoters(t, votes, f) else {})
  {
    var t', votes' := PrunedTree(t, f), PrunedVotes(t, votes, f);
    forall v | v in votes
      ensures v in Supporters(t', votes', a) <==>
              v in Supporters(t, votes, a) || (a == f && v in AncestorVoters(t, votes, f))
    {
      var r := votes[v];
      if Descends(t, r, f) {
        PrunedDescends(t, f, r, a);
        if r != f && Descends(t, f, r) {
          DescendsRank(t, r, f);
          DescendsRank(t, f, r);
        }
      } else {
        if Descends(t, r, a) {
          DescendsTransitive(t, r, a, f);
        }
        PrunedDescends(t, f, f, a);
        if Descends(t, f, a) && a != f {
          DescendsRank(t, f, a);
          DescendsRank(t, a, f);
        }
      }
    }
  }

  lemma PrunedChildren(t: Tree, f: Root, r: Root)
    requires Ordered(t) && f in t.slots && r in Kept(t, f)
    ensures Children(PrunedTree(t, f), r) == Children(t, r)
    ensures f !in Children(t, r) && Children(t, r) <= Kept(t, f)
  {
    forall c | c in Children(t, r)
      ensures c in Kept(t, f) && c != f
    {
      DescendsTransitive(t, c, r, f);
      DescendsRank(t, r, f);
    }
  }

  /** The head found from any kept block is the same before and after pruning. */
  lemma {:induction false} PruneKeepsHead(t: Tree, votes: Votes, f: Root, r: Root)
    requires Ordered(t) && f in t.slots && r in Kept(t, f)
    requires forall v :: v in votes ==> votes[v] in t.slots
    ensures GhostHead(PrunedTree(t, f), PrunedVotes(t, votes, f), r) == GhostHead(t, votes, r)
    decreases Above(t, r)
  {
    var t', votes' := PrunedTree(t, f), PrunedVotes(t, votes, f);
    PrunedChildren(t, f, r);
    if Children(t, r) != {} {
      forall c | c in Children(t, r)
        ensures Weight(t', votes', c) == Weight(t, votes, c)
      {
        PruneWeight(t, votes, f, c);
      }
      BestExists(t, votes, Children(t, r));
      var b :| IsBest(t, votes, Children(t, r), b);
      assert IsBest(t', votes', Children(t', r), b);
      GhostStep(t, votes, r, b);
      GhostStep(t', votes', r, b);
      assert b in Above(t, r) && b !in Above(t, b);
      PruneKeepsHead(t, votes, f, b);
    }
  }

  // ------------------------------------------------------------- safe target

  ghost predicate SafeCandidate(t: Tree, votes: Votes, n: nat, anchor: Root, r: Root)
  {
    r in t.slots && (r == anchor || (Descends(t, r, anchor) && TwoThirds(t, votes, n, r)))
  }

  ghost predicate Higher(t: Tree, x: Root, y: Root)
    requires x in t.slots && y in t.slots
  {
    t.slots[x] > t.slots[y] || (t.slots[x] == t.slots[y] && x < y)
  }

  /** `best` is the highest candidate among the anchor and the blocks of `seen`. */
  ghost predicate BestSafe(t: Tree, votes: Votes, n: nat, anchor: Root, seen: set<Root>, best: Root)
  {
    && SafeCandidate(t, votes, n, anchor, best) && anchor in t.slots
    && (best == anchor || Higher(t, best, anchor))
    && forall r :: r in seen && SafeCandidate(t, votes, n, anchor, r) ==> r == best || Higher(t, best, r)
  }

  ghost predicate IsSafeTarget(t: Tree, votes: Votes, n: nat, anchor: Root, best: Root)
  {
    BestSafe(t, votes, n, anchor, t.slots.Keys, best)
  }

  lemma SafeAnchor(t: Tree, votes: Votes, n: nat, anchor: Root)
    requires anchor in t.slots
    ensures BestSafe(t, votes, n, anchor, {}, anchor)
  {
  }

  lemma SafeStep(t: Tree, votes: Votes, n: nat, anchor: Root, seen: set<Root>, best: Root, r: Root)
    requires BestSafe(t, votes, n, anchor, seen, best) && r in t.slots
    ensures BestSafe(t, votes, n, anchor, seen + {r},
                     if SafeCandidate(t, votes, n, anchor, r) && Higher(t, r, best) then r else best)
  {
  }

  /** The safe target does not depend on the order in which blocks are visited. */
  lemma SafeTargetUnique(t: Tree, votes: Votes, n: nat, anchor: Root, b: Root, b': Root)
    requires IsSafeTarget(t, votes, n, anchor, b) && IsSafeTarget(t, votes, n, anchor, b')
    ensures b == b'
  {
  }

  /** A safe target is the head or an ancestor of it exactly when it lies on one line with
      the justified block. */
  lemma SafeTargetUnderHead(t: Tree, votes: Votes, n: nat, anchor: Root, j: Root, b: Root)
    requires Ordered(t) && n > 0 && (forall v :: v in votes ==> v < n)
    requires IsSafeTarget(t, votes, n, anchor, b) && Descends(t, j, anchor)
    ensures Descends(t, GhostHead(t, votes, j), b) <==> Descends(t, b, j) || Descends(t, j, b)
  {
    var head := GhostHead(t, votes, j);
    GhostDescends(t, votes, j);
    if Descends(t, j, b) {
      DescendsTransitive(t, head, j, b);
    } else if Descends(t, b, j) {
      SupermajorityUnderHead(t, votes, n, j, b);
    }
    if Descends(t, head, b) {
      AncestorsComparable(t, head, b, j);
    }
  }

  // --------------------------------------------------------- the head, written out

  /** `head` is a leaf below `j`, and at every fork on the way to it the branch taken has
      more votes, or as many and the smaller root. */
  ghost predicate Greedy(t: Tree, votes: Votes, j: Root, head: Root) {
    && Descends(t, head, j) && (forall c :: c in t.up ==> t.up[c] != head)
    && forall c, d :: OnWay(t, j, head, c) && d in t.up && t.up[d] == t.up[c] ==>
         || Weight(t, votes, c) > Weight(t, votes, d)
         || (Weight(t, votes, c) == Weight(t, votes, d) && c <= d)
  }

  /** `c` lies on the way from `j` down to `head`, below `j`. */
  ghost predicate OnWay(t: Tree, j: Root, head: Root, c: Root) {
    Descends(t, head, c) && c in t.up && Descends(t, t.up[c], j)
  }

  /** A block on the way is the first one, or on the way from there. */
  lemma FirstOnWay(t: Tree, j: Root, head: Root, b: Root, c: Root)
    requires Ordered(t) && b in Children(t, j) && Descends(t, head, b) && OnWay(t, j, head, c)
    ensures c == b || OnWay(t, b, head, c)
  {
    AncestorsComparable(t, head, b, c);
    if c != b && t.up[c] != b {
      if Descends(t, b, c) {
        DescendsTransitive(t, j, c, t.up[c]);
        DescendsRank(t, j, c);
        DescendsRank(t, t.up[c], j);
      }
    }
  }

  /** The naive head is greedy. */
  lemma {:induction false} HeadGreedy(t: Tree, votes: Votes, j: Root)
    requires Ordered(t)
    ensures Greedy(t, votes, j, GhostHead(t, votes, j))
    decreases Above(t, j)
  {
    var head := GhostHead(t, votes, j);
    if Children(t, j) == {} {
      forall c | OnWay(t, j, head, c)
        ensures false
      {
        DescendsRank(t, j, c);
        DescendsRank(t, t.up[c], j);
      }
      assert forall c :: c in t.up ==> c !in Children(t, j);
    } else {
      BestExists(t, votes, Children(t, j));
      var b :| IsBest(t, votes, Children(t, j), b);
      GhostStep(t, votes, j, b);
      assert b in Above(t, j) && b !in Above(t, b);
      HeadGreedy(t, votes, b);
      DescendsTransitive(t, head, b, j);
      forall c, d | OnWay(t, j, head, c) && d in t.up && t.up[d] == t.up[c]
        ensures Weight(t, votes, c) > Weight(t, votes, d) || (Weight(t, votes, c) == Weight(t, votes, d) && c <= d)
      {
        FirstOnWay(t, j, head, b, c);
        assert c == b ==> d in Children(t, j);
      }
    }
  }

  /** And nothing else is. */
  lemma {:induction false} GreedyIsHead(t: Tree, votes: Votes, j: Root, head: Root)
    requires Ordered(t) && Greedy(t, votes, j, head)
    ensures head == GhostHead(t, votes, j)
    decreases Above(t, j)
  {
    if head == j {
      assert Children(t, j) == {};
    } else {
      var b := ChildTowards(t, head, j);
      assert OnWay(t, j, head, b);
      assert IsBest(t, votes, Children(t, j), b);
      GhostStep(t, votes, j, b);
      assert b in Above(t, j) && b !in Above(t, b);
      forall c | OnWay(t, b, head, c)
        ensures OnWay(t, j, head, c)
      {
        DescendsTransitive(t, t.up[c], b, j);
      }
      GreedyIsHead(t, votes, b, head);
    }
  }

  /** Head selection, written out: the greedy descent from the justified block, and no move
      while that block is unknown. */
  lemma HeadExactly(t: Tree, votes: Votes, justified: Root, current: Root, head: Root)
    requires Ordered(t)
    ensures head == HeadOf(t, votes, justified, current) <==>
            if justified in t.slots then Greedy(t, votes, justified, head) else head == current
  {
    if justified in t.slots {
      HeadGreedy(t, votes, justified);
      if Greedy(t, votes, justified, head) {
        GreedyIsHead(t, votes, justified, head);
      }
    }
  }

  /** The safe target, written out: the highest known block under the anchor with two thirds
      of the votes, the smaller root among equally high ones, and the anchor if there is
      none. */
  lemma SafeExactly(t: Tree, votes: Votes, n: nat, anchor: Root, b: Root)
    requires Ordered(t) && anchor in t.slots
    ensures IsSafeTarget(t, votes, n, anchor, b) <==>
            && b in t.slots && Descends(t, b, anchor) && (b == anchor || 3 * Weight(t, votes, b) >= 2 * n)
            && forall r :: r in t.slots && Descends(t, r, anchor) && (r == anchor || 3 * Weight(t, votes, r) >= 2 * n) ==>
                 t.slots[r] < t.slots[b] || (t.slots[r] == t.slots[b] && b <= r)
  {
    if b in t.slots && Descends(t, b, anchor) {
      DescendsRank(t, b, anchor);
    }
  }
}

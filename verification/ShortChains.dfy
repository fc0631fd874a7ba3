/** Chains of a few blocks from any genesis, for the cases that the theorems about all
    chains set apart. */
module ShortChains {
  import opened Containers
  import opened Bits
  import opened Justifiable
  import opened Window
  import opened VoteTable
  import opened Transition
  import opened Ledger
  import opened Sequencing
  import opened Chain
  import opened Producer
  import opened Drafts

  // ------------------------------------------------------------------ one vote

  /** Slot `target` is newly justified, and so is everything up to the new finalized slot. */
  ghost predicate Gained(window: seq<bool>, fin: nat, target: nat, window': seq<bool>, fin': nat) {
    forall x: nat :: Justified(window', fin', x) <==> x <= fin' || x == target || Justified(window, fin, x)
  }

  lemma MarkedGained(window: seq<bool>, fin: nat, target: nat)
    requires fin < target
    ensures Gained(window, fin, target, Marked(window, target - fin - 1), fin)
  {
    MarkedOneMore(window, fin, target);
  }

  lemma ShiftedGained(window: seq<bool>, fin: nat, target: nat, window': seq<bool>, fin': nat)
    requires fin <= fin' && Gained(window, fin, target, window', fin)
    ensures Gained(window, fin, target, Shifted(window', fin' - fin), fin')
  {
    ShiftedUpTo(window', fin, fin');
  }

  /** Nothing else is pending than votes for the target. */
  ghost predicate OnlyPending(c: Context, t: Tally, att: Attestation) {
    PendingVotes(c, t) - {att.data.target.root} == map[]
  }

  lemma ClearedTally(c: Context, t: Tally, att: Attestation)
    requires Eligible(c, t, att.data) && OnlyPending(c, t, att)
    ensures JustifiedTally(c, t, att).votes == Some(map[])
  {
    Cleared(PendingVotes(c, t), att.data.target.root, MergedVoters(c, t, att));
  }

  lemma FinalizedEmpty(slots: map<Root, nat>, t: Tally, source: Checkpoint)
    requires source.slot >= t.finalized.slot && t.votes == Some(map[])
    ensures Finalized(slots, t, source) ==
            Ok(Tally(t.justified, source, Shifted(t.window, source.slot - t.finalized.slot), Some(map[])))
  {
    assert Retained(map[], slots, source.slot) == map[];
  }

  /** The tally once a target is justified, and its source finalized if it comes right before. */
  ghost predicate Moves(t: Tally, source: Checkpoint, target: Checkpoint, next: bool, t': Tally) {
    && t.finalized.slot < target.slot
    && var marked := Marked(t.window, target.slot - t.finalized.slot - 1);
    if next then
      && source.slot >= t.finalized.slot
      && t' == Tally(target, source, Shifted(marked, source.slot - t.finalized.slot), Some(map[]))
    else t' == Tally(target, t.finalized, marked, Some(map[]))
  }

  lemma QuorumTally(c: Context, t: Tally, att: Attestation) returns (t': Tally)
    requires Eligible(c, t, att.data) && att.data.target.slot <= HISTORICAL_ROOTS_LIMIT && OnlyPending(c, t, att)
    requires Supermajority(MergedVoters(c, t, att), c.validators)
    ensures Step(c, t, att) == Ok(t')
    ensures Moves(t, att.data.source, att.data.target,
                  IsNextJustifiable(att.data.source.slot, att.data.target.slot, t.finalized.slot), t')
  {
    var source, target, fin := att.data.source, att.data.target, t.finalized.slot;
    ClearedTally(c, t, att);
    if IsNextJustifiable(source.slot, target.slot, fin) {
      NextJustifiableStaysAbove(source.slot, target.slot, fin);
      FinalizedEmpty(c.slots, JustifiedTally(c, t, att), source);
    }
    t' := Step(c, t, att).value;
  }

  /** A quorum for a target with nothing else pending justifies it, finalizes the source
      when nothing in between may be justified, and leaves nothing pending. */
  lemma QuorumMoves(c: Context, t: Tally, att: Attestation) returns (t': Tally)
    requires Eligible(c, t, att.data) && att.data.target.slot <= HISTORICAL_ROOTS_LIMIT && OnlyPending(c, t, att)
    requires Supermajority(MergedVoters(c, t, att), c.validators)
    ensures Step(c, t, att) == Ok(t')
    ensures t'.justified == att.data.target && t'.votes == Some(map[])
    ensures t'.finalized ==
            if IsNextJustifiable(att.data.source.slot, att.data.target.slot, t.finalized.slot) then att.data.source
            else t.finalized
    ensures Gained(t.window, t.finalized.slot, att.data.target.slot, t'.window, t'.finalized.slot)
  {
    t' := QuorumTally(c, t, att);
    TallyGains(t, att.data.source, att.data.target,
               IsNextJustifiable(att.data.source.slot, att.data.target.slot, t.finalized.slot), t');
  }

  lemma TallyGains(t: Tally, source: Checkpoint, target: Checkpoint, next: bool, t': Tally)
    requires Moves(t, source, target, next, t')
    ensures t'.justified == target && t'.votes == Some(map[]) && t'.finalized == if next then source else t.finalized
    ensures Gained(t.window, t.finalized.slot, target.slot, t'.window, t'.finalized.slot)
  {
    var fin := t.finalized.slot;
    MarkedGained(t.window, fin, target.slot);
    if next {
      ShiftedGained(t.window, fin, target.slot, Marked(t.window, target.slot - fin - 1), source.slot);
    }
  }

  /** Nothing is justified or pending beyond slot 0. */
  ghost predicate Untouched(c: Context, t: Tally) {
    && PendingVotes(c, t) == map[] && t.finalized.slot == 0
    && forall x: nat :: Justified(t.window, 0, x) <==> x == 0
  }

  /** Slot `x` may still be justified with finality at 0. */
  lemma EarlyAccepted(x: nat)
    requires x <= 5
    ensures AcceptedAfter(x, 0)
  {
    AcceptedOpen(x);
  }

  // ----------------------------------------------------------------- one block

  /** The block of the right proposer on top of a state, but for its state root. */
  ghost function Proposed(g: Setup, s: StateValue, slot: nat, atts: seq<Attestation>): Block
    requires |g.validators| > 0
  {
    Draft(g.h, s, slot, slot % |g.validators|, atts)
  }

  /** A run grows by any block whose attestations can be processed. */
  lemma NextBlock(g: Setup, blocks: seq<Block>, s: StateValue, slot: nat, atts: seq<Attestation>, s1: StateValue, t: Tally)
    returns (block: Block, post: StateValue)
    requires Reached(g, blocks, s) && s.slot < slot <= HISTORICAL_ROOTS_LIMIT && |g.validators| > 0
    requires NoSelfVote(g.h, Proposed(g, s, slot, atts)) && Staged(g.h, s, Proposed(g, s, slot, atts)) == Ok(s1)
    requires Steps(ContextOf(g.h, s1), StartTally(s1), atts) == Ok(t)
    ensures block == Proposed(g, s, slot, atts).(stateRoot := block.stateRoot)
    ensures Reached(g, blocks + [block], post)
    ensures post.slot == slot && post.justified == t.justified && post.finalized == t.finalized
    ensures post.justifiedSlots == t.window && (t.votes.None? ==> post.voteRoots == s1.voteRoots)
  {
    var draft := Proposed(g, s, slot, atts);
    BodyOfRun(g, blocks, s, draft, s1);
    StagedFrame(g, blocks, s, draft, s1);
    var s2 := ProcessAttestations(g.h, s1, atts).value;
    BodyFrame(g.h, s1, atts);
    block := draft.(stateRoot := g.h.state(s2));
    HeaderIgnoresStateRoot(g.h, AdvancedTo(g.h, s, slot), draft, block.stateRoot);
    post := s2.(header := s2.header.(stateRoot := block.stateRoot));
    assert StateTransition(g.h, s, block) == Ok(post);
    OneMoreBlock(g, blocks, s, block, post);
  }

  lemma StagedFrame(g: Setup, blocks: seq<Block>, s: StateValue, block: Block, s1: StateValue)
    requires Reached(g, blocks, s) && s.slot < block.slot && Staged(g.h, s, block) == Ok(s1)
    ensures s1.slot == block.slot && s1.validators == g.validators && s1.voteRoots == s.voteRoots
  {
    RunSettles(g, blocks, s);
    AdvancedOnlySlot(g.h, s, block.slot);
  }

  lemma OneMoreBlock(g: Setup, blocks: seq<Block>, s: StateValue, block: Block, post: StateValue)
    requires Reached(g, blocks, s) && NoSelfVote(g.h, block) && StateTransition(g.h, s, block) == Ok(post)
    ensures Reached(g, blocks + [block], post)
  {
    ReachedRun(g, blocks, s);
    assert (blocks + [block])[..|blocks|] == blocks;
  }

  // --------------------------------------------------------- runs without votes

  /** A run in which nobody has voted. */
  ghost predicate Unvoted(g: Setup, blocks: seq<Block>, s: StateValue) {
    && Reached(g, blocks, s) && |g.validators| > 0
    && s.voteRoots == [] && s.justified.slot == s.finalized.slot == 0
    && forall x: nat :: Justified(s.justifiedSlots, 0, x) <==> x == 0
  }

  lemma GenesisUnvoted(g: Setup)
    requires SoundSetup(g) && |g.validators| > 0
    ensures Unvoted(g, [], Start(g))
  {
  }

  /** The state in which the next block's attestations are processed. */
  lemma StagedUnvoted(g: Setup, blocks: seq<Block>, s: StateValue, slot: nat, atts: seq<Attestation>) returns (s1: StateValue)
    requires Unvoted(g, blocks, s) && s.slot < slot <= HISTORICAL_ROOTS_LIMIT
    ensures Staged(g.h, s, Proposed(g, s, slot, atts)) == Ok(s1) && Untouched(ContextOf(g.h, s1), StartTally(s1))
    ensures s1.voteRoots == [] && s1.validators == g.validators && s1.justified.slot == 0
    ensures |s1.history| == slot && forall i :: 0 <= i < slot ==> s1.history[i] == RootAtSlot(g, blocks, i)
  {
    var draft := Proposed(g, s, slot, atts);
    DraftStaged(g, blocks, s, slot, slot % |g.validators|, atts);
    s1 := Staged(g.h, s, draft).value;
    StagedFrame(g, blocks, s, draft, s1);
    RunSettles(g, blocks, s);
    AdvancedOnlySlot(g.h, s, slot);
    StagedHistory(g, blocks, s, draft);
    assert (blocks + [draft])[..|blocks|] == blocks;
    forall x: nat
      ensures Justified(s1.justifiedSlots, 0, x) <==> x == 0
    {
      ExtendedJustified(s.justifiedSlots, WindowLen(slot, 0), 0, x);
    }
  }

  /** An empty block on top. */
  lemma EmptyBlock(g: Setup, blocks: seq<Block>, s: StateValue, slot: nat) returns (block: Block, post: StateValue)
    requires Unvoted(g, blocks, s) && s.slot < slot <= HISTORICAL_ROOTS_LIMIT
    ensures Unvoted(g, blocks + [block], post) && post.slot == slot == block.slot && block.attestations == []
  {
    var s1 := StagedUnvoted(g, blocks, s, slot, []);
    block, post := NextBlock(g, blocks, s, slot, [], s1, StartTally(s1));
  }

  // ------------------------------------------------------------ blocks with votes

  /** A vote of `bits` from the block at one slot to the block at another. */
  ghost function CastVote(g: Setup, blocks: seq<Block>, bits: BitList, source: nat, target: nat): Attestation {
    var to := Checkpoint(RootAtSlot(g, blocks, target), target);
    Attestation(bits, AttestationData(target, to, to, Checkpoint(RootAtSlot(g, blocks, source), source)))
  }

  lemma CastKnown(g: Setup, blocks: seq<Block>, h: Hashes, s1: StateValue, bits: BitList, source: nat, target: nat)
    requires forall i :: 0 <= i < |s1.history| ==> s1.history[i] == RootAtSlot(g, blocks, i)
    requires source < target < |s1.history|
    requires RootAtSlot(g, blocks, source) != ZERO && RootAtSlot(g, blocks, target) != ZERO
    ensures WellFormedVote(ContextOf(h, s1), CastVote(g, blocks, bits, source, target).data)
  {
  }

  /** A vote for an earlier block is no self vote. */
  lemma CastNoSelf(g: Setup, blocks: seq<Block>, block: Block, bits: BitList, source: nat, target: nat)
    requires SoundHashes(g.h) && target < block.slot && RootAtSlot(g, blocks, target) != ZERO
    ensures CastVote(g, blocks, bits, source, target).data.target.root != g.h.header(HeaderOf(g.h, block).(stateRoot := ZERO))
  {
    var header := RootHasSlot(g, blocks, target);
  }

  /** Two thirds of the validators. */
  ghost predicate Enough(bits: BitList, n: nat) {
    Supermajority(Below(Participants(bits), n), n)
  }

  /** Slots 0 and `a` are justified, and nothing else. */
  ghost predicate OnlyJustified(t: Tally, a: nat) {
    t.finalized.slot == 0 && forall x: nat :: Justified(t.window, 0, x) <==> x == 0 || x == a
  }

  /** From slot 0, a quorum justifies a block and finalizes nothing beyond slot 0. */
  lemma FirstQuorum(c: Context, t: Tally, att: Attestation) returns (t': Tally)
    requires Untouched(c, t) && WellFormedVote(c, att.data) && Enough(att.bits, c.validators)
    requires att.data.source.slot == 0 && att.data.target.slot <= 5
    ensures Step(c, t, att) == Ok(t') && t'.justified == att.data.target && t'.votes == Some(map[])
    ensures OnlyJustified(t', att.data.target.slot)
  {
    EarlyAccepted(att.data.target.slot);
    assert MergedVoters(c, t, att) == Below(Participants(att.bits), c.validators);
    t' := QuorumMoves(c, t, att);
  }

  /** From there a quorum for the next slot finalizes it. */
  lemma NextQuorum(c: Context, t: Tally, att: Attestation) returns (t': Tally)
    requires OnlyJustified(t, att.data.source.slot) && WellFormedVote(c, att.data) && OnlyPending(c, t, att)
    requires Supermajority(MergedVoters(c, t, att), c.validators)
    requires 0 < att.data.source.slot && att.data.target.slot == att.data.source.slot + 1 <= 5
    ensures Step(c, t, att) == Ok(t') && t'.justified == att.data.target && t'.finalized == att.data.source
  {
    EarlyAccepted(att.data.target.slot);
    t' := QuorumMoves(c, t, att);
  }

  /** The run has a block at the slot. */
  ghost predicate HasBlock(g: Setup, blocks: seq<Block>, slot: nat) {
    RootAtSlot(g, blocks, slot) != ZERO
  }

  /** What a block needs for votes between the blocks of an unvoted run. */
  lemma CastReady(g: Setup, blocks: seq<Block>, s1: StateValue, block: Block, bits: BitList, source: nat, target: nat)
    requires SoundHashes(g.h) && source < target < block.slot == |s1.history|
    requires HasBlock(g, blocks, source) && HasBlock(g, blocks, target)
    requires forall i :: 0 <= i < |s1.history| ==> s1.history[i] == RootAtSlot(g, blocks, i)
    ensures var att := CastVote(g, blocks, bits, source, target);
            && WellFormedVote(ContextOf(g.h, s1), att.data)
            && att.data.target.root != g.h.header(HeaderOf(g.h, block).(stateRoot := ZERO))
  {
    CastKnown(g, blocks, g.h, s1, bits, source, target);
    CastNoSelf(g, blocks, block, bits, source, target);
  }

  /** A block whose votes justify the block at slot `a`. */
  lemma JustifyingBlock(g: Setup, blocks: seq<Block>, s: StateValue, slot: nat, bits: BitList, a: nat)
    returns (block: Block, post: StateValue)
    requires Unvoted(g, blocks, s) && s.slot < slot <= HISTORICAL_ROOTS_LIMIT && Enough(bits, |g.validators|)
    requires 0 < a < slot && a <= 5 && HasBlock(g, blocks, 0) && HasBlock(g, blocks, a)
    ensures block == Proposed(g, s, slot, [CastVote(g, blocks, bits, 0, a)]).(stateRoot := block.stateRoot)
    ensures Reached(g, blocks + [block], post) && post.slot == slot
    ensures post.justified == Checkpoint(RootAtSlot(g, blocks, a), a) && post.finalized.slot == 0
  {
    var att := CastVote(g, blocks, bits, 0, a);
    ReachedRun(g, blocks, s);
    var s1 := StagedUnvoted(g, blocks, s, slot, [att]);
    var c, t := ContextOf(g.h, s1), StartTally(s1);
    CastReady(g, blocks, s1, Proposed(g, s, slot, [att]), bits, 0, a);
    var t' := FirstQuorum(c, t, att);
    assert Steps(c, t, [att]) == Step(c, t, att) by {
      assert [att][..0] == [];
    }
    block, post := NextBlock(g, blocks, s, slot, [att], s1, t');
  }

  /** A block whose votes justify the blocks at slots `a` and `a + 1`, and with that
      finalize the one at `a`. */
  lemma FinalizingBlock(g: Setup, blocks: seq<Block>, s: StateValue, slot: nat, bits: BitList, a: nat)
    returns (block: Block, post: StateValue)
    requires Unvoted(g, blocks, s) && s.slot < slot <= HISTORICAL_ROOTS_LIMIT && Enough(bits, |g.validators|)
    requires 0 < a && a + 1 < slot && a + 1 <= 5
    requires HasBlock(g, blocks, 0) && HasBlock(g, blocks, a) && HasBlock(g, blocks, a + 1)
    ensures block == Proposed(g, s, slot, [CastVote(g, blocks, bits, 0, a), CastVote(g, blocks, bits, a, a + 1)])
                     .(stateRoot := block.stateRoot)
    ensures Reached(g, blocks + [block], post) && post.slot == slot
    ensures post.finalized == Checkpoint(RootAtSlot(g, blocks, a), a)
  {
    var first, second := CastVote(g, blocks, bits, 0, a), CastVote(g, blocks, bits, a, a + 1);
    var draft := Proposed(g, s, slot, [first, second]);
    ReachedRun(g, blocks, s);
    var s1 := StagedUnvoted(g, blocks, s, slot, [first, second]);
    var c, t := ContextOf(g.h, s1), StartTally(s1);
    CastReady(g, blocks, s1, draft, bits, 0, a);
    CastReady(g, blocks, s1, draft, bits, a, a + 1);
    var t1 := FirstQuorum(c, t, first);
    assert MergedVoters(c, t1, second) == Below(Participants(bits), c.validators);
    var t2 := NextQuorum(c, t1, second);
    TwoSteps(c, t, first, second);
    block, post := NextBlock(g, blocks, s, slot, [first, second], s1, t2);
  }

  /** Votes that stay below two thirds wait. */
  lemma PartialVote(c: Context, t: Tally, att: Attestation) returns (t': Tally)
    requires Eligible(c, t, att.data) && PendingVotes(c, t) == map[] && !Enough(att.bits, c.validators)
    ensures Step(c, t, att) == Ok(t')
    ensures t' == t.(votes := Some(map[att.data.target.root := Below(Participants(att.bits), c.validators)]))
  {
    assert MergedVoters(c, t, att) == Below(Participants(att.bits), c.validators);
    t' := Step(c, t, att).value;
  }

  lemma ThreeSteps(c: Context, t: Tally, x: Attestation, y: Attestation, z: Attestation, t1: Tally, t2: Tally)
    requires Step(c, t, x) == Ok(t1) && Step(c, t1, y) == Ok(t2)
    ensures Steps(c, t, [x, y, z]) == Step(c, t2, z)
  {
    assert [x, y, z][..2] == [x, y];
    TwoSteps(c, t, x, y);
  }

  /** Two attestations for slot 2, of which only the second comes from slot 1, complete each
      other: the source of the second is finalized. */
  lemma CompletedQuorum(c: Context, t: Tally, x: Attestation, y: Attestation, z: Attestation) returns (t3: Tally)
    requires Untouched(c, t) && WellFormedVote(c, x.data) && WellFormedVote(c, y.data) && WellFormedVote(c, z.data)
    requires x.data.source.slot == y.data.source.slot == 0 && x.data.target.slot == z.data.source.slot == 1
    requires y.data.target == z.data.target && z.data.target.slot == 2
    requires Enough(x.bits, c.validators) && !Enough(y.bits, c.validators)
    requires Supermajority(Below(Participants(y.bits) + Participants(z.bits), c.validators), c.validators)
    ensures Steps(c, t, [x, y, z]) == Ok(t3) && t3.finalized == z.data.source
  {
    var t1 := FirstQuorum(c, t, x);
    EarlyAccepted(2);
    var t2 := PartialVote(c, t1, y);
    assert MergedVoters(c, t2, z) == Below(Participants(y.bits) + Participants(z.bits), c.validators);
    t3 := NextQuorum(c, t2, z);
    ThreeSteps(c, t, x, y, z, t1, t2);
  }

  /** A block with three votes between the blocks at slots 0, 1 and 2. */
  lemma PooledBlock(g: Setup, blocks: seq<Block>, s: StateValue, slot: nat, all: BitList, some: BitList, others: BitList)
    returns (block: Block, post: StateValue)
    requires Unvoted(g, blocks, s) && s.slot < slot <= HISTORICAL_ROOTS_LIMIT && 2 < slot
    requires HasBlock(g, blocks, 0) && HasBlock(g, blocks, 1) && HasBlock(g, blocks, 2)
    requires Enough(all, |g.validators|) && !Enough(some, |g.validators|)
    requires Supermajority(Below(Participants(some) + Participants(others), |g.validators|), |g.validators|)
    ensures block == Proposed(g, s, slot, [CastVote(g, blocks, all, 0, 1), CastVote(g, blocks, some, 0, 2),
                                           CastVote(g, blocks, others, 1, 2)])
                     .(stateRoot := block.stateRoot)
    ensures Reached(g, blocks + [block], post) && post.finalized == Checkpoint(RootAtSlot(g, blocks, 1), 1)
  {
    var x, y, z := CastVote(g, blocks, all, 0, 1), CastVote(g, blocks, some, 0, 2), CastVote(g, blocks, others, 1, 2);
    var draft := Proposed(g, s, slot, [x, y, z]);
    ReachedRun(g, blocks, s);
    var s1 := StagedUnvoted(g, blocks, s, slot, [x, y, z]);
    CastReady(g, blocks, s1, draft, all, 0, 1);
    CastReady(g, blocks, s1, draft, some, 0, 2);
    CastReady(g, blocks, s1, draft, others, 1, 2);
    var t := CompletedQuorum(ContextOf(g.h, s1), StartTally(s1), x, y, z);
    block, post := NextBlock(g, blocks, s, slot, [x, y, z], s1, t);
  }

  // ------------------------------------------------------------------ block by block

  lemma {:induction false} GenesisAt(g: Setup, blocks: seq<Block>)
    requires SoundHashes(g.h) && SlotsRise(blocks)
    ensures RootAtSlot(g, blocks, 0) == g.h.header(Start(g).header) && HasBlock(g, blocks, 0)
  {
    if blocks != [] {
      GenesisAt(g, blocks[..|blocks| - 1]);
    }
  }

  /** A run finds genesis and every block of it at its slot. */
  lemma BlocksPlaced(g: Setup, blocks: seq<Block>, s: StateValue)
    requires Reached(g, blocks, s) && blocks != []
    ensures HasBlock(g, blocks, 0)
    ensures forall k :: 0 <= k < |blocks| ==>
              RootAtSlot(g, blocks, blocks[k].slot) == BlockRoot(g.h, blocks[k]) && HasBlock(g, blocks, blocks[k].slot)
  {
    ReachedRun(g, blocks, s);
    HistoryOfRun(g, blocks, s);
    GenesisAt(g, blocks);
    forall k | 0 <= k < |blocks|
      ensures RootAtSlot(g, blocks, blocks[k].slot) == BlockRoot(g.h, blocks[k])
    {
      BlockAt(g, blocks, k);
    }
  }

  /** Empty blocks at two slots. */
  lemma TwoBlocks(g: Setup, i: nat, j: nat) returns (a: Block, b: Block, one: StateValue, two: StateValue)
    requires SoundSetup(g) && |g.validators| > 0 && 0 < i < j <= HISTORICAL_ROOTS_LIMIT
    ensures Unvoted(g, [a], one) && Unvoted(g, [a, b], two) && a.attestations == b.attestations == []
    ensures a.slot == i && b.slot == two.slot == j
    ensures HasBlock(g, [a, b], 0) && HasBlock(g, [a, b], i) && HasBlock(g, [a, b], j)
  {
    GenesisUnvoted(g);
    a, one := EmptyBlock(g, [], Start(g), i);
    assert [] + [a] == [a];
    b, two := EmptyBlock(g, [a], one, j);
    assert [a] + [b] == [a, b];
    BlocksPlaced(g, [a, b], two);
    assert [a, b][0] == a && [a, b][1] == b;
  }

  /** And at slots 1, 2 and 3. */
  lemma ThreeBlocks(g: Setup) returns (a: Block, b: Block, c: Block, one: StateValue, two: StateValue, three: StateValue)
    requires SoundSetup(g) && |g.validators| > 0
    ensures Unvoted(g, [a], one) && Unvoted(g, [a, b], two) && Unvoted(g, [a, b, c], three)
    ensures a.slot == 1 && b.slot == 2 && c.slot == three.slot == 3
  {
    a, b, one, two := TwoBlocks(g, 1, 2);
    c, three := EmptyBlock(g, [a, b], two, 3);
    assert [a, b] + [c] == [a, b, c];
  }

  /** After three empty blocks, a fourth one justifies slot 1. */
  lemma LateJustification(g: Setup, bits: BitList) returns (blocks: seq<Block>, s: StateValue, block: Block, post: StateValue)
    requires SoundSetup(g) && |g.validators| > 0 && Enough(bits, |g.validators|)
    ensures Reached(g, blocks, s) && Reached(g, blocks + [block], post) && blocks != []
    ensures s.justified.slot < post.justified.slot < blocks[|blocks| - 1].slot && post.finalized.slot <= s.finalized.slot
  {
    var a, b, c, one, two, three := ThreeBlocks(g);
    blocks, s := [a, b, c], three;
    BlocksPlaced(g, blocks, s);
    assert blocks[0] == a;
    block, post := JustifyingBlock(g, blocks, s, 4, bits, 1);
  }

  /** After three empty blocks, a fourth one finalizes slot 2. */
  lemma EarlyFinality(g: Setup, bits: BitList)
    returns (a: Block, b: Block, c: Block, d: Block, one: StateValue, two: StateValue, three: StateValue, four: StateValue)
    requires SoundSetup(g) && |g.validators| > 0 && Enough(bits, |g.validators|)
    ensures Reached(g, [a], one) && Reached(g, [a, b], two) && Reached(g, [a, b, c], three) && Reached(g, [a, b, c, d], four)
    ensures a.slot == 1 && b.slot == 2 && c.slot == 3 && d.slot == 4
    ensures one.finalized.slot == two.finalized.slot == three.finalized.slot == 0
    ensures four.finalized == Checkpoint(BlockRoot(g.h, b), 2)
  {
    a, b, c, one, two, three := ThreeBlocks(g);
    var blocks := [a, b, c];
    BlocksPlaced(g, blocks, three);
    assert blocks[1] == b && blocks[2] == c;
    d, four := FinalizingBlock(g, blocks, three, 4, bits, 2);
    assert blocks + [d] == [a, b, c, d];
  }
}

/** What two runs that finalize different blocks say about their voters. */
module Accountability {
  import opened Containers
  import opened Bits
  import opened VoteTable
  import opened Transition
  import opened Ledger
  import opened Chain
  import opened ShortChains

  // ------------------------------------------------------------------ signed votes

  ghost function AllVotes(blocks: seq<Block>): seq<Attestation> {
    if blocks == [] then [] else AllVotes(blocks[..|blocks| - 1]) + blocks[|blocks| - 1].attestations
  }

  /** The checkpoint is the slot and the root of one header. */
  ghost predicate NamesBlock(h: Hashes, c: Checkpoint) {
    exists header :: h.header(header) == c.root && header.slot == c.slot
  }

  ghost predicate VotedFor(votes: seq<Attestation>, v: nat, target: Checkpoint) {
    exists i :: 0 <= i < |votes| && v in Participants(votes[i].bits) && votes[i].data.target == target
  }

  /** Among the votes is one of `v` for block `r`, at its slot. */
  ghost predicate SignedFor(h: Hashes, votes: seq<Attestation>, v: nat, r: Root) {
    exists slot: nat :: NamesBlock(h, Checkpoint(r, slot)) && VotedFor(votes, v, Checkpoint(r, slot))
  }

  /** Every counted vote was signed. */
  ghost predicate Proven(h: Hashes, log: Ledger, votes: seq<Attestation>) {
    forall r, v :: r in log.merged && v in log.merged[r] ==> SignedFor(h, votes, v, r)
  }

  ghost predicate HistoryNames(h: Hashes, history: seq<Root>) {
    forall i :: 0 <= i < |history| && history[i] != ZERO ==> NamesBlock(h, Checkpoint(history[i], i))
  }

  lemma SignedMore(h: Hashes, votes: seq<Attestation>, more: seq<Attestation>, v: nat, r: Root)
    requires SignedFor(h, votes, v, r)
    ensures SignedFor(h, votes + more, v, r)
  {
    var slot: nat :| NamesBlock(h, Checkpoint(r, slot)) && VotedFor(votes, v, Checkpoint(r, slot));
    var i :| 0 <= i < |votes| && v in Participants(votes[i].bits) && votes[i].data.target == Checkpoint(r, slot);
    assert (votes + more)[i] == votes[i];
  }

  lemma ProvenMore(h: Hashes, log: Ledger, votes: seq<Attestation>, more: seq<Attestation>)
    requires Proven(h, log, votes)
    ensures Proven(h, log, votes + more)
  {
    forall r, v | r in log.merged && v in log.merged[r]
      ensures SignedFor(h, votes + more, v, r)
    {
      SignedMore(h, votes, more, v, r);
    }
  }

  lemma SignedNow(h: Hashes, votes: seq<Attestation>, att: Attestation, v: nat)
    requires NamesBlock(h, att.data.target) && v in Participants(att.bits)
    ensures SignedFor(h, votes + [att], v, att.data.target.root)
  {
    assert (votes + [att])[|votes|] == att;
    assert VotedFor(votes + [att], v, Checkpoint(att.data.target.root, att.data.target.slot));
  }

  lemma StepProven(h: Hashes, c: Context, t: Tally, att: Attestation, log: Ledger, votes: seq<Attestation>)
    requires Proven(h, log, votes) && HistoryNames(h, c.history) && att.data.target.root != c.latestRoot
    ensures Proven(h, Recorded(c, t, att, log), votes + [att])
  {
    var log' := Recorded(c, t, att, log);
    forall r, v | r in log'.merged && v in log'.merged[r]
      ensures SignedFor(h, votes + [att], v, r)
    {
      if r in log.merged && v in log.merged[r] {
        SignedMore(h, votes, [att], v, r);
      } else {
        SignedNow(h, votes, att, v);
      }
    }
  }

  lemma {:induction false} BodyProven(h: Hashes, c: Context, t: Tally, atts: seq<Attestation>, log: Ledger,
                                      votes: seq<Attestation>)
    requires Proven(h, log, votes) && HistoryNames(h, c.history)
    requires forall att :: att in atts ==> att.data.target.root != c.latestRoot
    ensures Proven(h, RecordedAll(c, t, atts, log), votes + atts)
  {
    if atts == [] {
      assert votes + [] == votes;
    } else {
      var init, last := atts[..|atts| - 1], atts[|atts| - 1];
      BodyProven(h, c, t, init, log, votes);
      assert votes + atts == votes + init + [last];
      ProvenMore(h, RecordedAll(c, t, init, log), votes + init, [last]);
      if Steps(c, t, init).Ok? {
        StepProven(h, c, Steps(c, t, init).value, last, RecordedAll(c, t, init, log), votes + init);
      }
    }
  }

  lemma RunNames(g: Setup, blocks: seq<Block>, history: seq<Root>)
    requires HistoryIs(g, blocks, history)
    ensures HistoryNames(g.h, history)
  {
    forall i | 0 <= i < |history| && history[i] != ZERO
      ensures NamesBlock(g.h, Checkpoint(history[i], i))
    {
      var header := RootHasSlot(g, blocks, i);
    }
  }

  /** Every vote that a run counts was signed in one of its blocks. */
  lemma {:induction false} VotesSigned(g: Setup, blocks: seq<Block>, s: StateValue)
    requires Reached(g, blocks, s)
    ensures Proven(g.h, Books(g, blocks), AllVotes(blocks))
  {
    if blocks != [] {
      var init, last := blocks[..|blocks| - 1], blocks[|blocks| - 1];
      var before := ReachedBefore(g, blocks, s);
      VotesSigned(g, init, before);
      RunSettles(g, init, before);
      var s1 := Staged(g.h, before, last).value;
      StagedKeeps(g, init, before, Books(g, init), last);
      RunNames(g, init + [last], s1.history);
      BodyProven(g.h, ContextOf(g.h, s1), StartTally(s1), last.attestations, Books(g, init), AllVotes(init));
    }
  }

  // ----------------------------------------------------------------- two final blocks

  /** Two votes that no validator may cast both under the rules of Casper: different ones
      for one target slot, or one around the other. */
  predicate Offends(a: AttestationData, b: AttestationData) {
    || (a.target.slot == b.target.slot && (a.target != b.target || a.source != b.source))
    || (a.source.slot < b.source.slot && b.target.slot < a.target.slot)
  }

  ghost predicate Offender(votes: seq<Attestation>, v: nat) {
    exists i, j :: && 0 <= i < |votes| && 0 <= j < |votes|
                   && v in Participants(votes[i].bits) && v in Participants(votes[j].bits)
                   && Offends(votes[i].data, votes[j].data)
  }

  lemma FinalizedSigned(g: Setup, blocks: seq<Block>, s: StateValue)
    requires Reached(g, blocks, s) && blocks != [] && s.finalized.slot > 0
    ensures var log := Books(g, blocks);
            && s.finalized.root in log.adopted && NamesBlock(g.h, s.finalized)
            && forall v :: v in log.adopted[s.finalized.root] ==> SignedFor(g.h, AllVotes(blocks), v, s.finalized.root)
  {
    VotesOfRun(g, blocks, s);
    VotesSigned(g, blocks, s);
    HistoryOfRun(g, blocks, s);
    var header := RootHasSlot(g, blocks, s.finalized.slot);
    FinalizedNotZero(g, blocks, s);
  }

  lemma FinalizedNotZero(g: Setup, blocks: seq<Block>, s: StateValue)
    requires Reached(g, blocks, s) && blocks != [] && s.finalized.slot > 0
    ensures s.finalized.root != ZERO
  {
    VotesOfRun(g, blocks, s);
    HistoryOfRun(g, blocks, s);
    SlotsPlace(s.history, |s.history|);
  }

  /** When two runs over one registry both finalize beyond genesis, a third of the validators
      signed for both final blocks. */
  lemma FinalityShares(g: Setup, left: seq<Block>, right: seq<Block>, s: StateValue, s': StateValue) returns (both: set<nat>)
    requires Reached(g, left, s) && left != [] && s.finalized.slot > 0
    requires Reached(g, right, s') && right != [] && s'.finalized.slot > 0
    ensures 3 * |both| >= |g.validators|
    ensures forall v :: v in both ==> SignedFor(g.h, AllVotes(left), v, s.finalized.root)
    ensures forall v :: v in both ==> SignedFor(g.h, AllVotes(right), v, s'.finalized.root)
    ensures NamesBlock(g.h, s.finalized) && NamesBlock(g.h, s'.finalized) && SoundHashes(g.h)
  {
    ReachedRun(g, left, s);
    FinalizedSigned(g, left, s);
    FinalizedSigned(g, right, s');
    QuorumsOfRuns(g, left, right, s, s', s.finalized.root, s'.finalized.root);
    both := Books(g, left).adopted[s.finalized.root] * Books(g, right).adopted[s'.finalized.root];
  }

  lemma SignedAt(h: Hashes, votes: seq<Attestation>, v: nat, c: Checkpoint) returns (i: nat)
    requires SoundHeaders(h) && NamesBlock(h, c) && SignedFor(h, votes, v, c.root)
    ensures i < |votes| && v in Participants(votes[i].bits) && votes[i].data.target == c
  {
    var slot: nat :| NamesBlock(h, Checkpoint(c.root, slot)) && VotedFor(votes, v, Checkpoint(c.root, slot));
    i :| 0 <= i < |votes| && v in Participants(votes[i].bits) && votes[i].data.target == Checkpoint(c.root, slot);
  }

  lemma DoubleVote(h: Hashes, left: seq<Attestation>, right: seq<Attestation>, v: nat, a: Checkpoint, b: Checkpoint)
    requires SoundHeaders(h) && NamesBlock(h, a) && NamesBlock(h, b) && a.slot == b.slot && a.root != b.root
    requires SignedFor(h, left, v, a.root) && SignedFor(h, right, v, b.root)
    ensures Offender(left + right, v)
  {
    var i := SignedAt(h, left, v, a);
    var j := SignedAt(h, right, v, b);
    assert (left + right)[i] == left[i] && (left + right)[|left| + j] == right[j];
  }

  /** Two runs that finalize different blocks at one slot expose a third of the validators. */
  lemma SameSlotOffends(g: Setup, left: seq<Block>, right: seq<Block>, s: StateValue, s': StateValue) returns (both: set<nat>)
    requires Reached(g, left, s) && left != [] && Reached(g, right, s') && right != []
    requires s.finalized.slot == s'.finalized.slot > 0 && s.finalized != s'.finalized
    ensures 3 * |both| >= |g.validators| && forall v :: v in both ==> Offender(AllVotes(left) + AllVotes(right), v)
  {
    both := FinalityShares(g, left, right, s, s');
    forall v | v in both
      ensures Offender(AllVotes(left) + AllVotes(right), v)
    {
      DoubleVote(g.h, AllVotes(left), AllVotes(right), v, s.finalized, s'.finalized);
    }
  }

  // -------------------------------------------------------- at different slots: a fork

  /** Each final block is missing from the other run. */
  ghost predicate Conflicts(g: Setup, left: seq<Block>, right: seq<Block>, a: Checkpoint, b: Checkpoint) {
    && RootAtSlot(g, left, a.slot) == a.root != RootAtSlot(g, right, a.slot)
    && RootAtSlot(g, right, b.slot) == b.root != RootAtSlot(g, left, b.slot)
  }

  ghost predicate Spotless(votes: seq<Attestation>) {
    forall v :: !Offender(votes, v)
  }

  lemma LastVotes(a: Block, b: Block, c: Block)
    requires a.attestations == b.attestations == []
    ensures AllVotes([a, b, c]) == c.attestations
  {
    assert AllVotes([a]) == [] by {
      assert [a][..0] == [];
    }
    assert AllVotes([a, b]) == [] by {
      assert [a, b][..1] == [a];
    }
    assert [a, b, c][..2] == [a, b];
  }

  /** The vote of `bits` from one slot to another. */
  ghost predicate Goes(att: Attestation, bits: BitList, source: nat, target: nat) {
    att.bits == bits && att.data.source.slot == source && att.data.target.slot == target
  }

  /** A third block on top of two empty ones. */
  lemma ThirdBlock(g: Setup, a: Block, b: Block, c: Block, s: StateValue, slot: nat)
    requires Reached(g, [a, b] + [c], s) && a.attestations == b.attestations == [] && slot != c.slot
    ensures Reached(g, [a, b, c], s) && AllVotes([a, b, c]) == c.attestations
    ensures RootAtSlot(g, [a, b, c], slot) == RootAtSlot(g, [a, b], slot)
  {
    assert [a, b] + [c] == [a, b, c] && [a, b, c][..2] == [a, b];
    LastVotes(a, b, c);
  }

  ghost predicate AtSlots(blocks: seq<Block>, i: nat, j: nat, k: nat) {
    |blocks| == 3 && blocks[0].slot == i && blocks[1].slot == j && blocks[2].slot == k
  }

  /** The run ends with the block at this slot final. */
  ghost predicate EndsFinal(g: Setup, blocks: seq<Block>, s: StateValue, slot: nat) {
    Reached(g, blocks, s) && s.finalized == Checkpoint(RootAtSlot(g, blocks, slot), slot) && HasBlock(g, blocks, slot)
  }

  /** Blocks at slots 1 and 2, and one at slot 6 with votes that finalize slot 1. */
  lemma LeftRun(g: Setup, all: BitList, some: BitList, others: BitList) returns (blocks: seq<Block>, s: StateValue)
    requires SoundSetup(g) && |g.validators| > 0 && Enough(all, |g.validators|) && !Enough(some, |g.validators|)
    requires Supermajority(Below(Participants(some) + Participants(others), |g.validators|), |g.validators|)
    ensures AtSlots(blocks, 1, 2, 6) && EndsFinal(g, blocks, s, 1)
    ensures var votes := AllVotes(blocks);
            |votes| == 3 && Goes(votes[0], all, 0, 1) && Goes(votes[1], some, 0, 2) && Goes(votes[2], others, 1, 2)
  {
    var a, b, one, two := TwoBlocks(g, 1, 2);
    var c, three := PooledBlock(g, [a, b], two, 6, all, some, others);
    ThirdBlock(g, a, b, c, three, 1);
    blocks, s := [a, b, c], three;
  }

  /** Blocks at slots 3 and 4, and one at slot 5 with votes that finalize slot 3. */
  lemma RightRun(g: Setup, rival: BitList) returns (blocks: seq<Block>, s: StateValue)
    requires SoundSetup(g) && |g.validators| > 0 && Enough(rival, |g.validators|)
    ensures AtSlots(blocks, 3, 4, 5) && EndsFinal(g, blocks, s, 3)
    ensures var votes := AllVotes(blocks); |votes| == 2 && Goes(votes[0], rival, 0, 3) && Goes(votes[1], rival, 3, 4)
  {
    var a, b, one, two := TwoBlocks(g, 3, 4);
    var c, three := FinalizingBlock(g, [a, b], two, 5, rival, 3);
    ThirdBlock(g, a, b, c, three, 3);
    blocks, s := [a, b, c], three;
  }

  /** Five votes of which only two pairs offend. */
  lemma FiveVotes(votes: seq<Attestation>, all: BitList, some: BitList, others: BitList, rival: BitList)
    requires |votes| == 5 && Goes(votes[0], all, 0, 1) && Goes(votes[1], some, 0, 2) && Goes(votes[2], others, 1, 2)
    requires Goes(votes[3], rival, 0, 3) && Goes(votes[4], rival, 3, 4)
    ensures Spotless(votes) <==> Participants(some) !! Participants(others) && Participants(others) !! Participants(rival)
  {
    assert Offends(votes[1].data, votes[2].data) && Offends(votes[3].data, votes[2].data);
    forall v
      ensures v in Participants(some) && v in Participants(others) ==> Offender(votes, v)
      ensures v in Participants(others) && v in Participants(rival) ==> Offender(votes, v)
    {
    }
    if Participants(some) !! Participants(others) && Participants(others) !! Participants(rival) {
      forall v
        ensures !Offender(votes, v)
      {
        if Offender(votes, v) {
          var i, j :| 0 <= i < 5 && 0 <= j < 5 && v in Participants(votes[i].bits) && v in Participants(votes[j].bits)
                      && Offends(votes[i].data, votes[j].data);
          OnlyTwoPairs(votes, all, some, others, rival, i, j);
        }
      }
    }
  }

  lemma OnlyTwoPairs(votes: seq<Attestation>, all: BitList, some: BitList, others: BitList, rival: BitList, i: nat, j: nat)
    requires |votes| == 5 && Goes(votes[0], all, 0, 1) && Goes(votes[1], some, 0, 2) && Goes(votes[2], others, 1, 2)
    requires Goes(votes[3], rival, 0, 3) && Goes(votes[4], rival, 3, 4)
    requires i < 5 && j < 5 && Offends(votes[i].data, votes[j].data)
    ensures {i, j} == {1, 2} || {i, j} == {2, 3}
  {
  }

  /** Votes for a target are pooled whatever their source, and that breaks accountability:
      if a quorum for slot 2 comes together from slots 0 and 1, another quorum can finalize
      slot 3 on a fork. Somebody breaks the rules of Casper exactly when somebody voted for
      slot 2 twice, or from slot 1 and on the fork as well. */
  lemma PooledVotesFork(g: Setup, all: BitList, some: BitList, others: BitList, rival: BitList)
    returns (left: seq<Block>, right: seq<Block>, s: StateValue, s': StateValue)
    requires SoundSetup(g) && |g.validators| > 0 && Enough(all, |g.validators|) && !Enough(some, |g.validators|)
    requires Supermajority(Below(Participants(some) + Participants(others), |g.validators|), |g.validators|)
    requires Enough(rival, |g.validators|)
    ensures Reached(g, left, s) && Reached(g, right, s') && s.finalized.slot > 0 && s'.finalized.slot > 0
    ensures Conflicts(g, left, right, s.finalized, s'.finalized)
    ensures Spotless(AllVotes(left) + AllVotes(right)) <==>
            Participants(some) !! Participants(others) && Participants(others) !! Participants(rival)
  {
    left, s := LeftRun(g, all, some, others);
    right, s' := RightRun(g, rival);
    NoBlockAt(g, right, 1);
    NoBlockAt(g, left, 3);
    FiveVotes(AllVotes(left) + AllVotes(right), all, some, others, rival);
  }

  lemma ThreeSigners()
    ensures Participants(BitList([3], 3)) == {0, 1} && Participants(BitList([1], 3)) == {0}
    ensures Participants(BitList([2], 3)) == {1} && Participants(BitList([5], 3)) == {0, 2}
  {
    assert TestBit(3, 0) && TestBit(3, 1) && !TestBit(3, 2);
    assert TestBit(1, 0) && !TestBit(1, 1) && !TestBit(1, 2);
    assert !TestBit(2, 0) && TestBit(2, 1) && !TestBit(2, 2);
    assert TestBit(5, 0) && !TestBit(5, 1) && TestBit(5, 2);
    forall v: nat | v < 3
      ensures BitIsSet(BitList([3], 3), v) <==> v < 2
      ensures BitIsSet(BitList([1], 3), v) <==> v == 0
      ensures BitIsSet(BitList([2], 3), v) <==> v == 1
      ensures BitIsSet(BitList([5], 3), v) <==> v != 1
    {
    }
  }

  /** With three validators two runs finalize different blocks, and nobody is to blame. */
  lemma NobodyToBlame(g: Setup) returns (left: seq<Block>, right: seq<Block>, s: StateValue, s': StateValue)
    requires SoundSetup(g) && |g.validators| == 3
    ensures Reached(g, left, s) && Reached(g, right, s') && s.finalized.slot > 0 && s'.finalized.slot > 0
    ensures Conflicts(g, left, right, s.finalized, s'.finalized) && Spotless(AllVotes(left) + AllVotes(right))
  {
    ThreeSigners();
    assert Below({0, 1}, 3) == {0, 1} && Below({0}, 3) == {0} && Below({0, 2}, 3) == {0, 2} && {0} + {1} == {0, 1};
    left, right, s, s' := PooledVotesFork(g, BitList([3], 3), BitList([1], 3), BitList([2], 3), BitList([5], 3));
  }
}

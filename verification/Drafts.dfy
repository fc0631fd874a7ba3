/** When the block a validator drafts from its pool can be processed. */
module Drafts {
  import opened Containers
  import opened Window
  import opened Transition
  import opened Ledger
  import opened Sequencing
  import opened Chain
  import opened Aggregation
  import opened Producer

  /** The header of a draft fails only for the wrong proposer or a full history. */
  lemma DraftStaged(g: Setup, blocks: seq<Block>, s: StateValue, slot: nat, index: nat, atts: seq<Attestation>)
    requires Reached(g, blocks, s) && s.slot < slot
    ensures Staged(g.h, s, Draft(g.h, s, slot, index, atts)).Ok? <==>
            |g.validators| != 0 && index == slot % |g.validators| && slot <= HISTORICAL_ROOTS_LIMIT
    ensures Staged(g.h, s, Draft(g.h, s, slot, index, atts)).Ok? ==>
              Staged(g.h, s, Draft(g.h, s, slot, index, atts)).value.finalized.slot == s.finalized.slot
  {
    RunSettles(g, blocks, s);
    AdvancedOnlySlot(g.h, s, slot);
  }

  /** In a reachable state attestations only fail as a list: there is always a tally to
      store and never a zero root in the table. */
  lemma BodyOfRun(g: Setup, blocks: seq<Block>, s: StateValue, block: Block, s1: StateValue)
    requires Reached(g, blocks, s) && NoSelfVote(g.h, block) && s.slot < block.slot && Staged(g.h, s, block) == Ok(s1)
    ensures ProcessAttestations(g.h, s1, block.attestations).Ok? <==>
            Steps(ContextOf(g.h, s1), StartTally(s1), block.attestations).Ok?
  {
    ReachedRun(g, blocks, s);
    RunSettles(g, blocks, s);
    StagedKeeps(g, blocks, s, Books(g, blocks), block);
    AgreesAccounts(s1, Books(g, blocks));
    NoZeroVotes(s1, Books(g, blocks));
    BodyAccounts(g.h, s1, block.attestations, Books(g, blocks));
  }

  /** A draft can be processed exactly when its proposer is right, the history has room,
      and no attestation of the payload is overtaken by finality on the way. */
  lemma DraftOfRun(g: Setup, blocks: seq<Block>, s: StateValue, slot: nat, index: nat, atts: seq<Attestation>)
    requires Reached(g, blocks, s) && s.slot < slot && NoSelfVote(g.h, Draft(g.h, s, slot, index, atts))
    ensures var draft := Draft(g.h, s, slot, index, atts);
            var staged := Staged(g.h, s, draft);
            ProcessBlock(g.h, AdvancedTo(g.h, s, slot), draft).Ok? <==>
            && |g.validators| != 0 && index == slot % |g.validators| && slot <= HISTORICAL_ROOTS_LIMIT
            && staged.Ok?
            && forall k :: 0 <= k < |atts| ==> !Overtaken(ContextOf(g.h, staged.value), StartTally(staged.value), atts, k)
  {
    var draft := Draft(g.h, s, slot, index, atts);
    DraftStaged(g, blocks, s, slot, index, atts);
    if Staged(g.h, s, draft).Ok? {
      var s1 := Staged(g.h, s, draft).value;
      BodyOfRun(g, blocks, s, draft, s1);
      StagedOfRun(g, blocks, s, draft, s1);
      RefusedIfOvertaken(ContextOf(g.h, s1), StartTally(s1), atts, Books(g, blocks));
    }
  }

  /** A block is accepted in a reachable state exactly when it is later, from the validator
      whose turn it is, on top of the last block, within the limit of the history, its
      attestations are not overtaken by finality, and it carries the root of the state it
      leads to. */
  lemma AcceptedExactly(g: Setup, blocks: seq<Block>, s: StateValue, block: Block)
    requires Reached(g, blocks, s) && NoSelfVote(g.h, block)
    ensures StateTransition(g.h, s, block).Ok? <==>
            && s.slot < block.slot <= HISTORICAL_ROOTS_LIMIT
            && |g.validators| != 0 && block.proposerIndex == block.slot % |g.validators|
            && block.parentRoot == RootAtSlot(g, blocks, s.slot)
            && Staged(g.h, s, block).Ok?
            && var s1 := Staged(g.h, s, block).value;
            && (forall k :: 0 <= k < |block.attestations| ==>
                  !Overtaken(ContextOf(g.h, s1), StartTally(s1), block.attestations, k))
            && ProcessAttestations(g.h, s1, block.attestations).Ok?
            && block.stateRoot == g.h.state(ProcessAttestations(g.h, s1, block.attestations).value)
  {
    HeaderVerdict(g, blocks, s, block);
    if s.slot < block.slot && Staged(g.h, s, block).Ok? {
      var s1 := Staged(g.h, s, block).value;
      BodyOfRun(g, blocks, s, block, s1);
      StagedOfRun(g, blocks, s, block, s1);
      RefusedIfOvertaken(ContextOf(g.h, s1), StartTally(s1), block.attestations, Books(g, blocks));
    }
  }

  lemma PayloadFresh(entries: seq<PendingBlockAttestation>, finalized: nat, aggregated: seq<Attestation>, sign: Signer)
    requires |Ready(entries, finalized)| < ATTESTATIONS_LIMIT ==> Aggregates(Loose(entries, finalized), aggregated)
    ensures forall att :: att in Payload(Chosen(Ready(entries, finalized), aggregated, sign)) ==>
              att.data.target.slot >= finalized
  {
    var chosen := Chosen(Ready(entries, finalized), aggregated, sign);
    ChosenProper(entries, finalized, aggregated, sign);
    forall i | 0 <= i < |chosen|
      ensures Payload(chosen)[i].data.target.slot >= finalized
    {
      assert Proper(entries, finalized, chosen[i]);
    }
  }

  /** What a producer chooses is fresh in the state before, yet its draft fails when an
      attestation votes below a source that an earlier one finalizes; with the right
      proposer and room in the history, this is the only way it fails. */
  lemma ChosenDraft(g: Setup, blocks: seq<Block>, s: StateValue, slot: nat, index: nat,
                    entries: seq<PendingBlockAttestation>, aggregated: seq<Attestation>, sign: Signer, s1: StateValue)
    requires |Ready(entries, s.finalized.slot)| < ATTESTATIONS_LIMIT ==>
               Aggregates(Loose(entries, s.finalized.slot), aggregated)
    requires var draft := Draft(g.h, s, slot, index, Payload(Chosen(Ready(entries, s.finalized.slot), aggregated, sign)));
             Reached(g, blocks, s) && s.slot < slot && NoSelfVote(g.h, draft) && Staged(g.h, s, draft) == Ok(s1)
    ensures var atts := Payload(Chosen(Ready(entries, s.finalized.slot), aggregated, sign));
            var c, t := ContextOf(g.h, s1), StartTally(s1);
            ProcessBlock(g.h, AdvancedTo(g.h, s, slot), Draft(g.h, s, slot, index, atts)).Err? <==>
            exists k :: 0 <= k < |atts| && WellFormedVote(c, atts[k].data) && MovedAbove(c, t, atts, k, atts[k].data.target.slot)
  {
    var atts := Payload(Chosen(Ready(entries, s.finalized.slot), aggregated, sign));
    var c, t := ContextOf(g.h, s1), StartTally(s1);
    DraftStaged(g, blocks, s, slot, index, atts);
    DraftOfRun(g, blocks, s, slot, index, atts);
    PayloadFresh(entries, s.finalized.slot, aggregated, sign);
    assert forall k :: 0 <= k < |atts| ==> atts[k] in atts;
    assert forall k :: 0 <= k < |atts| ==> (Overtaken(c, t, atts, k) <==>
                       WellFormedVote(c, atts[k].data) && MovedAbove(c, t, atts, k, atts[k].data.target.slot));
  }

  /** Offered in the order of their targets, fresh attestations never spoil a draft. */
  lemma SortedDraft(g: Setup, blocks: seq<Block>, s: StateValue, slot: nat, index: nat, atts: seq<Attestation>)
    requires Reached(g, blocks, s) && s.slot < slot && NoSelfVote(g.h, Draft(g.h, s, slot, index, atts))
    requires |g.validators| != 0 && index == slot % |g.validators| && slot <= HISTORICAL_ROOTS_LIMIT
    requires TargetsRise(atts) && forall att :: att in atts ==> att.data.target.slot >= s.finalized.slot
    ensures ProcessBlock(g.h, AdvancedTo(g.h, s, slot), Draft(g.h, s, slot, index, atts)).Ok?
  {
    var draft := Draft(g.h, s, slot, index, atts);
    DraftStaged(g, blocks, s, slot, index, atts);
    var s1 := Staged(g.h, s, draft).value;
    BodyOfRun(g, blocks, s, draft, s1);
    StagedOfRun(g, blocks, s, draft, s1);
    RisingNeverRefused(ContextOf(g.h, s1), StartTally(s1), atts, Books(g, blocks));
  }
}

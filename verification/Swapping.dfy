/** When two neighbouring attestations of a block may change places. */
module Swapping {
  import opened Containers
  import opened Bits
  import opened Window
  import opened VoteTable
  import opened Transition
  import opened Ledger
  import opened Sequencing
  import opened Sizes

  ghost predicate Stale(c: Context, fin: nat, d: AttestationData) {
    WellFormedVote(c, d) && d.target.slot < fin
  }

  /** The vote counts and completes two thirds. */
  ghost predicate Quorate(c: Context, t: Tally, att: Attestation) {
    Eligible(c, t, att.data) && Supermajority(MergedVoters(c, t, att), c.validators)
  }

  /** Everyone who votes has been counted for the target before. */
  ghost predicate NothingNew(c: Context, t: Tally, att: Attestation) {
    var votes, root := PendingVotes(c, t), att.data.target.root;
    root in votes && Below(Participants(att.bits), c.validators) <= votes[root]
  }

  /** The vote is eligible once `target` is justified and `fin` finalized. */
  ghost predicate EligibleAfter(c: Context, t: Tally, target: Checkpoint, fin: nat, d: AttestationData) {
    && WellFormedVote(c, d) && AcceptedAfter(d.target.slot, fin) && d.target.slot > fin
    && d.target.slot != target.slot && !Justified(t.window, t.finalized.slot, d.target.slot)
    && (d.source.slot <= fin || d.source.slot == target.slot || Justified(t.window, t.finalized.slot, d.source.slot))
  }

  /** A quorum for the target of `a` makes no difference to `b`: they vote for the same
      target; or finality does not overtake `b`, and `b` counts after as it counts before,
      unless there is nothing new to count. */
  ghost predicate Undisturbed(c: Context, t: Tally, a: Attestation, b: Attestation) {
    var fin := FinalizedBy(t, a.data).slot;
    || a.data.target == b.data.target
    || (&& !Stale(c, fin, b.data)
        && ((Eligible(c, t, b.data) <==> EligibleAfter(c, t, a.data.target, fin, b.data)) || NothingNew(c, t, b)))
  }

  /** Both vote for one target and bring it to two thirds only together. */
  ghost predicate Together(c: Context, t: Tally, a: Attestation, b: Attestation) {
    && Eligible(c, t, a.data) && Eligible(c, t, b.data) && a.data.target == b.data.target
    && Supermajority(MergedVoters(c, t, a) + MergedVoters(c, t, b), c.validators)
  }

  /** The condition for changing places, in terms of the tally before the two. */
  ghost predicate Swappable(c: Context, t: Tally, a: Attestation, b: Attestation) {
    if Stale(c, t.finalized.slot, a.data) || Stale(c, t.finalized.slot, b.data) then true
    else if Quorate(c, t, a) && Quorate(c, t, b) then
      a.data.target == b.data.target && FinalizedBy(t, a.data) == FinalizedBy(t, b.data)
    else if Quorate(c, t, a) then Undisturbed(c, t, a, b)
    else if Quorate(c, t, b) then Undisturbed(c, t, b, a)
    else Together(c, t, a, b) ==> FinalizedBy(t, a.data) == FinalizedBy(t, b.data)
  }

  /** The tally agrees with a record, and neither vote is for the block itself. */
  ghost predicate Given(c: Context, t: Tally, a: Attestation, b: Attestation, log: Ledger) {
    && ContextFits(c) && TallyAccounts(c, t, log)
    && a.data.target.root != c.latestRoot && b.data.target.root != c.latestRoot
  }

  ghost predicate SwapsWell(c: Context, t: Tally, a: Attestation, b: Attestation) {
    Steps(c, t, [a, b]) == Steps(c, t, [b, a])
  }

  // --------------------------------------------------------------------- stale votes

  lemma StaleStays(c: Context, t: Tally, a: Attestation, b: Attestation, log: Ledger)
    requires Given(c, t, a, b, log) && Stale(c, t.finalized.slot, b.data)
    ensures Steps(c, t, [a, b]) == Err(StaleTarget) && Steps(c, t, [b, a]) == Err(StaleTarget)
  {
    TwoSteps(c, t, a, b);
    TwoSteps(c, t, b, a);
    StepKeeps(c, t, a, log);
  }

  // ------------------------------------------------------------------- one target

  lemma PoolOfOne(c: Context, votes: Table, a: Attestation, root: Root)
    ensures PoolOf(c, votes, [a], root) == VotesFor(votes, root) + Below(Participants(a.bits), c.validators)
  {
    assert [a][..0] == [];
  }

  lemma PoolOfTwo(c: Context, votes: Table, a: Attestation, b: Attestation, root: Root)
    ensures PoolOf(c, votes, [a, b], root) ==
            VotesFor(votes, root) + Below(Participants(a.bits), c.validators) + Below(Participants(b.bits), c.validators)
  {
    assert [a, b][..1] == [a];
    PoolOfOne(c, votes, a, root);
  }

  lemma CompletingOfTwo(c: Context, t: Tally, a: Attestation, b: Attestation)
    requires a.data.target == b.data.target && !Reaches(c, PendingVotes(c, t), [], a.data.target.root)
    ensures Reaches(c, PendingVotes(c, t), [a], a.data.target.root) <==> Supermajority(MergedVoters(c, t, a), c.validators)
    ensures Reaches(c, PendingVotes(c, t), [a, b], a.data.target.root) <==>
            Supermajority(MergedVoters(c, t, a) + MergedVoters(c, t, b), c.validators)
    ensures Reaches(c, PendingVotes(c, t), [a, b], a.data.target.root) ==>
              Completing(c, PendingVotes(c, t), [a, b], a.data.target.root) ==
              if Supermajority(MergedVoters(c, t, a), c.validators) then 0 else 1
  {
    var votes, root := PendingVotes(c, t), a.data.target.root;
    PoolOfOne(c, votes, a, root);
    PoolOfTwo(c, votes, a, b, root);
    assert MergedVoters(c, t, a) + MergedVoters(c, t, b) == PoolOf(c, votes, [a, b], root);
    assert [a, b][..1] == [a] && [a][..0] == [];
  }

  /** Two votes for one target: the one that completes the quorum decides. */
  lemma SwapOneTarget(c: Context, t: Tally, a: Attestation, b: Attestation, log: Ledger)
    requires Given(c, t, a, b, log) && Eligible(c, t, a.data) && Eligible(c, t, b.data) && a.data.target == b.data.target
    ensures SwapsWell(c, t, a, b) <==>
            (Together(c, t, a, b) && (Quorate(c, t, a) <==> Quorate(c, t, b)) ==> FinalizedBy(t, a.data) == FinalizedBy(t, b.data))
  {
    OrderOfOneTarget(c, t, [a, b], [b, a], a.data.target, log);
    CompletingOfTwo(c, t, a, b);
    CompletingOfTwo(c, t, b, a);
    assert MergedVoters(c, t, a) + MergedVoters(c, t, b) == MergedVoters(c, t, b) + MergedVoters(c, t, a);
  }

  // ------------------------------------------------------------ no quorum either way

  ghost function TallyWith(c: Context, t: Tally, att: Attestation): Tally {
    if Eligible(c, t, att.data) then t.(votes := Some(MergedVotes(c, t, att))) else t
  }

  lemma CountedStep(c: Context, t: Tally, att: Attestation)
    requires !Stale(c, t.finalized.slot, att.data) && !Quorate(c, t, att)
    ensures Step(c, t, att) == Ok(TallyWith(c, t, att))
  {
  }

  /** Different targets are different blocks at different slots. */
  lemma TargetsDiffer(c: Context, d: AttestationData, d': AttestationData)
    requires ContextFits(c) && WellFormedVote(c, d) && WellFormedVote(c, d') && d.target != d'.target
    requires d.target.root != c.latestRoot && d'.target.root != c.latestRoot
    ensures d.target.root != d'.target.root && d.target.slot != d'.target.slot
  {
    TargetPlaced(c.history, d.target);
    TargetPlaced(c.history, d'.target);
  }

  /** A vote for another target is counted the same before and after. */
  lemma OtherVoters(c: Context, t: Tally, a: Attestation, b: Attestation)
    requires a.data.target.root != b.data.target.root
    ensures MergedVoters(c, t.(votes := Some(MergedVotes(c, t, a))), b) == MergedVoters(c, t, b)
    ensures MergedVotes(c, t.(votes := Some(MergedVotes(c, t, a))), b) ==
            PendingVotes(c, t)[a.data.target.root := MergedVoters(c, t, a)][b.data.target.root := MergedVoters(c, t, b)]
  {
  }

  lemma UpdatesCommute(votes: Table, r: Root, v: set<nat>, r': Root, v': set<nat>)
    requires r != r'
    ensures votes[r := v][r' := v'] == votes[r' := v'][r := v]
  {
  }

  lemma CountsCommute(c: Context, t: Tally, a: Attestation, b: Attestation)
    requires Eligible(c, t, a.data) && Eligible(c, t, b.data) && a.data.target.root != b.data.target.root
    ensures TallyWith(c, TallyWith(c, t, a), b) == TallyWith(c, TallyWith(c, t, b), a)
  {
    OtherVoters(c, t, a, b);
    OtherVoters(c, t, b, a);
    UpdatesCommute(PendingVotes(c, t), a.data.target.root, MergedVoters(c, t, a), b.data.target.root, MergedVoters(c, t, b));
  }

  lemma StillShort(c: Context, t: Tally, a: Attestation, b: Attestation)
    requires !Stale(c, t.finalized.slot, b.data) && !Quorate(c, t, b)
    requires Eligible(c, t, a.data) && Eligible(c, t, b.data) ==> a.data.target.root != b.data.target.root
    ensures !Stale(c, TallyWith(c, t, a).finalized.slot, b.data) && !Quorate(c, TallyWith(c, t, a), b)
    ensures Eligible(c, TallyWith(c, t, a), b.data) <==> Eligible(c, t, b.data)
  {
    if Eligible(c, t, a.data) && Eligible(c, t, b.data) {
      OtherVoters(c, t, a, b);
    }
  }

  lemma SwapNeither(c: Context, t: Tally, a: Attestation, b: Attestation)
    requires !Stale(c, t.finalized.slot, a.data) && !Stale(c, t.finalized.slot, b.data)
    requires !Quorate(c, t, a) && !Quorate(c, t, b)
    requires Eligible(c, t, a.data) && Eligible(c, t, b.data) ==> a.data.target.root != b.data.target.root
    ensures SwapsWell(c, t, a, b)
  {
    TwoSteps(c, t, a, b);
    TwoSteps(c, t, b, a);
    CountedStep(c, t, a);
    CountedStep(c, t, b);
    StillShort(c, t, a, b);
    StillShort(c, t, b, a);
    CountedStep(c, TallyWith(c, t, a), b);
    CountedStep(c, TallyWith(c, t, b), a);
    if Eligible(c, t, a.data) && Eligible(c, t, b.data) {
      CountsCommute(c, t, a, b);
    }
  }

  // ------------------------------------------------------------------- after a quorum

  lemma SettledJustified(c: Context, t: Tally, target: Checkpoint, cp: Checkpoint, slot: nat)
    requires target.slot > t.finalized.slot && cp.slot >= t.finalized.slot
    ensures Justified(SettledAt(c, t, target, cp).window, cp.slot, slot) <==>
            slot <= cp.slot || slot == target.slot || Justified(t.window, t.finalized.slot, slot)
  {
    var fin := t.finalized.slot;
    MarkedJustified(t.window, fin, target.slot, slot);
    ShiftedJustified(Marked(t.window, target.slot - fin - 1), fin, cp.slot, slot);
  }

  lemma SettledEligible(c: Context, t: Tally, target: Checkpoint, cp: Checkpoint, d: AttestationData)
    requires target.slot > t.finalized.slot && cp.slot >= t.finalized.slot
    ensures Eligible(c, SettledAt(c, t, target, cp), d) <==> EligibleAfter(c, t, target, cp.slot, d)
  {
    SettledJustified(c, t, target, cp, d.target.slot);
    SettledJustified(c, t, target, cp, d.source.slot);
  }

  /** The votes for a target that is still open survive. */
  lemma VotesSurvive(c: Context, t: Tally, target: Checkpoint, cp: Checkpoint, d: AttestationData, log: Ledger)
    requires ContextFits(c) && TallyAccounts(c, t, log) && WellFormedVote(c, d) && d.target.root != c.latestRoot
    requires target.slot > t.finalized.slot && cp.slot >= t.finalized.slot && d.target.root != target.root
    requires d.target.slot > cp.slot
    ensures SameVotesFor(PendingVotes(c, SettledAt(c, t, target, cp)), PendingVotes(c, t), d.target.root)
  {
    TargetPlaced(c.history, d.target);
  }

  ghost predicate SameVotesFor(votes: Table, votes': Table, root: Root) {
    (root in votes <==> root in votes') && (root in votes ==> votes[root] == votes'[root])
  }

  lemma SurvivorsMerge(c: Context, t: Tally, t1: Tally, att: Attestation)
    requires SameVotesFor(PendingVotes(c, t1), PendingVotes(c, t), att.data.target.root)
    ensures MergedVoters(c, t1, att) == MergedVoters(c, t, att)
    ensures NothingNew(c, t1, att) <==> NothingNew(c, t, att)
  {
  }

  /** Counting nothing new changes nothing, and only that. */
  lemma CountsNothing(c: Context, t: Tally, att: Attestation)
    requires t.votes.Some?
    ensures t.(votes := Some(MergedVotes(c, t, att))) == t <==> NothingNew(c, t, att)
  {
    var votes, root := PendingVotes(c, t), att.data.target.root;
    assert MergedVotes(c, t, att)[root] == MergedVoters(c, t, att);
    if NothingNew(c, t, att) {
      assert MergedVoters(c, t, att) == votes[root];
      assert MergedVotes(c, t, att) == votes;
    }
  }

  /** A quorum for one target, on a tally that has been given another vote as well. */
  lemma SettledWith(c: Context, t: Tally, target: Checkpoint, cp: Checkpoint, b: Attestation, log: Ledger)
    requires ContextFits(c) && TallyAccounts(c, t, log) && WellFormedVote(c, b.data) && b.data.target.root != c.latestRoot
    requires target.slot > t.finalized.slot && cp.slot >= t.finalized.slot
    requires b.data.target.root != target.root && b.data.target.slot > cp.slot
    ensures var t1 := SettledAt(c, t, target, cp);
            SettledAt(c, t.(votes := Some(MergedVotes(c, t, b))), target, cp) == t1.(votes := Some(MergedVotes(c, t1, b)))
  {
    var t1, root := SettledAt(c, t, target, cp), b.data.target.root;
    TargetPlaced(c.history, b.data.target);
    VotesSurvive(c, t, target, cp, b.data, log);
    SurvivorsMerge(c, t, t1, b);
    SettledVotes(c, t, MergedVotes(c, t, b), target, cp);
    RetainedUpdate(PendingVotes(c, t), target.root, c.slots, cp.slot, root, MergedVoters(c, t, b));
  }

  lemma SettledVotes(c: Context, t: Tally, votes: Table, target: Checkpoint, cp: Checkpoint)
    requires target.slot > t.finalized.slot && cp.slot >= t.finalized.slot
    ensures SettledAt(c, t.(votes := Some(votes)), target, cp) ==
            SettledAt(c, t, target, cp).(votes := Some(Retained(votes - {target.root}, c.slots, cp.slot)))
  {
  }

  lemma RetainedUpdate(votes: Table, gone: Root, slots: map<Root, nat>, fin: nat, root: Root, voters: set<nat>)
    requires root != gone && root in slots && slots[root] > fin
    ensures Retained(votes[root := voters] - {gone}, slots, fin) == Retained(votes - {gone}, slots, fin)[root := voters]
  {
  }

  /** An open target is not the slot that a quorum finalizes. */
  lemma OpenAboveFinal(c: Context, t: Tally, a: Attestation, b: Attestation)
    requires Eligible(c, t, a.data) && Eligible(c, t, b.data)
    requires !Stale(c, FinalizedBy(t, a.data).slot, b.data)
    ensures b.data.target.slot > FinalizedBy(t, a.data).slot
  {
  }

  lemma QuorumAfterVote(c: Context, t: Tally, a: Attestation, b: Attestation, log: Ledger)
    requires Given(c, t, a, b, log) && Quorate(c, t, a) && Eligible(c, t, b.data) && !Quorate(c, t, b)
    requires a.data.target.root != b.data.target.root
    ensures a.data.target.slot > t.finalized.slot && FinalizedBy(t, a.data).slot >= t.finalized.slot
    ensures Step(c, TallyWith(c, t, b), a) == Ok(SettledAt(c, TallyWith(c, t, b), a.data.target, FinalizedBy(t, a.data)))
  {
    CountKeeps(c, t, b, log);
    OtherVoters(c, t, b, a);
    CompletedStep(c, TallyWith(c, t, b), a, Recorded(c, t, b, log));
  }

  // ------------------------------------------------------------- exactly one quorum

  /** The two orders when only `a` completes a quorum, and `b` votes for another target. */
  lemma OrdersWithQuorum(c: Context, t: Tally, a: Attestation, b: Attestation, log: Ledger)
    requires Given(c, t, a, b, log) && !Stale(c, t.finalized.slot, b.data) && Quorate(c, t, a) && !Quorate(c, t, b)
    requires a.data.target != b.data.target
    ensures a.data.target.slot > t.finalized.slot && FinalizedBy(t, a.data).slot >= t.finalized.slot
    ensures Steps(c, t, [a, b]) == Step(c, SettledAt(c, t, a.data.target, FinalizedBy(t, a.data)), b)
    ensures Steps(c, t, [b, a]) == Ok(SettledAt(c, TallyWith(c, t, b), a.data.target, FinalizedBy(t, a.data)))
  {
    TwoSteps(c, t, a, b);
    TwoSteps(c, t, b, a);
    CompletedStep(c, t, a, log);
    CountedStep(c, t, b);
    if Eligible(c, t, b.data) {
      TargetsDiffer(c, a.data, b.data);
      QuorumAfterVote(c, t, a, b, log);
    }
  }

  /** `b` was counted before the quorum. */
  lemma SwapCounted(c: Context, t: Tally, a: Attestation, b: Attestation, log: Ledger)
    requires Given(c, t, a, b, log) && Quorate(c, t, a) && !Quorate(c, t, b) && a.data.target != b.data.target
    requires !Stale(c, t.finalized.slot, b.data) && Eligible(c, t, b.data)
    ensures SwapsWell(c, t, a, b) <==> Undisturbed(c, t, a, b)
  {
    var target, cp := a.data.target, FinalizedBy(t, a.data);
    OrdersWithQuorum(c, t, a, b, log);
    TargetsDiffer(c, a.data, b.data);
    SettledEligible(c, t, target, cp, b.data);
    var t1 := SettledAt(c, t, target, cp);
    if !Stale(c, cp.slot, b.data) {
      OpenAboveFinal(c, t, a, b);
      SettledWith(c, t, target, cp, b, log);
      VotesSurvive(c, t, target, cp, b.data, log);
      SurvivorsMerge(c, t, t1, b);
      CountsNothing(c, t1, b);
    }
  }

  lemma NothingNewShort(c: Context, t: Tally, b: Attestation, log: Ledger)
    requires ContextFits(c) && TallyAccounts(c, t, log) && NothingNew(c, t, b)
    requires WellFormedVote(c, b.data) && b.data.target.root != c.latestRoot
    requires !Justified(t.window, t.finalized.slot, b.data.target.slot)
    ensures !Supermajority(MergedVoters(c, t, b), c.validators)
  {
    PendingShort(c, t, b.data.target, log);
    assert MergedVoters(c, t, b) == VotesFor(PendingVotes(c, t), b.data.target.root);
  }

  /** `b` was passed over before the quorum. */
  lemma SwapPassed(c: Context, t: Tally, a: Attestation, b: Attestation, log: Ledger)
    requires Given(c, t, a, b, log) && Quorate(c, t, a) && a.data.target != b.data.target
    requires !Stale(c, t.finalized.slot, b.data) && !Eligible(c, t, b.data)
    ensures SwapsWell(c, t, a, b) <==> Undisturbed(c, t, a, b)
  {
    var target, cp := a.data.target, FinalizedBy(t, a.data);
    OrdersWithQuorum(c, t, a, b, log);
    CompletedStep(c, t, a, log);
    SettledEligible(c, t, target, cp, b.data);
    if EligibleAfter(c, t, target, cp.slot, b.data) {
      PassedThenCounted(c, t, a, b, log, SettledAt(c, t, target, cp));
    }
  }

  lemma PassedThenCounted(c: Context, t: Tally, a: Attestation, b: Attestation, log: Ledger, t1: Tally)
    requires Given(c, t, a, b, log) && Quorate(c, t, a) && a.data.target != b.data.target
    requires a.data.target.slot > t.finalized.slot && FinalizedBy(t, a.data).slot >= t.finalized.slot
    requires t1 == SettledAt(c, t, a.data.target, FinalizedBy(t, a.data)) && Step(c, t, a) == Ok(t1)
    requires Eligible(c, t1, b.data) && EligibleAfter(c, t, a.data.target, FinalizedBy(t, a.data).slot, b.data)
    ensures Step(c, t1, b) == Ok(t1) <==> NothingNew(c, t, b)
  {
    TargetsDiffer(c, a.data, b.data);
    VotesSurvive(c, t, a.data.target, FinalizedBy(t, a.data), b.data, log);
    SurvivorsMerge(c, t, t1, b);
    CountsNothing(c, t1, b);
    if NothingNew(c, t, b) {
      NothingNewShort(c, t, b, log);
    }
    if Supermajority(MergedVoters(c, t1, b), c.validators) {
      StepKeeps(c, t, a, log);
      QuorumTakesEffect(c, t1, b, Recorded(c, t, a, log));
    }
  }

  /** Exactly one of the two completes a quorum. */
  lemma SwapOneQuorum(c: Context, t: Tally, a: Attestation, b: Attestation, log: Ledger)
    requires Given(c, t, a, b, log) && Quorate(c, t, a) && !Quorate(c, t, b) && !Stale(c, t.finalized.slot, b.data)
    ensures SwapsWell(c, t, a, b) <==> Undisturbed(c, t, a, b)
  {
    if a.data.target != b.data.target {
      if Eligible(c, t, b.data) {
        SwapCounted(c, t, a, b, log);
      } else {
        SwapPassed(c, t, a, b, log);
      }
    } else if Eligible(c, t, b.data) {
      SwapOneTarget(c, t, a, b, log);
    } else {
      SwapSameTarget(c, t, a, b, log);
    }
  }

  lemma SwapSameTarget(c: Context, t: Tally, a: Attestation, b: Attestation, log: Ledger)
    requires Given(c, t, a, b, log) && Quorate(c, t, a) && !Stale(c, t.finalized.slot, b.data)
    requires a.data.target == b.data.target && !Eligible(c, t, b.data)
    ensures SwapsWell(c, t, a, b)
  {
    TwoSteps(c, t, a, b);
    TwoSteps(c, t, b, a);
    CompletedStep(c, t, a, log);
    SettledSkips(c, t, b, FinalizedBy(t, a.data));
  }

  // ------------------------------------------------------------------- two quorums

  lemma FinalBelowTarget(t: Tally, d: AttestationData)
    requires d.source.slot < d.target.slot && t.finalized.slot < d.target.slot
    ensures FinalizedBy(t, d).slot < d.target.slot
  {
  }

  /** What is left of two quorums for different targets. */
  ghost predicate LeftBy(c: Context, t: Tally, a: Attestation, b: Attestation, r: Tally) {
    var both := EligibleAfter(c, t, a.data.target, FinalizedBy(t, a.data).slot, b.data);
    && r.justified == (if both then b.data.target else a.data.target)
    && Justified(r.window, r.finalized.slot, a.data.target.slot)
    && (both <==> Justified(r.window, r.finalized.slot, b.data.target.slot))
  }

  lemma TwoQuorums(c: Context, t: Tally, a: Attestation, b: Attestation, log: Ledger)
    requires Given(c, t, a, b, log) && Quorate(c, t, a) && Quorate(c, t, b) && a.data.target != b.data.target
    ensures Steps(c, t, [a, b]).Ok? <==> !Stale(c, FinalizedBy(t, a.data).slot, b.data)
    ensures Steps(c, t, [a, b]).Ok? ==> LeftBy(c, t, a, b, Steps(c, t, [a, b]).value)
  {
    var target, cp := a.data.target, FinalizedBy(t, a.data);
    TwoSteps(c, t, a, b);
    CompletedStep(c, t, a, log);
    var t1 := SettledAt(c, t, target, cp);
    StepKeeps(c, t, a, log);
    TargetsDiffer(c, a.data, b.data);
    SettledEligible(c, t, target, cp, b.data);
    SettledJustified(c, t, target, cp, target.slot);
    SettledJustified(c, t, target, cp, b.data.target.slot);
    if !Stale(c, cp.slot, b.data) {
      OpenAboveFinal(c, t, a, b);
      if Eligible(c, t1, b.data) {
        SecondQuorum(c, t, a, b, t1, log, Recorded(c, t, a, log));
      }
    }
  }

  lemma SecondQuorum(c: Context, t: Tally, a: Attestation, b: Attestation, t1: Tally, log: Ledger, log1: Ledger)
    requires Given(c, t, a, b, log) && Quorate(c, t, b) && a.data.target.root != b.data.target.root
    requires a.data.target.slot > t.finalized.slot && FinalizedBy(t, a.data).slot >= t.finalized.slot
    requires t1 == SettledAt(c, t, a.data.target, FinalizedBy(t, a.data)) && TallyAccounts(c, t1, log1)
    requires Eligible(c, t1, b.data) && b.data.target.slot > FinalizedBy(t, a.data).slot
    requires Justified(t1.window, t1.finalized.slot, a.data.target.slot)
    ensures Step(c, t1, b).Ok? && Step(c, t1, b).value.justified == b.data.target
    ensures var r := Step(c, t1, b).value;
            && Justified(r.window, r.finalized.slot, a.data.target.slot)
            && Justified(r.window, r.finalized.slot, b.data.target.slot)
  {
    var cp := FinalizedBy(t1, b.data);
    VotesSurvive(c, t, a.data.target, FinalizedBy(t, a.data), b.data, log);
    SurvivorsMerge(c, t, t1, b);
    CompletedStep(c, t1, b, log1);
    SettledJustified(c, t1, b.data.target, cp, a.data.target.slot);
    SettledJustified(c, t1, b.data.target, cp, b.data.target.slot);
  }

  /** Two quorums for different targets never change places. */
  lemma QuorumsDiffer(c: Context, t: Tally, a: Attestation, b: Attestation, log: Ledger)
    requires Given(c, t, a, b, log) && Quorate(c, t, a) && Quorate(c, t, b) && a.data.target != b.data.target
    ensures !SwapsWell(c, t, a, b)
  {
    TwoQuorums(c, t, a, b, log);
    TwoQuorums(c, t, b, a, log);
    FinalBelowTarget(t, a.data);
    FinalBelowTarget(t, b.data);
  }

  // ---------------------------------------------------------------------- the theorem

  /** Two neighbouring attestations can change places exactly when they are swappable. */
  lemma SwapExactly(c: Context, t: Tally, a: Attestation, b: Attestation, log: Ledger)
    requires Given(c, t, a, b, log)
    ensures Steps(c, t, [a, b]) == Steps(c, t, [b, a]) <==> Swappable(c, t, a, b)
  {
    if Stale(c, t.finalized.slot, b.data) {
      StaleStays(c, t, a, b, log);
    } else if Stale(c, t.finalized.slot, a.data) {
      StaleStays(c, t, b, a, log);
    } else if Quorate(c, t, a) && Quorate(c, t, b) {
      if a.data.target == b.data.target {
        SwapOneTarget(c, t, a, b, log);
        MoreVoters(c, t, a, b);
      } else {
        QuorumsDiffer(c, t, a, b, log);
      }
    } else if Quorate(c, t, a) {
      SwapOneQuorum(c, t, a, b, log);
    } else if Quorate(c, t, b) {
      SwapOneQuorum(c, t, b, a, log);
    } else if Eligible(c, t, a.data) && Eligible(c, t, b.data) && a.data.target == b.data.target {
      SwapOneTarget(c, t, a, b, log);
    } else {
      if Eligible(c, t, a.data) && Eligible(c, t, b.data) {
        TargetsDiffer(c, a.data, b.data);
      }
      SwapNeither(c, t, a, b);
    }
  }

  lemma MoreVoters(c: Context, t: Tally, a: Attestation, b: Attestation)
    requires Supermajority(MergedVoters(c, t, a), c.validators)
    ensures Supermajority(MergedVoters(c, t, a) + MergedVoters(c, t, b), c.validators)
  {
    SubsetSize(MergedVoters(c, t, a), MergedVoters(c, t, a) + MergedVoters(c, t, b));
  }

  // ---------------------------------------------------------------------- inside a list

  lemma {:induction false} StepsAppend(c: Context, t: Tally, atts: seq<Attestation>, more: seq<Attestation>)
    ensures Steps(c, t, atts + more) ==
            if Steps(c, t, atts).Err? then Steps(c, t, atts) else Steps(c, Steps(c, t, atts).value, more)
  {
    if more == [] {
      assert atts + more == atts;
    } else {
      StepsAppend(c, t, atts, more[..|more| - 1]);
      assert (atts + more)[..|atts + more| - 1] == atts + more[..|more| - 1];
    }
  }

  /** Anywhere in a list, swapping two neighbours leaves the result up to them as it is
      exactly when they are swappable there; then the result of the whole list stays. */
  lemma SwapInList(c: Context, t: Tally, before: seq<Attestation>, a: Attestation, b: Attestation, after: seq<Attestation>,
                   log: Ledger)
    requires ContextFits(c) && TallyAccounts(c, t, log) && Steps(c, t, before).Ok?
    requires forall att :: att in before + [a, b] ==> att.data.target.root != c.latestRoot
    ensures Steps(c, t, before + [a, b]) == Steps(c, t, before + [b, a]) <==> Swappable(c, Steps(c, t, before).value, a, b)
    ensures Swappable(c, Steps(c, t, before).value, a, b) ==>
              Steps(c, t, before + [a, b] + after) == Steps(c, t, before + [b, a] + after)
  {
    assert a in before + [a, b] && b in before + [a, b];
    StepsKeep(c, t, before, log);
    StepsAppend(c, t, before, [a, b]);
    StepsAppend(c, t, before, [b, a]);
    StepsAppend(c, t, before + [a, b], after);
    StepsAppend(c, t, before + [b, a], after);
    SwapExactly(c, Steps(c, t, before).value, a, b, RecordedAll(c, t, before, log));
  }
}

/** How the order of a block's attestations matters. */
module Sequencing {
  import opened Containers
  import opened Bits
  import opened Justifiable
  import opened Window
  import opened VoteTable
  import opened Transition
  import opened Ledger
  import opened Sizes

  // ------------------------------------------------------ when a list is refused

  /** The vote moves finality to its source. */
  ghost predicate Finalizes(c: Context, t: Tally, att: Attestation) {
    Completes(c, t, att) && NextByRule(att.data.source.slot, att.data.target.slot, t.finalized.slot)
  }

  /** Attestation `j` of the list moves finality to its source. */
  ghost predicate FinalizesAt(c: Context, t: Tally, atts: seq<Attestation>, j: nat) {
    && j < |atts| && Steps(c, t, atts[..j]).Ok?
    && Finalizes(c, Steps(c, t, atts[..j]).value, atts[j])
  }

  /** One of the first `k` attestations moves finality above `x`. */
  ghost predicate MovedAbove(c: Context, t: Tally, atts: seq<Attestation>, k: nat, x: nat) {
    exists j :: 0 <= j < k <= |atts| && FinalizesAt(c, t, atts, j) && x < atts[j].data.source.slot
  }

  /** Attestation `k` votes for a block below finality, where finality was before the
      list or where an earlier attestation has moved it. */
  ghost predicate Overtaken(c: Context, t: Tally, atts: seq<Attestation>, k: nat) {
    && k < |atts| && WellFormedVote(c, atts[k].data)
    && (atts[k].data.target.slot < t.finalized.slot || MovedAbove(c, t, atts, k, atts[k].data.target.slot))
  }

  /** One attestation moves finality to its source or not at all, and never back. */
  lemma FinalityStep(c: Context, t: Tally, atts: seq<Attestation>, k: nat, log: Ledger, x: nat)
    requires ContextFits(c) && TallyAccounts(c, t, log) && k < |atts|
    requires forall att :: att in atts ==> att.data.target.root != c.latestRoot
    requires Steps(c, t, atts[..k + 1]).Ok?
    ensures Steps(c, t, atts[..k]).Ok?
    ensures x < Steps(c, t, atts[..k + 1]).value.finalized.slot <==>
            || x < Steps(c, t, atts[..k]).value.finalized.slot
            || (FinalizesAt(c, t, atts, k) && x < atts[k].data.source.slot)
  {
    assert atts[..k + 1][..k] == atts[..k];
    StepsKeep(c, t, atts[..k], log);
    StepKeeps(c, Steps(c, t, atts[..k]).value, atts[k], RecordedAll(c, t, atts[..k], log));
    StepByRule(c, t, atts, k, log);
  }

  lemma MovedAboveMore(c: Context, t: Tally, atts: seq<Attestation>, k: nat, x: nat)
    requires k < |atts|
    ensures MovedAbove(c, t, atts, k + 1, x) <==>
            MovedAbove(c, t, atts, k, x) || (FinalizesAt(c, t, atts, k) && x < atts[k].data.source.slot)
  {
  }

  /** The finalized slot is the highest among the old one and the sources finalized. */
  lemma {:induction false} FinalityReached(c: Context, t: Tally, atts: seq<Attestation>, k: nat, log: Ledger, x: nat)
    requires ContextFits(c) && TallyAccounts(c, t, log) && k <= |atts|
    requires forall att :: att in atts ==> att.data.target.root != c.latestRoot
    requires Steps(c, t, atts[..k]).Ok?
    ensures x < Steps(c, t, atts[..k]).value.finalized.slot <==>
            x < t.finalized.slot || MovedAbove(c, t, atts, k, x)
  {
    if k == 0 {
      assert Steps(c, t, atts[..0]) == Ok(t);
    } else {
      var i := k - 1;
      FinalityStep(c, t, atts, i, log, x);
      FinalityReached(c, t, atts, i, log, x);
      MovedAboveMore(c, t, atts, i, x);
      assert k == i + 1;
    }
  }

  lemma OvertakenPrefix(c: Context, t: Tally, atts: seq<Attestation>, k: nat)
    requires atts != [] && k < |atts| - 1
    ensures Overtaken(c, t, atts[..|atts| - 1], k) <==> Overtaken(c, t, atts, k)
  {
    var init := atts[..|atts| - 1];
    forall j: nat | j < k
      ensures FinalizesAt(c, t, init, j) <==> FinalizesAt(c, t, atts, j)
    {
      assert init[..j] == atts[..j];
    }
  }

  lemma LastStale(c: Context, t: Tally, atts: seq<Attestation>, log: Ledger)
    requires ContextFits(c) && TallyAccounts(c, t, log) && atts != []
    requires forall att :: att in atts ==> att.data.target.root != c.latestRoot
    requires Steps(c, t, atts[..|atts| - 1]).Ok?
    ensures var last := atts[|atts| - 1].data;
            Steps(c, t, atts).Err? <==>
            WellFormedVote(c, last) && last.target.slot < Steps(c, t, atts[..|atts| - 1]).value.finalized.slot
  {
    var k := |atts| - 1;
    StepsKeep(c, t, atts[..k], log);
    OnlyStale(c, Steps(c, t, atts[..k]).value, atts[k], RecordedAll(c, t, atts[..k], log));
  }

  lemma OnlyStale(c: Context, t: Tally, att: Attestation, log: Ledger)
    requires ContextFits(c) && TallyAccounts(c, t, log) && att.data.target.root != c.latestRoot
    ensures Step(c, t, att).Err? <==> WellFormedVote(c, att.data) && att.data.target.slot < t.finalized.slot
  {
    StepKeeps(c, t, att, log);
  }

  lemma LastOvertaken(c: Context, t: Tally, atts: seq<Attestation>, log: Ledger)
    requires ContextFits(c) && TallyAccounts(c, t, log) && atts != []
    requires forall att :: att in atts ==> att.data.target.root != c.latestRoot
    requires Steps(c, t, atts[..|atts| - 1]).Ok?
    ensures Steps(c, t, atts).Err? <==> Overtaken(c, t, atts, |atts| - 1)
  {
    LastStale(c, t, atts, log);
    FinalityReached(c, t, atts, |atts| - 1, log, atts[|atts| - 1].data.target.slot);
  }

  ghost predicate SomeOvertaken(c: Context, t: Tally, atts: seq<Attestation>) {
    exists k :: 0 <= k < |atts| && Overtaken(c, t, atts, k)
  }

  lemma SomeOvertakenMore(c: Context, t: Tally, atts: seq<Attestation>)
    requires atts != []
    ensures SomeOvertaken(c, t, atts) <==> SomeOvertaken(c, t, atts[..|atts| - 1]) || Overtaken(c, t, atts, |atts| - 1)
  {
    var init := atts[..|atts| - 1];
    forall k: nat | k < |init|
      ensures Overtaken(c, t, init, k) <==> Overtaken(c, t, atts, k)
    {
      OvertakenPrefix(c, t, atts, k);
    }
  }

  /** A list of attestations is refused exactly when one of them is overtaken by
      finality. */
  lemma {:induction false} RefusedIfOvertaken(c: Context, t: Tally, atts: seq<Attestation>, log: Ledger)
    requires ContextFits(c) && TallyAccounts(c, t, log)
    requires forall att :: att in atts ==> att.data.target.root != c.latestRoot
    ensures Steps(c, t, atts).Err? <==> exists k :: 0 <= k < |atts| && Overtaken(c, t, atts, k)
  {
    if atts != [] {
      var init := atts[..|atts| - 1];
      RefusedIfOvertaken(c, t, init, log);
      assert Steps(c, t, init).Err? <==> SomeOvertaken(c, t, init);
      SomeOvertakenMore(c, t, atts);
      if Steps(c, t, init).Ok? {
        LastOvertaken(c, t, atts, log);
      }
    }
  }

  /** No vote's target is below the source of an earlier vote. */
  predicate ClearOfSources(atts: seq<Attestation>) {
    forall j, k :: 0 <= j < k < |atts| ==> atts[j].data.source.slot <= atts[k].data.target.slot
  }

  /** A test on the list alone that never lets a fresh list be refused. */
  lemma ClearNeverRefused(c: Context, t: Tally, atts: seq<Attestation>, log: Ledger)
    requires ContextFits(c) && TallyAccounts(c, t, log)
    requires forall att :: att in atts ==> att.data.target.root != c.latestRoot && att.data.target.slot >= t.finalized.slot
    requires ClearOfSources(atts)
    ensures Steps(c, t, atts).Ok?
  {
    RefusedIfOvertaken(c, t, atts, log);
  }

  ghost predicate TargetsRise(atts: seq<Attestation>) {
    forall j, k :: 0 <= j < k < |atts| ==> atts[j].data.target.slot <= atts[k].data.target.slot
  }

  /** In the order of their targets, attestations that start out fresh stay fresh. */
  lemma RisingNeverRefused(c: Context, t: Tally, atts: seq<Attestation>, log: Ledger)
    requires ContextFits(c) && TallyAccounts(c, t, log)
    requires forall att :: att in atts ==> att.data.target.root != c.latestRoot && att.data.target.slot >= t.finalized.slot
    requires TargetsRise(atts)
    ensures Steps(c, t, atts).Ok?
  {
    RefusedIfOvertaken(c, t, atts, log);
  }

  lemma TwoSteps(c: Context, t: Tally, a: Attestation, b: Attestation)
    ensures Steps(c, t, [a, b]) == if Step(c, t, a).Err? then Step(c, t, a) else Step(c, Step(c, t, a).value, b)
  {
    assert [a, b][..1] == [a] && [a][..0] == [];
    assert Steps(c, t, [a]) == Step(c, t, a);
  }

  // -------------------------------------------------- many votes for one target

  /** The source that the vote finalizes if it completes the quorum, or else the
      checkpoint finalized before. */
  ghost function FinalizedBy(t: Tally, d: AttestationData): Checkpoint {
    if NextByRule(d.source.slot, d.target.slot, t.finalized.slot) then d.source else t.finalized
  }

  /** The target is justified, its votes are cleared, and finality is at `cp`. */
  ghost function SettledAt(c: Context, t: Tally, target: Checkpoint, cp: Checkpoint): Tally
    requires target.slot > t.finalized.slot && cp.slot >= t.finalized.slot
  {
    Tally(target, cp, Shifted(Marked(t.window, target.slot - t.finalized.slot - 1), cp.slot - t.finalized.slot),
          Some(Retained(PendingVotes(c, t) - {target.root}, c.slots, cp.slot)))
  }

  lemma NothingBelow(c: Context, t: Tally, log: Ledger, root: Root)
    requires ContextFits(c) && TallyAccounts(c, t, log)
    ensures Retained(PendingVotes(c, t) - {root}, c.slots, t.finalized.slot) == PendingVotes(c, t) - {root}
  {
    PendingHasSlots(c, t.finalized.slot, t.window, PendingVotes(c, t), t.finalized.slot);
  }

  lemma SettledNext(c: Context, t: Tally, att: Attestation)
    requires Eligible(c, t, att.data) && att.data.target.slot - t.finalized.slot - 1 < HISTORICAL_ROOTS_LIMIT
    requires forall r :: r in PendingVotes(c, t) ==> r in c.slots
    requires IsNextJustifiable(att.data.source.slot, att.data.target.slot, t.finalized.slot)
    ensures att.data.target.slot > t.finalized.slot && att.data.source.slot >= t.finalized.slot
    ensures Adopted(c, t, att) == Ok(SettledAt(c, t, att.data.target, att.data.source))
  {
    NextJustifiableStaysAbove(att.data.source.slot, att.data.target.slot, t.finalized.slot);
    FinalizedSettles(c, t, att);
  }

  lemma FinalizedSettles(c: Context, t: Tally, att: Attestation)
    requires att.data.target.slot > t.finalized.slot && att.data.source.slot >= t.finalized.slot
    requires forall r :: r in PendingVotes(c, t) ==> r in c.slots
    ensures Finalized(c.slots, JustifiedTally(c, t, att), att.data.source) ==
            Ok(SettledAt(c, t, att.data.target, att.data.source))
  {
    Cleared(PendingVotes(c, t), att.data.target.root, MergedVoters(c, t, att));
    FinalizedIs(c.slots, JustifiedTally(c, t, att), att.data.source);
  }

  lemma SettledStill(c: Context, t: Tally, att: Attestation)
    requires Eligible(c, t, att.data) && att.data.target.slot - t.finalized.slot - 1 < HISTORICAL_ROOTS_LIMIT
    requires Retained(PendingVotes(c, t) - {att.data.target.root}, c.slots, t.finalized.slot) ==
             PendingVotes(c, t) - {att.data.target.root}
    requires !IsNextJustifiable(att.data.source.slot, att.data.target.slot, t.finalized.slot)
    ensures att.data.target.slot > t.finalized.slot
    ensures Adopted(c, t, att) == Ok(SettledAt(c, t, att.data.target, t.finalized))
  {
    var target, window := att.data.target, Marked(t.window, att.data.target.slot - t.finalized.slot - 1);
    Cleared(PendingVotes(c, t), target.root, MergedVoters(c, t, att));
    assert Shifted(window, 0) == window;
  }

  lemma SettledEither(c: Context, t: Tally, att: Attestation)
    requires Eligible(c, t, att.data) && att.data.target.slot - t.finalized.slot - 1 < HISTORICAL_ROOTS_LIMIT
    requires forall r :: r in PendingVotes(c, t) ==> r in c.slots
    requires Retained(PendingVotes(c, t) - {att.data.target.root}, c.slots, t.finalized.slot) ==
             PendingVotes(c, t) - {att.data.target.root}
    requires IsNextJustifiable(att.data.source.slot, att.data.target.slot, t.finalized.slot) <==>
             NextByRule(att.data.source.slot, att.data.target.slot, t.finalized.slot)
    ensures att.data.target.slot > t.finalized.slot && FinalizedBy(t, att.data).slot >= t.finalized.slot
    ensures Adopted(c, t, att) == Ok(SettledAt(c, t, att.data.target, FinalizedBy(t, att.data)))
  {
    if NextByRule(att.data.source.slot, att.data.target.slot, t.finalized.slot) {
      SettledNext(c, t, att);
    } else {
      SettledStill(c, t, att);
    }
  }

  /** A vote that completes the quorum settles its target and finalizes its source or
      nothing. */
  lemma CompletedStep(c: Context, t: Tally, att: Attestation, log: Ledger)
    requires ContextFits(c) && TallyAccounts(c, t, log) && att.data.target.root != c.latestRoot
    requires Eligible(c, t, att.data) && Supermajority(MergedVoters(c, t, att), c.validators)
    ensures att.data.target.slot > t.finalized.slot && FinalizedBy(t, att.data).slot >= t.finalized.slot
    ensures Step(c, t, att) == Ok(SettledAt(c, t, att.data.target, FinalizedBy(t, att.data)))
  {
    VotesFollowRule(c, t, att.data);
    PendingHasSlots(c, t.finalized.slot, t.window, PendingVotes(c, t), t.finalized.slot);
    NothingBelow(c, t, log, att.data.target.root);
    SettledEither(c, t, att);
  }

  /** Further votes for a settled target are passed over. */
  lemma SettledSkips(c: Context, t: Tally, att: Attestation, cp: Checkpoint)
    requires att.data.target.slot > t.finalized.slot && t.finalized.slot <= cp.slot <= att.data.target.slot
    ensures Step(c, SettledAt(c, t, att.data.target, cp), att) == Ok(SettledAt(c, t, att.data.target, cp))
  {
    var target, fin := att.data.target.slot, t.finalized.slot;
    MarkedJustified(t.window, fin, target, target);
    ShiftedJustified(Marked(t.window, target - fin - 1), fin, cp.slot, target);
  }

  ghost predicate OneTarget(c: Context, t: Tally, atts: seq<Attestation>, target: Checkpoint) {
    forall att :: att in atts ==> att.data.target == target && Eligible(c, t, att.data)
  }

  /** Everyone counted for the target once the list is added. */
  ghost function PoolOf(c: Context, votes: Table, atts: seq<Attestation>, root: Root): set<nat> {
    if atts == [] then VotesFor(votes, root)
    else PoolOf(c, votes, atts[..|atts| - 1], root) + Below(Participants(atts[|atts| - 1].bits), c.validators)
  }

  ghost predicate Reaches(c: Context, votes: Table, atts: seq<Attestation>, root: Root) {
    Supermajority(PoolOf(c, votes, atts, root), c.validators)
  }

  lemma ReachesStays(c: Context, votes: Table, atts: seq<Attestation>, root: Root)
    requires atts != [] && Reaches(c, votes, atts[..|atts| - 1], root)
    ensures Reaches(c, votes, atts, root)
  {
    SubsetSize(PoolOf(c, votes, atts[..|atts| - 1], root), PoolOf(c, votes, atts, root));
  }

  /** The tally `t` with a pool of votes for one root. */
  ghost predicate Pooling(c: Context, t: Tally, root: Root, pool: set<nat>, t': Tally) {
    t' == t.(votes := Some(PendingVotes(c, t)[root := pool]))
  }

  lemma PooledStep(c: Context, t: Tally, t1: Tally, att: Attestation, pool: set<nat>)
    requires Eligible(c, t, att.data) && (t1 == t || Pooling(c, t, att.data.target.root, pool, t1))
    requires pool == VotesFor(PendingVotes(c, t1), att.data.target.root)
    requires !Supermajority(pool + Below(Participants(att.bits), c.validators), c.validators)
    ensures Step(c, t1, att).Ok?
    ensures Pooling(c, t, att.data.target.root, pool + Below(Participants(att.bits), c.validators), Step(c, t1, att).value)
  {
    var root, more := att.data.target.root, pool + Below(Participants(att.bits), c.validators);
    assert Eligible(c, t1, att.data);
    assert MergedVoters(c, t1, att) == more;
    assert PendingVotes(c, t)[root := pool][root := more] == PendingVotes(c, t)[root := more];
  }

  /** Below the quorum the votes are pooled, whatever their sources. */
  lemma {:induction false} PooledSteps(c: Context, t: Tally, atts: seq<Attestation>, target: Checkpoint)
    requires OneTarget(c, t, atts, target) && !Reaches(c, PendingVotes(c, t), atts, target.root)
    ensures Steps(c, t, atts).Ok?
    ensures atts == [] ==> Steps(c, t, atts).value == t
    ensures atts != [] ==>
              Pooling(c, t, target.root, PoolOf(c, PendingVotes(c, t), atts, target.root), Steps(c, t, atts).value)
  {
    if atts != [] {
      var init, votes := atts[..|atts| - 1], PendingVotes(c, t);
      if Reaches(c, votes, init, target.root) {
        ReachesStays(c, votes, atts, target.root);
      }
      PooledSteps(c, t, init, target);
      PooledStep(c, t, Steps(c, t, init).value, atts[|atts| - 1], PoolOf(c, votes, init, target.root));
    }
  }

  /** The first attestation with which the pool reaches two thirds. */
  ghost function Completing(c: Context, votes: Table, atts: seq<Attestation>, root: Root): (k: nat)
    requires Reaches(c, votes, atts, root) && !Reaches(c, votes, [], root)
    ensures k < |atts|
  {
    var init := atts[..|atts| - 1];
    if Reaches(c, votes, init, root) then Completing(c, votes, init, root) else |atts| - 1
  }

  lemma SettledSame(c: Context, t: Tally, t1: Tally, target: Checkpoint, cp: Checkpoint, pool: set<nat>)
    requires target.slot > t.finalized.slot && cp.slot >= t.finalized.slot
    requires t1 == t || Pooling(c, t, target.root, pool, t1)
    ensures SettledAt(c, t1, target, cp) == SettledAt(c, t, target, cp)
  {
    Cleared(PendingVotes(c, t), target.root, pool);
  }

  lemma SettledFrom(c: Context, t: Tally, t1: Tally, att: Attestation, pool: set<nat>, log: Ledger)
    requires ContextFits(c) && TallyAccounts(c, t1, log) && att.data.target.root != c.latestRoot
    requires Eligible(c, t, att.data) && (t1 == t || Pooling(c, t, att.data.target.root, pool, t1))
    requires pool == VotesFor(PendingVotes(c, t1), att.data.target.root)
    requires Supermajority(pool + Below(Participants(att.bits), c.validators), c.validators)
    ensures att.data.target.slot > t.finalized.slot
    ensures t.finalized.slot <= FinalizedBy(t, att.data).slot <= att.data.target.slot
    ensures Step(c, t1, att) == Ok(SettledAt(c, t, att.data.target, FinalizedBy(t, att.data)))
  {
    assert Eligible(c, t1, att.data);
    assert MergedVoters(c, t1, att) == pool + Below(Participants(att.bits), c.validators);
    CompletedStep(c, t1, att, log);
    SettledSame(c, t, t1, att.data.target, FinalizedBy(t, att.data), pool);
  }

  lemma CompletedLast(c: Context, t: Tally, atts: seq<Attestation>, target: Checkpoint, log: Ledger)
    requires ContextFits(c) && TallyAccounts(c, t, log) && target.root != c.latestRoot
    requires OneTarget(c, t, atts, target) && atts != [] && Reaches(c, PendingVotes(c, t), atts, target.root)
    requires !Reaches(c, PendingVotes(c, t), atts[..|atts| - 1], target.root)
    ensures target.slot > t.finalized.slot && t.finalized.slot <= FinalizedBy(t, atts[|atts| - 1].data).slot <= target.slot
    ensures Steps(c, t, atts) == Ok(SettledAt(c, t, target, FinalizedBy(t, atts[|atts| - 1].data)))
  {
    var init, last, votes := atts[..|atts| - 1], atts[|atts| - 1], PendingVotes(c, t);
    PooledSteps(c, t, init, target);
    StepsKeep(c, t, init, log);
    SettledFrom(c, t, Steps(c, t, init).value, last, PoolOf(c, votes, init, target.root), RecordedAll(c, t, init, log));
  }

  /** Of many votes for one target, the one that completes the quorum decides: its own
      source is finalized, or nothing. */
  lemma {:induction false} CompletedSteps(c: Context, t: Tally, atts: seq<Attestation>, target: Checkpoint, log: Ledger)
    requires ContextFits(c) && TallyAccounts(c, t, log) && target.root != c.latestRoot
    requires OneTarget(c, t, atts, target) && Reaches(c, PendingVotes(c, t), atts, target.root)
    requires !Reaches(c, PendingVotes(c, t), [], target.root)
    ensures var d := atts[Completing(c, PendingVotes(c, t), atts, target.root)].data;
            && target.slot > t.finalized.slot && t.finalized.slot <= FinalizedBy(t, d).slot <= target.slot
            && Steps(c, t, atts) == Ok(SettledAt(c, t, target, FinalizedBy(t, d)))
  {
    var init, last, votes := atts[..|atts| - 1], atts[|atts| - 1], PendingVotes(c, t);
    if Reaches(c, votes, init, target.root) {
      CompletedSteps(c, t, init, target, log);
      SettledSkips(c, t, last, FinalizedBy(t, init[Completing(c, votes, init, target.root)].data));
    } else {
      CompletedLast(c, t, atts, target, log);
    }
  }

  ghost predicate SameVotes(atts: seq<Attestation>, atts': seq<Attestation>) {
    forall att :: att in atts <==> att in atts'
  }

  lemma {:induction false} PoolHolds(c: Context, votes: Table, atts: seq<Attestation>, root: Root, v: nat)
    ensures v in PoolOf(c, votes, atts, root) <==>
            v in VotesFor(votes, root) || exists att :: att in atts && v in Below(Participants(att.bits), c.validators)
  {
    if atts != [] {
      PoolHolds(c, votes, atts[..|atts| - 1], root, v);
    }
  }

  lemma SamePool(c: Context, votes: Table, atts: seq<Attestation>, atts': seq<Attestation>, root: Root)
    requires SameVotes(atts, atts')
    ensures PoolOf(c, votes, atts, root) == PoolOf(c, votes, atts', root)
  {
    forall v: nat
      ensures v in PoolOf(c, votes, atts, root) <==> v in PoolOf(c, votes, atts', root)
    {
      PoolHolds(c, votes, atts, root, v);
      PoolHolds(c, votes, atts', root, v);
    }
  }

  /** A pending target never has two thirds already. */
  lemma PendingShort(c: Context, t: Tally, target: Checkpoint, log: Ledger)
    requires ContextFits(c) && TallyAccounts(c, t, log)
    requires InHistory(c.history, target) && target.root != ZERO && !Justified(t.window, t.finalized.slot, target.slot)
    ensures !Reaches(c, PendingVotes(c, t), [], target.root)
  {
    TargetPlaced(c.history, target);
    var votes := PendingVotes(c, t);
    if target.root in votes {
      assert votes[target.root] == log.merged[target.root];
    }
  }

  /** The votes for one target can be taken in any order, exactly if they stay below
      the quorum or the votes that complete it finalize the same checkpoint. */
  lemma OrderOfOneTarget(c: Context, t: Tally, atts: seq<Attestation>, atts': seq<Attestation>, target: Checkpoint, log: Ledger)
    requires ContextFits(c) && TallyAccounts(c, t, log) && target.root != c.latestRoot && atts != []
    requires OneTarget(c, t, atts, target) && SameVotes(atts, atts')
    ensures !Reaches(c, PendingVotes(c, t), [], target.root)
    ensures Reaches(c, PendingVotes(c, t), atts, target.root) == Reaches(c, PendingVotes(c, t), atts', target.root)
    ensures Steps(c, t, atts) == Steps(c, t, atts') <==>
            var votes, root := PendingVotes(c, t), target.root;
            Reaches(c, votes, atts, root) ==>
              FinalizedBy(t, atts[Completing(c, votes, atts, root)].data) ==
              FinalizedBy(t, atts'[Completing(c, votes, atts', root)].data)
  {
    var votes, root := PendingVotes(c, t), target.root;
    assert atts[0] in atts && atts[0] in atts';
    PendingShort(c, t, target, log);
    SamePool(c, votes, atts, atts', root);
    if Reaches(c, votes, atts, root) {
      CompletedSteps(c, t, atts, target, log);
      CompletedSteps(c, t, atts', target, log);
    } else {
      PooledSteps(c, t, atts, target);
      PooledSteps(c, t, atts', target);
    }
  }

  // --------------------------------------------------------- votes short of a quorum

  /** The validators whose votes for the root are counted, in any order of the list. */
  ghost function Cast(c: Context, t: Tally, atts: seq<Attestation>, root: Root): set<nat> {
    set att, v | att in atts && Counts(c, t, att, root) && v in Below(Participants(att.bits), c.validators) :: v
  }

  ghost predicate Counts(c: Context, t: Tally, att: Attestation, root: Root) {
    Eligible(c, t, att.data) && att.data.target.root == root
  }

  ghost function CastRoots(c: Context, t: Tally, atts: seq<Attestation>): set<Root> {
    set att | att in atts && Eligible(c, t, att.data) :: att.data.target.root
  }

  ghost function Gathered(c: Context, t: Tally, atts: seq<Attestation>, root: Root): set<nat> {
    VotesFor(PendingVotes(c, t), root) + Cast(c, t, atts, root)
  }

  /** All votes of the list together bring no target to two thirds. */
  ghost predicate NoQuorum(c: Context, t: Tally, atts: seq<Attestation>) {
    forall r :: r in CastRoots(c, t, atts) ==> !Supermajority(Gathered(c, t, atts, r), c.validators)
  }

  ghost predicate NoneStale(c: Context, t: Tally, atts: seq<Attestation>) {
    forall att :: att in atts && WellFormedVote(c, att.data) ==> att.data.target.slot >= t.finalized.slot
  }

  /** The tally `t'` is `t` with the votes of the list, each where it belongs. */
  ghost predicate Tallied(c: Context, t: Tally, atts: seq<Attestation>, t': Tally) {
    && t' == t.(votes := t'.votes)
    && (t'.votes.None? <==> t.votes.None? && CastRoots(c, t, atts) == {})
    && PendingVotes(c, t').Keys == PendingVotes(c, t).Keys + CastRoots(c, t, atts)
    && (forall r :: r in PendingVotes(c, t') ==> PendingVotes(c, t')[r] == Gathered(c, t, atts, r))
  }

  lemma CastMore(c: Context, t: Tally, atts: seq<Attestation>, root: Root)
    requires atts != []
    ensures var init, last := atts[..|atts| - 1], atts[|atts| - 1];
            && Cast(c, t, atts, root) == Cast(c, t, init, root) +
                 (if Counts(c, t, last, root) then Below(Participants(last.bits), c.validators) else {})
            && CastRoots(c, t, atts) == CastRoots(c, t, init) + if Eligible(c, t, last.data) then {last.data.target.root} else {}
  {
    var init, last := atts[..|atts| - 1], atts[|atts| - 1];
    assert atts == init + [last];
    assert forall att :: att in atts <==> att in init || att == last;
  }

  lemma NoQuorumBefore(c: Context, t: Tally, atts: seq<Attestation>)
    requires atts != [] && NoQuorum(c, t, atts)
    ensures NoQuorum(c, t, atts[..|atts| - 1])
  {
    var init := atts[..|atts| - 1];
    forall r | r in CastRoots(c, t, init)
      ensures !Supermajority(Gathered(c, t, init, r), c.validators)
    {
      CastMore(c, t, atts, r);
      SubsetSize(Gathered(c, t, init, r), Gathered(c, t, atts, r));
    }
  }

  lemma PassedOver(c: Context, t: Tally, atts: seq<Attestation>, t1: Tally)
    requires atts != [] && Tallied(c, t, atts[..|atts| - 1], t1) && !Eligible(c, t, atts[|atts| - 1].data)
    ensures Tallied(c, t, atts, t1)
  {
    CastMore(c, t, atts, 0);
    forall r | r in PendingVotes(c, t1)
      ensures PendingVotes(c, t1)[r] == Gathered(c, t, atts, r)
    {
      CastMore(c, t, atts, r);
    }
  }

  lemma GatheredNow(c: Context, t: Tally, atts: seq<Attestation>, t1: Tally)
    requires atts != [] && Tallied(c, t, atts[..|atts| - 1], t1) && Eligible(c, t, atts[|atts| - 1].data)
    ensures MergedVoters(c, t1, atts[|atts| - 1]) == Gathered(c, t, atts, atts[|atts| - 1].data.target.root)
    ensures atts[|atts| - 1].data.target.root in CastRoots(c, t, atts)
  {
    var init, root := atts[..|atts| - 1], atts[|atts| - 1].data.target.root;
    CastMore(c, t, atts, root);
    if root !in PendingVotes(c, t1) {
      assert Cast(c, t, init, root) == {};
    }
  }

  lemma TalliedMore(c: Context, t: Tally, atts: seq<Attestation>, t1: Tally, t2: Tally)
    requires atts != [] && Tallied(c, t, atts[..|atts| - 1], t1) && Eligible(c, t, atts[|atts| - 1].data)
    requires var root := atts[|atts| - 1].data.target.root;
             t2 == t1.(votes := Some(PendingVotes(c, t1)[root := Gathered(c, t, atts, root)]))
    ensures Tallied(c, t, atts, t2)
  {
    CastMore(c, t, atts, 0);
    forall r | r in PendingVotes(c, t2)
      ensures PendingVotes(c, t2)[r] == Gathered(c, t, atts, r)
    {
      CastMore(c, t, atts, r);
    }
  }

  lemma TalliedStep(c: Context, t: Tally, atts: seq<Attestation>, t1: Tally)
    requires atts != [] && NoQuorum(c, t, atts) && NoneStale(c, t, atts) && Tallied(c, t, atts[..|atts| - 1], t1)
    ensures Step(c, t1, atts[|atts| - 1]).Ok? && Tallied(c, t, atts, Step(c, t1, atts[|atts| - 1]).value)
  {
    var last := atts[|atts| - 1];
    assert last in atts;
    assert Eligible(c, t1, last.data) <==> Eligible(c, t, last.data);
    if Eligible(c, t, last.data) {
      GatheredNow(c, t, atts, t1);
      TalliedMore(c, t, atts, t1, t1.(votes := Some(MergedVotes(c, t1, last))));
    } else {
      PassedOver(c, t, atts, t1);
    }
  }

  lemma {:induction false} TalliedSteps(c: Context, t: Tally, atts: seq<Attestation>)
    requires NoQuorum(c, t, atts) && NoneStale(c, t, atts)
    ensures Steps(c, t, atts).Ok? && Tallied(c, t, atts, Steps(c, t, atts).value)
  {
    if atts != [] {
      NoQuorumBefore(c, t, atts);
      TalliedSteps(c, t, atts[..|atts| - 1]);
      TalliedStep(c, t, atts, Steps(c, t, atts[..|atts| - 1]).value);
    }
  }

  lemma SameCast(c: Context, t: Tally, atts: seq<Attestation>, atts': seq<Attestation>, root: Root)
    requires SameVotes(atts, atts')
    ensures CastRoots(c, t, atts) == CastRoots(c, t, atts') && Cast(c, t, atts, root) == Cast(c, t, atts', root)
  {
  }

  lemma TalliedOnce(c: Context, t: Tally, atts: seq<Attestation>, atts': seq<Attestation>, t1: Tally, t2: Tally)
    requires SameVotes(atts, atts') && Tallied(c, t, atts, t1) && Tallied(c, t, atts', t2)
    ensures t1 == t2
  {
    SameCast(c, t, atts, atts', 0);
    var votes1, votes2 := PendingVotes(c, t1), PendingVotes(c, t2);
    forall r | r in votes1
      ensures votes1[r] == votes2[r]
    {
      SameCast(c, t, atts, atts', r);
    }
    assert votes1 == votes2;
  }

  /** As long as no target gets its two thirds, votes may come in any order and any
      number of times. */
  lemma OrderBelowQuorum(c: Context, t: Tally, atts: seq<Attestation>, atts': seq<Attestation>)
    requires NoQuorum(c, t, atts) && NoneStale(c, t, atts) && SameVotes(atts, atts')
    ensures Steps(c, t, atts).Ok? && Steps(c, t, atts) == Steps(c, t, atts')
  {
    forall r
      ensures CastRoots(c, t, atts) == CastRoots(c, t, atts') && Gathered(c, t, atts, r) == Gathered(c, t, atts', r)
    {
      SameCast(c, t, atts, atts', r);
    }
    TalliedSteps(c, t, atts);
    TalliedSteps(c, t, atts');
    TalliedOnce(c, t, atts, atts', Steps(c, t, atts).value, Steps(c, t, atts').value);
  }

  // ------------------------------------------------------------- a small chain

  /** Four blocks at slots 0 to 3, and `n` validators who justified slot 2. */
  ghost function SmallContext(n: nat): Context {
    Context([11, 12, 13, 14], 4, 15, map[11 := 0, 12 := 1, 13 := 2, 14 := 3], map[], n)
  }

  ghost function SmallTally(): Tally {
    Tally(Checkpoint(13, 2), Checkpoint(11, 0), [false, true, false], None)
  }

  ghost function SmallLedger(voters: set<nat>): Ledger {
    Ledger(map[13 := voters], map[13 := voters])
  }

  lemma SmallFits(n: nat, voters: set<nat>)
    requires n > 0 && Supermajority(voters, n) && forall v :: v in voters ==> v < n
    ensures ContextFits(SmallContext(n)) && TallyAccounts(SmallContext(n), SmallTally(), SmallLedger(voters))
  {
    SlotsPlace(SmallContext(n).history, 4);
    assert DistinctRoots(SmallContext(n).history);
  }

  /** The vote of validator 0 or 1. */
  ghost function SmallVote(v: nat, source: Checkpoint, target: Checkpoint): Attestation {
    Attestation(BitList([if v == 0 then 1 else 2], 2), AttestationData(4, Checkpoint(14, 3), target, source))
  }

  lemma SmallVoters(v: nat, source: Checkpoint, target: Checkpoint)
    requires v < 2
    ensures Participants(SmallVote(v, source, target).bits) == {v}
  {
    var bits := SmallVote(v, source, target).bits;
    assert TestBit(1, 0) && !TestBit(1, 1) && TestBit(2, 1) && !TestBit(2, 0);
    assert BitIsSet(bits, v) && !BitIsSet(bits, 1 - v);
  }

  /** With one validator, a vote from slot 2 to 3 moves finality to 2, past the target
      of a second vote that was fresh before: the list is refused. The other way round
      it is not. */
  lemma FreshVoteRefused()
    ensures var c, t := SmallContext(1), SmallTally();
            var a := SmallVote(0, Checkpoint(13, 2), Checkpoint(14, 3));
            var b := SmallVote(0, Checkpoint(11, 0), Checkpoint(12, 1));
            && ContextFits(c) && TallyAccounts(c, t, SmallLedger({0}))
            && a.data.target.slot >= t.finalized.slot && b.data.target.slot >= t.finalized.slot
            && Steps(c, t, [a, b]) == Err(StaleTarget)
            && Steps(c, t, [b, a]).Ok?
  {
    var c, t := SmallContext(1), SmallTally();
    var a := SmallVote(0, Checkpoint(13, 2), Checkpoint(14, 3));
    var b := SmallVote(0, Checkpoint(11, 0), Checkpoint(12, 1));
    SmallFits(1, {0});
    SmallVoters(0, Checkpoint(13, 2), Checkpoint(14, 3));
    AcceptedOpen(3);
    assert Eligible(c, t, a.data);
    assert MergedVoters(c, t, a) == {0};
    QuorumTakesEffect(c, t, a, SmallLedger({0}));
    assert Step(c, t, a).value.finalized == Checkpoint(13, 2);
    TwoSteps(c, t, a, b);
    RisingNeverRefused(c, t, [b, a], SmallLedger({0}));
  }

  lemma SmallEligible(n: nat, v: nat, source: Checkpoint)
    requires source in {Checkpoint(11, 0), Checkpoint(13, 2)}
    ensures Eligible(SmallContext(n), SmallTally(), SmallVote(v, source, Checkpoint(14, 3)).data)
  {
    AcceptedOpen(3);
  }

  lemma SmallPool(v: nat, first: Checkpoint, second: Checkpoint, target: Checkpoint)
    requires v < 2
    ensures var a, b := SmallVote(v, first, target), SmallVote(1 - v, second, target);
            && PoolOf(SmallContext(2), map[], [a], target.root) == {v}
            && PoolOf(SmallContext(2), map[], [a, b], target.root) == {v, 1 - v}
  {
    var a, b := SmallVote(v, first, target), SmallVote(1 - v, second, target);
    SmallVoters(v, first, target);
    SmallVoters(1 - v, second, target);
    assert [a, b][..1] == [a] && [a][..0] == [];
  }

  /** Two validators vote for slot 3; the source of the second decides. */
  lemma SecondDecides(v: nat, first: Checkpoint, second: Checkpoint)
    requires v < 2 && first in {Checkpoint(11, 0), Checkpoint(13, 2)} && second in {Checkpoint(11, 0), Checkpoint(13, 2)}
    ensures var c, t, target := SmallContext(2), SmallTally(), Checkpoint(14, 3);
            var r := Steps(c, t, [SmallVote(v, first, target), SmallVote(1 - v, second, target)]);
            && ContextFits(c) && TallyAccounts(c, t, SmallLedger({0, 1}))
            && r.Ok? && r.value.finalized == if NextByRule(second.slot, 3, 0) then second else Checkpoint(11, 0)
  {
    var c, t, target := SmallContext(2), SmallTally(), Checkpoint(14, 3);
    var a, b := SmallVote(v, first, target), SmallVote(1 - v, second, target);
    SmallFits(2, {0, 1});
    SmallEligible(2, v, first);
    SmallEligible(2, 1 - v, second);
    SmallPool(v, first, second, target);
    assert [a, b][..1] == [a];
    CompletedLast(c, t, [a, b], target, SmallLedger({0, 1}));
  }

  /** Only slot 2 comes right before slot 3: in one order of the two votes slot 2 is
      finalized, on the word of one validator, in the other it is not. */
  lemma OrderMatters()
    ensures var c, t := SmallContext(2), SmallTally();
            var a := SmallVote(0, Checkpoint(11, 0), Checkpoint(14, 3));
            var b := SmallVote(1, Checkpoint(13, 2), Checkpoint(14, 3));
            && ContextFits(c) && TallyAccounts(c, t, SmallLedger({0, 1}))
            && Steps(c, t, [a, b]).Ok? && Steps(c, t, [a, b]).value.finalized == Checkpoint(13, 2)
            && Steps(c, t, [b, a]).Ok? && Steps(c, t, [b, a]).value.finalized == Checkpoint(11, 0)
  {
    SecondDecides(0, Checkpoint(11, 0), Checkpoint(13, 2));
    SecondDecides(1, Checkpoint(13, 2), Checkpoint(11, 0));
    assert JustifiableAfter(1, 0) && !NextByRule(0, 3, 0);
  }
}

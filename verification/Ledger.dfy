/** What a chain owes its voters: a record of every merged vote and every adopted
    target, and the agreement of the tally with that record. */
module Ledger {
  import opened Containers
  import opened Bits
  import opened Window
  import opened VoteTable
  import opened Transition
  import opened Justifiable
  import opened Sizes

  /** `merged`: for each target, every validator whose vote was ever counted.
      `adopted`: for each target that was justified, the voters the code had then. */
  datatype Ledger = Ledger(merged: Table, adopted: Table)

  /** The record after one attestation. */
  ghost function Recorded(c: Context, t: Tally, att: Attestation, log: Ledger): Ledger {
    if !Eligible(c, t, att.data) then log
    else
      var root := att.data.target.root;
      Ledger(log.merged[root := VotesFor(log.merged, root) + Below(Participants(att.bits), c.validators)],
             if Supermajority(MergedVoters(c, t, att), c.validators) then log.adopted[root := MergedVoters(c, t, att)]
             else log.adopted)
  }

  // ------------------------------------------------------------------- history

  /** Block roots do not repeat; only skipped slots share the zero root. */
  ghost predicate DistinctRoots(history: seq<Root>) {
    forall i, j :: 0 <= i < j < |history| && history[i] == history[j] ==> history[i] == ZERO
  }

  ghost function Slots(history: seq<Root>): map<Root, nat> {
    HistorySlots(history, |history|)
  }

  ghost predicate Places(slots: map<Root, nat>, history: seq<Root>, k: nat)
    requires k <= |history|
  {
    && (forall i :: 0 <= i < k && history[i] != ZERO ==> history[i] in slots && slots[history[i]] == i)
    && (forall r :: r in slots ==> r != ZERO && slots[r] < k && history[slots[r]] == r)
  }

  lemma SlotsPlace(history: seq<Root>, k: nat)
    requires DistinctRoots(history) && k <= |history|
    ensures Places(HistorySlots(history, k), history, k)
  {
    if k > 0 {
      SlotsPlace(history, k - 1);
    }
  }

  lemma TargetPlaced(history: seq<Root>, c: Checkpoint)
    requires DistinctRoots(history) && InHistory(history, c) && c.root != ZERO
    ensures c.root in Slots(history) && Slots(history)[c.root] == c.slot
  {
    SlotsPlace(history, |history|);
  }

  // ----------------------------------------------------------------- the record

  /** Pending targets are blocks of this chain that are not justified yet. */
  ghost predicate PendingOpen(slots: map<Root, nat>, fin: nat, window: seq<bool>, pending: Table) {
    forall r :: r in pending ==> r in slots && !Justified(window, fin, slots[r])
  }

  /** Counted targets are blocks of this chain, still pending or already justified. */
  ghost predicate MergedPlaced(slots: map<Root, nat>, fin: nat, window: seq<bool>, pending: Table, log: Ledger) {
    forall r :: r in log.merged ==> r in slots && (r in pending || Justified(window, fin, slots[r]))
  }

  /** A pending target holds every vote counted for it. */
  ghost predicate PendingIsMerged(pending: Table, log: Ledger) {
    forall r :: r in pending ==> r in log.merged && pending[r] == log.merged[r]
  }

  /** A target is adopted exactly when two thirds of the validators voted for it. */
  ghost predicate Quorums(n: nat, log: Ledger) {
    && (forall r :: r in log.adopted ==> r in log.merged && log.adopted[r] == log.merged[r])
    && (forall r :: r in log.merged ==> (Supermajority(log.merged[r], n) <==> r in log.adopted))
  }

  /** Above the finalized slot, the justified slots are those of adopted targets. */
  ghost predicate JustifiedIsAdopted(history: seq<Root>, fin: nat, window: seq<bool>, log: Ledger) {
    forall i :: fin < i < |history| ==> (Justified(window, fin, i) <==> history[i] in log.adopted)
  }

  /** The finalized block is the first one or an adopted one. */
  ghost predicate FinalizedIsAdopted(history: seq<Root>, fin: nat, log: Ledger) {
    fin < |history| && (fin == 0 || history[fin] in log.adopted)
  }

  ghost predicate Accounts(history: seq<Root>, n: nat, fin: nat, window: seq<bool>, pending: Table, log: Ledger) {
    && PendingOpen(Slots(history), fin, window, pending)
    && MergedPlaced(Slots(history), fin, window, pending, log)
    && PendingIsMerged(pending, log)
    && Quorums(n, log)
    && JustifiedIsAdopted(history, fin, window, log)
    && FinalizedIsAdopted(history, fin, log)
    && BelowAll(log.merged, n)
    && |window| == |history| - 1 - fin
  }

  /** The tally in the middle of a block agrees with the record. */
  ghost predicate TallyAccounts(c: Context, t: Tally, log: Ledger) {
    && Accounts(c.history, c.validators, t.finalized.slot, t.window, PendingVotes(c, t), log)
    && InHistory(c.history, t.finalized) && InHistory(c.history, t.justified)
    && t.finalized.slot <= t.justified.slot
  }

  /** What the attestation loop reads is consistent with the history. */
  ghost predicate ContextFits(c: Context) {
    && c.validators > 0
    && DistinctRoots(c.history) && |c.history| <= HISTORICAL_ROOTS_LIMIT
    && (forall r :: r in Slots(c.history) ==> r in c.slots && c.slots[r] == Slots(c.history)[r])
  }

  // -------------------------------------------------------- one counted vote

  /** An open target holds exactly the votes counted for it, and is not adopted. */
  lemma OpenTarget(c: Context, t: Tally, d: AttestationData, log: Ledger)
    requires ContextFits(c) && TallyAccounts(c, t, log) && Eligible(c, t, d) && InHistory(c.history, d.target)
    ensures d.target.root in Slots(c.history) && Slots(c.history)[d.target.root] == d.target.slot
    ensures VotesFor(PendingVotes(c, t), d.target.root) == VotesFor(log.merged, d.target.root)
    ensures d.target.root !in log.adopted
  {
    TargetPlaced(c.history, d.target);
    assert d.target.root in log.merged ==> d.target.root in PendingVotes(c, t);
  }

  ghost function Counted(log: Ledger, root: Root, voters: set<nat>): Ledger {
    log.(merged := log.merged[root := voters])
  }

  lemma CountedAccounts(history: seq<Root>, n: nat, fin: nat, window: seq<bool>, pending: Table, log: Ledger,
                        root: Root, voters: set<nat>)
    requires Accounts(history, n, fin, window, pending, log)
    requires root in Slots(history) && !Justified(window, fin, Slots(history)[root]) && root !in log.adopted
    requires !Supermajority(voters, n) && forall v :: v in voters ==> v < n
    ensures Accounts(history, n, fin, window, pending[root := voters], Counted(log, root, voters))
  {
  }

  /** `window'` is `window` with one more justified slot. */
  ghost predicate OneMore(window: seq<bool>, window': seq<bool>, fin: nat, target: nat) {
    forall slot: nat :: Justified(window', fin, slot) <==> (slot == target || Justified(window, fin, slot))
  }

  lemma AdoptedPlaced(history: seq<Root>, fin: nat, window: seq<bool>, window': seq<bool>, pending: Table, log: Ledger,
                      log': Ledger, root: Root)
    requires DistinctRoots(history) && root in Slots(history)
    requires PendingOpen(Slots(history), fin, window, pending)
    requires MergedPlaced(Slots(history), fin, window, pending, log)
    requires OneMore(window, window', fin, Slots(history)[root])
    requires log'.merged.Keys == log.merged.Keys + {root}
    ensures PendingOpen(Slots(history), fin, window', pending - {root})
    ensures MergedPlaced(Slots(history), fin, window', pending - {root}, log')
  {
    SlotsPlace(history, |history|);
  }

  ghost function Adopting(log: Ledger, root: Root, voters: set<nat>): Ledger {
    Ledger(log.merged[root := voters], log.adopted[root := voters])
  }

  lemma AdoptedQuorums(n: nat, pending: Table, log: Ledger, root: Root, voters: set<nat>)
    requires Quorums(n, log) && PendingIsMerged(pending, log) && BelowAll(log.merged, n)
    requires Supermajority(voters, n) && forall v :: v in voters ==> v < n
    ensures Quorums(n, Adopting(log, root, voters)) && PendingIsMerged(pending - {root}, Adopting(log, root, voters))
    ensures BelowAll(Adopting(log, root, voters).merged, n)
  {
  }

  lemma AdoptedWindow(history: seq<Root>, fin: nat, window: seq<bool>, window': seq<bool>, log: Ledger,
                      target: Checkpoint, voters: set<nat>)
    requires DistinctRoots(history) && InHistory(history, target) && target.root != ZERO
    requires JustifiedIsAdopted(history, fin, window, log) && FinalizedIsAdopted(history, fin, log)
    requires OneMore(window, window', fin, target.slot)
    ensures JustifiedIsAdopted(history, fin, window', Adopting(log, target.root, voters))
    ensures FinalizedIsAdopted(history, fin, Adopting(log, target.root, voters))
  {
  }

  lemma AdoptedAccounts(history: seq<Root>, n: nat, fin: nat, window: seq<bool>, window': seq<bool>, pending: Table,
                        log: Ledger, target: Checkpoint, voters: set<nat>)
    requires DistinctRoots(history) && Accounts(history, n, fin, window, pending, log)
    requires InHistory(history, target) && target.root != ZERO
    requires OneMore(window, window', fin, target.slot) && |window'| == |window|
    requires Supermajority(voters, n) && forall v :: v in voters ==> v < n
    ensures Accounts(history, n, fin, window', pending - {target.root}, Adopting(log, target.root, voters))
  {
    TargetPlaced(history, target);
    AdoptedPlaced(history, fin, window, window', pending, log, Adopting(log, target.root, voters), target.root);
    AdoptedQuorums(n, pending, log, target.root, voters);
    AdoptedWindow(history, fin, window, window', log, target, voters);
  }

  lemma BelowVoters(c: Context, t: Tally, att: Attestation, log: Ledger)
    requires BelowAll(log.merged, c.validators)
    requires VotesFor(PendingVotes(c, t), att.data.target.root) == VotesFor(log.merged, att.data.target.root)
    ensures forall v :: v in MergedVoters(c, t, att) ==> v < c.validators
  {
  }

  /** A counted vote that is not yet a quorum keeps the record. */
  lemma CountKeeps(c: Context, t: Tally, att: Attestation, log: Ledger)
    requires ContextFits(c) && TallyAccounts(c, t, log) && Eligible(c, t, att.data) && InHistory(c.history, att.data.target)
    requires !Supermajority(MergedVoters(c, t, att), c.validators)
    ensures TallyAccounts(c, t.(votes := Some(MergedVotes(c, t, att))), Recorded(c, t, att, log))
  {
    OpenTarget(c, t, att.data, log);
    BelowVoters(c, t, att, log);
    CountedAccounts(c.history, c.validators, t.finalized.slot, t.window, PendingVotes(c, t), log,
                    att.data.target.root, MergedVoters(c, t, att));
  }

  lemma Cleared(pending: Table, root: Root, voters: set<nat>)
    ensures pending[root := voters] - {root} == pending - {root}
  {
  }

  lemma MarkedOneMore(window: seq<bool>, fin: nat, target: nat)
    requires target > fin
    ensures OneMore(window, Marked(window, target - fin - 1), fin, target)
  {
    forall slot: nat {
      MarkedJustified(window, fin, target, slot);
    }
  }

  /** Justifying the target keeps the record. */
  lemma JustifyKeeps(c: Context, t: Tally, att: Attestation, log: Ledger)
    requires ContextFits(c) && TallyAccounts(c, t, log) && Eligible(c, t, att.data) && InHistory(c.history, att.data.target)
    requires Supermajority(MergedVoters(c, t, att), c.validators)
    ensures TallyAccounts(c, JustifiedTally(c, t, att), Recorded(c, t, att, log))
  {
    OpenTarget(c, t, att.data, log);
    BelowVoters(c, t, att, log);
    var target, fin, voters := att.data.target, t.finalized.slot, MergedVoters(c, t, att);
    MarkedOneMore(t.window, fin, target.slot);
    AdoptedAccounts(c.history, c.validators, fin, t.window, JustifiedTally(c, t, att).window, PendingVotes(c, t), log,
                    target, voters);
    Cleared(PendingVotes(c, t), target.root, voters);
    assert Recorded(c, t, att, log) == Adopting(log, target.root, voters);
  }

  /** Moving finality to `fin'` justifies everything up to it and nothing else. */
  ghost predicate JustifiedUpTo(window: seq<bool>, fin: nat, window': seq<bool>, fin': nat) {
    forall slot: nat :: Justified(window', fin', slot) <==> (slot <= fin' || Justified(window, fin, slot))
  }

  lemma ShiftedUpTo(window: seq<bool>, fin: nat, fin': nat)
    requires fin <= fin'
    ensures JustifiedUpTo(window, fin, Shifted(window, fin' - fin), fin')
  {
    forall slot: nat {
      ShiftedJustified(window, fin, fin', slot);
    }
  }

  lemma FinalizedAccounts(history: seq<Root>, n: nat, fin: nat, window: seq<bool>, pending: Table, log: Ledger,
                          fin': nat, window': seq<bool>, pending': Table)
    requires DistinctRoots(history) && Accounts(history, n, fin, window, pending, log)
    requires fin <= fin' < |history| && Justified(window, fin, fin') && JustifiedUpTo(window, fin, window', fin')
    requires |window'| == |history| - 1 - fin'
    requires forall r :: r in pending' <==> r in pending && r in Slots(history) && Slots(history)[r] > fin'
    requires forall r :: r in pending' ==> pending'[r] == pending[r]
    ensures Accounts(history, n, fin', window', pending', log)
  {
  }

  /** Every pending root has a slot, and the slots agree with the history. */
  lemma PendingHasSlots(c: Context, fin: nat, window: seq<bool>, votes: Table, fin': nat)
    requires ContextFits(c) && PendingOpen(Slots(c.history), fin, window, votes)
    ensures forall r :: r in votes ==> r in c.slots
    ensures forall r :: r in Retained(votes, c.slots, fin') <==> r in votes && r in Slots(c.history) && Slots(c.history)[r] > fin'
  {
  }

  /** Finalizing the source keeps the record; no pending root lacks a slot. */
  lemma FinalizeKeeps(c: Context, t: Tally, source: Checkpoint, log: Ledger)
    requires ContextFits(c) && TallyAccounts(c, t, log) && t.votes.Some?
    requires InHistory(c.history, source) && t.finalized.slot <= source.slot < t.justified.slot
    requires Justified(t.window, t.finalized.slot, source.slot)
    ensures Finalized(c.slots, t, source).Ok?
    ensures TallyAccounts(c, Finalized(c.slots, t, source).value, log)
  {
    var fin, votes := t.finalized.slot, t.votes.value;
    PendingHasSlots(c, fin, t.window, votes, source.slot);
    FinalizedIs(c.slots, t, source);
    FinalizedTally(c, t, Finalized(c.slots, t, source).value, log);
  }

  lemma FinalizedIs(slots: map<Root, nat>, t: Tally, source: Checkpoint)
    requires source.slot >= t.finalized.slot && t.votes.Some? && forall r :: r in t.votes.value ==> r in slots
    ensures Finalized(slots, t, source) ==
            Ok(Tally(t.justified, source, Shifted(t.window, source.slot - t.finalized.slot),
                     Some(Retained(t.votes.value, slots, source.slot))))
  {
  }

  lemma FinalizedTally(c: Context, t: Tally, t': Tally, log: Ledger)
    requires ContextFits(c) && TallyAccounts(c, t, log) && t.votes.Some?
    requires InHistory(c.history, t'.finalized) && t.finalized.slot <= t'.finalized.slot < t.justified.slot
    requires Justified(t.window, t.finalized.slot, t'.finalized.slot)
    requires t'.justified == t.justified && t'.window == Shifted(t.window, t'.finalized.slot - t.finalized.slot)
    requires t'.votes == Some(Retained(t.votes.value, c.slots, t'.finalized.slot))
    ensures TallyAccounts(c, t', log)
  {
    ShiftedUpTo(t.window, t.finalized.slot, t'.finalized.slot);
    PendingHasSlots(c, t.finalized.slot, t.window, t.votes.value, t'.finalized.slot);
    FinalizedAccounts(c.history, c.validators, t.finalized.slot, t.window, t.votes.value, log,
                      t'.finalized.slot, t'.window, t'.votes.value);
  }

  // ------------------------------------------------------- whole attestations

  /** Justified slots stay justified and finality does not move back. */
  ghost predicate Forward(fin: nat, window: seq<bool>, fin': nat, window': seq<bool>) {
    && fin <= fin'
    && (forall slot: nat :: Justified(window, fin, slot) ==> Justified(window', fin', slot))
  }

  lemma ForwardTwice(fin: nat, window: seq<bool>, fin1: nat, window1: seq<bool>, fin2: nat, window2: seq<bool>)
    requires Forward(fin, window, fin1, window1) && Forward(fin1, window1, fin2, window2)
    ensures Forward(fin, window, fin2, window2)
  {
  }

  lemma JustifiedForward(c: Context, t: Tally, att: Attestation)
    requires att.data.target.slot > t.finalized.slot
    ensures Forward(t.finalized.slot, t.window, t.finalized.slot, JustifiedTally(c, t, att).window)
  {
    MarkedOneMore(t.window, t.finalized.slot, att.data.target.slot);
  }

  lemma FinalizedForward(slots: map<Root, nat>, t: Tally, source: Checkpoint, t': Tally)
    requires source.slot >= t.finalized.slot && t.votes.Some? && Finalized(slots, t, source) == Ok(t')
    ensures Forward(t.finalized.slot, t.window, t'.finalized.slot, t'.window)
  {
    ShiftedUpTo(t.window, t.finalized.slot, source.slot);
  }

  lemma AdoptForward(c: Context, t: Tally, att: Attestation, t': Tally)
    requires Eligible(c, t, att.data) && Adopted(c, t, att) == Ok(t')
    ensures Forward(t.finalized.slot, t.window, t'.finalized.slot, t'.window)
  {
    var source, target, fin := att.data.source, att.data.target, t.finalized.slot;
    var t1 := JustifiedTally(c, t, att);
    JustifiedForward(c, t, att);
    if IsNextJustifiable(source.slot, target.slot, fin) {
      NextJustifiableStaysAbove(source.slot, target.slot, fin);
      FinalizedForward(c.slots, t1, source, t');
      ForwardTwice(fin, t.window, fin, t1.window, t'.finalized.slot, t'.window);
    }
  }

  lemma AdoptKeeps(c: Context, t: Tally, att: Attestation, log: Ledger)
    requires ContextFits(c) && TallyAccounts(c, t, log) && Eligible(c, t, att.data) && InHistory(c.history, att.data.target)
    requires Supermajority(MergedVoters(c, t, att), c.validators)
    ensures Adopted(c, t, att).Ok? && TallyAccounts(c, Adopted(c, t, att).value, Recorded(c, t, att, log))
  {
    var source, target, fin := att.data.source, att.data.target, t.finalized.slot;
    JustifyKeeps(c, t, att, log);
    if IsNextJustifiable(source.slot, target.slot, fin) {
      NextJustifiableStaysAbove(source.slot, target.slot, fin);
      JustifiedForward(c, t, att);
      FinalizeKeeps(c, JustifiedTally(c, t, att), source, Recorded(c, t, att, log));
    }
  }

  /** One attestation keeps the record, moves forward, and can only fail on a target
      below the finalized slot. */
  lemma StepKeeps(c: Context, t: Tally, att: Attestation, log: Ledger)
    requires ContextFits(c) && TallyAccounts(c, t, log) && att.data.target.root != c.latestRoot
    ensures match Step(c, t, att)
            case Ok(t') =>
              && TallyAccounts(c, t', Recorded(c, t, att, log))
              && Forward(t.finalized.slot, t.window, t'.finalized.slot, t'.window)
            case Err(e) => e == StaleTarget
  {
    if Eligible(c, t, att.data) {
      if Supermajority(MergedVoters(c, t, att), c.validators) {
        AdoptKeeps(c, t, att, log);
        AdoptForward(c, t, att, Adopted(c, t, att).value);
      } else {
        CountKeeps(c, t, att, log);
      }
    }
  }

  /** A vote that completes two thirds takes effect: its target is justified, and its
      source finalized exactly when no slot between them may be justified. */
  lemma QuorumTakesEffect(c: Context, t: Tally, att: Attestation, log: Ledger)
    requires ContextFits(c) && TallyAccounts(c, t, log) && att.data.target.root != c.latestRoot
    requires Eligible(c, t, att.data) && Supermajority(MergedVoters(c, t, att), c.validators)
    ensures Step(c, t, att).Ok? && Step(c, t, att).value.justified == att.data.target
    ensures Step(c, t, att).value.finalized ==
            if IsNextJustifiable(att.data.source.slot, att.data.target.slot, t.finalized.slot) then att.data.source
            else t.finalized
  {
    AdoptKeeps(c, t, att, log);
    if IsNextJustifiable(att.data.source.slot, att.data.target.slot, t.finalized.slot) {
      NextJustifiableStaysAbove(att.data.source.slot, att.data.target.slot, t.finalized.slot);
    }
  }

  // ------------------------------------------------------------------- the rule

  /** The vote goes from a justified slot to one that the rule still allows. */
  ghost predicate EligibleByRule(c: Context, t: Tally, d: AttestationData) {
    && WellFormedVote(c, d)
    && JustifiableAfter(d.target.slot, t.finalized.slot)
    && !Justified(t.window, t.finalized.slot, d.target.slot)
    && Justified(t.window, t.finalized.slot, d.source.slot)
  }

  /** The rule allows no slot strictly between source and target. */
  ghost predicate NextByRule(source: nat, target: nat, finalized: nat) {
    target > source &&
    forall s: nat :: source < s < target ==> !JustifiableAfter(s, finalized)
  }

  /** Within a history's limit the code's two tests are those of the rule. */
  lemma VotesFollowRule(c: Context, t: Tally, d: AttestationData)
    requires |c.history| <= HISTORICAL_ROOTS_LIMIT
    ensures Eligible(c, t, d) <==> EligibleByRule(c, t, d)
    ensures WellFormedVote(c, d) ==>
              (IsNextJustifiable(d.source.slot, d.target.slot, t.finalized.slot) <==>
               NextByRule(d.source.slot, d.target.slot, t.finalized.slot))
  {
    if WellFormedVote(c, d) {
      RuleWithinLimit(d.target.slot, t.finalized.slot);
      forall s: nat | s < d.target.slot
        ensures AcceptedAfter(s, t.finalized.slot) == JustifiableAfter(s, t.finalized.slot)
      {
        RuleWithinLimit(s, t.finalized.slot);
      }
    }
  }

  /** The vote completes two thirds for a target that the rule allows. */
  ghost predicate Completes(c: Context, t: Tally, att: Attestation) {
    EligibleByRule(c, t, att.data) && Supermajority(MergedVoters(c, t, att), c.validators)
  }

  /** What an attestation does to the two checkpoints, by the rule: the target is
      justified when the vote completes two thirds, and its own source finalized when
      the rule allows no slot between them. */
  ghost predicate MovesByRule(c: Context, t: Tally, att: Attestation, t': Tally) {
    var source, target := att.data.source, att.data.target;
    && t'.justified == (if Completes(c, t, att) then target else t.justified)
    && t'.finalized == if Completes(c, t, att) && NextByRule(source.slot, target.slot, t.finalized.slot) then source
                       else t.finalized
  }

  lemma CheckpointsByRule(c: Context, t: Tally, att: Attestation, log: Ledger)
    requires ContextFits(c) && TallyAccounts(c, t, log) && att.data.target.root != c.latestRoot
    requires Step(c, t, att).Ok?
    ensures MovesByRule(c, t, att, Step(c, t, att).value)
  {
    VotesFollowRule(c, t, att.data);
    if Completes(c, t, att) {
      QuorumTakesEffect(c, t, att, log);
    }
  }

  /** The record after a block's attestations, as far as they were processed. */
  ghost function RecordedAll(c: Context, t: Tally, atts: seq<Attestation>, log: Ledger): Ledger {
    if atts == [] then log
    else
      var init := atts[..|atts| - 1];
      var before := Steps(c, t, init);
      if before.Err? then RecordedAll(c, t, init, log)
      else Recorded(c, before.value, atts[|atts| - 1], RecordedAll(c, t, init, log))
  }

  lemma {:induction false} StepsKeep(c: Context, t: Tally, atts: seq<Attestation>, log: Ledger)
    requires ContextFits(c) && TallyAccounts(c, t, log)
    requires forall att :: att in atts ==> att.data.target.root != c.latestRoot
    ensures match Steps(c, t, atts)
            case Ok(t') =>
              && TallyAccounts(c, t', RecordedAll(c, t, atts, log))
              && Forward(t.finalized.slot, t.window, t'.finalized.slot, t'.window)
            case Err(e) => e == StaleTarget
  {
    if atts == [] {
      assert RecordedAll(c, t, atts, log) == log;
    } else {
      var init, last := atts[..|atts| - 1], atts[|atts| - 1];
      StepsKeep(c, t, init, log);
      var before := Steps(c, t, init);
      if before.Ok? {
        StepKeeps(c, before.value, last, RecordedAll(c, t, init, log));
        if Step(c, before.value, last).Ok? {
          var t' := Step(c, before.value, last).value;
          ForwardTwice(t.finalized.slot, t.window, before.value.finalized.slot, before.value.window,
                       t'.finalized.slot, t'.window);
        }
      }
    }
  }

  /** Attestation `k` of a list moves the checkpoints by the rule. */
  lemma StepByRule(c: Context, t: Tally, atts: seq<Attestation>, k: nat, log: Ledger)
    requires ContextFits(c) && TallyAccounts(c, t, log) && k < |atts|
    requires forall att :: att in atts ==> att.data.target.root != c.latestRoot
    requires Steps(c, t, atts[..k + 1]).Ok?
    ensures Steps(c, t, atts[..k]).Ok?
    ensures MovesByRule(c, Steps(c, t, atts[..k]).value, atts[k], Steps(c, t, atts[..k + 1]).value)
  {
    assert atts[..k + 1][..k] == atts[..k];
    StepsKeep(c, t, atts[..k], log);
    CheckpointsByRule(c, Steps(c, t, atts[..k]).value, atts[k], RecordedAll(c, t, atts[..k], log));
  }

  // -------------------------------------------------------------------- quorums

  lemma UnionBound(a: set<nat>, b: set<nat>, n: nat)
    requires forall v :: v in a + b ==> v < n
    ensures |a| + |b| <= n + |a * b|
  {
    assert |a + b| == |a| + |b| - |a * b|;
    BelowSize(a + b, n);
  }

  /** Two adopted targets share at least a third of the validators, whichever chains
      over one registry adopted them. */
  lemma QuorumsIntersect(left: Ledger, right: Ledger, n: nat, a: Root, b: Root)
    requires Quorums(n, left) && BelowAll(left.merged, n) && a in left.adopted
    requires Quorums(n, right) && BelowAll(right.merged, n) && b in right.adopted
    ensures 3 * |left.adopted[a] * right.adopted[b]| >= n
  {
    UnionBound(left.adopted[a], right.adopted[b], n);
  }

  // ------------------------------------------------- the justified checkpoint

  /** The latest justified checkpoint moves back exactly when an older target gets its
      two thirds late; nothing compares the two slots. */
  lemma JustifiedMovesBack(c: Context, t: Tally, att: Attestation)
    requires Step(c, t, att).Ok?
    ensures Step(c, t, att).value.justified.slot < t.justified.slot <==>
            && Eligible(c, t, att.data) && Supermajority(MergedVoters(c, t, att), c.validators)
            && att.data.target.slot < t.justified.slot
  {
  }

  /** It does happen: slot 3 is justified, then a vote from slot 0 justifies slot 1. */
  lemma JustifiedMovesBackOnce()
    ensures var c := Context([11, 12, 13, 14], 4, 15, map[11 := 0, 12 := 1, 13 := 2, 14 := 3], map[], 1);
            var t := Tally(Checkpoint(14, 3), Checkpoint(11, 0), [false, false, true], None);
            var att := Attestation(BitList([1], 1), AttestationData(4, Checkpoint(14, 3), Checkpoint(12, 1), Checkpoint(11, 0)));
            && ContextFits(c) && TallyAccounts(c, t, Ledger(map[14 := {0}], map[14 := {0}]))
            && Step(c, t, att).Ok? && Step(c, t, att).value.justified == Checkpoint(12, 1)
  {
    var c := Context([11, 12, 13, 14], 4, 15, map[11 := 0, 12 := 1, 13 := 2, 14 := 3], map[], 1);
    var t := Tally(Checkpoint(14, 3), Checkpoint(11, 0), [false, false, true], None);
    var att := Attestation(BitList([1], 1), AttestationData(4, Checkpoint(14, 3), Checkpoint(12, 1), Checkpoint(11, 0)));
    AcceptedOpen(1);
    assert Eligible(c, t, att.data);
    assert Participants(att.bits) == {0} by {
      assert TestBit(1, 0) && BitIsSet(att.bits, 0);
    }
    assert PendingVotes(c, t) == map[];
    assert MergedVoters(c, t, att) == {0};
    assert MergedVotes(c, t, att) - {12} == map[];
  }
}

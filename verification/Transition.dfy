/** The state transition on values: slots, header and attestations. */
module Transition {
  import opened Containers
  import opened Bits
  import opened Justifiable
  import opened Window
  import opened VoteTable
  import opened VoteCodec

  datatype Error =
    | SlotNotInFuture
    | SlotMismatch
    | SlotNotAfterHeader
    | WrongProposer
    | ParentMismatch
    | HistoryFull
    | ZeroVoteRoot
    | StaleTarget
    | JustifiedSlotLimit
    | VoteRootWithoutSlot
    | VoteBitmapLimit
    | StateRootMismatch
    | InvalidEnvelope
    | InvalidSignature

  type Outcome = Result<StateValue, Error>

  // ------------------------------------------------------------------- genesis

  /** Slot 0: no history, zero checkpoints, and a header that already carries the
      hash of the state around it. */
  ghost function GenesisState(h: Hashes, genesisTime: nat, validators: seq<Validator>): StateValue {
    var s := StateValue(genesisTime, 0, BlockHeader(0, 0, ZERO, ZERO, h.body([])), Checkpoint(ZERO, 0), Checkpoint(ZERO, 0),
                        [], [], validators, [], []);
    s.(header := s.header.(stateRoot := h.state(s)))
  }

  // --------------------------------------------------------------------- slots

  ghost function SlotStep(h: Hashes, s: StateValue): StateValue {
    s.(slot := s.slot + 1,
       header := if s.header.stateRoot == ZERO then s.header.(stateRoot := h.state(s)) else s.header)
  }

  ghost function AdvancedTo(h: Hashes, s: StateValue, target: nat): StateValue
    decreases target - s.slot
  {
    if s.slot >= target then s else AdvancedTo(h, SlotStep(h, s), target)
  }

  /** Passing slots only move the slot on and give the header, if it has none, the root of
      the state it belongs to. */
  lemma {:induction false} SlotsPass(h: Hashes, s: StateValue, target: nat)
    requires s.slot < target
    ensures var s' := AdvancedTo(h, s, target);
            && s'.slot == target
            && (s.header.stateRoot != ZERO ==> s' == s.(slot := target))
            && (s.header.stateRoot == ZERO != h.state(s) ==>
                  s' == s.(slot := target, header := s.header.(stateRoot := h.state(s))))
    decreases target - s.slot
  {
    if s.slot + 1 < target {
      SlotsPass(h, SlotStep(h, s), target);
    }
  }

  ghost function ProcessSlots(h: Hashes, s: StateValue, target: nat): Outcome {
    if s.slot >= target then Err(SlotNotInFuture) else Ok(AdvancedTo(h, s, target))
  }

  // -------------------------------------------------------------------- header

  ghost function ZeroRoots(n: nat): (r: seq<Root>)
    ensures |r| == n && forall i :: 0 <= i < n ==> r[i] == ZERO
  {
    seq(n, _ => ZERO)
  }

  predicate IsProposerFor(index: nat, slot: nat, validators: nat) {
    validators != 0 && slot % validators == index
  }

  /** The length the window needs to reach slot `slot - 1`. */
  function WindowLen(slot: nat, finalized: nat): nat {
    if slot > finalized + 1 then slot - 1 - finalized else 0
  }

  ghost function ProcessHeader(h: Hashes, s: StateValue, header: BlockHeader): Outcome {
    if header.slot <= s.header.slot then Err(SlotNotAfterHeader)
    else if !IsProposerFor(header.proposerIndex, s.slot, |s.validators|) then Err(WrongProposer)
    else if header.parentRoot != h.header(s.header) then Err(ParentMismatch)
    else if |s.history| + (header.slot - s.header.slot) > HISTORICAL_ROOTS_LIMIT then Err(HistoryFull)
    else
      var seeding := s.header.slot == 0;
      Ok(s.(header := header.(stateRoot := ZERO),
            justified := if seeding then s.justified.(root := header.parentRoot) else s.justified,
            finalized := if seeding then s.finalized.(root := header.parentRoot) else s.finalized,
            history := s.history + [header.parentRoot] + ZeroRoots(header.slot - s.header.slot - 1),
            justifiedSlots := Extended(s.justifiedSlots, WindowLen(header.slot, s.finalized.slot))))
  }

  /** A header that passes is staged without state root, its parent goes to the history,
      followed by a zero for every skipped slot, and the first one after genesis names
      genesis in both checkpoints. */
  lemma HeaderStaged(h: Hashes, s: StateValue, header: BlockHeader, s1: StateValue)
    requires ProcessHeader(h, s, header) == Ok(s1)
    ensures s1.header == header.(stateRoot := ZERO) && s1.slot == s.slot && s1.validators == s.validators
    ensures s1.voteRoots == s.voteRoots && s1.voteBits == s.voteBits && s1.genesisTime == s.genesisTime
    ensures |s1.history| == |s.history| + (header.slot - s.header.slot) && s.history <= s1.history
    ensures s1.history[|s.history|] == header.parentRoot
    ensures forall i :: |s.history| < i < |s1.history| ==> s1.history[i] == ZERO
    ensures s1.justified.slot == s.justified.slot && s1.finalized.slot == s.finalized.slot
    ensures if s.header.slot == 0 then s1.justified.root == s1.finalized.root == header.parentRoot
            else s1.justified == s.justified && s1.finalized == s.finalized
    ensures s.justifiedSlots <= s1.justifiedSlots
    ensures forall i :: |s.justifiedSlots| <= i < |s1.justifiedSlots| ==> !s1.justifiedSlots[i]
  {
  }

  /** The state that a refused header leaves behind: untouched by a failed check, and with
      the checkpoints seeded and the parent recorded, as far as there is room for it, when
      the history is full. */
  ghost function HeaderResidue(h: Hashes, s: StateValue, header: BlockHeader): StateValue
    requires ProcessHeader(h, s, header).Err?
  {
    if ProcessHeader(h, s, header).error != HistoryFull then s
    else
      var seeding := s.header.slot == 0;
      s.(justified := if seeding then s.justified.(root := header.parentRoot) else s.justified,
         finalized := if seeding then s.finalized.(root := header.parentRoot) else s.finalized,
         history := if |s.history| < HISTORICAL_ROOTS_LIMIT then s.history + [header.parentRoot] else s.history)
  }

  // -------------------------------------------------------------- attestations

  /** What the loop over a block's attestations changes. */
  datatype Tally = Tally(justified: Checkpoint, finalized: Checkpoint, window: seq<bool>, votes: Option<Table>)

  /** What it only reads: the history, the header being processed, the slot of each
      known root, the stored vote table and the number of validators. */
  datatype Context = Context(
    history: seq<Root>, headerSlot: nat, latestRoot: Root, slots: map<Root, nat>, stored: Table, validators: nat)

  ghost function HistorySlots(history: seq<Root>, k: nat): map<Root, nat>
    requires k <= |history|
  {
    if k == 0 then map[]
    else if history[k - 1] == ZERO then HistorySlots(history, k - 1)
    else HistorySlots(history, k - 1)[history[k - 1] := k - 1]
  }

  ghost function RootSlots(history: seq<Root>, latestRoot: Root, headerSlot: nat): map<Root, nat> {
    var slots := HistorySlots(history, |history|);
    if latestRoot != ZERO && latestRoot !in slots then slots[latestRoot := headerSlot] else slots
  }

  ghost function ContextOf(h: Hashes, s: StateValue): Context {
    var latestRoot := h.header(s.header);
    Context(s.history, s.header.slot, latestRoot, RootSlots(s.history, latestRoot, s.header.slot),
            Decoded(s.voteRoots, s.voteBits, |s.validators|), |s.validators|)
  }

  predicate InHistory(history: seq<Root>, c: Checkpoint) {
    c.slot < |history| && history[c.slot] == c.root
  }

  ghost predicate TargetKnown(c: Context, target: Checkpoint) {
    || InHistory(c.history, target)
    || (target.slot == |c.history| && target.slot == c.headerSlot && target.root == c.latestRoot)
  }

  /** The vote names two known checkpoints of this chain, in order. */
  ghost predicate WellFormedVote(c: Context, d: AttestationData) {
    && d.target.slot > d.source.slot
    && d.source.root != ZERO && d.target.root != ZERO
    && InHistory(c.history, d.source)
    && TargetKnown(c, d.target)
  }

  /** The code's answer to whether `slot` may be justified after `finalized`. */
  ghost predicate AcceptedAfter(slot: nat, finalized: nat) {
    slot >= finalized && AcceptedDelta(slot - finalized)
  }

  /** Up to the limit of the history nothing wraps, and that answer is the rule. */
  lemma RuleWithinLimit(slot: nat, finalized: nat)
    requires slot <= HISTORICAL_ROOTS_LIMIT
    ensures AcceptedAfter(slot, finalized) == JustifiableAfter(slot, finalized)
  {
    if slot >= finalized {
      AcceptedIsJustifiable(slot - finalized);
    }
  }

  /** The vote goes from a justified slot to one that still may be justified. */
  ghost predicate Eligible(c: Context, t: Tally, d: AttestationData) {
    && WellFormedVote(c, d)
    && AcceptedAfter(d.target.slot, t.finalized.slot)
    && !Justified(t.window, t.finalized.slot, d.target.slot)
    && Justified(t.window, t.finalized.slot, d.source.slot)
  }

  ghost function PendingVotes(c: Context, t: Tally): Table {
    if t.votes.Some? then t.votes.value else c.stored
  }

  ghost function VotesFor(votes: Table, root: Root): set<nat> {
    if root in votes then votes[root] else {}
  }

  /** All voters for the attestation's target, this attestation's included. */
  ghost function MergedVoters(c: Context, t: Tally, att: Attestation): set<nat> {
    VotesFor(PendingVotes(c, t), att.data.target.root) + Below(Participants(att.bits), c.validators)
  }

  ghost function MergedVotes(c: Context, t: Tally, att: Attestation): Table {
    PendingVotes(c, t)[att.data.target.root := MergedVoters(c, t, att)]
  }

  ghost predicate Supermajority(voters: set<nat>, n: nat) {
    3 * |voters| >= 2 * n
  }

  /** No slot strictly between source and target may be justified. */
  ghost predicate IsNextJustifiable(source: nat, target: nat, finalized: nat) {
    target > source &&
    forall s: nat :: source < s < target ==> !AcceptedAfter(s, finalized)
  }

  /** A pair that straddles the finalized slot is never consecutive. */
  lemma NextJustifiableStaysAbove(source: nat, target: nat, finalized: nat)
    requires IsNextJustifiable(source, target, finalized) && target > finalized
    ensures source >= finalized
  {
    if source < finalized {
      AcceptedOpen(0);
      assert AcceptedAfter(finalized, finalized);
    }
  }

  ghost function Retained(votes: Table, slots: map<Root, nat>, finalized: nat): Table {
    map r | r in votes && r in slots && slots[r] > finalized :: votes[r]
  }

  /** Finality moves to the source; votes at or below it are dropped. */
  ghost function Finalized(slots: map<Root, nat>, t: Tally, source: Checkpoint): Result<Tally, Error>
    requires source.slot >= t.finalized.slot && t.votes.Some?
  {
    if exists r :: r in t.votes.value && r !in slots then Err(VoteRootWithoutSlot)
    else Ok(Tally(t.justified, source, Shifted(t.window, source.slot - t.finalized.slot),
                  Some(Retained(t.votes.value, slots, source.slot))))
  }

  /** The tally once the target is justified and its votes are cleared. */
  ghost function JustifiedTally(c: Context, t: Tally, att: Attestation): Tally
    requires att.data.target.slot > t.finalized.slot
  {
    Tally(att.data.target, t.finalized, Marked(t.window, att.data.target.slot - t.finalized.slot - 1),
          Some(MergedVotes(c, t, att) - {att.data.target.root}))
  }

  /** The target is justified, and the source finalized when it comes right before. */
  ghost function Adopted(c: Context, t: Tally, att: Attestation): Result<Tally, Error>
    requires Eligible(c, t, att.data)
  {
    var source, target, fin := att.data.source, att.data.target, t.finalized.slot;
    if target.slot - fin - 1 >= HISTORICAL_ROOTS_LIMIT then Err(JustifiedSlotLimit)
    else if !IsNextJustifiable(source.slot, target.slot, fin) then Ok(JustifiedTally(c, t, att))
    else
      NextJustifiableStaysAbove(source.slot, target.slot, fin);
      Finalized(c.slots, JustifiedTally(c, t, att), source)
  }

  ghost function Step(c: Context, t: Tally, att: Attestation): Result<Tally, Error> {
    if WellFormedVote(c, att.data) && att.data.target.slot < t.finalized.slot then Err(StaleTarget)
    else if !Eligible(c, t, att.data) then Ok(t)
    else if !Supermajority(MergedVoters(c, t, att), c.validators) then Ok(t.(votes := Some(MergedVotes(c, t, att))))
    else Adopted(c, t, att)
  }

  ghost function Steps(c: Context, t: Tally, atts: seq<Attestation>): Result<Tally, Error> {
    if atts == [] then Ok(t)
    else
      var before := Steps(c, t, atts[..|atts| - 1]);
      if before.Err? then before else Step(c, before.value, atts[|atts| - 1])
  }

  /** The checkpoints and window left behind when a target cannot be adopted: the
      justified checkpoint has changed for a target beyond the window, and for a vote
      root without slot finality has moved as well. */
  ghost function AdoptResidue(c: Context, t: Tally, att: Attestation): Tally
    requires Eligible(c, t, att.data)
  {
    var source, target, fin := att.data.source, att.data.target, t.finalized.slot;
    if target.slot - fin - 1 >= HISTORICAL_ROOTS_LIMIT || source.slot < fin then Tally(target, t.finalized, t.window, None)
    else Tally(target, source, Shifted(JustifiedTally(c, t, att).window, source.slot - fin), None)
  }

  /** The same for any attestation; a stale target leaves everything as it was. */
  ghost function StepResidue(c: Context, t: Tally, att: Attestation): Tally {
    if Eligible(c, t, att.data) then AdoptResidue(c, t, att) else t.(votes := None)
  }

  /** The same for a list that fails: the first attestation that fails decides. */
  ghost function StepsResidue(c: Context, t: Tally, atts: seq<Attestation>): Tally
    requires Steps(c, t, atts).Err?
  {
    var init := atts[..|atts| - 1];
    if Steps(c, t, init).Err? then StepsResidue(c, t, init)
    else StepResidue(c, Steps(c, t, init).value, atts[|atts| - 1])
  }

  /** A list that a stale target stops leaves behind the checkpoints and the window of the
      attestations before it. */
  lemma {:induction false} StaleResidue(c: Context, t: Tally, atts: seq<Attestation>, k: nat)
    requires k < |atts| && Steps(c, t, atts[..k]).Ok? && Step(c, Steps(c, t, atts[..k]).value, atts[k]) == Err(StaleTarget)
    ensures Steps(c, t, atts) == Err(StaleTarget)
    ensures StepsResidue(c, t, atts) == Steps(c, t, atts[..k]).value.(votes := None)
    decreases |atts|
  {
    var init := atts[..|atts| - 1];
    if k < |init| {
      assert init[..k] == atts[..k] && init[k] == atts[k];
      StaleResidue(c, t, init, k);
    } else {
      assert init == atts[..k];
    }
  }

  ghost function StartTally(s: StateValue): Tally {
    Tally(s.justified, s.finalized, s.justifiedSlots, None)
  }

  ghost function WithTally(s: StateValue, t: Tally): Outcome
    requires |s.validators| > 0
  {
    var s' := s.(justified := t.justified, finalized := t.finalized, justifiedSlots := t.window);
    if t.votes.None? then Ok(s')
    else if |t.votes.value| * |s.validators| > JUSTIFICATION_VALIDATORS_LIMIT then Err(VoteBitmapLimit)
    else
      var roots := SortedRoots(t.votes.value.Keys);
      Ok(s'.(voteRoots := roots,
             voteBits := Flattened(roots, t.votes.value, |s.validators|)))
  }

  ghost function ProcessAttestations(h: Hashes, s: StateValue, atts: seq<Attestation>): Outcome {
    if |s.validators| == 0 then Ok(s)
    else if ZERO in s.voteRoots then Err(ZeroVoteRoot)
    else
      var t := Steps(ContextOf(h, s), StartTally(s), atts);
      if t.Err? then Err(t.error) else WithTally(s, t.value)
  }

  ghost function WithCheckpoints(s: StateValue, t: Tally): StateValue {
    s.(justified := t.justified, finalized := t.finalized, justifiedSlots := t.window)
  }

  /** The state left behind when the attestations fail; the vote table is not touched. */
  ghost function AttestationsResidue(h: Hashes, s: StateValue, atts: seq<Attestation>): StateValue
    requires ProcessAttestations(h, s, atts).Err?
  {
    var t := Steps(ContextOf(h, s), StartTally(s), atts);
    if ZERO in s.voteRoots then s
    else WithCheckpoints(s, if t.Ok? then t.value else StepsResidue(ContextOf(h, s), StartTally(s), atts))
  }

  // ----------------------------------------------------------- the whole block

  /** Header and body, once the state has reached the block's slot. */
  ghost function ProcessBlock(h: Hashes, s: StateValue, block: Block): Outcome {
    var s1 := ProcessHeader(h, s, HeaderOf(h, block));
    if s1.Err? then s1 else ProcessAttestations(h, s1.value, block.attestations)
  }

  ghost function StateTransition(h: Hashes, s: StateValue, block: Block): Outcome {
    var s1 := ProcessSlots(h, s, block.slot);
    if s1.Err? then s1
    else
      var s2 := ProcessBlock(h, s1.value, block);
      if s2.Err? then s2
      else if h.state(s2.value) != block.stateRoot then Err(StateRootMismatch)
      else Ok(s2.value.(header := s2.value.header.(stateRoot := block.stateRoot)))
  }

  /** The state left behind when header or body is refused. */
  ghost function BlockResidue(h: Hashes, s: StateValue, block: Block): StateValue
    requires ProcessBlock(h, s, block).Err?
  {
    var s1 := ProcessHeader(h, s, HeaderOf(h, block));
    if s1.Err? then HeaderResidue(h, s, HeaderOf(h, block)) else AttestationsResidue(h, s1.value, block.attestations)
  }

  /** The state left behind when a block is refused, by the stage that refuses it. */
  ghost function TransitionResidue(h: Hashes, s: StateValue, block: Block): StateValue
    requires StateTransition(h, s, block).Err?
  {
    var s1 := ProcessSlots(h, s, block.slot);
    if s1.Err? then s
    else
      var s2 := ProcessBlock(h, s1.value, block);
      if s2.Err? then BlockResidue(h, s1.value, block) else s2.value
  }
}

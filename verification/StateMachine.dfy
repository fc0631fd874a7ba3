/** The consensus state, updated in place. */
module StateMachine {
  import opened Containers
  import opened Bits
  import opened Justifiable
  import opened Window
  import opened VoteTable
  import opened VoteCodec
  import opened Transition
  import Envelope

  /** No slot strictly between source and target may be justified. */
  method IsNextValidJustifiableSlot(source: nat, target: nat, finalized: nat) returns (r: bool)
    requires target < TWO64
    ensures r == IsNextJustifiable(source, target, finalized)
  {
    if target <= source {
      return false;
    }
    for s := source + 1 to target
      invariant forall x: nat :: source < x < s ==> !AcceptedAfter(x, finalized)
    {
      var accepted := IsJustifiableAfter(s, finalized);
      if accepted == Some(true) {
        assert AcceptedAfter(s, finalized);
        return false;
      }
    }
    return true;
  }

  method BuildHistoricalRootSlots(history: seq<Root>) returns (out: map<Root, nat>)
    ensures out == HistorySlots(history, |history|)
  {
    out := map[];
    for k := 0 to |history|
      invariant out == HistorySlots(history, k)
    {
      if history[k] != ZERO {
        out := out[history[k] := k];
      }
    }
  }

  /** Keeps the votes for roots above the finalized slot; fails on a root without slot. */
  method RetainVotes(votes: VoteMap, slots: map<Root, nat>, finalized: nat, ghost n: nat) returns (r: Option<VoteMap>)
    requires ValidMap(votes, n)
    ensures r.None? <==> exists x :: x in TableOf(votes) && x !in slots
    ensures r.Some? ==> ValidMap(r.value, n) && TableOf(r.value) == Retained(TableOf(votes), slots, finalized)
  {
    if x :| x in votes && x !in slots {
      assert x in TableOf(votes);
      return None;
    }
    r := Some(map x | x in votes && x in slots && slots[x] > finalized :: votes[x]);
    assert TableOf(r.value) == Retained(TableOf(votes), slots, finalized);
  }

  ghost function TableOption(votes: Option<VoteMap>): Option<Table> {
    if votes.Some? then Some(TableOf(votes.value)) else None
  }

  /** Adds an attestation's participants to the votes for its target. */
  method MergeVote(votes: VoteMap, att: Attestation, n: nat, ghost c: Context, ghost t: Tally)
    returns (r: VoteMap, count: nat)
    requires ValidMap(votes, n) && c.validators == n && TableOf(votes) == PendingVotes(c, t)
    ensures ValidMap(r, n) && TableOf(r) == MergedVotes(c, t, att)
    ensures att.data.target.root in r && count == |MergedVoters(c, t, att)|
  {
    var root := att.data.target.root;
    var entry := if root in votes then votes[root] else NoVotes(n);
    NoVotesValid(n);
    assert TableOf(votes).Keys == votes.Keys;
    var merged := MergeParticipantVotes(entry, att.bits, n);
    r := votes[root := merged];
    count := merged.count;
    assert Voters(merged.bits) == MergedVoters(c, t, att);
    assert TableOf(r) == TableOf(votes)[root := Voters(merged.bits)];
  }

  class State {
    const h: Hashes
    const genesisTime: nat
    const validators: seq<Validator>
    var slot: nat
    var header: BlockHeader
    var justified: Checkpoint
    var finalized: Checkpoint
    var history: seq<Root>
    var justifiedSlots: BitList
    var voteRoots: seq<Root>
    var voteBits: BitList

    /** Bit lists are stored canonically and the history keeps to its limit. */
    ghost predicate Valid()
      reads this
    {
      && Canonical(justifiedSlots) && Canonical(voteBits)
      && |history| <= HISTORICAL_ROOTS_LIMIT
    }

    function Value(): StateValue
      reads this
    {
      StateValue(genesisTime, slot, header, justified, finalized, history, BitsOf(justifiedSlots), validators,
                 voteRoots, BitsOf(voteBits))
    }

    /** Advances the state to `target`, filling in the header's state root on the way. */
    method ProcessSlots(target: nat) returns (failure: Option<Error>)
      requires Valid()
      modifies `slot, `header
      ensures Valid() && Reports(Transition.ProcessSlots(h, old(Value()), target), failure, Value())
      ensures failure == if old(slot) < target then None else Some(SlotNotInFuture)
      ensures failure.None? ==> slot == target
      ensures failure.None? && old(header).stateRoot != ZERO ==> header == old(header)
      ensures failure.None? && old(header).stateRoot == ZERO != h.state(old(Value())) ==>
                header == old(header).(stateRoot := h.state(old(Value())))
      ensures failure.Some? ==> Value() == old(Value())
    {
      if slot >= target {
        return Some(SlotNotInFuture);
      }
      SlotsPass(h, Value(), target);
      while slot < target
        invariant slot <= target && AdvancedTo(h, Value(), target) == AdvancedTo(h, old(Value()), target)
      {
        ghost var before := Value();
        if header.stateRoot == ZERO {
          header := header.(stateRoot := h.state(Value()));
        }
        slot := slot + 1;
        assert Value() == SlotStep(h, before);
      }
      return None;
    }

    /** Checks a block header against the state and stages it. */
    method ProcessBlockHeaderAssumingSlot(block: BlockHeader) returns (failure: Option<Error>)
      requires Valid()
      modifies `header, `justified, `finalized, `history, `justifiedSlots
      ensures Valid() && Reports(Transition.ProcessHeader(h, old(Value()), block), failure, Value())
      ensures failure ==
              if block.slot <= old(header).slot then Some(SlotNotAfterHeader)
              else if |validators| == 0 || block.proposerIndex != slot % |validators| then Some(WrongProposer)
              else if block.parentRoot != h.header(old(header)) then Some(ParentMismatch)
              else if |old(history)| + (block.slot - old(header).slot) > HISTORICAL_ROOTS_LIMIT then Some(HistoryFull)
              else None
      ensures failure.Some? ==> Value() == HeaderResidue(h, old(Value()), block)
      ensures failure.Some? && failure != Some(HistoryFull) ==> Value() == old(Value())
    {
      if block.slot <= header.slot {
        return Some(SlotNotAfterHeader);
      }
      if !IsProposerFor(block.proposerIndex, slot, |validators|) {
        return Some(WrongProposer);
      }
      if block.parentRoot != h.header(header) {
        return Some(ParentMismatch);
      }
      if header.slot == 0 {
        justified := justified.(root := block.parentRoot);
        finalized := finalized.(root := block.parentRoot);
      }
      var numEmptySlots := block.slot - header.slot - 1;
      if |history| >= HISTORICAL_ROOTS_LIMIT {
        return Some(HistoryFull);
      }
      history := history + [block.parentRoot];
      if numEmptySlots > 0 {
        if |history| + numEmptySlots > HISTORICAL_ROOTS_LIMIT {
          return Some(HistoryFull);
        }
        history := history + seq(numEmptySlots, _ => ZERO);
      }
      var lastMaterialized := block.slot - 1;
      if lastMaterialized > finalized.slot {
        justifiedSlots := ExtendWindow(justifiedSlots, lastMaterialized - finalized.slot);
      }
      header := block.(stateRoot := ZERO);
      return None;
    }

    // ------------------------------------------------------------ attestations

    ghost function TallyOf(votes: Option<VoteMap>): Tally
      reads this
    {
      Tally(justified, finalized, BitsOf(justifiedSlots), TableOption(votes))
    }

    /** `c` is what this state lets the attestation loop read. */
    ghost predicate Provides(c: Context)
      reads this
    {
      && c.history == history && c.headerSlot == header.slot
      && c.stored == Decoded(voteRoots, BitsOf(voteBits), |validators|)
      && c.validators == |validators| > 0
    }

    /** The checks an attestation must pass before its votes count. */
    method CheckEligible(d: AttestationData, latestRoot: Root, ghost c: Context, ghost t: Tally)
      returns (failure: Option<Error>, eligible: bool)
      requires Valid() && Provides(c) && c.latestRoot == latestRoot
      requires t.finalized == finalized && t.window == BitsOf(justifiedSlots)
      ensures failure == if WellFormedVote(c, d) && d.target.slot < t.finalized.slot then Some(StaleTarget) else None
      ensures eligible == Eligible(c, t, d)
      ensures eligible <==>
              && d.target.slot > d.source.slot && d.source.root != ZERO && d.target.root != ZERO
              && d.source.slot < |history| && history[d.source.slot] == d.source.root
              && (|| (d.target.slot < |history| && history[d.target.slot] == d.target.root)
                  || (d.target.slot == |history| == header.slot && d.target.root == latestRoot))
              && d.target.slot >= finalized.slot && AcceptedDelta(d.target.slot - finalized.slot)
              && !Justified(BitsOf(justifiedSlots), finalized.slot, d.target.slot)
              && Justified(BitsOf(justifiedSlots), finalized.slot, d.source.slot)
    {
      failure, eligible := None, false;
      if d.target.slot <= d.source.slot {
        return;
      }
      if d.source.root == ZERO || d.target.root == ZERO {
        return;
      }
      if !InHistory(history, d.source) {
        return;
      }
      var targetMatches := InHistory(history, d.target)
        || (d.target.slot == |history| && d.target.slot == header.slot && d.target.root == latestRoot);
      if !targetMatches {
        return;
      }
      var justifiable := IsJustifiableAfter(d.target.slot, finalized.slot);
      if justifiable.None? {
        return Some(StaleTarget), false;
      }
      if !justifiable.value {
        return;
      }
      if IsSlotJustified(justifiedSlots, finalized.slot, d.target.slot) {
        return;
      }
      if !IsSlotJustified(justifiedSlots, finalized.slot, d.source.slot) {
        return;
      }
      eligible := true;
    }

    /** Loads the stored vote table on first use. */
    method LoadVotes(votes: Option<VoteMap>, ghost c: Context, ghost t: Tally) returns (r: VoteMap)
      requires Valid() && Provides(c) && t.votes == TableOption(votes)
      requires votes.Some? ==> ValidMap(votes.value, |validators|)
      ensures ValidMap(r, |validators|) && TableOf(r) == PendingVotes(c, t)
    {
      if votes.Some? {
        r := votes.value;
      } else {
        r := DecodeJustificationVotes(voteRoots, voteBits, |validators|);
      }
    }

    /** Moves finality to the source and drops what it leaves behind. */
    method FinalizeSource(source: Checkpoint, votes: VoteMap, slots: map<Root, nat>, ghost t: Tally)
      returns (failure: Option<Error>, r: VoteMap)
      requires Valid() && source.slot >= finalized.slot && ValidMap(votes, |validators|) && t == TallyOf(Some(votes))
      modifies `finalized, `justifiedSlots
      ensures Valid()
      ensures TallyReports(Transition.Finalized(slots, t, source), failure, TallyOf(Some(r)))
      ensures failure.None? ==> ValidMap(r, |validators|)
      ensures TallyOf(None) == Tally(justified, source, Shifted(t.window, source.slot - t.finalized.slot), None)
    {
      var delta := source.slot - finalized.slot;
      finalized := source;
      justifiedSlots := ShiftJustifiedWindow(justifiedSlots, delta);
      var retained := RetainVotes(votes, slots, finalized.slot, |validators|);
      if retained.None? {
        return Some(VoteRootWithoutSlot), votes;
      }
      r := retained.value;
      failure := None;
    }

    /** Makes the target the latest justified checkpoint, sets its bit and clears its votes. */
    method JustifyTarget(att: Attestation, merged: VoteMap, ghost c: Context, ghost t: Tally)
      returns (ok: bool, votes: VoteMap)
      requires Valid() && att.data.target.slot > finalized.slot
      requires t.finalized == finalized && t.window == BitsOf(justifiedSlots)
      requires ValidMap(merged, |validators|) && TableOf(merged) == MergedVotes(c, t, att)
      modifies `justified, `justifiedSlots
      ensures Valid() && ValidMap(votes, |validators|)
      ensures ok == (att.data.target.slot - finalized.slot - 1 < HISTORICAL_ROOTS_LIMIT)
      ensures ok ==> TallyOf(Some(votes)) == JustifiedTally(c, t, att)
      ensures !ok ==> justified == att.data.target && BitsOf(justifiedSlots) == t.window
    {
      justified := att.data.target;
      var marked := SetJustifiedSlot(justifiedSlots, finalized.slot, att.data.target.slot);
      ok, votes := marked.Some?, merged;
      if ok {
        justifiedSlots := marked.value;
        votes := merged - {att.data.target.root};
        assert TableOf(votes) == TableOf(merged) - {att.data.target.root};
      }
    }

    /** Finalizes the source when no slot between it and the target could have been
        justified. */
    method FinalizeIfNext(source: Checkpoint, target: nat, votes: VoteMap, slots: map<Root, nat>, ghost t: Tally)
      returns (failure: Option<Error>, r: VoteMap)
      requires Valid() && finalized.slot < target < TWO64 && ValidMap(votes, |validators|) && t == TallyOf(Some(votes))
      modifies `finalized, `justifiedSlots
      ensures Valid()
      ensures SourceReports(slots, t, source, target, failure, TallyOf(Some(r)))
      ensures failure.None? ==> ValidMap(r, |validators|)
    {
      var next := IsNextValidJustifiableSlot(source.slot, target, finalized.slot);
      failure, r := None, votes;
      if next {
        NextJustifiableStaysAbove(source.slot, target, finalized.slot);
        failure, r := FinalizeSource(source, votes, slots, t);
      }
    }

    /** The target has two thirds of the votes: it is justified, and the source is
        finalized when no slot between them could have been justified. */
    method Adopt(att: Attestation, merged: VoteMap, slots: map<Root, nat>, ghost c: Context, ghost t: Tally)
      returns (failure: Option<Error>, votes: VoteMap)
      requires Valid() && Provides(c) && c.slots == slots && Eligible(c, t, att.data)
      requires t.justified == justified && t.finalized == finalized && t.window == BitsOf(justifiedSlots)
      requires ValidMap(merged, |validators|) && TableOf(merged) == MergedVotes(c, t, att)
      modifies `justified, `finalized, `justifiedSlots
      ensures Valid()
      ensures AdoptReports(c, t, att, failure, TallyOf(Some(votes)))
      ensures failure.None? ==> ValidMap(votes, |validators|)
    {
      var ok;
      ok, votes := JustifyTarget(att, merged, c, t);
      if !ok {
        failure := Some(JustifiedSlotLimit);
        LimitAdopts(c, t, att, TallyOf(Some(votes)));
        return;
      }
      ghost var t1 := TallyOf(Some(votes));
      failure, votes := FinalizeIfNext(att.data.source, att.data.target.slot, votes, slots, t1);
      SourceAdopts(c, t, att, t1, failure, TallyOf(Some(votes)));
    }

    /** One attestation of a block body. */
    method ProcessAttestation(att: Attestation, latestRoot: Root, slots: map<Root, nat>, votes: Option<VoteMap>, ghost c: Context)
      returns (failure: Option<Error>, votes': Option<VoteMap>)
      requires Valid() && Provides(c) && c.slots == slots && c.latestRoot == latestRoot
      requires votes.Some? ==> ValidMap(votes.value, |validators|)
      modifies `justified, `finalized, `justifiedSlots
      ensures Valid()
      ensures TallyReports(Step(c, old(TallyOf(votes)), att), failure, TallyOf(votes'))
      ensures failure.Some? ==> TallyOf(None) == StepResidue(c, old(TallyOf(votes)), att)
      ensures failure.None? && votes'.Some? ==> ValidMap(votes'.value, |validators|)
    {
      ghost var t := TallyOf(votes);
      votes' := votes;
      var eligible;
      failure, eligible := CheckEligible(att.data, latestRoot, c, t);
      if failure.Some? || !eligible {
        return;
      }
      var pending := LoadVotes(votes, c, t);
      var merged, count := MergeVote(pending, att, |validators|, c, t);
      if 3 * count < 2 * |validators| {
        return None, Some(merged);
      }
      var remaining;
      failure, remaining := Adopt(att, merged, slots, c, t);
      votes' := Some(remaining);
    }

    method BuildRootSlots(latestRoot: Root) returns (slots: map<Root, nat>)
      ensures slots == RootSlots(history, latestRoot, header.slot)
      ensures latestRoot != ZERO ==> latestRoot in slots
      ensures latestRoot != ZERO && latestRoot !in HistorySlots(history, |history|) ==> slots[latestRoot] == header.slot
    {
      slots := BuildHistoricalRootSlots(history);
      if latestRoot != ZERO && latestRoot !in slots {
        slots := slots[latestRoot := header.slot];
      }
    }

    /** Writes the vote table back, when it was loaded at all. */
    method StoreVotes(votes: Option<VoteMap>, ghost s: StateValue) returns (failure: Option<Error>)
      requires Valid() && |validators| > 0 && WithoutTally(s)
      requires votes.Some? ==> ValidMap(votes.value, |validators|)
      modifies `voteRoots, `voteBits
      ensures Valid() && Reports(WithTally(s, old(TallyOf(votes))), failure, Value())
      ensures failure.Some? ==> Value() == old(Value())
    {
      failure := None;
      if votes.Some? {
        assert TableOf(votes.value).Keys == votes.value.Keys;
        var stored := EncodeJustificationVotes(votes.value, |validators|);
        SortedRootsElements(votes.value.Keys);
        if stored.None? {
          return Some(VoteBitmapLimit);
        }
        voteRoots := stored.value.0;
        voteBits := stored.value.1;
      }
    }

    /** This state agrees with `s` on everything the attestation loop leaves alone. */
    ghost predicate WithoutTally(s: StateValue)
      reads this
    {
      Value() == s.(justified := justified, finalized := finalized, justifiedSlots := BitsOf(justifiedSlots))
    }

    /** Every attestation of a block body, in order. */
    method ProcessAttestations(atts: seq<Attestation>) returns (failure: Option<Error>)
      requires Valid()
      modifies `justified, `finalized, `justifiedSlots, `voteRoots, `voteBits
      ensures Valid() && Reports(Transition.ProcessAttestations(h, old(Value()), atts), failure, Value())
      ensures failure.Some? ==> Value() == AttestationsResidue(h, old(Value()), atts)
    {
      if |validators| == 0 {
        return None;
      }
      if ZERO in voteRoots {
        return Some(ZeroVoteRoot);
      }
      var latestRoot := h.header(header);
      var slots := BuildRootSlots(latestRoot);
      ghost var before := Value();
      ghost var c := ContextOf(h, before);
      var votes: Option<VoteMap> := None;
      for k := 0 to |atts|
        invariant Valid() && Provides(c) && WithoutTally(before)
        invariant Steps(c, StartTally(before), atts[..k]) == Ok(TallyOf(votes))
        invariant votes.Some? ==> ValidMap(votes.value, |validators|)
      {
        assert atts[..k + 1][..k] == atts[..k];
        failure, votes := ProcessAttestation(atts[k], latestRoot, slots, votes, c);
        if failure.Some? {
          StepsFail(c, StartTally(before), atts, k + 1);
          return;
        }
      }
      assert atts[..|atts|] == atts;
      failure := StoreVotes(votes, before);
    }

    method ProcessBlockHeader(block: BlockHeader) returns (failure: Option<Error>)
      requires Valid()
      modifies `header, `justified, `finalized, `history, `justifiedSlots
      ensures Valid()
      ensures block.slot != slot ==> failure == Some(SlotMismatch) && Value() == old(Value())
      ensures block.slot == slot ==> Reports(ProcessHeader(h, old(Value()), block), failure, Value())
      ensures block.slot == slot && failure.Some? ==> Value() == HeaderResidue(h, old(Value()), block)
    {
      if block.slot != slot {
        return Some(SlotMismatch);
      }
      failure := ProcessBlockHeaderAssumingSlot(block);
    }

    /** Header, then body, for a block at the state's slot. */
    method ProcessBlock(block: Block) returns (failure: Option<Error>)
      requires Valid()
      modifies this
      ensures Valid()
      ensures block.slot != old(slot) ==> failure == Some(SlotMismatch) && Value() == old(Value())
      ensures block.slot == old(slot) ==> Reports(Transition.ProcessBlock(h, old(Value()), block), failure, Value())
      ensures block.slot == old(slot) && failure.Some? ==> Value() == BlockResidue(h, old(Value()), block)
    {
      failure := ProcessBlockHeader(HeaderOf(h, block));
      if failure.Some? {
        return;
      }
      failure := ProcessAttestations(block.attestations);
    }

    /** Slots, header, attestations and the check of the resulting state root. */
    method StateTransitionInner(block: Block) returns (failure: Option<Error>)
      requires Valid()
      modifies this
      ensures Valid() && Reports(StateTransition(h, old(Value()), block), failure, Value())
      ensures failure.Some? ==> Value() == TransitionResidue(h, old(Value()), block)
    {
      failure := ProcessSlots(block.slot);
      if failure.Some? {
        return;
      }
      failure := ProcessBlockHeaderAssumingSlot(HeaderOf(h, block));
      if failure.Some? {
        return;
      }
      failure := ProcessAttestations(block.attestations);
      if failure.Some? {
        return;
      }
      var computed := h.state(Value());
      if computed != block.stateRoot {
        return Some(StateRootMismatch);
      }
      header := header.(stateRoot := computed);
    }

    constructor Genesis(h: Hashes, genesisTime: nat, validators: seq<Validator>)
      ensures Valid() && this.h == h
      ensures Value() == GenesisState(h, genesisTime, validators)
      ensures this.genesisTime == genesisTime && this.validators == validators && slot == 0
      ensures justified == finalized == Checkpoint(ZERO, 0) && history == [] && voteRoots == []
      ensures BitsOf(justifiedSlots) == [] && BitsOf(voteBits) == []
      ensures header.(stateRoot := ZERO) == BlockHeader(0, 0, ZERO, ZERO, h.body([]))
      ensures header.stateRoot == h.state(Value().(header := header.(stateRoot := ZERO)))
    {
      this.h, this.genesisTime, this.validators := h, genesisTime, validators;
      slot := 0;
      header := BlockHeader(0, 0, ZERO, ZERO, h.body([]));
      justified, finalized := Checkpoint(ZERO, 0), Checkpoint(ZERO, 0);
      history, voteRoots := [], [];
      justifiedSlots, voteBits := BitList([], 0), BitList([], 0);
      new;
      assert BitsOf(justifiedSlots) == [];
      header := header.(stateRoot := h.state(Value()));
    }

    constructor Clone(from: State)
      requires from.Valid()
      ensures Valid() && h == from.h && genesisTime == from.genesisTime && validators == from.validators
      ensures Value() == from.Value()
    {
      h, genesisTime, validators := from.h, from.genesisTime, from.validators;
      slot, header, justified, finalized := from.slot, from.header, from.justified, from.finalized;
      history, justifiedSlots, voteRoots, voteBits := from.history, from.justifiedSlots, from.voteRoots, from.voteBits;
    }

    /** Takes over the fields of a copy of this state. */
    method Become(other: State)
      requires other.Valid() && other.genesisTime == genesisTime && other.validators == validators
      modifies this
      ensures Valid() && Value() == old(other.Value())
    {
      slot, header, justified, finalized := other.slot, other.header, other.justified, other.finalized;
      history, justifiedSlots := other.history, other.justifiedSlots;
      voteRoots, voteBits := other.voteRoots, other.voteBits;
    }

    /** Imports a signed block on a working copy: a rejected block leaves no trace. */
    method ProcessSignedBlock(signed: SignedBlock, verify: (SignedBlock, StateValue) -> bool)
      returns (failure: Option<Error>)
      requires Valid()
      modifies this
      ensures Valid()
      ensures failure.None? <==>
                && Envelope.WellFormed(signed)
                && verify(signed, old(Value()))
                && StateTransition(h, old(Value()), signed.block).Ok?
      ensures failure.None? ==> StateTransition(h, old(Value()), signed.block) == Ok(Value())
      ensures failure.Some? ==> Value() == old(Value())
    {
      var envelope := Envelope.ValidateBasic(signed);
      if envelope.Some? {
        return Some(InvalidEnvelope);
      }
      if !verify(signed, Value()) {
        return Some(InvalidSignature);
      }
      var working := new State.Clone(this);
      failure := working.StateTransitionInner(signed.block);
      if failure.None? {
        Become(working);
      }
    }
  }

  lemma StepsFail(c: Context, t: Tally, atts: seq<Attestation>, k: nat)
    requires k <= |atts| && Steps(c, t, atts[..k]).Err?
    ensures Steps(c, t, atts) == Steps(c, t, atts[..k])
    ensures StepsResidue(c, t, atts) == StepsResidue(c, t, atts[..k])
    decreases |atts|
  {
    if k < |atts| {
      assert atts[..|atts| - 1][..k] == atts[..k];
      StepsFail(c, t, atts[..|atts| - 1], k);
    } else {
      assert atts[..k] == atts;
    }
  }

  ghost predicate TallyReports(expected: Result<Tally, Error>, failure: Option<Error>, tally: Tally) {
    match expected
    case Ok(t) => failure.None? && tally == t
    case Err(e) => failure == Some(e)
  }

  /** The source is finalized when it comes right before the target; on a failure the
      checkpoints and the window have moved all the same. */
  ghost predicate SourceReports(slots: map<Root, nat>, t: Tally, source: Checkpoint, target: nat, failure: Option<Error>,
                                tally: Tally)
    requires t.votes.Some?
  {
    if IsNextJustifiable(source.slot, target, t.finalized.slot) then
      && source.slot >= t.finalized.slot
      && TallyReports(Transition.Finalized(slots, t, source), failure, tally)
      && tally.(votes := None) == Tally(t.justified, source, Shifted(t.window, source.slot - t.finalized.slot), None)
    else failure.None? && tally == t
  }

  ghost predicate AdoptReports(c: Context, t: Tally, att: Attestation, failure: Option<Error>, tally: Tally)
    requires Eligible(c, t, att.data)
  {
    match Adopted(c, t, att)
    case Ok(t') => failure.None? && tally == t'
    case Err(e) => failure == Some(e) && tally.(votes := None) == AdoptResidue(c, t, att)
  }

  lemma SourceAdopts(c: Context, t: Tally, att: Attestation, t1: Tally, failure: Option<Error>, tally: Tally)
    requires Eligible(c, t, att.data) && att.data.target.slot - t.finalized.slot - 1 < HISTORICAL_ROOTS_LIMIT
    requires t1 == JustifiedTally(c, t, att)
    requires SourceReports(c.slots, t1, att.data.source, att.data.target.slot, failure, tally)
    ensures AdoptReports(c, t, att, failure, tally)
  {
  }

  lemma LimitAdopts(c: Context, t: Tally, att: Attestation, tally: Tally)
    requires Eligible(c, t, att.data) && att.data.target.slot - t.finalized.slot - 1 >= HISTORICAL_ROOTS_LIMIT
    requires tally.(votes := None) == Tally(att.data.target, t.finalized, t.window, None)
    ensures AdoptReports(c, t, att, Some(JustifiedSlotLimit), tally)
  {
  }

  /** A method that reports no failure has produced the specified state. */
  ghost predicate Reports(expected: Transition.Outcome, failure: Option<Error>, value: StateValue) {
    match expected
    case Ok(s) => failure.None? && value == s
    case Err(e) => failure == Some(e)
  }
}

/** The structural checks on a signed block. */
module Envelope {
  import opened Containers
  import opened Bits

  datatype EnvelopeError = CountMismatch | ParticipantsMismatch(index: nat) | SlotMismatch | NotOneParticipant | WrongProposer

  /** The one participant of a bit list, if there is exactly one. */
  method SingleSetBit(bits: BitList) returns (found: Option<nat>)
    ensures found.Some? ==> Participants(bits) == {found.value}
    ensures found.None? ==> |Participants(bits)| != 1
  {
    found := None;
    for i := 0 to bits.len
      invariant found.None? ==> forall j: nat :: j < i ==> !BitIsSet(bits, j)
      invariant found.Some? ==>
                  found.value < i && forall j: nat :: j < i ==> BitIsSet(bits, j) == (j == found.value)
    {
      if i / 8 >= |bits.data| {
        break;
      }
      if TestBit(bits.data[i / 8], i % 8) {
        assert BitIsSet(bits, i);
        if found.Some? {
          TwoMembers(Participants(bits), found.value, i);
          return None;
        }
        found := Some(i);
      }
    }
    assert forall j: nat :: BitIsSet(bits, j) ==> j / 8 < |bits.data|;
    assert found.None? ==> Participants(bits) == {};
    assert found.Some? ==> Participants(bits) == {found.value};
  }

  lemma TwoMembers(s: set<nat>, a: nat, b: nat)
    requires a in s && b in s && a != b
    ensures |s| != 1
  {
    assert b in s - {a};
    assert |s| == 1 + |s - {a}|;
  }

  /** What the envelope of a block must satisfy: one proof per attestation with the
      same participants, and a single proposer vote for the block's own slot. */
  ghost predicate WellFormed(signed: SignedBlock) {
    && |signed.proofs| == |signed.block.attestations|
    && (forall i :: 0 <= i < |signed.proofs| ==> signed.proofs[i].participants == signed.block.attestations[i].bits)
    && signed.proposerAttestation.data.slot == signed.block.slot
    && Participants(signed.proposerAttestation.bits) == {signed.block.proposerIndex}
  }

  method ValidateBasic(signed: SignedBlock) returns (failure: Option<EnvelopeError>)
    ensures failure.None? <==> WellFormed(signed)
    ensures failure.None? <==>
            && |signed.proofs| == |signed.block.attestations|
            && (forall i :: 0 <= i < |signed.proofs| ==> signed.proofs[i].participants == signed.block.attestations[i].bits)
            && signed.proposerAttestation.data.slot == signed.block.slot
            && Participants(signed.proposerAttestation.bits) == {signed.block.proposerIndex}
  {
    if |signed.proofs| != |signed.block.attestations| {
      return Some(CountMismatch);
    }
    for i := 0 to |signed.proofs|
      invariant forall j :: 0 <= j < i ==> signed.proofs[j].participants == signed.block.attestations[j].bits
    {
      if signed.proofs[i].participants != signed.block.attestations[i].bits {
        return Some(ParticipantsMismatch(i));
      }
    }
    if signed.proposerAttestation.data.slot != signed.block.slot {
      return Some(SlotMismatch);
    }
    var bit := SingleSetBit(signed.proposerAttestation.bits);
    if bit.None? {
      return Some(NotOneParticipant);
    }
    if bit.value != signed.block.proposerIndex {
      assert signed.block.proposerIndex !in Participants(signed.proposerAttestation.bits);
      return Some(WrongProposer);
    }
    return None;
  }
}

/** Local block production. */
module Producer {
  import opened Containers
  import opened Bits
  import opened Aggregation
  import opened ForkChoice
  import Envelope
  import Transition
  import opened StateMachine
  import opened Seal

  const ATTESTATIONS_LIMIT: nat := 4_096

  datatype PendingBlockAttestation = PendingBlockAttestation(attestation: Attestation, proof: Option<Proof>)

  /** The pool of attestations waiting for a block. */
  class Pool {
    var entries: seq<PendingBlockAttestation>

    method Take() returns (drained: seq<PendingBlockAttestation>)
      modifies this
      ensures drained == old(entries) && entries == []
    {
      drained := entries;
      entries := [];
    }
  }

  /** The keys at hand: an aggregate proof for some participants, if they can all sign. */
  type Signer = (BitList, AttestationData) -> Option<seq<Byte>>

  /** An entry that still matters: its target is not below finality. */
  predicate Fresh(entry: PendingBlockAttestation, finalized: nat) {
    entry.attestation.data.target.slot >= finalized
  }

  /** An attestation next to its proof. */
  datatype Item = Item(attestation: Attestation, proof: Proof)

  /** The entries that come with a proof; the proof decides the participants. */
  ghost function Ready(entries: seq<PendingBlockAttestation>, finalized: nat): seq<Item> {
    if entries == [] then []
    else
      var last := entries[|entries| - 1];
      Ready(entries[..|entries| - 1], finalized)
      + if Fresh(last, finalized) && last.proof.Some?
        then [Item(Attestation(last.proof.value.participants, last.attestation.data), last.proof.value)] else []
  }

  /** The entries still to be aggregated. */
  ghost function Loose(entries: seq<PendingBlockAttestation>, finalized: nat): seq<Attestation> {
    if entries == [] then []
    else
      var last := entries[|entries| - 1];
      Loose(entries[..|entries| - 1], finalized)
      + if Fresh(last, finalized) && last.proof.None? then [last.attestation] else []
  }

  /** The aggregates that can be signed, with the proof for exactly their bits. */
  ghost function Signable(atts: seq<Attestation>, sign: Signer): seq<Item> {
    if atts == [] then []
    else
      var last := atts[|atts| - 1];
      Signable(atts[..|atts| - 1], sign)
      + if Participants(last.bits) != {} && sign(last.bits, last.data).Some?
        then [Item(last, Proof(last.bits, sign(last.bits, last.data).value))] else []
  }

  /** The first items, up to the limit; aggregates only fill what is left. */
  ghost function Chosen(ready: seq<Item>, aggregated: seq<Attestation>, sign: Signer): seq<Item> {
    if |ready| >= ATTESTATIONS_LIMIT then ready[..ATTESTATIONS_LIMIT]
    else
      var remaining := ATTESTATIONS_LIMIT - |ready|;
      ready + Signable(if |aggregated| > remaining then aggregated[..remaining] else aggregated, sign)
  }

  ghost function Payload(items: seq<Item>): seq<Attestation> {
    seq(|items|, i requires 0 <= i < |items| => items[i].attestation)
  }

  /** The unfinished block for `slot` on top of a state. */
  ghost function Draft(h: Hashes, s: StateValue, slot: nat, index: nat, atts: seq<Attestation>): Block {
    Block(slot, index, h.header(Transition.AdvancedTo(h, s, slot).header), ZERO, atts)
  }

  ghost function Items(atts: seq<Attestation>, proofs: seq<Proof>): seq<Item>
    requires |atts| == |proofs|
  {
    seq(|atts|, i requires 0 <= i < |atts| => Item(atts[i], proofs[i]))
  }

  /** `d` is the data of an entry that still matters. */
  ghost predicate Offered(entries: seq<PendingBlockAttestation>, finalized: nat, d: AttestationData) {
    exists i :: 0 <= i < |entries| && entries[i].attestation.data == d && Fresh(entries[i], finalized)
  }

  ghost predicate Proper(entries: seq<PendingBlockAttestation>, finalized: nat, item: Item) {
    item.proof.participants == item.attestation.bits && Offered(entries, finalized, item.attestation.data)
  }

  lemma OfferedPrefix(entries: seq<PendingBlockAttestation>, finalized: nat, d: AttestationData)
    requires entries != []
    ensures Offered(entries[..|entries| - 1], finalized, d) ==> Offered(entries, finalized, d)
    ensures Fresh(entries[|entries| - 1], finalized) ==> Offered(entries, finalized, entries[|entries| - 1].attestation.data)
  {
    var init := entries[..|entries| - 1];
    if i :| 0 <= i < |init| && init[i].attestation.data == d && Fresh(init[i], finalized) {
      assert entries[i] == init[i];
    }
  }

  lemma {:induction false} ReadyProper(entries: seq<PendingBlockAttestation>, finalized: nat)
    ensures forall item :: item in Ready(entries, finalized) ==> Proper(entries, finalized, item)
    ensures forall att :: att in Loose(entries, finalized) ==> Offered(entries, finalized, att.data)
  {
    if entries != [] {
      var init := entries[..|entries| - 1];
      ReadyProper(init, finalized);
      forall d {
        OfferedPrefix(entries, finalized, d);
      }
    }
  }

  lemma {:induction false} SignableProper(atts: seq<Attestation>, sign: Signer)
    ensures |Signable(atts, sign)| <= |atts|
    ensures forall item :: item in Signable(atts, sign) ==>
              item.proof.participants == item.attestation.bits && item.attestation in atts
  {
    if atts != [] {
      SignableProper(atts[..|atts| - 1], sign);
    }
  }

  /** The choice respects the limit, pairs every attestation with a proof for the same
      bits, and offers nothing stale. */
  lemma ChosenProper(entries: seq<PendingBlockAttestation>, finalized: nat, aggregated: seq<Attestation>, sign: Signer)
    requires |Ready(entries, finalized)| < ATTESTATIONS_LIMIT ==> Aggregates(Loose(entries, finalized), aggregated)
    ensures var chosen := Chosen(Ready(entries, finalized), aggregated, sign);
            && |chosen| <= ATTESTATIONS_LIMIT
            && (forall item :: item in chosen ==> Proper(entries, finalized, item))
  {
    ReadyProper(entries, finalized);
    var ready, loose := Ready(entries, finalized), Loose(entries, finalized);
    if |ready| < ATTESTATIONS_LIMIT {
      var remaining := ATTESTATIONS_LIMIT - |ready|;
      var taken := if |aggregated| > remaining then aggregated[..remaining] else aggregated;
      SignableProper(taken, sign);
      AggregatesOffered(entries, finalized, aggregated);
      assert forall att :: att in taken ==> att in aggregated;
    }
  }

  lemma AggregatesOffered(entries: seq<PendingBlockAttestation>, finalized: nat, aggregated: seq<Attestation>)
    requires Aggregates(Loose(entries, finalized), aggregated)
    ensures forall att :: att in aggregated ==> Offered(entries, finalized, att.data)
  {
    ReadyProper(entries, finalized);
    var loose := Loose(entries, finalized);
    forall att | att in aggregated
      ensures Offered(entries, finalized, att.data)
    {
      var i :| 0 <= i < |aggregated| && aggregated[i] == att;
      assert Signed(loose, aggregated[i].data);
      var j :| 0 <= j < |loose| && loose[j].data == att.data;
      assert loose[j] in loose;
    }
  }

  // -------------------------------------------------------- what a payload carries

  /** Entry `i` still matters and comes with a proof. */
  ghost predicate WithProof(entries: seq<PendingBlockAttestation>, finalized: nat, i: nat) {
    i < |entries| && entries[i].attestation.data.target.slot >= finalized && entries[i].proof.Some?
  }

  ghost predicate WithoutProof(entries: seq<PendingBlockAttestation>, finalized: nat, i: nat) {
    i < |entries| && entries[i].attestation.data.target.slot >= finalized && entries[i].proof.None?
  }

  /** The entries with a proof before entry `k`. */
  ghost function ProvenBefore(entries: seq<PendingBlockAttestation>, finalized: nat, k: nat): set<nat> {
    set i: nat | i < k && WithProof(entries, finalized, i)
  }

  /** The different data that still have to be aggregated. */
  ghost function LooseData(entries: seq<PendingBlockAttestation>, finalized: nat): set<AttestationData> {
    set i: nat | i < |entries| && WithoutProof(entries, finalized, i) :: entries[i].attestation.data
  }

  /** Everyone who signed such data. */
  ghost function SignersFor(entries: seq<PendingBlockAttestation>, finalized: nat, d: AttestationData): set<nat> {
    set i: nat, v: nat | i < |entries| && v in Participants(entries[i].attestation.bits)
                         && WithoutProof(entries, finalized, i) && entries[i].attestation.data == d :: v
  }

  /** The entries with a proof come first, in order, each with its proof. */
  ghost predicate CarriesProofs(entries: seq<PendingBlockAttestation>, finalized: nat, items: seq<Item>) {
    forall i: nat :: WithProof(entries, finalized, i) ==>
      var k := |ProvenBefore(entries, finalized, i)|;
      k < ATTESTATIONS_LIMIT ==>
        && k < |items| && items[k].proof == entries[i].proof.value
        && items[k].attestation == Attestation(entries[i].proof.value.participants, entries[i].attestation.data)
  }

  /** The keys at hand sign for these voters, however their bits are written. */
  ghost predicate KeysSign(sign: Signer, d: AttestationData, voters: set<nat>) {
    forall bits :: Canonical(bits) && Participants(bits) == voters ==> sign(bits, d).Some?
  }

  /** An attestation for `d` by exactly those who signed it, with the proof signed for it. */
  ghost predicate SignedTogether(entries: seq<PendingBlockAttestation>, finalized: nat, sign: Signer, d: AttestationData,
                                 item: Item) {
    && item.attestation.data == d && Participants(item.attestation.bits) == SignersFor(entries, finalized, d) != {}
    && sign(item.attestation.bits, d).Some?
    && item.proof == Proof(item.attestation.bits, sign(item.attestation.bits, d).value)
  }

  /** As long as everything fits, all other data are there too, if they can be signed. */
  ghost predicate CarriesRest(entries: seq<PendingBlockAttestation>, finalized: nat, sign: Signer, items: seq<Item>) {
    |ProvenBefore(entries, finalized, |entries|)| + |LooseData(entries, finalized)| <= ATTESTATIONS_LIMIT ==>
      forall i: nat :: WithoutProof(entries, finalized, i) ==>
        var d := entries[i].attestation.data;
        SignersFor(entries, finalized, d) != {} && KeysSign(sign, d, SignersFor(entries, finalized, d)) ==>
          exists item :: item in items && SignedTogether(entries, finalized, sign, d, item)
  }

  /** And nothing else is. */
  ghost predicate CarriesOnly(entries: seq<PendingBlockAttestation>, finalized: nat, sign: Signer, items: seq<Item>) {
    && |items| <= ATTESTATIONS_LIMIT
    && forall item :: item in items ==>
         || SignedTogether(entries, finalized, sign, item.attestation.data, item)
         || exists i: nat ::
              && WithProof(entries, finalized, i) && item.proof == entries[i].proof.value
              && item.attestation == Attestation(entries[i].proof.value.participants, entries[i].attestation.data)
  }

  /** All of this. Sealed. */
  ghost predicate Carries(entries: seq<PendingBlockAttestation>, finalized: nat, sign: Signer, items: seq<Item>) {
    forall k: int :: Opens(k) ==>
      && CarriesProofs(entries, finalized, items)
      && CarriesRest(entries, finalized, sign, items)
      && CarriesOnly(entries, finalized, sign, items)
  }

  lemma ProvenInit(entries: seq<PendingBlockAttestation>, finalized: nat, k: nat)
    requires entries != [] && k < |entries|
    ensures ProvenBefore(entries[..|entries| - 1], finalized, k) == ProvenBefore(entries, finalized, k)
  {
  }

  lemma ProvenAll(entries: seq<PendingBlockAttestation>, finalized: nat)
    requires entries != []
    ensures var k := |entries| - 1;
            |ProvenBefore(entries, finalized, |entries|)| ==
            |ProvenBefore(entries, finalized, k)| + if WithProof(entries, finalized, k) then 1 else 0
  {
    var k := |entries| - 1;
    assert ProvenBefore(entries, finalized, |entries|) ==
           ProvenBefore(entries, finalized, k) + if WithProof(entries, finalized, k) then {k} else {};
  }

  lemma {:induction false} ReadyCounts(entries: seq<PendingBlockAttestation>, finalized: nat)
    ensures |Ready(entries, finalized)| == |ProvenBefore(entries, finalized, |entries|)|
  {
    if entries == [] {
      assert ProvenBefore(entries, finalized, 0) == {};
    } else {
      ReadyCounts(entries[..|entries| - 1], finalized);
      ProvenInit(entries, finalized, |entries| - 1);
      ProvenAll(entries, finalized);
    }
  }

  /** The item of an entry with a proof. */
  ghost function ItemOf(entry: PendingBlockAttestation): Item
    requires entry.proof.Some?
  {
    Item(Attestation(entry.proof.value.participants, entry.attestation.data), entry.proof.value)
  }

  lemma {:induction false} ReadyAt(entries: seq<PendingBlockAttestation>, finalized: nat, i: nat)
    requires WithProof(entries, finalized, i)
    ensures var k := |ProvenBefore(entries, finalized, i)|;
            k < |Ready(entries, finalized)| && Ready(entries, finalized)[k] == ItemOf(entries[i])
  {
    var init := entries[..|entries| - 1];
    ProvenInit(entries, finalized, i);
    if i < |init| {
      ReadyAt(init, finalized, i);
    } else {
      ReadyCounts(init, finalized);
    }
  }

  lemma {:induction false} ReadyFrom(entries: seq<PendingBlockAttestation>, finalized: nat, item: Item) returns (i: nat)
    requires item in Ready(entries, finalized)
    ensures WithProof(entries, finalized, i) && item == ItemOf(entries[i])
  {
    var init := entries[..|entries| - 1];
    if item in Ready(init, finalized) {
      i := ReadyFrom(init, finalized, item);
    } else {
      i := |init|;
    }
  }

  lemma {:induction false} LooseFrom(entries: seq<PendingBlockAttestation>, finalized: nat, att: Attestation) returns (i: nat)
    requires att in Loose(entries, finalized)
    ensures WithoutProof(entries, finalized, i) && att == entries[i].attestation
  {
    var init := entries[..|entries| - 1];
    if att in Loose(init, finalized) {
      i := LooseFrom(init, finalized, att);
    } else {
      i := |init|;
    }
  }

  lemma {:induction false} LooseHolds(entries: seq<PendingBlockAttestation>, finalized: nat, i: nat)
    requires WithoutProof(entries, finalized, i)
    ensures entries[i].attestation in Loose(entries, finalized)
  {
    if i < |entries| - 1 {
      LooseHolds(entries[..|entries| - 1], finalized, i);
    }
  }

  lemma LooseSigners(entries: seq<PendingBlockAttestation>, finalized: nat, d: AttestationData)
    ensures Signers(Loose(entries, finalized), d) == SignersFor(entries, finalized, d)
  {
    var loose := Loose(entries, finalized);
    forall v: nat
      ensures v in Signers(loose, d) <==> v in SignersFor(entries, finalized, d)
    {
      SignerSigned(loose, d, v);
      if v in Signers(loose, d) {
        var j :| 0 <= j < |loose| && loose[j].data == d && v in Participants(loose[j].bits);
        var i := LooseFrom(entries, finalized, loose[j]);
      }
      if v in SignersFor(entries, finalized, d) {
        var i: nat :| i < |entries| && v in Participants(entries[i].attestation.bits)
                      && WithoutProof(entries, finalized, i) && entries[i].attestation.data == d;
        LooseHolds(entries, finalized, i);
      }
    }
  }

  /** The data of some attestations. */
  ghost function DataOf(atts: seq<Attestation>): set<AttestationData> {
    set i | 0 <= i < |atts| :: atts[i].data
  }

  lemma {:induction false} DistinctData(atts: seq<Attestation>)
    requires forall i, j :: 0 <= i < j < |atts| ==> atts[i].data != atts[j].data
    ensures |DataOf(atts)| == |atts|
  {
    if atts == [] {
      assert DataOf(atts) == {};
    } else {
      var init := atts[..|atts| - 1];
      DistinctData(init);
      assert DataOf(atts) == DataOf(init) + {atts[|atts| - 1].data};
    }
  }

  lemma AggregateCount(entries: seq<PendingBlockAttestation>, finalized: nat, aggregated: seq<Attestation>)
    requires Aggregates(Loose(entries, finalized), aggregated)
    ensures |aggregated| == |LooseData(entries, finalized)|
  {
    DistinctData(aggregated);
    var loose := Loose(entries, finalized);
    forall d
      ensures d in DataOf(aggregated) <==> d in LooseData(entries, finalized)
    {
      if d in DataOf(aggregated) {
        assert Signed(loose, d);
        var j :| 0 <= j < |loose| && loose[j].data == d;
        var i := LooseFrom(entries, finalized, loose[j]);
      }
      if d in LooseData(entries, finalized) {
        var i: nat :| i < |entries| && WithoutProof(entries, finalized, i) && entries[i].attestation.data == d;
        LooseHolds(entries, finalized, i);
        assert Signed(aggregated, d);
      }
    }
    assert DataOf(aggregated) == LooseData(entries, finalized);
  }

  lemma {:induction false} SignableHolds(atts: seq<Attestation>, sign: Signer, att: Attestation)
    requires att in atts && Participants(att.bits) != {} && sign(att.bits, att.data).Some?
    ensures Item(att, Proof(att.bits, sign(att.bits, att.data).value)) in Signable(atts, sign)
  {
    if att in atts[..|atts| - 1] {
      SignableHolds(atts[..|atts| - 1], sign, att);
    }
  }

  lemma {:induction false} SignableFrom(atts: seq<Attestation>, sign: Signer, item: Item)
    requires item in Signable(atts, sign)
    ensures item.attestation in atts && Participants(item.attestation.bits) != {}
    ensures sign(item.attestation.bits, item.attestation.data).Some?
    ensures item.proof == Proof(item.attestation.bits, sign(item.attestation.bits, item.attestation.data).value)
  {
    if item in Signable(atts[..|atts| - 1], sign) {
      SignableFrom(atts[..|atts| - 1], sign, item);
    }
  }

  lemma AggregateTogether(entries: seq<PendingBlockAttestation>, finalized: nat, aggregated: seq<Attestation>, sign: Signer,
                          item: Item)
    requires Aggregates(Loose(entries, finalized), aggregated) && item in Signable(aggregated, sign)
    ensures SignedTogether(entries, finalized, sign, item.attestation.data, item)
  {
    SignableFrom(aggregated, sign, item);
    LooseSigners(entries, finalized, item.attestation.data);
  }

  lemma ChosenProofs(entries: seq<PendingBlockAttestation>, finalized: nat, aggregated: seq<Attestation>, sign: Signer)
    ensures CarriesProofs(entries, finalized, Chosen(Ready(entries, finalized), aggregated, sign))
  {
    var items := Chosen(Ready(entries, finalized), aggregated, sign);
    forall i: nat | WithProof(entries, finalized, i) && |ProvenBefore(entries, finalized, i)| < ATTESTATIONS_LIMIT
      ensures |ProvenBefore(entries, finalized, i)| < |items|
      ensures items[|ProvenBefore(entries, finalized, i)|] == ItemOf(entries[i])
    {
      ReadyAt(entries, finalized, i);
    }
  }

  lemma ChosenRest(entries: seq<PendingBlockAttestation>, finalized: nat, aggregated: seq<Attestation>, sign: Signer)
    requires |Ready(entries, finalized)| < ATTESTATIONS_LIMIT ==> Aggregates(Loose(entries, finalized), aggregated)
    ensures CarriesRest(entries, finalized, sign, Chosen(Ready(entries, finalized), aggregated, sign))
  {
    ReadyCounts(entries, finalized);
    forall i: nat | && WithoutProof(entries, finalized, i)
                    && |ProvenBefore(entries, finalized, |entries|)| + |LooseData(entries, finalized)| <= ATTESTATIONS_LIMIT
                    && SignersFor(entries, finalized, entries[i].attestation.data) != {}
                    && KeysSign(sign, entries[i].attestation.data, SignersFor(entries, finalized, entries[i].attestation.data))
      ensures exists item :: item in Chosen(Ready(entries, finalized), aggregated, sign)
                             && SignedTogether(entries, finalized, sign, entries[i].attestation.data, item)
    {
      var item := RestItem(entries, finalized, aggregated, sign, i);
    }
  }

  lemma RestItem(entries: seq<PendingBlockAttestation>, finalized: nat, aggregated: seq<Attestation>, sign: Signer, i: nat)
    returns (item: Item)
    requires |Ready(entries, finalized)| < ATTESTATIONS_LIMIT ==> Aggregates(Loose(entries, finalized), aggregated)
    requires |Ready(entries, finalized)| + |LooseData(entries, finalized)| <= ATTESTATIONS_LIMIT
    requires WithoutProof(entries, finalized, i)
    requires var d := entries[i].attestation.data;
             SignersFor(entries, finalized, d) != {} && KeysSign(sign, d, SignersFor(entries, finalized, d))
    ensures item in Chosen(Ready(entries, finalized), aggregated, sign)
    ensures SignedTogether(entries, finalized, sign, entries[i].attestation.data, item)
  {
    var d, loose := entries[i].attestation.data, Loose(entries, finalized);
    assert d in LooseData(entries, finalized);
    AggregateCount(entries, finalized, aggregated);
    LooseHolds(entries, finalized, i);
    LooseSigners(entries, finalized, d);
    assert Signed(aggregated, d);
    var j :| 0 <= j < |aggregated| && aggregated[j].data == d;
    item := Item(aggregated[j], Proof(aggregated[j].bits, sign(aggregated[j].bits, d).value));
    SignableHolds(aggregated, sign, aggregated[j]);
  }

  lemma ChosenOnly(entries: seq<PendingBlockAttestation>, finalized: nat, aggregated: seq<Attestation>, sign: Signer)
    requires |Ready(entries, finalized)| < ATTESTATIONS_LIMIT ==> Aggregates(Loose(entries, finalized), aggregated)
    ensures CarriesOnly(entries, finalized, sign, Chosen(Ready(entries, finalized), aggregated, sign))
  {
    ChosenProper(entries, finalized, aggregated, sign);
    var ready, items := Ready(entries, finalized), Chosen(Ready(entries, finalized), aggregated, sign);
    forall item | item in items && !SignedTogether(entries, finalized, sign, item.attestation.data, item)
      ensures exists i: nat :: WithProof(entries, finalized, i) && item == ItemOf(entries[i])
    {
      if item in ready {
        var i := ReadyFrom(entries, finalized, item);
      } else {
        ChosenSignable(ready, aggregated, sign, item);
        AggregateTogether(entries, finalized, aggregated, sign, item);
      }
    }
  }

  lemma {:induction false} SignablePrefix(atts: seq<Attestation>, sign: Signer, k: nat, item: Item)
    requires k <= |atts| && item in Signable(atts[..k], sign)
    ensures item in Signable(atts, sign)
  {
    SignableFrom(atts[..k], sign, item);
    SignableHolds(atts, sign, item.attestation);
  }

  lemma ChosenSignable(ready: seq<Item>, aggregated: seq<Attestation>, sign: Signer, item: Item)
    requires item in Chosen(ready, aggregated, sign) && item !in ready
    ensures |ready| < ATTESTATIONS_LIMIT && item in Signable(aggregated, sign)
  {
    if |ready| < ATTESTATIONS_LIMIT && |aggregated| > ATTESTATIONS_LIMIT - |ready| {
      SignablePrefix(aggregated, sign, ATTESTATIONS_LIMIT - |ready|, item);
    }
  }

  /** Entries with a proof go straight to the block; the others are left to aggregate. */
  method SplitEntries(drained: seq<PendingBlockAttestation>, finalized: nat)
    returns (atts: seq<Attestation>, proofs: seq<Proof>, unaggregated: seq<Attestation>)
    requires forall i :: 0 <= i < |drained| ==> Canonical(drained[i].attestation.bits)
    ensures |atts| == |proofs| && Items(atts, proofs) == Ready(drained, finalized)
    ensures unaggregated == Loose(drained, finalized)
    ensures forall i :: 0 <= i < |unaggregated| ==> Canonical(unaggregated[i].bits)
  {
    atts, proofs, unaggregated := [], [], [];
    for k := 0 to |drained|
      invariant |atts| == |proofs| && Items(atts, proofs) == Ready(drained[..k], finalized)
      invariant unaggregated == Loose(drained[..k], finalized)
      invariant forall i :: 0 <= i < |unaggregated| ==> Canonical(unaggregated[i].bits)
    {
      assert drained[..k + 1][..k] == drained[..k];
      var entry := drained[k];
      if Fresh(entry, finalized) {
        if entry.proof.Some? {
          var attestation := entry.attestation;
          if attestation.bits != entry.proof.value.participants {
            attestation := attestation.(bits := entry.proof.value.participants);
          }
          ItemsMore(atts, proofs, attestation, entry.proof.value);
          atts := atts + [attestation];
          proofs := proofs + [entry.proof.value];
        } else {
          unaggregated := unaggregated + [entry.attestation];
        }
      }
    }
    assert drained[..|drained|] == drained;
  }

  lemma ItemsMore(atts: seq<Attestation>, proofs: seq<Proof>, att: Attestation, proof: Proof)
    requires |atts| == |proofs|
    ensures Items(atts + [att], proofs + [proof]) == Items(atts, proofs) + [Item(att, proof)]
  {
  }

  lemma PayloadOfItems(atts: seq<Attestation>, proofs: seq<Proof>)
    requires |atts| == |proofs|
    ensures Payload(Items(atts, proofs)) == atts
  {
  }

  /** Signs what can be signed of the aggregates. */
  method AppendSigned(atts: seq<Attestation>, proofs: seq<Proof>, aggregated: seq<Attestation>, sign: Signer)
    returns (atts': seq<Attestation>, proofs': seq<Proof>)
    requires |atts| == |proofs|
    ensures |atts'| == |proofs'| && Items(atts', proofs') == Items(atts, proofs) + Signable(aggregated, sign)
  {
    atts', proofs' := atts, proofs;
    for k := 0 to |aggregated|
      invariant |atts'| == |proofs'| && Items(atts', proofs') == Items(atts, proofs) + Signable(aggregated[..k], sign)
    {
      assert aggregated[..k + 1][..k] == aggregated[..k];
      var attestation := aggregated[k];
      var participants := BitlistIndices(attestation.bits);
      if participants == [] {
        assert Participants(attestation.bits) == {};
      } else {
        assert participants[0] in Participants(attestation.bits);
        var proof := sign(attestation.bits, attestation.data);
        if proof.Some? {
          ItemsMore(atts', proofs', attestation, Proof(attestation.bits, proof.value));
          proofs' := proofs' + [Proof(attestation.bits, proof.value)];
          atts' := atts' + [attestation];
        }
      }
    }
    assert aggregated[..|aggregated|] == aggregated;
  }

  /** Drains the pool and chooses from it. */
  method ChoosePayload(h: Hashes, finalized: nat, pool: Pool, sign: Signer)
    returns (atts: seq<Attestation>, proofs: seq<Proof>, ghost aggregated: seq<Attestation>)
    requires InjectiveData(h)
    requires forall i :: 0 <= i < |pool.entries| ==> Canonical(pool.entries[i].attestation.bits)
    modifies pool
    ensures pool.entries == [] && |atts| == |proofs|
    ensures |Ready(old(pool.entries), finalized)| < ATTESTATIONS_LIMIT ==>
              Aggregates(Loose(old(pool.entries), finalized), aggregated)
    ensures Items(atts, proofs) == Chosen(Ready(old(pool.entries), finalized), aggregated, sign)
  {
    var drained := pool.Take();
    var unaggregated;
    atts, proofs, unaggregated := SplitEntries(drained, finalized);
    aggregated := [];
    if |atts| >= ATTESTATIONS_LIMIT {
      assert Items(atts[..ATTESTATIONS_LIMIT], proofs[..ATTESTATIONS_LIMIT]) == Items(atts, proofs)[..ATTESTATIONS_LIMIT];
      atts, proofs := atts[..ATTESTATIONS_LIMIT], proofs[..ATTESTATIONS_LIMIT];
      return;
    }
    var remaining := ATTESTATIONS_LIMIT - |atts|;
    var grouped := AggregateAttestations(h, unaggregated);
    aggregated := grouped;
    var taken := if |grouped| > remaining then grouped[..remaining] else grouped;
    atts, proofs := AppendSigned(atts, proofs, taken, sign);
  }

  /** What goes into the block. */
  method BuildBlockAttestationPayload(h: Hashes, finalized: nat, pool: Pool, sign: Signer)
    returns (atts: seq<Attestation>, proofs: seq<Proof>, ghost aggregated: seq<Attestation>)
    requires InjectiveData(h)
    requires forall i :: 0 <= i < |pool.entries| ==> Canonical(pool.entries[i].attestation.bits)
    modifies pool
    ensures pool.entries == [] && |atts| == |proofs|
    ensures |Ready(old(pool.entries), finalized)| < ATTESTATIONS_LIMIT ==>
              Aggregates(Loose(old(pool.entries), finalized), aggregated)
    ensures Items(atts, proofs) == Chosen(Ready(old(pool.entries), finalized), aggregated, sign)
    ensures Carries(old(pool.entries), finalized, sign, Items(atts, proofs))
  {
    atts, proofs, aggregated := ChoosePayload(h, finalized, pool, sign);
    ChosenProofs(old(pool.entries), finalized, aggregated, sign);
    ChosenRest(old(pool.entries), finalized, aggregated, sign);
    ChosenOnly(old(pool.entries), finalized, aggregated, sign);
  }

  // ------------------------------------------------------------------ the block

  /** A bit list of length `index + 1` with only the last bit set. */
  method SingleBit(index: nat) returns (bits: BitList)
    ensures Canonical(bits) && Participants(bits) == {index}
  {
    var len := index + 1;
    bits := BitList(SetBit(Zeros(ByteCount(len)), index), len);
    forall j: nat
      ensures DataBit(bits.data, j) <==> j == index
    {
      SetBitAt(Zeros(ByteCount(len)), index, j);
      ZerosAt(ByteCount(len), j);
    }
    SetBitAt(Zeros(ByteCount(len)), index, index);
  }

  /** The state root in a block has no influence on processing its header. */
  lemma HeaderIgnoresStateRoot(h: Hashes, s: StateValue, block: Block, root: Root)
    ensures Transition.ProcessBlock(h, s, block.(stateRoot := root)) == Transition.ProcessBlock(h, s, block)
  {
    var a, b := HeaderOf(h, block.(stateRoot := root)), HeaderOf(h, block);
    assert a.(stateRoot := ZERO) == b.(stateRoot := ZERO);
    assert Transition.ProcessHeader(h, s, a) == Transition.ProcessHeader(h, s, b);
  }

  /** The checkpoints a proposer votes for. */
  datatype Vote = Vote(head: Checkpoint, target: Checkpoint, source: Checkpoint)

  /** What the proposer of a block votes for: the block itself and the justified checkpoint
      of its post-state, or whatever the preview says. */
  ghost function ProposerVote(h: Hashes, block: Block, post: StateValue, preview: Option<(Block, StateValue) -> Option<Vote>>)
    : Option<Vote>
  {
    if preview.Some? then preview.value(block, post)
    else Some(Vote(Checkpoint(BlockRoot(h, block), block.slot), post.justified, post.justified))
  }

  /** The proposer's attestation carries exactly that vote, of exactly that validator. */
  ghost predicate SignsFor(h: Hashes, signed: SignedBlock, post: StateValue,
                           preview: Option<(Block, StateValue) -> Option<Vote>>, index: nat) {
    var vote := ProposerVote(h, signed.block, post, preview);
    && vote.Some? && Participants(signed.proposerAttestation.bits) == {index}
    && signed.proposerAttestation.data == AttestationData(signed.block.slot, vote.value.head, vote.value.target, vote.value.source)
  }

  /** The parent of a block at `slot`: the root of the header once slots have passed. */
  method ParentRoot(pre: State, slot: nat) returns (root: Root)
    requires pre.Valid()
    ensures root == pre.h.header(Transition.AdvancedTo(pre.h, pre.Value(), slot).header)
  {
    var temp := new State.Clone(pre);
    if slot > temp.slot {
      var _ := temp.ProcessSlots(slot);
    }
    root := temp.h.header(temp.header);
  }

  lemma {:induction false} AdvancedReaches(h: Hashes, s: StateValue, target: nat)
    ensures Transition.AdvancedTo(h, s, target).slot == if s.slot < target then target else s.slot
    decreases target - s.slot
  {
    if s.slot < target {
      AdvancedReaches(h, Transition.SlotStep(h, s), target);
    }
  }

  /** Runs an unfinished block on a copy of the state and fills in its state root. */
  method CompleteBlock(pre: State, block: Block) returns (r: Option<(Block, State)>)
    requires pre.Valid()
    ensures r.Some? ==>
              && fresh(r.value.1) && r.value.1.h == pre.h && r.value.1.Valid()
              && r.value.0 == block.(stateRoot := r.value.0.stateRoot)
              && (Transition.StateTransition(pre.h, pre.Value(), r.value.0) ==
                  if pre.slot < block.slot then Ok(r.value.1.Value()) else Err(Transition.SlotNotInFuture))
    ensures r.Some? <==>
              && pre.slot <= block.slot
              && Transition.ProcessBlock(pre.h, Transition.AdvancedTo(pre.h, pre.Value(), block.slot), block).Ok?
  {
    AdvancedReaches(pre.h, pre.Value(), block.slot);
    var post := new State.Clone(pre);
    if block.slot > post.slot {
      var failure := post.ProcessSlots(block.slot);
      if failure.Some? {
        r := None;
        return;
      }
    }
    ghost var staged := post.Value();
    var failure := post.ProcessBlock(block);
    if failure.Some? {
      r := None;
      return;
    }
    var stateRoot := post.h.state(post.Value());
    HeaderIgnoresStateRoot(pre.h, staged, block, stateRoot);
    post.header := post.header.(stateRoot := stateRoot);
    r := Some((block.(stateRoot := stateRoot), post));
  }

  lemma ItemsProper(entries: seq<PendingBlockAttestation>, finalized: nat, aggregated: seq<Attestation>, sign: Signer,
                    atts: seq<Attestation>, proofs: seq<Proof>)
    requires |Ready(entries, finalized)| < ATTESTATIONS_LIMIT ==> Aggregates(Loose(entries, finalized), aggregated)
    requires |atts| == |proofs|
    requires Items(atts, proofs) == Chosen(Ready(entries, finalized), aggregated, sign)
    ensures |atts| <= ATTESTATIONS_LIMIT
    ensures forall i :: 0 <= i < |atts| ==>
              proofs[i].participants == atts[i].bits && Offered(entries, finalized, atts[i].data)
  {
    ChosenProper(entries, finalized, aggregated, sign);
    forall i | 0 <= i < |atts|
      ensures proofs[i].participants == atts[i].bits && Offered(entries, finalized, atts[i].data)
    {
      var items := Items(atts, proofs);
      assert items[i] in items;
      assert Proper(entries, finalized, items[i]);
    }
  }

  /** Builds and signs a block for `slot`. Whatever comes out passes the structural
      checks, and the state it comes with is exactly what importing the block from the
      pre-state gives, provided the pre-state is before the block's slot. With the keys
      at hand, a block comes out exactly when its draft can be processed. */
  method ProduceBlockWithSignatures(pre: State, slot: nat, index: nat, pool: Pool, sign: Signer,
                                    signProposer: AttestationData -> Option<seq<Byte>>,
                                    preview: Option<(Block, StateValue) -> Option<Vote>>)
    returns (r: Option<(SignedBlock, State)>, ghost aggregated: seq<Attestation>, ghost draft: Block)
    requires pre.Valid() && InjectiveData(pre.h)
    requires forall i :: 0 <= i < |pool.entries| ==> Canonical(pool.entries[i].attestation.bits)
    modifies pool
    ensures pool.entries == []
    ensures |Ready(old(pool.entries), pre.finalized.slot)| < ATTESTATIONS_LIMIT ==>
              Aggregates(Loose(old(pool.entries), pre.finalized.slot), aggregated)
    ensures draft == Draft(pre.h, pre.Value(), slot, index,
                           Payload(Chosen(Ready(old(pool.entries), pre.finalized.slot), aggregated, sign)))
    ensures r.Some? ==>
              var (signed, post) := r.value;
              && signed.block.slot == slot && signed.block.proposerIndex == index
              && Envelope.WellFormed(signed)
              && |signed.block.attestations| <= ATTESTATIONS_LIMIT
              && Items(signed.block.attestations, signed.proofs) ==
                 Chosen(Ready(old(pool.entries), pre.finalized.slot), aggregated, sign)
              && Carries(old(pool.entries), pre.finalized.slot, sign, Items(signed.block.attestations, signed.proofs))
              && post.Valid()
              && (Transition.StateTransition(pre.h, pre.Value(), signed.block) ==
                  if pre.slot < slot then Ok(post.Value()) else Err(Transition.SlotNotInFuture))
              && signed.block == draft.(stateRoot := signed.block.stateRoot)
              && SignsFor(pre.h, signed, post.Value(), preview, index)
              && signProposer(signed.proposerAttestation.data) == Some(signed.proposerSignature)
              && Participants(signed.proposerAttestation.bits) == {index}
              && (preview.None? ==>
                    signed.proposerAttestation.data ==
                    AttestationData(slot, Checkpoint(BlockRoot(pre.h, signed.block), slot), post.justified, post.justified))
    ensures preview.None? && index < VALIDATOR_REGISTRY_LIMIT && (forall d :: signProposer(d).Some?) ==>
              (r.Some? <==>
               && pre.slot <= slot
               && Transition.ProcessBlock(pre.h, Transition.AdvancedTo(pre.h, pre.Value(), slot), draft).Ok?)
  {
    var parentRoot := ParentRoot(pre, slot);
    var atts, proofs;
    atts, proofs, aggregated := BuildBlockAttestationPayload(pre.h, pre.finalized.slot, pool, sign);
    ItemsProper(old(pool.entries), pre.finalized.slot, aggregated, sign, atts, proofs);
    PayloadOfItems(atts, proofs);
    var unfinished := Block(slot, index, parentRoot, ZERO, atts);
    draft := unfinished;
    var completed := CompleteBlock(pre, unfinished);
    if completed.None? {
      r := None;
      return;
    }
    var (block, post) := completed.value;
    var vote := Vote(Checkpoint(BlockRoot(pre.h, block), slot), post.justified, post.justified);
    if preview.Some? {
      var previewed := preview.value(block, post.Value());
      if previewed.None? {
        r := None;
        return;
      }
      vote := previewed.value;
    }
    if index + 1 > VALIDATOR_REGISTRY_LIMIT {
      r := None;
      return;
    }
    var bits := SingleBit(index);
    var data := AttestationData(slot, vote.head, vote.target, vote.source);
    var signature := signProposer(data);
    if signature.None? {
      r := None;
      return;
    }
    r := Some((SignedBlock(block, Attestation(bits, data), proofs, signature.value), post));
  }
}

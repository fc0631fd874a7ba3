/** Pending attestations merged by the data they sign. */
module Aggregation {
  import opened Containers
  import opened Bits
  import opened ForkTree
  import opened ForkUpkeep
  import opened ForkChoice

  const WORD: nat := 8

  // ------------------------------------------------------------------ bit lists

  function OrBytes(a: seq<Byte>, b: seq<Byte>): (r: seq<Byte>)
    requires |a| == |b|
  {
    seq(|a|, i requires 0 <= i < |a| => a[i] | b[i])
  }

  /** `dst` with the first `k` bytes of `src` ORed in. */
  ghost predicate Ored(dst: seq<Byte>, src: seq<Byte>, k: nat, out: seq<Byte>) {
    && |out| == |dst| && k <= |dst| && k <= |src|
    && (forall i :: 0 <= i < k ==> out[i] == dst[i] | src[i])
    && (forall i :: k <= i < |dst| ==> out[i] == dst[i])
  }

  lemma OredBit(dst: seq<Byte>, src: seq<Byte>, out: seq<Byte>, j: nat)
    requires Ored(dst, src, |src|, out)
    ensures DataBit(out, j) == (DataBit(dst, j) || DataBit(src, j))
  {
    if j / 8 < |src| {
      OrByte(dst[j / 8], src[j / 8], j % 8);
    }
  }

  /** Eight bytes at a time, then the rest one by one. */
  method OrInto(dst: seq<Byte>, src: seq<Byte>) returns (out: seq<Byte>)
    requires |src| <= |dst|
    ensures Ored(dst, src, |src|, out)
  {
    out := dst;
    var fullChunks := |src| / WORD;
    for i := 0 to fullChunks
      invariant Ored(dst, src, i * WORD, out)
    {
      var off := i * WORD;
      out := out[..off] + OrBytes(out[off..off + WORD], src[off..off + WORD]) + out[off + WORD..];
    }
    for i := fullChunks * WORD to |src|
      invariant Ored(dst, src, i, out)
    {
      out := out[i := out[i] | src[i]];
    }
  }

  /** The union of two participant sets. */
  method MergeAggregationBits(dst: BitList, src: BitList) returns (r: BitList)
    requires Canonical(dst) && Canonical(src)
    ensures Canonical(r) && r.len == (if dst.len > src.len then dst.len else src.len)
    ensures Participants(r) == Participants(dst) + Participants(src)
  {
    var len := if dst.len > src.len then dst.len else src.len;
    var resized := Resized(dst.data, ByteCount(len));
    var data := OrInto(resized, src.data);
    r := BitList(data, len);
    forall j: nat
      ensures DataBit(data, j) == (DataBit(dst.data, j) || DataBit(src.data, j))
    {
      OredBit(resized, src.data, data, j);
      ResizedAt(dst.data, ByteCount(len), j);
    }
  }

  // ---------------------------------------------------------------- attestations

  /** Everyone who signed `d`. */
  ghost function Signers(atts: seq<Attestation>, d: AttestationData): set<nat> {
    if atts == [] then {}
    else
      var last := atts[|atts| - 1];
      Signers(atts[..|atts| - 1], d) + (if last.data == d then Participants(last.bits) else {})
  }

  ghost predicate Signed(atts: seq<Attestation>, d: AttestationData) {
    exists i :: 0 <= i < |atts| && atts[i].data == d
  }

  /** One canonical attestation per data, signed by all who signed that data. */
  ghost predicate Aggregates(atts: seq<Attestation>, out: seq<Attestation>) {
    && (forall i, j :: 0 <= i < j < |out| ==> out[i].data != out[j].data)
    && (forall i :: 0 <= i < |out| ==>
          && Signed(atts, out[i].data) && Canonical(out[i].bits)
          && Participants(out[i].bits) == Signers(atts, out[i].data))
    && (forall i :: 0 <= i < |atts| ==> Signed(out, atts[i].data))
  }

  ghost predicate InjectiveData(h: Hashes) {
    forall a, b :: h.data(a) == h.data(b) ==> a == b
  }

  /** One group: all the signers of its data. */
  ghost predicate IsGroup(h: Hashes, atts: seq<Attestation>, k: Root, group: Attestation) {
    && h.data(group.data) == k && Signed(atts, group.data) && Canonical(group.bits)
    && Participants(group.bits) == Signers(atts, group.data)
  }

  /** The groups after some attestations, keyed by the hash of their data. */
  ghost predicate Grouped(h: Hashes, atts: seq<Attestation>, groups: map<Root, Attestation>) {
    && (forall k :: k in groups ==> IsGroup(h, atts, k, groups[k]))
    && (forall i :: 0 <= i < |atts| ==> h.data(atts[i].data) in groups)
  }

  lemma SignedStep(atts: seq<Attestation>, k: nat, d: AttestationData)
    requires k < |atts|
    ensures Signers(atts[..k + 1], d) == Signers(atts[..k], d) + (if atts[k].data == d then Participants(atts[k].bits) else {})
    ensures Signed(atts[..k + 1], d) <==> Signed(atts[..k], d) || atts[k].data == d
  {
    assert atts[..k + 1][..k] == atts[..k];
    assert atts[..k + 1][k] == atts[k];
    if Signed(atts[..k], d) {
      var i :| 0 <= i < k && atts[..k][i].data == d;
      assert atts[..k + 1][i].data == d;
    }
    if Signed(atts[..k + 1], d) && atts[k].data != d {
      var i :| 0 <= i < k + 1 && atts[..k + 1][i].data == d;
      assert atts[..k][i].data == d;
    }
  }

  /** The group of the next attestation's data takes it in; the others stay. */
  lemma GroupStep(h: Hashes, atts: seq<Attestation>, k: nat, groups: map<Root, Attestation>, merged: BitList)
    requires InjectiveData(h) && k < |atts| && Grouped(h, atts[..k], groups) && Canonical(merged)
    requires var key := h.data(atts[k].data);
             Participants(merged) ==
             Participants(atts[k].bits) + (if key in groups then Participants(groups[key].bits) else {})
    ensures Grouped(h, atts[..k + 1], groups[h.data(atts[k].data) := Attestation(merged, atts[k].data)])
  {
    var d := atts[k].data;
    var groups' := groups[h.data(d) := Attestation(merged, d)];
    forall x | x in groups'
      ensures IsGroup(h, atts[..k + 1], x, groups'[x])
    {
      SignedStep(atts, k, groups'[x].data);
      if x == h.data(d) && x !in groups {
        forall i | 0 <= i < k
          ensures atts[..k][i].data != d
        {
          assert h.data(atts[..k][i].data) in groups;
        }
        Unsigned(atts[..k], d);
      }
    }
    var next := atts[..k + 1];
    forall i | 0 <= i < |next|
      ensures h.data(next[i].data) in groups'
    {
      if i < k {
        assert next[i] == atts[..k][i];
      }
    }
  }

  lemma {:induction false} Unsigned(atts: seq<Attestation>, d: AttestationData)
    requires forall i :: 0 <= i < |atts| ==> atts[i].data != d
    ensures Signers(atts, d) == {}
  {
    if atts != [] {
      Unsigned(atts[..|atts| - 1], d);
    }
  }

  /** The values of a map, in some order. */
  method CollectValues(h: Hashes, groups: map<Root, Attestation>) returns (out: seq<Attestation>)
    requires forall k :: k in groups ==> h.data(groups[k].data) == k
    ensures forall i :: 0 <= i < |out| ==> h.data(out[i].data) in groups && groups[h.data(out[i].data)] == out[i]
    ensures forall k :: k in groups ==> groups[k] in out
    ensures forall i, j :: 0 <= i < j < |out| ==> out[i].data != out[j].data
  {
    out := [];
    var rest := groups.Keys;
    while rest != {}
      invariant rest <= groups.Keys
      invariant forall i :: 0 <= i < |out| ==>
                  h.data(out[i].data) in groups.Keys - rest && groups[h.data(out[i].data)] == out[i]
      invariant forall k :: k in groups.Keys - rest ==> groups[k] in out
      invariant forall i, j :: 0 <= i < j < |out| ==> out[i].data != out[j].data
      decreases rest
    {
      var k :| k in rest;
      rest := rest - {k};
      out := out + [groups[k]];
    }
  }

  method AggregateAttestations(h: Hashes, atts: seq<Attestation>) returns (out: seq<Attestation>)
    requires InjectiveData(h) && forall i :: 0 <= i < |atts| ==> Canonical(atts[i].bits)
    ensures Aggregates(atts, out)
  {
    var groups: map<Root, Attestation> := map[];
    for k := 0 to |atts|
      invariant Grouped(h, atts[..k], groups)
    {
      var att := atts[k];
      var key := h.data(att.data);
      var bits := att.bits;
      if key in groups {
        bits := MergeAggregationBits(groups[key].bits, att.bits);
      }
      GroupStep(h, atts, k, groups, bits);
      groups := groups[key := Attestation(bits, att.data)];
    }
    assert atts[..|atts|] == atts;
    out := CollectValues(h, groups);
    forall i | 0 <= i < |atts|
      ensures Signed(out, atts[i].data)
    {
      assert groups[h.data(atts[i].data)] in out;
    }
  }

  // ----------------------------------------------------------- the proposal head

  /** Nobody signs for two different heads. */
  ghost predicate OneHeadEach(atts: seq<Attestation>) {
    forall i, j, v: nat ::
      0 <= i < |atts| && 0 <= j < |atts| && v in Participants(atts[i].bits) && v in Participants(atts[j].bits) ==>
        atts[i].data.head.root == atts[j].data.head.root
  }

  /** Some attestation carries a vote of `v` for the known block `r`. */
  ghost predicate CastsFor(t: Tree, atts: seq<Attestation>, v: nat, r: Root) {
    exists i :: 0 <= i < |atts| && v in Participants(atts[i].bits) && atts[i].data.head.root == r && r in t.slots
  }

  lemma {:induction false} AppliedAllAt(t: Tree, votes: Votes, atts: seq<Attestation>, v: nat, r: Root)
    requires OneHeadEach(atts) && CastsFor(t, atts, v, r)
    ensures v in AppliedAll(t, votes, atts) && AppliedAll(t, votes, atts)[v] == r
  {
    var init, last := atts[..|atts| - 1], atts[|atts| - 1];
    var i :| 0 <= i < |atts| && v in Participants(atts[i].bits) && atts[i].data.head.root == r && r in t.slots;
    if i < |atts| - 1 {
      assert init[i] == atts[i];
      AppliedAllAt(t, votes, init, v, r);
    }
  }

  lemma VotesForPrefix(t: Tree, atts: seq<Attestation>, k: nat, v: nat, r: Root)
    requires k <= |atts|
    ensures CastsFor(t, atts[..k], v, r) ==> CastsFor(t, atts, v, r)
  {
    if CastsFor(t, atts[..k], v, r) {
      var i :| 0 <= i < k && v in Participants(atts[..k][i].bits) && atts[..k][i].data.head.root == r && r in t.slots;
      assert atts[i] == atts[..k][i];
    }
  }

  lemma {:induction false} AppliedAllElse(t: Tree, votes: Votes, atts: seq<Attestation>, v: nat)
    requires forall r :: !CastsFor(t, atts, v, r)
    ensures v in AppliedAll(t, votes, atts) <==> v in votes
    ensures v in votes ==> AppliedAll(t, votes, atts)[v] == votes[v]
  {
    if atts != [] {
      var init, last := atts[..|atts| - 1], atts[|atts| - 1];
      forall r
        ensures !CastsFor(t, init, v, r)
      {
        VotesForPrefix(t, atts, |atts| - 1, v, r);
      }
      AppliedAllElse(t, votes, init, v);
      assert !CastsFor(t, atts, v, last.data.head.root);
      assert atts[|atts| - 1] == last;
    }
  }

  lemma {:induction false} SignerSigned(atts: seq<Attestation>, d: AttestationData, v: nat)
    ensures v in Signers(atts, d) <==> exists i :: 0 <= i < |atts| && atts[i].data == d && v in Participants(atts[i].bits)
  {
    if atts != [] {
      var init := atts[..|atts| - 1];
      SignerSigned(init, d, v);
      if i :| 0 <= i < |atts| && atts[i].data == d && v in Participants(atts[i].bits) {
        if i < |atts| - 1 {
          assert init[i] == atts[i];
        }
      }
    }
  }

  /** A vote in the aggregate is a vote in the list, and the other way round. */
  lemma AggregateVotes(t: Tree, atts: seq<Attestation>, out: seq<Attestation>, v: nat, r: Root)
    requires Aggregates(atts, out)
    ensures CastsFor(t, atts, v, r) <==> CastsFor(t, out, v, r)
  {
    if CastsFor(t, atts, v, r) {
      var i :| 0 <= i < |atts| && v in Participants(atts[i].bits) && atts[i].data.head.root == r && r in t.slots;
      var j :| 0 <= j < |out| && out[j].data == atts[i].data;
      SignerSigned(atts, out[j].data, v);
      assert v in Participants(out[j].bits);
    }
    if CastsFor(t, out, v, r) {
      var j :| 0 <= j < |out| && v in Participants(out[j].bits) && out[j].data.head.root == r && r in t.slots;
      SignerSigned(atts, out[j].data, v);
      var i :| 0 <= i < |atts| && atts[i].data == out[j].data && v in Participants(atts[i].bits);
      assert CastsFor(t, atts, v, r);
    }
  }

  lemma AggregateOneHead(atts: seq<Attestation>, out: seq<Attestation>)
    requires Aggregates(atts, out) && OneHeadEach(atts)
    ensures OneHeadEach(out)
  {
    forall i, j, v: nat |
      0 <= i < |out| && 0 <= j < |out| && v in Participants(out[i].bits) && v in Participants(out[j].bits)
      ensures out[i].data.head.root == out[j].data.head.root
    {
      SignerSigned(atts, out[i].data, v);
      SignerSigned(atts, out[j].data, v);
    }
  }

  /** Counting the aggregate is counting the list, if nobody signs for two heads. */
  lemma AggregateCounts(t: Tree, votes: Votes, atts: seq<Attestation>, out: seq<Attestation>)
    requires Aggregates(atts, out) && OneHeadEach(atts)
    ensures AppliedAll(t, votes, out) == AppliedAll(t, votes, atts)
  {
    AggregateOneHead(atts, out);
    forall v: nat
      ensures v in AppliedAll(t, votes, out) <==> v in AppliedAll(t, votes, atts)
      ensures v in AppliedAll(t, votes, out) ==> AppliedAll(t, votes, out)[v] == AppliedAll(t, votes, atts)[v]
    {
      if r :| CastsFor(t, atts, v, r) {
        AggregateVotes(t, atts, out, v, r);
        AppliedAllAt(t, votes, atts, v, r);
        AppliedAllAt(t, votes, out, v, r);
      } else {
        forall r
          ensures !CastsFor(t, out, v, r)
        {
          AggregateVotes(t, atts, out, v, r);
        }
        AppliedAllElse(t, votes, atts, v);
        AppliedAllElse(t, votes, out, v);
      }
    }
  }

  /** The head to build on, from aggregated pending attestations: the same as from the
      raw list when nobody signs for two heads. */
  method ProposalHeadFromPending(store: ForkChoiceStore, pending: seq<Attestation>) returns (r: Root)
    requires store.Valid() && InjectiveData(store.h)
    requires forall i :: 0 <= i < |pending| ==> Canonical(pending[i].bits)
    modifies store`dag, store`latestVotes, store`latestNewVotes, store`head, store`headSlot, store`reorgsTotal, store`safeTarget
    ensures store.Valid() && store.dag == old(store.dag).(nodes := store.dag.nodes) && store.latestNewVotes == map[]
    ensures r == store.head == HeadOf(store.tree, store.latestVotes, store.latestJustified.root, old(store.head))
    ensures store.reorgsTotal == old(store.reorgsTotal) + if Descends(store.tree, r, old(store.head)) then 0 else 1
    ensures OneHeadEach(pending) ==>
              store.latestVotes == old(store.latestVotes) + AppliedAll(store.tree, old(store.latestNewVotes), pending)
  {
    var aggregated := AggregateAttestations(store.h, pending);
    if OneHeadEach(pending) {
      AggregateCounts(store.tree, store.latestNewVotes, pending, aggregated);
    }
    r := store.GetProposalHeadWithPending(aggregated);
  }
}

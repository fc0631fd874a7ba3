/** The vote table as it is stored: target roots in ascending order and one bit list
    that holds a row of `n` bits per root, copied whole when `n` fills bytes exactly. */
module VoteCodec {
  import opened Containers
  import opened Bits
  import opened VoteTable

  const JUSTIFICATION_VALIDATORS_LIMIT: nat := 1_073_741_824

  /** Row `k` starts at bit `k * n`. */
  ghost predicate InRow(n: nat, k: nat, i: nat) {
    k * n <= i < k * n + n
  }

  // ------------------------------------------------------------------- encoding

  /** The keys of the table, collected and sorted. */
  method CollectSorted(keys: set<Root>) returns (roots: seq<Root>)
    ensures roots == SortedRoots(keys)
  {
    roots := [];
    var rest := keys;
    while rest != {}
      invariant roots + SortedRoots(rest) == SortedRoots(keys)
      decreases rest
    {
      MinExists(rest);
      var r :| r in rest && forall x :: x in rest ==> r <= x;
      assert r == Least(rest);
      assert roots + SortedRoots(rest) == roots + [r] + SortedRoots(rest - {r});
      roots := roots + [r];
      rest := rest - {r};
    }
  }

  ghost predicate RowWritten(flat: seq<Byte>, flat': seq<Byte>, bits: seq<Byte>, n: nat, k: nat) {
    && |flat'| == |flat|
    && forall i: nat :: DataBit(flat', i) ==
         if InRow(n, k, i) then DataBit(bits, i - k * n) else DataBit(flat, i)
  }

  method WriteRowAligned(flat: seq<Byte>, bits: seq<Byte>, n: nat, k: nat) returns (flat': seq<Byte>)
    requires n % 8 == 0 && |bits| == n / 8 && k * (n / 8) + n / 8 <= |flat|
    ensures RowWritten(flat, flat', bits, n, k)
  {
    var byteCount := n / 8;
    var start := k * byteCount;
    flat' := flat[..start] + bits[..byteCount] + flat[start + byteCount..];
    assert bits[..byteCount] == bits;
    AlignedStart(n, k);
    forall i: nat
      ensures DataBit(flat', i) == if InRow(n, k, i) then DataBit(bits, i - k * n) else DataBit(flat, i)
    {
      SpliceBit(flat, bits, start, i);
    }
  }

  lemma SpliceBit(flat: seq<Byte>, bits: seq<Byte>, start: nat, i: nat)
    requires start + |bits| <= |flat|
    ensures var flat' := flat[..start] + bits + flat[start + |bits|..];
      DataBit(flat', i) == if 8 * start <= i < 8 * start + 8 * |bits| then DataBit(bits, i - 8 * start) else DataBit(flat, i)
  {
    var flat' := flat[..start] + bits + flat[start + |bits|..];
    if 8 * start <= i < 8 * start + 8 * |bits| {
      assert (i - 8 * start) / 8 == i / 8 - start && (i - 8 * start) % 8 == i % 8;
      assert flat'[i / 8] == bits[i / 8 - start];
    } else if i / 8 < |flat| {
      assert flat'[i / 8] == flat[i / 8];
    }
  }

  method WriteRowBits(flat: seq<Byte>, bits: seq<Byte>, n: nat, k: nat) returns (flat': seq<Byte>)
    requires k * n + n <= 8 * |flat| && (forall i: nat :: InRow(n, k, i) ==> !DataBit(flat, i))
    ensures RowWritten(flat, flat', bits, n, k)
  {
    flat' := flat;
    for v := 0 to n
      invariant |flat'| == |flat|
      invariant forall i: nat :: DataBit(flat', i) ==
                  if InRow(n, k, i) && i < k * n + v then DataBit(bits, i - k * n) else DataBit(flat, i)
    {
      var flatIdx := k * n + v;
      forall i: nat
        ensures DataBit(SetBit(flat', flatIdx), i) == (i == flatIdx || DataBit(flat', i))
      {
        SetBitAt(flat', flatIdx, i);
      }
      SetBitAt(flat', flatIdx, flatIdx);
      if BitIsSet(BitList(bits, n), v) {
        flat' := SetBit(flat', flatIdx);
      }
    }
  }

  /** The first `k` rows are in place and nothing else is. */
  ghost predicate RowsWritten(flat: seq<Byte>, roots: seq<Root>, table: Table, n: nat, k: nat) {
    forall i: nat :: DataBit(flat, i) == (n > 0 && i < k * n && FlatBit(roots, table, n, i))
  }

  lemma RowStep(flat: seq<Byte>, flat': seq<Byte>, bits: seq<Byte>, roots: seq<Root>, table: Table, n: nat, k: nat)
    requires RowsWritten(flat, roots, table, n, k) && RowWritten(flat, flat', bits, n, k)
    requires k < |roots| && roots[k] in table && |bits| == ByteCount(n) && table[roots[k]] == Voters(bits)
    ensures RowsWritten(flat', roots, table, n, k + 1)
  {
    assert (k + 1) * n == k * n + n;
    forall i: nat
      ensures DataBit(flat', i) == (n > 0 && i < (k + 1) * n && FlatBit(roots, table, n, i))
    {
      if InRow(n, k, i) {
        DivUnique(i, n, k, i - k * n);
      }
    }
  }

  /** The limit aside, the encoding is a function of the table alone. */
  method EncodeJustificationVotes(votes: VoteMap, n: nat) returns (r: Option<(seq<Root>, BitList)>)
    requires ValidMap(votes, n)
    ensures r.None? <==> |votes| * n > JUSTIFICATION_VALIDATORS_LIMIT
    ensures r.Some? ==>
              && r.value.0 == SortedRoots(votes.Keys)
              && Canonical(r.value.1)
              && BitsOf(r.value.1) == Flattened(r.value.0, TableOf(votes), n)
  {
    var roots := CollectSorted(votes.Keys);
    SortedRootsElements(votes.Keys);
    var flatLen := |roots| * n;
    if flatLen > JUSTIFICATION_VALIDATORS_LIMIT {
      return None;
    }
    ghost var table := TableOf(votes);
    var flat := Zeros(ByteCount(flatLen));
    forall i: nat
      ensures !DataBit(flat, i)
    {
      ZerosAt(ByteCount(flatLen), i);
    }
    for k := 0 to |roots|
      invariant |flat| == ByteCount(flatLen)
      invariant RowsWritten(flat, roots, table, n, k)
    {
      assert roots[k] in roots;
      var bits := votes[roots[k]].bits;
      ghost var before := flat;
      flat := WriteRow(flat, bits, roots, n, k, table);
      RowStep(before, flat, bits, roots, table, n, k);
    }
    r := Some((roots, BitList(flat, flatLen)));
    FlatDenotes(flat, roots, table, n);
  }

  method WriteRow(flat: seq<Byte>, bits: seq<Byte>, roots: seq<Root>, n: nat, k: nat, ghost table: Table)
    returns (flat': seq<Byte>)
    requires k < |roots| && |flat| == ByteCount(|roots| * n) && |bits| == ByteCount(n)
    requires RowsWritten(flat, roots, table, n, k)
    ensures RowWritten(flat, flat', bits, n, k)
  {
    MulBelow(k, |roots|, n);
    if n % 8 == 0 {
      MulBelow(k, |roots|, n / 8);
      AlignedStart(n, |roots|);
      flat' := WriteRowAligned(flat, bits, n, k);
    } else {
      flat' := WriteRowBits(flat, bits, n, k);
    }
  }

  lemma FlatDenotes(flat: seq<Byte>, roots: seq<Root>, table: Table, n: nat)
    requires |flat| == ByteCount(|roots| * n) && RowsWritten(flat, roots, table, n, |roots|)
    ensures Canonical(BitList(flat, |roots| * n))
    ensures BitsOf(BitList(flat, |roots| * n)) == Flattened(roots, table, n)
  {
  }

  // ------------------------------------------------------------------- decoding

  ghost function SumOnes(bits: seq<Byte>): nat {
    if bits == [] then 0 else SumOnes(bits[..|bits| - 1]) + CountOnes(bits[|bits| - 1])
  }

  lemma {:induction false} SumOnesIsSize(bits: seq<Byte>)
    ensures SumOnes(bits) == |Voters(bits)|
  {
    if bits == [] {
      assert Voters(bits) == {};
    } else {
      var k := |bits| - 1;
      var init, added := bits[..k], ByteSet(k, bits[k]);
      SumOnesIsSize(init);
      CountOnesIsSize(k, bits[k]);
      forall v: nat
        ensures v in Voters(bits) <==> v in Voters(init) || v in added
        ensures v !in Voters(init) || v !in added
      {
        LastByteAt(bits, v);
      }
      assert Voters(bits) == Voters(init) + added;
    }
  }

  lemma LastByteAt(bits: seq<Byte>, v: nat)
    requires bits != []
    ensures var k := |bits| - 1;
            && (v in Voters(bits) <==> v in Voters(bits[..k]) || v in ByteSet(k, bits[k]))
            && (v !in Voters(bits[..k]) || v !in ByteSet(k, bits[k]))
  {
    var k := |bits| - 1;
    assert v == 8 * (v / 8) + v % 8;
    if v / 8 < k {
      assert bits[..k][v / 8] == bits[v / 8];
    }
  }

  method ReadRowAligned(data: seq<Byte>, n: nat, k: nat) returns (votes: JustificationVotes)
    requires n % 8 == 0 && k * (n / 8) + n / 8 <= |data|
    ensures ValidVotes(votes, n)
    ensures forall v: nat :: v < n ==> DataBit(votes.bits, v) == DataBit(data, k * n + v)
  {
    var byteCount := n / 8;
    var baseByte := k * byteCount;
    var bits := data[baseByte..baseByte + byteCount];
    var count := 0;
    for j := 0 to |bits|
      invariant count == SumOnes(bits[..j])
    {
      assert bits[..j + 1][..j] == bits[..j];
      count := count + CountOnes(bits[j]);
    }
    assert bits[..|bits|] == bits;
    SumOnesIsSize(bits);
    AlignedStart(n, k);
    votes := JustificationVotes(bits, count);
    forall v: nat | v < n
      ensures DataBit(votes.bits, v) == DataBit(data, k * n + v)
    {
      assert (8 * baseByte + v) / 8 == baseByte + v / 8 && (8 * baseByte + v) % 8 == v % 8;
    }
  }

  method ReadRowBits(stored: BitList, n: nat, k: nat) returns (votes: JustificationVotes)
    ensures ValidVotes(votes, n)
    ensures forall v: nat :: v < n ==> DataBit(votes.bits, v) == BitIsSet(stored, k * n + v)
  {
    votes := NoVotes(n);
    NoVotesValid(n);
    for v := 0 to n
      invariant |votes.bits| == ByteCount(n) && votes.count == |Voters(votes.bits)|
      invariant forall i: nat :: DataBit(votes.bits, i) == (i < v && BitIsSet(stored, k * n + i))
    {
      if BitIsSet(stored, k * n + v) {
        VotersGain(votes.bits, v);
        votes := JustificationVotes(SetBit(votes.bits, v), votes.count + 1);
      }
    }
  }

  lemma VotersGain(bits: seq<Byte>, v: nat)
    requires v < 8 * |bits| && !DataBit(bits, v)
    ensures |SetBit(bits, v)| == |bits| && |Voters(SetBit(bits, v))| == |Voters(bits)| + 1
    ensures forall i: nat :: DataBit(SetBit(bits, v), i) == (i == v || DataBit(bits, i))
  {
    forall i: nat
      ensures DataBit(SetBit(bits, v), i) == (i == v || DataBit(bits, i))
    {
      SetBitAt(bits, v, i);
    }
    SetBitAt(bits, v, v);
    assert Voters(SetBit(bits, v)) == Voters(bits) + {v};
  }

  /** One row; a whole-byte row that is cut short reads as empty. */
  method ReadRow(stored: BitList, n: nat, k: nat) returns (votes: JustificationVotes)
    requires n > 0 && Canonical(stored)
    ensures ValidVotes(votes, n)
    ensures Voters(votes.bits) == Row(BitsOf(stored), n, k)
  {
    if n % 8 == 0 {
      if k * (n / 8) + n / 8 <= |stored.data| {
        votes := ReadRowAligned(stored.data, n, k);
        RowRead(stored, votes, n, k);
      } else {
        votes := NoVotes(n);
        NoVotesValid(n);
      }
    } else {
      votes := ReadRowBits(stored, n, k);
      RowRead(stored, votes, n, k);
    }
  }

  lemma VotersAreRow(votes: JustificationVotes, flat: seq<bool>, n: nat, k: nat)
    requires ValidVotes(votes, n) && RowPresent(|flat|, n, k)
    requires forall v: nat :: v < n ==> DataBit(votes.bits, v) == RowBit(flat, n, k, v)
    ensures Voters(votes.bits) == Row(flat, n, k)
  {
  }

  lemma RowRead(stored: BitList, votes: JustificationVotes, n: nat, k: nat)
    requires n > 0 && Canonical(stored) && ValidVotes(votes, n) && RowPresent(stored.len, n, k)
    requires forall v: nat :: v < n ==> DataBit(votes.bits, v) == DataBit(stored.data, k * n + v)
    ensures Voters(votes.bits) == Row(BitsOf(stored), n, k)
  {
    var base := k * n;
    forall v: nat | v < n
      ensures DataBit(votes.bits, v) == RowBit(BitsOf(stored), n, k, v)
    {
      assert DataBit(votes.bits, v) == DataBit(stored.data, base + v);
      assert base + v < stored.len ==> BitsOf(stored)[base + v] == DataBit(stored.data, base + v);
    }
    VotersAreRow(votes, BitsOf(stored), n, k);
  }

  method DecodeJustificationVotes(roots: seq<Root>, stored: BitList, n: nat) returns (out: VoteMap)
    requires Canonical(stored)
    ensures ValidMap(out, n) && TableOf(out) == Decoded(roots, BitsOf(stored), n)
  {
    out := map[];
    assert TableOf(out) == map[];
    if n == 0 || roots == [] {
      return;
    }
    for k := 0 to |roots|
      invariant ValidMap(out, n) && TableOf(out) == DecodedUpTo(roots, BitsOf(stored), n, k)
    {
      var votes := ReadRow(stored, n, k);
      assert TableOf(out[roots[k] := votes]) == TableOf(out)[roots[k] := Voters(votes.bits)];
      out := out[roots[k] := votes];
    }
  }

  /** Storing a vote table and loading it again gives the same voters and counts, in
      either layout; without validators it gives nothing. */
  method StoreAndLoad(votes: VoteMap, n: nat) returns (loaded: Option<VoteMap>)
    requires ValidMap(votes, n)
    ensures loaded.None? <==> |votes| * n > JUSTIFICATION_VALIDATORS_LIMIT
    ensures loaded.Some? ==> loaded.value == if n > 0 then votes else map[]
  {
    var stored := EncodeJustificationVotes(votes, n);
    if stored.None? {
      return None;
    }
    ValidTableBelow(votes, n);
    RoundTrip(TableOf(votes), n);
    SortedRootsElements(votes.Keys);
    var out := DecodeJustificationVotes(stored.value.0, stored.value.1, n);
    assert TableOf(votes).Keys == votes.Keys && TableOf(out).Keys == out.Keys;
    if n > 0 {
      SameTable(votes, out, n);
    }
    loaded := Some(out);
  }

  /** A valid vote map is determined by its voters. */
  lemma SameTable(a: VoteMap, b: VoteMap, n: nat)
    requires ValidMap(a, n) && ValidMap(b, n) && TableOf(a) == TableOf(b)
    ensures a == b
  {
    assert TableOf(a).Keys == a.Keys && TableOf(b).Keys == b.Keys;
    forall r | r in a
      ensures r in b && a[r] == b[r]
    {
      assert TableOf(a)[r] == TableOf(b)[r];
      SameVoters(a[r], b[r], n);
    }
  }

  lemma SameVoters(a: JustificationVotes, b: JustificationVotes, n: nat)
    requires ValidVotes(a, n) && ValidVotes(b, n) && Voters(a.bits) == Voters(b.bits)
    ensures a == b
  {
    forall i: nat
      ensures DataBit(a.bits, i) == DataBit(b.bits, i)
    {
      if i < 8 * |a.bits| {
        assert i in Voters(a.bits) <==> i in Voters(b.bits);
      }
    }
    CanonicalUnique(BitList(a.bits, n), BitList(b.bits, n));
  }
}

/** Votes for a justification target: a bitmap with a running count, and the table of
    such bitmaps flattened into one bit list. */
module VoteTable {
  import opened Containers
  import opened Bits

  datatype JustificationVotes = JustificationVotes(bits: seq<Byte>, count: nat)

  /** The validators whose bit is set. */
  ghost function Voters(bits: seq<Byte>): set<nat> {
    set i: nat | i < 8 * |bits| && DataBit(bits, i)
  }

  /** `count` counts the distinct voters, all of them below `n`. */
  ghost predicate ValidVotes(v: JustificationVotes, n: nat) {
    && |v.bits| == ByteCount(n)
    && (forall i: nat :: i >= n ==> !DataBit(v.bits, i))
    && v.count == |Voters(v.bits)|
  }

  function NoVotes(n: nat): JustificationVotes {
    JustificationVotes(Zeros(ByteCount(n)), 0)
  }

  lemma NoVotesValid(n: nat)
    ensures ValidVotes(NoVotes(n), n) && Voters(NoVotes(n).bits) == {}
  {
    forall i: nat
      ensures !DataBit(NoVotes(n).bits, i)
    {
      ZerosAt(ByteCount(n), i);
    }
    assert Voters(NoVotes(n).bits) == {};
  }

  // ------------------------------------------------------------- counting ones

  ghost function Hits(p: nat -> bool, base: nat, len: nat): set<nat> {
    set i: nat | base <= i < base + len && p(i)
  }

  ghost function HitCount(p: nat -> bool, base: nat, len: nat): nat {
    if len == 0 then 0 else HitCount(p, base, len - 1) + One(p(base + len - 1))
  }

  lemma {:induction false} HitsSize(p: nat -> bool, base: nat, len: nat)
    ensures |Hits(p, base, len)| == HitCount(p, base, len)
  {
    if len > 0 {
      HitsSize(p, base, len - 1);
      var last, before := base + len - 1, Hits(p, base, len - 1);
      assert last !in before;
      if p(last) {
        assert Hits(p, base, len) == before + {last};
      } else {
        assert Hits(p, base, len) == before;
      }
    } else {
      assert Hits(p, base, 0) == {};
    }
  }

  /** Position `i` lies in byte `k` and is set when that byte is `b`. */
  ghost predicate InByte(k: nat, b: Byte, i: nat) {
    i / 8 == k && TestBit(b, i % 8)
  }

  ghost function ByteSet(k: nat, b: Byte): set<nat> {
    Hits((i: nat) => InByte(k, b, i), 8 * k, 8)
  }

  lemma CountOnesIsSize(k: nat, b: Byte)
    ensures CountOnes(b) == |ByteSet(k, b)|
  {
    HitsSize((i: nat) => InByte(k, b, i), 8 * k, 8);
    OnesAreHits((i: nat) => InByte(k, b, i), k, b, 8);
  }

  lemma {:induction false} OnesAreHits(p: nat -> bool, k: nat, b: Byte, j: nat)
    requires j <= 8 && forall i: nat :: p(i) == InByte(k, b, i)
    ensures HitCount(p, 8 * k, j) == OnesBelow(b, j)
  {
    if j > 0 {
      OnesAreHits(p, k, b, j - 1);
      InByteAt(k, b, j - 1);
    }
  }

  lemma InByteAt(k: nat, b: Byte, bit: nat)
    requires bit < 8
    ensures InByte(k, b, 8 * k + bit) == TestBit(b, bit)
  {
    assert (8 * k + bit) / 8 == k && (8 * k + bit) % 8 == bit;
  }

  // ------------------------------------------------------------------- merging

  /** ORs one byte of participants into the bitmap, counting only bits that are new. */
  method MergeByte(votes: JustificationVotes, k: nat, participants: Byte) returns (r: JustificationVotes)
    requires k < |votes.bits| && votes.count == |Voters(votes.bits)|
    ensures |r.bits| == |votes.bits| && r.count == |Voters(r.bits)|
    ensures forall i: nat :: DataBit(r.bits, i) ==
              (DataBit(votes.bits, i) || (InByte(k, participants, i)))
  {
    var newBits := participants & !votes.bits[k];
    var merged := votes.bits[k] | newBits;
    r := JustificationVotes(votes.bits[k := merged], votes.count + CountOnes(newBits));
    MergeIsUnion(votes.bits[k], participants);
    MergedBits(votes.bits, k, participants, newBits, merged);
    MergedCount(votes.bits, r.bits, k, newBits);
  }

  /** Bit by bit: `merged` has the bits of `old` and of the participants, and `newBits`
      are those of the participants that `old` lacks. */
  ghost predicate MergesTo(before: Byte, participants: Byte, newBits: Byte, merged: Byte) {
    forall bit: nat :: bit < 8 ==>
      && TestBit(merged, bit) == (TestBit(before, bit) || TestBit(participants, bit))
      && TestBit(merged, bit) == (TestBit(before, bit) || TestBit(newBits, bit))
      && (TestBit(newBits, bit) ==> !TestBit(before, bit))
  }

  lemma MergeIsUnion(a: Byte, b: Byte)
    ensures MergesTo(a, b, b & !a, a | (b & !a))
  {
    forall bit: nat | bit < 8
      ensures && TestBit(a | (b & !a), bit) == (TestBit(a, bit) || TestBit(b, bit))
              && TestBit(a | (b & !a), bit) == (TestBit(a, bit) || TestBit(b & !a, bit))
              && (TestBit(b & !a, bit) ==> !TestBit(a, bit))
    {
      MergeBytes(a, b, bit);
    }
  }

  lemma MergedBits(bits: seq<Byte>, k: nat, participants: Byte, newBits: Byte, merged: Byte)
    requires k < |bits| && MergesTo(bits[k], participants, newBits, merged)
    ensures forall i: nat :: DataBit(bits[k := merged], i) == (DataBit(bits, i) || InByte(k, participants, i))
    ensures forall i: nat :: DataBit(bits[k := merged], i) == (DataBit(bits, i) || InByte(k, newBits, i))
    ensures forall i: nat :: InByte(k, newBits, i) ==> !DataBit(bits, i)
  {
  }

  lemma MergedCount(bits: seq<Byte>, bits': seq<Byte>, k: nat, newBits: Byte)
    requires k < |bits| && |bits'| == |bits|
    requires forall i: nat :: DataBit(bits', i) == (DataBit(bits, i) || (InByte(k, newBits, i)))
    requires forall i: nat :: InByte(k, newBits, i) ==> !DataBit(bits, i)
    ensures |Voters(bits')| == |Voters(bits)| + CountOnes(newBits)
  {
    CountOnesIsSize(k, newBits);
    var added := ByteSet(k, newBits);
    assert forall i: nat :: i in added <==> InByte(k, newBits, i);
    assert Voters(bits') == Voters(bits) + added;
    assert Voters(bits) !! added;
  }

  ghost function Below(s: set<nat>, n: nat): set<nat> {
    set v | v in s && v < n
  }

  function ByteAt(data: seq<Byte>, k: nat): Byte {
    if k < |data| then data[k] else 0
  }

  lemma ByteAtBit(data: seq<Byte>, k: nat, bit: nat)
    requires bit < 8
    ensures TestBit(ByteAt(data, k), bit) == DataBit(data, 8 * k + bit)
  {
    ZeroByte(bit);
    assert (8 * k + bit) / 8 == k && (8 * k + bit) % 8 == bit;
  }

  /** Adds the participants among the first `n` validators to the vote. */
  method MergeParticipantVotes(votes: JustificationVotes, participants: BitList, n: nat) returns (r: JustificationVotes)
    requires ValidVotes(votes, n)
    ensures ValidVotes(r, n)
    ensures Voters(r.bits) == Voters(votes.bits) + Below(Participants(participants), n)
  {
    var maxBits := if participants.len < n then participants.len else n;
    var fullBytes := maxBits / 8;
    r := votes;
    for k := 0 to fullBytes
      invariant |r.bits| == |votes.bits| && r.count == |Voters(r.bits)|
      invariant forall i: nat :: DataBit(r.bits, i) ==
                  (DataBit(votes.bits, i) || (i < 8 * k && DataBit(participants.data, i)))
    {
      var before := r;
      r := MergeByte(r, k, ByteAt(participants.data, k));
      forall i: nat
        ensures i / 8 == k ==> TestBit(ByteAt(participants.data, k), i % 8) == DataBit(participants.data, i)
        ensures i < 8 * (k + 1) <==> i < 8 * k || i / 8 == k
      {
        ByteAtBit(participants.data, k, i % 8);
      }
    }
    var remainder := maxBits % 8;
    if remainder != 0 {
      var before := r;
      var last := ByteAt(participants.data, fullBytes) & LowMask(remainder);
      r := MergeByte(r, fullBytes, last);
      forall i: nat
        ensures i / 8 == fullBytes ==>
                  TestBit(last, i % 8) == (i < maxBits && DataBit(participants.data, i))
      {
        ByteAtBit(participants.data, fullBytes, i % 8);
        AndLowMask(ByteAt(participants.data, fullBytes), remainder, i % 8);
      }
    }
    assert forall i: nat :: DataBit(r.bits, i) == (DataBit(votes.bits, i) || (i < maxBits && DataBit(participants.data, i)));
    MergedUnion(votes.bits, r.bits, participants, n);
  }

  lemma MergedUnion(bits: seq<Byte>, bits': seq<Byte>, participants: BitList, n: nat)
    requires |bits'| == |bits| == ByteCount(n)
    requires forall i: nat :: DataBit(bits', i) ==
               (DataBit(bits, i) || (i < participants.len && i < n && DataBit(participants.data, i)))
    ensures Voters(bits') == Voters(bits) + Below(Participants(participants), n)
  {
  }

  // ------------------------------------------------------ the table, as a value

  type VoteMap = map<Root, JustificationVotes>

  /** Voters by target root. */
  type Table = map<Root, set<nat>>

  ghost predicate ValidMap(m: VoteMap, n: nat) {
    forall r :: r in m ==> ValidVotes(m[r], n)
  }

  ghost function TableOf(m: VoteMap): Table {
    map r | r in m :: Voters(m[r].bits)
  }

  ghost predicate BelowAll(table: Table, n: nat) {
    forall r, v :: r in table && v in table[r] ==> v < n
  }

  lemma ValidTableBelow(m: VoteMap, n: nat)
    requires ValidMap(m, n)
    ensures BelowAll(TableOf(m), n)
  {
  }

  lemma MinExists(s: set<Root>)
    requires s != {}
    ensures exists r :: r in s && forall x :: x in s ==> r <= x
  {
    var c :| c in s;
    if s != {c} {
      MinExists(s - {c});
      var m :| m in s - {c} && forall x :: x in s - {c} ==> m <= x;
      var r := if c < m then c else m;
      assert r in s && forall x :: x in s ==> r <= x by {
        forall x | x in s
          ensures r <= x
        {
          assert x == c || x in s - {c};
        }
      }
    }
  }

  ghost function Least(s: set<Root>): (r: Root)
    requires s != {}
    ensures r in s && forall x :: x in s ==> r <= x
  {
    MinExists(s);
    var r :| r in s && forall x :: x in s ==> r <= x;
    r
  }

  /** The elements of a set in ascending order. */
  ghost function SortedRoots(s: set<Root>): seq<Root> {
    if s == {} then [] else [Least(s)] + SortedRoots(s - {Least(s)})
  }

  lemma {:induction false} SortedRootsElements(s: set<Root>)
    ensures forall r :: r in SortedRoots(s) <==> r in s
    ensures |SortedRoots(s)| == |s|
  {
    if s != {} {
      SortedRootsElements(s - {Least(s)});
    }
  }

  lemma {:induction false} SortedRootsAscend(s: set<Root>)
    ensures forall i, j :: 0 <= i < j < |SortedRoots(s)| ==> SortedRoots(s)[i] < SortedRoots(s)[j]
  {
    if s != {} {
      var rest := SortedRoots(s - {Least(s)});
      SortedRootsAscend(s - {Least(s)});
      SortedRootsElements(s - {Least(s)});
      forall j | 0 <= j < |rest|
        ensures Least(s) < rest[j]
      {
        assert rest[j] in rest;
        assert rest[j] in s - {Least(s)};
      }
    }
  }

  /** Bit `i` of the flattened table: rows of `n` bits, one per root. */
  ghost predicate FlatBit(roots: seq<Root>, table: Table, n: nat, i: nat)
    requires n > 0
  {
    i / n < |roots| && roots[i / n] in table && i % n in table[roots[i / n]]
  }

  ghost function Flattened(roots: seq<Root>, table: Table, n: nat): (flat: seq<bool>)
    ensures |flat| == |roots| * n
    ensures n > 0 ==> forall i: nat :: i < |flat| ==> flat[i] == FlatBit(roots, table, n, i)
  {
    if n == 0 then [] else seq(|roots| * n, i requires 0 <= i < |roots| * n => FlatBit(roots, table, n, i))
  }

  ghost predicate RowBit(flat: seq<bool>, n: nat, k: nat, v: nat) {
    k * n + v < |flat| && flat[k * n + v]
  }

  /** With whole-byte rows, a row that is not stored to its end counts as missing. */
  ghost predicate RowPresent(len: nat, n: nat, k: nat) {
    n % 8 == 0 ==> k * (n / 8) + n / 8 <= ByteCount(len)
  }

  ghost function Row(flat: seq<bool>, n: nat, k: nat): set<nat> {
    if RowPresent(|flat|, n, k) then set v: nat | v < n && RowBit(flat, n, k, v) else {}
  }

  ghost function DecodedUpTo(roots: seq<Root>, flat: seq<bool>, n: nat, k: nat): Table
    requires k <= |roots|
  {
    if k == 0 then map[] else DecodedUpTo(roots, flat, n, k - 1)[roots[k - 1] := Row(flat, n, k - 1)]
  }

  /** Without validators the stored roots are ignored. */
  ghost function Decoded(roots: seq<Root>, flat: seq<bool>, n: nat): Table {
    if n == 0 then map[] else DecodedUpTo(roots, flat, n, |roots|)
  }

  lemma RowIndex(n: nat, k: nat, v: nat)
    requires v < n
    ensures (k * n + v) / n == k && (k * n + v) % n == v
  {
    DivUnique(k * n + v, n, k, v);
  }

  lemma DivUnique(i: nat, n: nat, q: nat, r: nat)
    requires n > 0 && i == q * n + r && r < n
    ensures i / n == q && i % n == r
  {
    var q' := i / n;
    if q' < q {
      MulBelow(q', q, n);
    } else if q < q' {
      MulBelow(q, q', n);
    }
  }

  lemma MulBelow(a: nat, b: nat, n: nat)
    requires a < b
    ensures a * n + n <= b * n
  {
    assert a * n + n == (a + 1) * n;
  }

  lemma RowsPresent(rows: nat, n: nat, k: nat)
    requires k < rows
    ensures RowPresent(rows * n, n, k)
  {
    if n % 8 == 0 {
      AlignedStart(n, rows);
      MulBelow(k, rows, n / 8);
    }
  }

  lemma AlignedStart(n: nat, k: nat)
    requires n % 8 == 0
    ensures 8 * (k * (n / 8)) == k * n
  {
    assert n == 8 * (n / 8);
  }

  lemma FlattenedAt(roots: seq<Root>, table: Table, n: nat, k: nat, v: nat)
    requires n > 0 && k < |roots| && roots[k] in table && v < n
    ensures RowBit(Flattened(roots, table, n), n, k, v) == (v in table[roots[k]])
  {
    RowIndex(n, k, v);
    MulBelow(k, |roots|, n);
    var i := k * n + v;
    assert Flattened(roots, table, n)[i] == FlatBit(roots, table, n, i);
  }

  /** The layout of a stored table: bit `v` of row `k` says whether validator `v` voted for
      root `k`, and the roots ascend. */
  lemma StoredLayout(table: Table, n: nat, k: nat, v: nat)
    requires k < |table| && v < n
    ensures var roots := SortedRoots(table.Keys); var flat := Flattened(roots, table, n);
            && |roots| == |table| && roots[k] in table && |flat| == |roots| * n && k * n + v < |flat|
            && (flat[k * n + v] <==> v in table[roots[k]]) && (k > 0 ==> roots[k - 1] < roots[k])
  {
    var roots := SortedRoots(table.Keys);
    SortedRootsElements(table.Keys);
    SortedRootsAscend(table.Keys);
    assert roots[k] in roots;
    FlattenedAt(roots, table, n, k, v);
    RowFits(|roots|, n, k, v);
  }

  lemma RowFits(rows: nat, n: nat, k: nat, v: nat)
    requires k < rows && v < n
    ensures k * n + v < rows * n
  {
    assert (k + 1) * n <= rows * n;
  }

  lemma RowOfFlattened(roots: seq<Root>, table: Table, n: nat, k: nat)
    requires n > 0 && k < |roots| && roots[k] in table && BelowAll(table, n)
    ensures Row(Flattened(roots, table, n), n, k) == table[roots[k]]
  {
    RowsPresent(|roots|, n, k);
    forall v: nat | v < n
      ensures RowBit(Flattened(roots, table, n), n, k, v) == (v in table[roots[k]])
    {
      FlattenedAt(roots, table, n, k, v);
    }
  }

  lemma {:induction false} DecodeFlattened(roots: seq<Root>, table: Table, n: nat, k: nat)
    requires n > 0 && BelowAll(table, n) && k <= |roots|
    requires forall r :: r in roots ==> r in table
    ensures forall r :: r in DecodedUpTo(roots, Flattened(roots, table, n), n, k) <==> r in roots[..k]
    ensures forall r :: r in roots[..k] ==> DecodedUpTo(roots, Flattened(roots, table, n), n, k)[r] == table[r]
  {
    if k > 0 {
      DecodeFlattened(roots, table, n, k - 1);
      assert roots[..k] == roots[..k - 1] + [roots[k - 1]];
      RowOfFlattened(roots, table, n, k - 1);
    }
  }

  /** Decoding an encoded table gives the table back, unless there are no validators to
      give rows to its roots. */
  lemma RoundTrip(table: Table, n: nat)
    requires BelowAll(table, n)
    ensures Decoded(SortedRoots(table.Keys), Flattened(SortedRoots(table.Keys), table, n), n) == table <==>
            n > 0 || table == map[]
  {
    if n > 0 {
      var roots := SortedRoots(table.Keys);
      SortedRootsElements(table.Keys);
      DecodeFlattened(roots, table, n, |roots|);
      assert roots[..|roots|] == roots;
    }
  }
}

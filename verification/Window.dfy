/** The sliding window of justified slots: bit `i` stands for slot `finalized + 1 + i`. */
module Window {
  import opened Containers
  import opened Bits

  const HISTORICAL_ROOTS_LIMIT: nat := 262_144

  // ------------------------------------------------------------- on plain bits

  ghost predicate Justified(window: seq<bool>, finalized: nat, slot: nat) {
    slot <= finalized || (slot - finalized - 1 < |window| && window[slot - finalized - 1])
  }

  ghost function Falses(n: nat): (r: seq<bool>)
    ensures |r| == n && forall i :: 0 <= i < n ==> !r[i]
  {
    seq(n, _ => false)
  }

  ghost function Extended(window: seq<bool>, len: nat): (r: seq<bool>)
    ensures |r| == if len > |window| then len else |window|
  {
    if len > |window| then window + Falses(len - |window|) else window
  }

  ghost function Marked(window: seq<bool>, i: nat): seq<bool> {
    Extended(window, i + 1)[i := true]
  }

  ghost function Shifted(window: seq<bool>, delta: nat): seq<bool> {
    if delta >= |window| then [] else window[delta..]
  }

  /** Extending the window changes no slot's answer. */
  lemma ExtendedJustified(window: seq<bool>, len: nat, finalized: nat, slot: nat)
    ensures Justified(Extended(window, len), finalized, slot) == Justified(window, finalized, slot)
  {
  }

  /** Marking a slot changes the answer for that slot only. */
  lemma MarkedJustified(window: seq<bool>, finalized: nat, target: nat, slot: nat)
    requires target > finalized
    ensures Justified(Marked(window, target - finalized - 1), finalized, slot) ==
            (slot == target || Justified(window, finalized, slot))
  {
    ExtendedJustified(window, target - finalized, finalized, slot);
  }

  /** Moving finality forward changes answers only at or below the new finalized slot. */
  lemma ShiftedJustified(window: seq<bool>, finalized: nat, finalized': nat, slot: nat)
    requires finalized <= finalized'
    ensures Justified(Shifted(window, finalized' - finalized), finalized', slot) ==
            (slot <= finalized' || Justified(window, finalized, slot))
  {
  }

  // ------------------------------------------------------------------ on bytes

  function IsSlotJustified(justified: BitList, finalized: nat, slot: nat): (r: bool)
    ensures r == Justified(BitsOf(justified), finalized, slot)
  {
    slot <= finalized || BitIsSet(justified, slot - finalized - 1)
  }

  method ExtendWindow(justified: BitList, requiredLen: nat) returns (r: BitList)
    requires Canonical(justified)
    ensures Canonical(r) && BitsOf(r) == Extended(BitsOf(justified), requiredLen)
  {
    if requiredLen > justified.len {
      r := BitList(Resized(justified.data, ByteCount(requiredLen)), requiredLen);
      forall j: nat
        ensures DataBit(r.data, j) == DataBit(justified.data, j)
      {
        ResizedAt(justified.data, ByteCount(requiredLen), j);
      }
    } else {
      r := justified;
    }
  }

  method SetJustifiedSlot(justified: BitList, finalized: nat, slot: nat) returns (r: Option<BitList>)
    requires Canonical(justified) && slot > finalized
    ensures r.None? <==> slot - finalized - 1 >= HISTORICAL_ROOTS_LIMIT
    ensures r.Some? ==>
              Canonical(r.value) && BitsOf(r.value) == Marked(BitsOf(justified), slot - finalized - 1)
  {
    var idx := slot - finalized - 1;
    if idx >= HISTORICAL_ROOTS_LIMIT {
      return None;
    }
    var len := if idx + 1 > justified.len then idx + 1 else justified.len;
    var data := Resized(justified.data, ByteCount(len));
    var data' := SetBit(data, idx);
    forall j: nat
      ensures DataBit(data', j) == (j == idx || DataBit(justified.data, j))
    {
      ResizedAt(justified.data, ByteCount(len), j);
      SetBitAt(data, idx, j);
    }
    SetBitAt(data, idx, idx);
    return Some(BitList(data', len));
  }

  method ShiftJustifiedWindow(justified: BitList, delta: nat) returns (r: BitList)
    requires Canonical(justified)
    ensures Canonical(r) && BitsOf(r) == Shifted(BitsOf(justified), delta)
  {
    if delta >= justified.len {
      return BitList([], 0);
    }
    var newLen := justified.len - delta;
    var newData := Zeros(ByteCount(newLen));
    forall j: nat
      ensures !DataBit(newData, j)
    {
      ZerosAt(ByteCount(newLen), j);
    }
    for i := 0 to newLen
      invariant |newData| == ByteCount(newLen)
      invariant forall j: nat :: DataBit(newData, j) == (j < i && DataBit(justified.data, j + delta))
    {
      var src := i + delta;
      OneBitSet(newData, i);
      if src / 8 < |justified.data| && justified.data[src / 8] & Mask(src % 8) != 0 {
        newData := SetBit(newData, i);
      }
    }
    r := BitList(newData, newLen);
  }

  lemma OneBitSet(data: seq<Byte>, i: nat)
    requires i < 8 * |data|
    ensures |SetBit(data, i)| == |data| && forall j: nat :: DataBit(SetBit(data, i), j) == (j == i || DataBit(data, j))
  {
    forall j: nat
      ensures DataBit(SetBit(data, i), j) == (j == i || DataBit(data, j))
    {
      SetBitAt(data, i, j);
    }
  }
}

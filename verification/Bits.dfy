/** Bit-level access to byte sequences. */
module Bits {
  import opened Containers

  /** `1 << bit` on a byte. */
  function Mask(bit: nat): Byte
    requires bit < 8
  {
    if bit == 0 then 1 else if bit == 1 then 2 else if bit == 2 then 4 else if bit == 3 then 8
    else if bit == 4 then 16 else if bit == 5 then 32 else if bit == 6 then 64 else 128
  }

  /** `(1 << width) - 1` on a byte. */
  function LowMask(width: nat): Byte
    requires width < 8
  {
    Mask(width) - 1
  }

  predicate TestBit(b: Byte, bit: nat)
    requires bit < 8
  {
    b & Mask(bit) != 0
  }

  /** Bit `i` of a byte sequence; positions past the stored bytes read as unset. */
  predicate DataBit(data: seq<Byte>, i: nat) {
    i / 8 < |data| && TestBit(data[i / 8], i % 8)
  }

  /** Bit `index` of a bit list; positions past the length read as unset too. */
  predicate BitIsSet(bits: BitList, index: nat) {
    index < bits.len && DataBit(bits.data, index)
  }

  /** The validators a bit list names. */
  function Participants(bits: BitList): set<nat> {
    set i: nat | i < bits.len && BitIsSet(bits, i)
  }

  function One(flag: bool): nat { if flag then 1 else 0 }

  /** The number of set bits among the lowest `j`. */
  function OnesBelow(b: Byte, j: nat): nat
    requires j <= 8
  {
    if j == 0 then 0 else OnesBelow(b, j - 1) + One(TestBit(b, j - 1))
  }

  function CountOnes(b: Byte): nat {
    OnesBelow(b, 8)
  }

  lemma ZeroByte(bit: nat)
    requires bit < 8
    ensures !TestBit(0, bit)
  {
  }

  lemma OrByte(a: Byte, b: Byte, bit: nat)
    requires bit < 8
    ensures TestBit(a | b, bit) == (TestBit(a, bit) || TestBit(b, bit))
  {
  }

  lemma AndNotByte(a: Byte, b: Byte, bit: nat)
    requires bit < 8
    ensures TestBit(a & !b, bit) == (TestBit(a, bit) && !TestBit(b, bit))
  {
  }

  /** ORing only the missing bits of `b` into `a` is ORing all of them. */
  lemma MergeBytes(a: Byte, b: Byte, bit: nat)
    requires bit < 8
    ensures TestBit(a | (b & !a), bit) == (TestBit(a, bit) || TestBit(b, bit))
    ensures TestBit(a | (b & !a), bit) == (TestBit(a, bit) || TestBit(b & !a, bit))
    ensures TestBit(b & !a, bit) ==> !TestBit(a, bit)
  {
    OrByte(a, b & !a, bit);
    AndNotByte(b, a, bit);
  }

  lemma AndLowMask(a: Byte, width: nat, bit: nat)
    requires width < 8 && bit < 8
    ensures TestBit(a & LowMask(width), bit) == (bit < width && TestBit(a, bit))
  {
  }

  lemma SetByte(a: Byte, i: nat, bit: nat)
    requires i < 8 && bit < 8
    ensures TestBit(a | Mask(i), bit) == (bit == i || TestBit(a, bit))
  {
  }

  /** A byte is its eight bits. */
  lemma ByteExtensional(a: Byte, b: Byte)
    requires forall bit: nat :: bit < 8 ==> TestBit(a, bit) == TestBit(b, bit)
    ensures a == b
  {
    assert TestBit(a, 0) == TestBit(b, 0) && TestBit(a, 1) == TestBit(b, 1);
    assert TestBit(a, 2) == TestBit(b, 2) && TestBit(a, 3) == TestBit(b, 3);
    assert TestBit(a, 4) == TestBit(b, 4) && TestBit(a, 5) == TestBit(b, 5);
    assert TestBit(a, 6) == TestBit(b, 6) && TestBit(a, 7) == TestBit(b, 7);
  }

  // ------------------------------------------------------------ byte sequences

  /** `data[i / 8] |= 1 << (i % 8)`, as far as the bytes reach. */
  function SetBit(data: seq<Byte>, i: nat): seq<Byte> {
    if i / 8 < |data| then data[i / 8 := data[i / 8] | Mask(i % 8)] else data
  }

  lemma SetBitAt(data: seq<Byte>, i: nat, j: nat)
    ensures |SetBit(data, i)| == |data|
    ensures DataBit(SetBit(data, i), j) == (DataBit(data, j) || (j == i && i / 8 < |data|))
  {
    if i / 8 < |data| && j / 8 == i / 8 {
      SetByte(data[i / 8], i % 8, j % 8);
      assert j == 8 * (j / 8) + j % 8 && i == 8 * (i / 8) + i % 8;
    }
  }

  function Zeros(n: nat): (r: seq<Byte>)
    ensures |r| == n && forall i :: 0 <= i < n ==> r[i] == 0
  {
    seq(n, _ => 0)
  }

  lemma ZerosAt(n: nat, j: nat)
    ensures !DataBit(Zeros(n), j)
  {
    if j / 8 < n {
      ZeroByte(j % 8);
    }
  }

  /** `Vec::resize(len, 0)` when it does not shrink. */
  function Resized(data: seq<Byte>, len: nat): seq<Byte> {
    if |data| < len then data + Zeros(len - |data|) else data
  }

  lemma ResizedAt(data: seq<Byte>, len: nat, j: nat)
    ensures DataBit(Resized(data, len), j) == DataBit(data, j)
  {
    if |data| <= j / 8 < len {
      ZeroByte(j % 8);
    }
  }

  function ByteCount(bits: nat): nat { (bits + 7) / 8 }

  /** A bit list stores no more bytes than it needs and no bits past its length. */
  ghost predicate Canonical(b: BitList) {
    && |b.data| == ByteCount(b.len)
    && forall i: nat :: i >= b.len ==> !DataBit(b.data, i)
  }

  /** The bits that a bit list denotes. */
  function BitsOf(b: BitList): (r: seq<bool>)
    ensures |r| == b.len
    ensures forall i: nat :: i < b.len ==> r[i] == DataBit(b.data, i)
  {
    seq(b.len, i requires 0 <= i < b.len => DataBit(b.data, i))
  }

  /** Two canonical bit lists that denote the same bits are the same. */
  lemma CanonicalUnique(a: BitList, b: BitList)
    requires Canonical(a) && Canonical(b) && BitsOf(a) == BitsOf(b)
    ensures a == b
  {
    forall k | 0 <= k < |a.data|
      ensures a.data[k] == b.data[k]
    {
      forall bit: nat | bit < 8
        ensures TestBit(a.data[k], bit) == TestBit(b.data[k], bit)
      {
        var i := 8 * k + bit;
        assert i / 8 == k && i % 8 == bit;
        assert DataBit(a.data, i) == DataBit(b.data, i) by {
          if i < a.len {
            assert BitsOf(a)[i] == BitsOf(b)[i];
          }
        }
      }
      ByteExtensional(a.data[k], b.data[k]);
    }
  }
}

/** Bit strings, the encoder's bit writer, and the packing of bits into codewords. */
module QrBits {

  type Octet = x: nat | x < 256

  // ---------------------------------------------------- bits of numbers ---

  /** value >>> n */
  function ShiftRight(value: nat, n: nat): nat {
    if n == 0 then value else ShiftRight(value, n - 1) / 2
  }

  /** The low length bits of value, most significant first. */
  ghost function BitsOf(value: nat, length: nat): (bits: seq<bool>)
    ensures |bits| == length
  {
    if length == 0 then [] else BitsOf(value / 2, length - 1) + [value % 2 == 1]
  }

  /** The number a bit string spells, most significant bit first. */
  function ValueOf(bits: seq<bool>): nat {
    if bits == [] then 0 else
    2 * ValueOf(bits[..|bits| - 1]) + if bits[|bits| - 1] then 1 else 0
  }

  function Pow2(n: nat): (p: nat)
    ensures p > 0
  {
    if n == 0 then 1 else 2 * Pow2(n - 1)
  }

  lemma {:induction false} ValueOfBitsOf(value: nat, length: nat)
    requires value < Pow2(length)
    ensures ValueOf(BitsOf(value, length)) == value
  {
    if length > 0 {
      ValueOfBitsOf(value / 2, length - 1);
      assert BitsOf(value, length)[..length - 1] == BitsOf(value / 2, length - 1);
    }
  }

  lemma Pow2Values()
    ensures Pow2(4) == 16 && Pow2(8) == 0x100 && Pow2(16) == 0x1_0000
  {
    assert Pow2(2) == 4;
    assert Pow2(4) == 4 * Pow2(2);
    assert Pow2(6) == 4 * Pow2(4);
    assert Pow2(8) == 4 * Pow2(6);
    assert Pow2(10) == 4 * Pow2(8);
    assert Pow2(12) == 4 * Pow2(10);
    assert Pow2(14) == 4 * Pow2(12);
    assert Pow2(16) == 4 * Pow2(14);
  }

  lemma {:induction false} BitsOfZero(length: nat)
    ensures BitsOf(0, length) == seq(length, _ => false)
  {
    if length > 0 {
      BitsOfZero(length - 1);
    }
  }

  // ------------------------------------------------ bits of codewords ---

  /** 0x80 >>> j */
  function Mask(j: nat): bv8
    requires j < 8
  {
    if j == 0 then 0x80 else if j == 1 then 0x40 else if j == 2 then 0x20 else if j == 3 then 0x10
    else if j == 4 then 0x08 else if j == 5 then 0x04 else if j == 6 then 0x02 else 0x01
  }

  /** Bit j of a byte, counted from the most significant. */
  function BitAt(byte: bv8, j: nat): bool
    requires j < 8
  {
    byte & Mask(j) != 0
  }

  lemma MaskIsShift(byte: bv8)
    ensures Mask(0) == 0x80 >> 0 && Mask(1) == 0x80 >> 1 && Mask(2) == 0x80 >> 2 && Mask(3) == 0x80 >> 3
    ensures Mask(4) == 0x80 >> 4 && Mask(5) == 0x80 >> 5 && Mask(6) == 0x80 >> 6 && Mask(7) == 0x80 >> 7
    ensures BitAt(byte, 0) == ((byte >> 7) & 1 == 1) && BitAt(byte, 1) == ((byte >> 6) & 1 == 1)
    ensures BitAt(byte, 2) == ((byte >> 5) & 1 == 1) && BitAt(byte, 3) == ((byte >> 4) & 1 == 1)
    ensures BitAt(byte, 4) == ((byte >> 3) & 1 == 1) && BitAt(byte, 5) == ((byte >> 2) & 1 == 1)
    ensures BitAt(byte, 6) == ((byte >> 1) & 1 == 1) && BitAt(byte, 7) == ((byte >> 0) & 1 == 1)
  {
  }

  lemma SetBit(byte: bv8, j: nat, i: nat)
    requires j < 8 && i < 8
    ensures BitAt(byte | Mask(j), i) == (i == j || BitAt(byte, i))
  {
    if i != j {
      MasksAreDisjoint(j, i);
      OrAnd(byte, Mask(j), Mask(i));
    } else {
      OrSelf(byte, Mask(j));
    }
  }

  lemma MasksAreDisjoint(j: nat, i: nat)
    requires j < 8 && i < 8 && i != j
    ensures Mask(j) & Mask(i) == 0
  {
  }

  lemma OrAnd(byte: bv8, m: bv8, n: bv8)
    requires m & n == 0
    ensures (byte | m) & n == byte & n
  {
  }

  lemma OrSelf(byte: bv8, m: bv8)
    ensures (byte | m) & m == m
  {
  }

  lemma BytesWithEqualBits(a: bv8, b: bv8)
    requires forall j :: 0 <= j < 8 ==> BitAt(a, j) == BitAt(b, j)
    ensures a == b
  {
    MaskIsShift(a);
    MaskIsShift(b);
    assert BitAt(a, 0) == BitAt(b, 0) && BitAt(a, 1) == BitAt(b, 1);
    assert BitAt(a, 2) == BitAt(b, 2) && BitAt(a, 3) == BitAt(b, 3);
    assert BitAt(a, 4) == BitAt(b, 4) && BitAt(a, 5) == BitAt(b, 5);
    assert BitAt(a, 6) == BitAt(b, 6) && BitAt(a, 7) == BitAt(b, 7);
  }

  /** The bits of a codeword sequence, in stream order. */
  ghost function StreamBits(codewords: seq<bv8>): (bits: seq<bool>)
    ensures |bits| == 8 * |codewords|
  {
    seq(8 * |codewords|, i requires 0 <= i < 8 * |codewords| => BitAt(codewords[i / 8], i % 8))
  }

  // ------------------------------------------------------------ writer ---

  /** The source's BitWriter. */
  class BitWriter {
    var bits: seq<bool>

    constructor ()
      ensures bits == []
    {
      bits := [];
    }

    /** Appends the low length bits of value, most significant first. */
    method Write(value: nat, length: nat)
      modifies this
      ensures bits == old(bits) + BitsOf(value, length)
    {
      var index: int := length - 1;
      while index >= 0
        invariant -1 <= index < length
        invariant bits == old(bits) + BitsOf(ShiftRight(value, index + 1), length - 1 - index)
      {
        bits := bits + [ShiftRight(value, index) % 2 == 1];
        index := index - 1;
      }
    }

    /** Packs the bits into count bytes; missing bits are zero. */
    method ToCodewords(count: nat) returns (codewords: array<bv8>)
      requires |bits| <= 8 * count
      ensures fresh(codewords) && codewords.Length == count
      ensures forall i :: 0 <= i < 8 * count ==>
        BitAt(codewords[i / 8], i % 8) == (i < |bits| && bits[i])
    {
      hide Mask, BitAt;
      codewords := new bv8[count](_ => 0);
      ZeroByte();
      for index := 0 to |bits|
        invariant forall i :: 0 <= i < 8 * count ==>
          BitAt(codewords[i / 8], i % 8) == (i < index && bits[i])
      {
        if bits[index] {
          ghost var before := codewords[..];
          var byte := index / 8;
          codewords[byte] := codewords[byte] | Mask(index % 8);
          forall i | 0 <= i < 8 * count
            ensures BitAt(codewords[i / 8], i % 8) == (i < index + 1 && bits[i])
          {
            SetBit(before[byte], index % 8, i % 8);
          }
        }
      }
    }
  }

  lemma ZeroByte()
    ensures forall j :: 0 <= j < 8 ==> !BitAt(0, j)
  {
  }
}

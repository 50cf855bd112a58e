/** The data of a symbol written out in hexadecimal digits, four bits at a time. */
module QrDigits {
  import opened QrVersions
  import opened QrBits
  import opened QrPayload

  type Digit = d: nat | d < 16

  function FourBits(digit: Digit): (bits: seq<bool>)
    ensures |bits| == 4
  {
    if digit == 0 then [false, false, false, false]
    else if digit == 1 then [false, false, false, true]
    else if digit == 2 then [false, false, true, false]
    else if digit == 3 then [false, false, true, true]
    else if digit == 4 then [false, true, false, false]
    else if digit == 5 then [false, true, false, true]
    else if digit == 6 then [false, true, true, false]
    else if digit == 7 then [false, true, true, true]
    else if digit == 8 then [true, false, false, false]
    else if digit == 9 then [true, false, false, true]
    else if digit == 10 then [true, false, true, false]
    else if digit == 11 then [true, false, true, true]
    else if digit == 12 then [true, true, false, false]
    else if digit == 13 then [true, true, false, true]
    else if digit == 14 then [true, true, true, false]
    else [true, true, true, true]
  }

  ghost function Spelled(digits: seq<Digit>): (bits: seq<bool>) {
    if digits == [] then [] else Spelled(digits[..|digits| - 1]) + FourBits(digits[|digits| - 1])
  }

  /** Byte mode is four; the length has two digits up to version 9 and four in version 10. */
  function HeaderDigits(length: nat, version: Version): seq<Digit>
    requires length < if version < 10 then 0x100 else 0x1_0000
  {
    if version < 10 then [4, length / 16, length % 16]
    else [4, length / 4096, length / 256 % 16, length / 16 % 16, length % 16]
  }

  ghost function PayloadDigits(payload: seq<Octet>): seq<Digit> {
    if payload == [] then [] else
    var last := payload[|payload| - 1];
    PayloadDigits(payload[..|payload| - 1]) + [last / 16, last % 16]
  }

  /** EC, 11, EC, 11 and so on. */
  ghost function PadDigits(count: nat): seq<Digit> {
    if count == 0 then [] else PadDigits(count - 1) + if count % 2 == 1 then [0xe, 0xc] else [1, 1]
  }

  lemma {:induction false} SpelledConcat(a: seq<Digit>, b: seq<Digit>)
    ensures Spelled(a + b) == Spelled(a) + Spelled(b)
  {
    hide FourBits;
    if b == [] {
      assert a + b == a;
    } else {
      var front, last := b[..|b| - 1], b[|b| - 1];
      assert (a + b)[..|a + b| - 1] == a + front;
      SpelledConcat(a, front);
    }
  }

  lemma SpelledNone()
    ensures Spelled([]) == []
  {
  }

  lemma SpelledOne(digit: Digit)
    ensures Spelled([digit]) == FourBits(digit)
  {
    hide FourBits;
    assert [digit][..0] == [];
  }

  lemma SpelledTwo(a: Digit, b: Digit)
    ensures Spelled([a, b]) == FourBits(a) + FourBits(b)
  {
    hide FourBits, Spelled;
    SpelledOne(a);
    SpelledOne(b);
    SpelledConcat([a], [b]);
    assert [a, b] == [a] + [b];
  }

  lemma BitsOfFour(value: nat)
    ensures BitsOf(value, 4) == [value / 8 % 2 == 1, value / 4 % 2 == 1, value / 2 % 2 == 1, value % 2 == 1]
  {
    assert BitsOf(value, 4) == BitsOf(value / 2, 3) + [value % 2 == 1];
    assert BitsOf(value / 2, 3) == BitsOf(value / 2 / 2, 2) + [value / 2 % 2 == 1];
    assert BitsOf(value / 2 / 2, 2) == BitsOf(value / 2 / 2 / 2, 1) + [value / 2 / 2 % 2 == 1];
    assert BitsOf(value / 2 / 2 / 2, 1) == [value / 2 / 2 / 2 % 2 == 1];
  }

  lemma DigitBits(digit: Digit)
    ensures BitsOf(digit, 4) == FourBits(digit)
  {
    hide BitsOf;
    BitsOfFour(digit);
  }

  lemma LastTwo(value: nat, length: nat)
    ensures BitsOf(value, length + 2) == BitsOf(value / 4, length) + [value / 2 % 2 == 1, value % 2 == 1]
  {
    assert value / 2 / 2 == value / 4;
    assert BitsOf(value, length + 2) == BitsOf(value / 2, length + 1) + [value % 2 == 1];
    assert BitsOf(value / 2, length + 1) == BitsOf(value / 4, length) + [value / 2 % 2 == 1];
  }

  lemma LastFour(value: nat, length: nat)
    ensures BitsOf(value, length + 4)
         == BitsOf(value / 16, length) + [value / 8 % 2 == 1, value / 4 % 2 == 1, value / 2 % 2 == 1, value % 2 == 1]
  {
    hide BitsOf;
    LastTwo(value, length + 2);
    LastTwo(value / 4, length);
    assert value / 4 / 4 == value / 16 && value / 4 / 2 == value / 8;
  }

  lemma LastDigit(value: nat, length: nat)
    ensures BitsOf(value, length + 4) == BitsOf(value / 16, length) + FourBits(value % 16)
  {
    hide FourBits, BitsOf;
    LastFour(value, length);
    DigitBits(value % 16);
    BitsOfFour(value % 16);
    LastDigitBits(value);
  }

  lemma LastDigitBits(value: nat)
    ensures var d := value % 16;
      d / 8 % 2 == value / 8 % 2 && d / 4 % 2 == value / 4 % 2 && d / 2 % 2 == value / 2 % 2 && d % 2 == value % 2
  {
    var q, d := value / 16, value % 16;
    assert value / 8 == 2 * q + d / 8;
    assert value / 4 == 4 * q + d / 4;
    assert value / 2 == 8 * q + d / 2;
    EvenMore(d / 8, q);
    EvenMore(d / 4, 2 * q);
    EvenMore(d / 2, 4 * q);
    EvenMore(d, 8 * q);
  }

  lemma EvenMore(x: nat, k: nat)
    ensures (x + 2 * k) % 2 == x % 2
  {
  }

  lemma ByteBits(value: nat)
    requires value < 256
    ensures BitsOf(value, 8) == FourBits(value / 16) + FourBits(value % 16)
  {
    LastDigit(value, 4);
    DigitBits(value / 16);
    hide FourBits, BitsOf;
  }

  lemma WordBits(value: nat)
    requires value < 0x1_0000
    ensures BitsOf(value, 16)
         == FourBits(value / 4096) + FourBits(value / 256 % 16) + FourBits(value / 16 % 16) + FourBits(value % 16)
  {
    LastDigit(value, 12);
    LastDigit(value / 16, 8);
    ByteBits(value / 256);
    hide FourBits, BitsOf;
    assert value / 16 / 16 == value / 256 && value / 256 / 16 == value / 4096;
  }

  lemma HeaderInDigits(length: nat, version: Version)
    requires length < if version < 10 then 0x100 else 0x1_0000
    ensures BitsOf(4, 4) + BitsOf(length, CharacterCountBits(version)) == Spelled(HeaderDigits(length, version))
  {
    hide FourBits, BitsOf, Spelled;
    DigitBits(4);
    SpelledOne(4);
    if version < 10 {
      ByteBits(length);
      SpelledTwo(length / 16, length % 16);
      SpelledConcat([4], [length / 16, length % 16]);
      assert HeaderDigits(length, version) == [4] + [length / 16, length % 16];
    } else {
      WordBits(length);
      SpelledTwo(length / 4096, length / 256 % 16);
      SpelledTwo(length / 16 % 16, length % 16);
      var high: seq<Digit>, low: seq<Digit> := [length / 4096, length / 256 % 16], [length / 16 % 16, length % 16];
      SpelledConcat([4], high);
      SpelledConcat([4] + high, low);
      assert HeaderDigits(length, version) == [4] + high + low;
    }
  }

  lemma {:induction false} PayloadInDigits(payload: seq<Octet>)
    ensures PayloadBits(payload) == Spelled(PayloadDigits(payload))
  {
    hide FourBits, BitsOf;
    if payload != [] {
      var front, last := payload[..|payload| - 1], payload[|payload| - 1];
      PayloadInDigits(front);
      ByteBits(last);
      SpelledTwo(last / 16, last % 16);
      SpelledConcat(PayloadDigits(front), [last / 16, last % 16]);
    }
  }

  lemma {:induction false} PadsInDigits(count: nat)
    ensures PadBits(count) == Spelled(PadDigits(count))
  {
    hide FourBits, BitsOf, Spelled;
    if count == 0 {
      SpelledNone();
    } else {
      PadsInDigits(count - 1);
      if count % 2 == 1 {
        ByteBits(0xec);
        SpelledTwo(0xe, 0xc);
        SpelledConcat(PadDigits(count - 1), [0xe, 0xc]);
      } else {
        ByteBits(0x11);
        SpelledTwo(1, 1);
        SpelledConcat(PadDigits(count - 1), [1, 1]);
      }
    }
  }

  /** How many whole codewords follow the payload, its header and the closing zero digit. */
  function PadCount(length: nat, version: Version): int {
    DataCodewordCount(SpecFor(version)) - length - if version < 10 then 2 else 3
  }

  /**
   The data codewords of a symbol: header, payload, one zero digit, pads. Other terminators never arise, since header
   and payload always end in the middle of a codeword.
   */
  lemma DataInDigits(payload: seq<Octet>, version: Version)
    requires Fits(payload, version)
    ensures |payload| < if version < 10 then 0x100 else 0x1_0000
    ensures PadCount(|payload|, version) >= 0
    ensures DataBits(payload, version)
         == Spelled(HeaderDigits(|payload|, version) + PayloadDigits(payload) + [0] + PadDigits(PadCount(|payload|, version)))
  {
    hide FourBits, BitsOf, Spelled, PayloadBits, PadBits, SpecFor, HeaderDigits, PayloadDigits, PadDigits, ByteCapacity, DataBits;
    DataInParts(payload, version);
    var pads := PadCount(|payload|, version);
    var header, body, tail := HeaderDigits(|payload|, version), PayloadDigits(payload), PadDigits(pads);
    PayloadInDigits(payload);
    PadsInDigits(pads);
    DigitBits(0);
    SpelledOne(0);
    SpelledConcat(header, body);
    SpelledConcat(header + body, [0]);
    SpelledConcat(header + body + [0], tail);
  }

  lemma DataInParts(payload: seq<Octet>, version: Version)
    requires Fits(payload, version)
    ensures |payload| < if version < 10 then 0x100 else 0x1_0000
    ensures PadCount(|payload|, version) >= 0
    ensures DataBits(payload, version)
         == Spelled(HeaderDigits(|payload|, version)) + PayloadBits(payload) + BitsOf(0, 4) + PadBits(PadCount(|payload|, version))
  {
    hide FourBits, BitsOf, Spelled, PayloadBits, PadBits, SpecFor, HeaderDigits, ByteCapacity;
    hide ZeroFill, DataCodewordCount, PadCount, CharacterCountBits;
    CapacityIsEnough(version, |payload|);
    FillIsFour(|payload|, version);
    HeaderInDigits(|payload|, version);
  }

  lemma FillIsFour(length: nat, version: Version)
    requires 4 + CharacterCountBits(version) + 8 * length <= 8 * DataCodewordCount(SpecFor(version))
    ensures var used, capacity := 4 + CharacterCountBits(version) + 8 * length, 8 * DataCodewordCount(SpecFor(version));
      ZeroFill(used, capacity) == 4 && (capacity - used - 4) / 8 == PadCount(length, version) >= 0
  {
    hide SpecFor;
  }
}

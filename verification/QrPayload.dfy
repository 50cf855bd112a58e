/**
 The data part of a QR symbol: one byte-mode segment, terminator and padding, cut into
 blocks, each block followed by its error correction, all interleaved.
 The second half is the reader that undoes it.
 */
module QrPayload {
  import opened Arithmetic
  import opened Options
  import opened QrVersions
  import opened QrBits
  import opened Interleaving
  import Gf256
  import ReedSolomon

  // ----------------------------------------------------------- segment ---

  ghost function PayloadBits(payload: seq<Octet>): (bits: seq<bool>)
    ensures |bits| == 8 * |payload|
  {
    if payload == [] then [] else
    PayloadBits(payload[..|payload| - 1]) + BitsOf(payload[|payload| - 1], 8)
  }

  /** Alternating pad codewords. */
  ghost function PadBits(count: nat): (bits: seq<bool>)
    ensures |bits| == 8 * count
  {
    if count == 0 then [] else
    PadBits(count - 1) + BitsOf(if (count - 1) % 2 == 0 then 0xec else 0x11, 8)
  }

  /** Mode indicator, length, payload. */
  ghost function SegmentBits(payload: seq<Octet>, version: Version): (bits: seq<bool>)
    ensures |bits| == 4 + CharacterCountBits(version) + 8 * |payload|
  {
    BitsOf(4, 4) + BitsOf(|payload|, CharacterCountBits(version)) + PayloadBits(payload)
  }

  ghost predicate Fits(payload: seq<Octet>, version: Version) {
    |payload| <= ByteCapacity(version)
  }

  /** How many zero bits end the segment: four where they fit, then up to a whole codeword. */
  function ZeroFill(used: nat, capacity: nat): nat
    requires used <= capacity && capacity % 8 == 0
    ensures used + ZeroFill(used, capacity) <= capacity
    ensures (used + ZeroFill(used, capacity)) % 8 == 0
  {
    var terminator := Min(4, capacity - used);
    terminator + if (used + terminator) % 8 != 0 then 8 - (used + terminator) % 8 else 0
  }

  /** Everything before error correction: segment, zero fill, pad codewords up to capacity. */
  ghost function DataBits(payload: seq<Octet>, version: Version): (bits: seq<bool>)
    requires Fits(payload, version)
    ensures |bits| == 8 * DataCodewordCount(SpecFor(version))
  {
    hide SpecFor, ByteCapacity, SegmentBits, BitsOf, PadBits;
    CapacityIsEnough(version, |payload|);
    var segment := SegmentBits(payload, version);
    var capacity := 8 * DataCodewordCount(SpecFor(version));
    var fill := ZeroFill(|segment|, capacity);
    segment + BitsOf(0, fill) + PadBits((capacity - |segment| - fill) / 8)
  }

  /** The first half of the source's buildCodewords. */
  method BuildData(payload: seq<Octet>, version: Version) returns (data: seq<bv8>)
    requires Fits(payload, version)
    ensures |data| == DataCodewordCount(SpecFor(version))
    ensures StreamBits(data) == DataBits(payload, version)
  {
    hide Mask, BitAt, SpecFor, ByteCapacity, SegmentBits, PadBits, BitsOf, ZeroFill;
    CapacityIsEnough(version, |payload|);
    var count := DataCodewordCount(SpecFor(version));
    var writer := new BitWriter();
    WriteSegment(writer, payload, version);
    WriteZeroFill(writer, 8 * count);
    WritePads(writer, (8 * count - |writer.bits|) / 8);
    assert writer.bits == DataBits(payload, version);
    var codewords := writer.ToCodewords(count);
    data := codewords[..];
    assert StreamBits(data) == writer.bits;
  }

  method WriteSegment(writer: BitWriter, payload: seq<Octet>, version: Version)
    requires writer.bits == []
    modifies writer
    ensures writer.bits == SegmentBits(payload, version)
  {
    hide BitsOf, PayloadBits;
    writer.Write(4, 4);
    writer.Write(|payload|, CharacterCountBits(version));
    WritePayload(writer, payload);
  }

  method WriteZeroFill(writer: BitWriter, capacity: nat)
    requires |writer.bits| <= capacity && capacity % 8 == 0
    modifies writer
    ensures writer.bits == old(writer.bits) + BitsOf(0, ZeroFill(|old(writer.bits)|, capacity))
  {
    hide BitsOf;
    var terminator := Min(4, capacity - |writer.bits|);
    writer.Write(0, terminator);
    if |writer.bits| % 8 != 0 {
      BitsOfZeroConcat(terminator, 8 - |writer.bits| % 8);
      writer.Write(0, 8 - |writer.bits| % 8);
    }
  }

  lemma BitsOfZeroConcat(m: nat, n: nat)
    ensures BitsOf(0, m) + BitsOf(0, n) == BitsOf(0, m + n)
  {
    BitsOfZero(m);
    BitsOfZero(n);
    BitsOfZero(m + n);
  }

  method WritePayload(writer: BitWriter, payload: seq<Octet>)
    modifies writer
    ensures writer.bits == old(writer.bits) + PayloadBits(payload)
  {
    for k := 0 to |payload|
      invariant writer.bits == old(writer.bits) + PayloadBits(payload[..k])
    {
      assert payload[..k + 1][..k] == payload[..k];
      writer.Write(payload[k], 8);
    }
    assert payload[..|payload|] == payload;
  }

  method WritePads(writer: BitWriter, count: nat)
    modifies writer
    ensures writer.bits == old(writer.bits) + PadBits(count)
  {
    for index := 0 to count
      invariant writer.bits == old(writer.bits) + PadBits(index)
    {
      writer.Write(if index % 2 == 0 then 0xec else 0x11, 8);
    }
  }

  // ------------------------------------------------------------ blocks ---

  function Repeat(n: nat, size: nat): (sizes: seq<nat>)
    ensures |sizes| == n
  {
    if n == 0 then [] else Repeat(n - 1, size) + [size]
  }

  /** The data sizes of the blocks, in order. */
  function BlockSizes(spec: VersionSpec): (sizes: seq<nat>)
    ensures |sizes| == BlockCount(spec)
  {
    Repeat(spec.group1.blocks, spec.group1.size) +
    match spec.group2 case None => [] case Some(g) => Repeat(g.blocks, g.size)
  }

  /** Cuts data into consecutive slices of the given sizes. */
  ghost function Split(data: seq<bv8>, sizes: seq<nat>): (blocks: seq<seq<bv8>>)
    requires |data| == Sum(sizes)
    ensures |blocks| == |sizes|
    decreases |sizes|
  {
    if sizes == [] then [] else
    var n := |sizes| - 1;
    Split(data[..Sum(sizes[..n])], sizes[..n]) + [data[Sum(sizes[..n])..]]
  }

  ghost function ErrorCorrection(blocks: seq<seq<bv8>>, ecc: nat): (parity: seq<seq<bv8>>)
    ensures |parity| == |blocks|
  {
    seq(|blocks|, b requires 0 <= b < |blocks| => ReedSolomon.Remainder(blocks[b], ecc))
  }

  function Longest(spec: VersionSpec): nat {
    match spec.group2
    case None => spec.group1.size
    case Some(g) => if g.size < spec.group1.size then spec.group1.size else g.size
  }

  /** The codeword stream of a symbol, as the interleaved data blocks and error-correction blocks. */
  ghost function CodewordStream(data: seq<bv8>, spec: VersionSpec): seq<bv8>
    requires |data| == Sum(BlockSizes(spec))
  {
    var blocks := Split(data, BlockSizes(spec));
    Columns(blocks, Longest(spec)) + Columns(ErrorCorrection(blocks, spec.eccPerBlock), spec.eccPerBlock)
  }

  lemma SizesSum(version: Version)
    ensures Sum(BlockSizes(SpecFor(version))) == DataCodewordCount(SpecFor(version))
    ensures Covers(BlockSizes(SpecFor(version)), Longest(SpecFor(version)))
  {
    hide SpecFor, Repeat;
    var spec := SpecFor(version);
    RepeatSum(spec.group1.blocks, spec.group1.size);
    if spec.group2.Some? {
      var g := spec.group2.value;
      RepeatSum(g.blocks, g.size);
      SumConcat(Repeat(spec.group1.blocks, spec.group1.size), Repeat(g.blocks, g.size));
    } else {
      SumConcat(Repeat(spec.group1.blocks, spec.group1.size), []);
    }
  }

  lemma {:induction false} RepeatSum(n: nat, size: nat)
    ensures Sum(Repeat(n, size)) == n * size
    ensures forall b :: 0 <= b < n ==> Repeat(n, size)[b] == size
  {
    if n > 0 {
      RepeatSum(n - 1, size);
      assert n * size == (n - 1) * size + size;
    }
  }

  lemma {:induction false} SumConcat(a: seq<nat>, b: seq<nat>)
    ensures Sum(a + b) == Sum(a) + Sum(b)
  {
    if b == [] {
      assert a + b == a;
    } else {
      assert (a + b)[..|a + b| - 1] == a + b[..|b| - 1];
      SumConcat(a, b[..|b| - 1]);
    }
  }

  lemma SplitStep(data: seq<bv8>, sizes: seq<nat>, size: nat)
    requires Sum(sizes) + size <= |data|
    ensures Sum(sizes + [size]) == Sum(sizes) + size
    ensures Split(data[..Sum(sizes) + size], sizes + [size])
         == Split(data[..Sum(sizes)], sizes) + [data[Sum(sizes)..Sum(sizes) + size]]
  {
    var all := sizes + [size];
    assert all[..|all| - 1] == sizes;
    assert data[..Sum(sizes) + size][..Sum(sizes)] == data[..Sum(sizes)];
    assert data[..Sum(sizes) + size][Sum(sizes)..] == data[Sum(sizes)..Sum(sizes) + size];
  }

  /** The inner loop of the source's block splitting, for one group of equally long blocks. */
  method CutGroup(gf: Gf256.Tables, data: seq<bv8>, start: nat, group: Group, ecc: nat,
                  dataBlocks: seq<seq<bv8>>, eccBlocks: seq<seq<bv8>>, ghost sizes: seq<nat>)
    returns (offset: nat, dataBlocks': seq<seq<bv8>>, eccBlocks': seq<seq<bv8>>)
    requires gf.Valid() && ecc <= 512 && start == Sum(sizes)
    requires Sum(sizes) + group.blocks * group.size <= |data|
    requires dataBlocks == Split(data[..Sum(sizes)], sizes)
    requires eccBlocks == ErrorCorrection(dataBlocks, ecc)
    ensures var all := sizes + Repeat(group.blocks, group.size);
      && offset == Sum(all) == start + group.blocks * group.size
      && dataBlocks' == Split(data[..Sum(all)], all)
      && eccBlocks' == ErrorCorrection(dataBlocks', ecc)
  {
    hide Sum, Split, Repeat, ReedSolomon.Remainder;
    offset := start;
    dataBlocks', eccBlocks' := dataBlocks, eccBlocks;
    ghost var all := sizes + Repeat(0, group.size);
    RepeatZero(group.size);
    assert all == sizes;
    for block := 0 to group.blocks
      invariant all == sizes + Repeat(block, group.size)
      invariant offset == Sum(all) == start + block * group.size
      invariant offset <= |data|
      invariant dataBlocks' == Split(data[..offset], all)
      invariant eccBlocks' == ErrorCorrection(dataBlocks', ecc)
    {
      NextBlockFits(block, group);
      SplitStep(data, all, group.size);
      RepeatStep(block, group.size);
      var slice := data[offset..offset + group.size];
      offset := offset + group.size;
      var parity := ReedSolomon.ComputeRemainder(gf, slice, ecc);
      dataBlocks' := dataBlocks' + [slice];
      eccBlocks' := eccBlocks' + [parity[..]];
      all := all + [group.size];
    }
  }

  lemma NextBlockFits(block: nat, group: Group)
    requires block < group.blocks
    ensures block * group.size + group.size == (block + 1) * group.size <= group.blocks * group.size
  {
  }

  lemma RepeatZero(size: nat)
    ensures Repeat(0, size) == []
  {
  }

  lemma RepeatStep(n: nat, size: nat)
    ensures Repeat(n + 1, size) == Repeat(n, size) + [size]
  {
  }

  /** The source's buildCodewords. */
  method BuildCodewords(gf: Gf256.Tables, payload: seq<Octet>, version: Version) returns (codewords: seq<bv8>)
    requires gf.Valid() && Fits(payload, version)
    ensures exists data: seq<bv8> ::
      && |data| == Sum(BlockSizes(SpecFor(version)))
      && StreamBits(data) == DataBits(payload, version)
      && codewords == CodewordStream(data, SpecFor(version))
  {
    hide Fits, DataBits, StreamBits, SpecFor, Sum, Repeat, Split, ReedSolomon.Remainder;
    var spec := SpecFor(version);
    SizesSum(version);
    EccIsSmall(version);
    var data := BuildData(payload, version);
    var dataBlocks, eccBlocks := CutBlocks(gf, data, spec);
    var first := Interleave(dataBlocks, Longest(spec));
    var second := Interleave(eccBlocks, spec.eccPerBlock);
    codewords := first + second;
  }

  /** The outer loop of the block splitting, over one or two groups. */
  method CutBlocks(gf: Gf256.Tables, data: seq<bv8>, spec: VersionSpec)
    returns (dataBlocks: seq<seq<bv8>>, eccBlocks: seq<seq<bv8>>)
    requires gf.Valid() && spec.eccPerBlock <= 512
    requires |data| == Sum(BlockSizes(spec)) == DataCodewordCount(spec)
    ensures dataBlocks == Split(data, BlockSizes(spec))
    ensures eccBlocks == ErrorCorrection(dataBlocks, spec.eccPerBlock)
  {
    hide Repeat, ReedSolomon.Remainder;
    assert data[..0] == [];
    assert data[..|data|] == data;
    var sizes1: seq<nat> := Repeat(spec.group1.blocks, spec.group1.size);
    assert [] + sizes1 == sizes1;
    var offset;
    offset, dataBlocks, eccBlocks := CutGroup(gf, data, 0, spec.group1, spec.eccPerBlock, [], [], []);
    match spec.group2
    case None =>
      assert sizes1 + [] == sizes1;
    case Some(g) =>
      offset, dataBlocks, eccBlocks := CutGroup(gf, data, offset, g, spec.eccPerBlock, dataBlocks, eccBlocks, sizes1);
  }

  lemma EccIsSmall(version: Version)
    ensures SpecFor(version).eccPerBlock <= 26
  {
  }

  // ------------------------------------------------------------ reader ---

  ghost function Flatten(blocks: seq<seq<bv8>>): seq<bv8> {
    if blocks == [] then [] else Flatten(blocks[..|blocks| - 1]) + blocks[|blocks| - 1]
  }

  lemma {:induction false} FlattenSplit(data: seq<bv8>, sizes: seq<nat>)
    requires |data| == Sum(sizes)
    ensures Flatten(Split(data, sizes)) == data
    ensures Lengths(Split(data, sizes)) == sizes
    decreases |sizes|
  {
    if sizes == [] {
    } else {
      SplitLast(data, sizes);
      hide Flatten, Lengths, Sum, Split;
      var n := |sizes| - 1;
      var cut := Sum(sizes[..n]);
      FlattenSplit(data[..cut], sizes[..n]);
      FlattenPush(Split(data[..cut], sizes[..n]), data[cut..]);
    }
  }

  lemma SplitLast(data: seq<bv8>, sizes: seq<nat>)
    requires |data| == Sum(sizes) && sizes != []
    ensures var n := |sizes| - 1;
      var cut := Sum(sizes[..n]);
      && cut <= |data| && sizes == sizes[..n] + [|data[cut..]|] && data == data[..cut] + data[cut..]
      && Split(data, sizes) == Split(data[..cut], sizes[..n]) + [data[cut..]]
  {
  }

  lemma FlattenPush(blocks: seq<seq<bv8>>, block: seq<bv8>)
    ensures Flatten(blocks + [block]) == Flatten(blocks) + block
    ensures Lengths(blocks + [block]) == Lengths(blocks) + [|block|]
  {
    assert (blocks + [block])[..|blocks|] == blocks;
  }

  ghost function ReadOctets(bits: seq<bool>, count: nat): (octets: seq<nat>)
    requires |bits| >= 8 * count
    ensures |octets| == count
  {
    seq(count, k requires 0 <= k < count => ValueOf(bits[8 * k..8 * k + 8]))
  }

  /** Parses a byte-mode segment: mode 0100, a length, that many octets. */
  ghost function ParseSegment(bits: seq<bool>, version: Version): Option<seq<nat>> {
    var header := 4 + CharacterCountBits(version);
    if |bits| < header || ValueOf(bits[..4]) != 4 then None else
    var count := ValueOf(bits[4..header]);
    if |bits| < header + 8 * count then None else Some(ReadOctets(bits[header..], count))
  }

  /** The payload of a codeword stream: de-interleave the data blocks, join them, parse. */
  ghost function ReadCodewords(stream: seq<bv8>, version: Version): Option<seq<nat>> {
    var sizes := BlockSizes(SpecFor(version));
    if !PositionsIn(sizes, |stream|) then None else
    ParseSegment(StreamBits(Flatten(Deinterleave(stream, sizes))), version)
  }

  lemma {:induction false} PayloadBitsAt(payload: seq<Octet>, k: nat)
    requires k < |payload|
    ensures PayloadBits(payload)[8 * k..8 * k + 8] == BitsOf(payload[k], 8)
  {
    hide BitsOf;
    var n := |payload| - 1;
    var front, last := PayloadBits(payload[..n]), BitsOf(payload[n], 8);
    assert PayloadBits(payload) == front + last && |front| == 8 * n;
    if k < n {
      PayloadBitsAt(payload[..n], k);
      assert (front + last)[8 * k..8 * k + 8] == front[8 * k..8 * k + 8];
    } else {
      assert (front + last)[8 * k..8 * k + 8] == last;
    }
  }

  lemma ReadOctetsOfPayload(payload: seq<Octet>, rest: seq<bool>)
    ensures ReadOctets(PayloadBits(payload) + rest, |payload|) == payload
  {
    hide BitsOf, ValueOf, PayloadBits;
    var bits := PayloadBits(payload) + rest;
    forall k | 0 <= k < |payload|
      ensures ReadOctets(bits, |payload|)[k] == payload[k]
    {
      assert bits[8 * k..8 * k + 8] == PayloadBits(payload)[8 * k..8 * k + 8];
      PayloadBitsAt(payload, k);
      Pow2Values();
      ValueOfBitsOf(payload[k], 8);
    }
  }

  lemma ParseDataBits(payload: seq<Octet>, version: Version)
    requires Fits(payload, version)
    ensures ParseSegment(DataBits(payload, version), version) == Some(payload)
  {
    hide SpecFor, PadBits, ZeroFill, PayloadBits, ReadOctets, ByteCapacity, BitsOf, ValueOf;
    CapacityIsEnough(version, |payload|);
    var header := 4 + CharacterCountBits(version);
    var bits := DataBits(payload, version);
    var segment := SegmentBits(payload, version);
    var rest := bits[|segment|..];
    assert bits == segment + rest;
    Pow2Values();
    ValueOfBitsOf(4, 4);
    ValueOfBitsOf(|payload|, CharacterCountBits(version));
    assert bits[..4] == BitsOf(4, 4);
    assert bits[4..header] == BitsOf(|payload|, CharacterCountBits(version));
    assert bits[header..] == PayloadBits(payload) + rest;
    ReadOctetsOfPayload(payload, rest);
  }

  /** Reading the codeword stream that was built for a payload gives the payload back. */
  lemma ReadBuiltCodewords(payload: seq<Octet>, version: Version, data: seq<bv8>)
    requires Fits(payload, version)
    requires |data| == Sum(BlockSizes(SpecFor(version)))
    requires StreamBits(data) == DataBits(payload, version)
    ensures ReadCodewords(CodewordStream(data, SpecFor(version)), version) == Some(payload)
  {
    hide SpecFor, DataBits, StreamBits, ParseSegment, Fits;
    var spec := SpecFor(version);
    var sizes := BlockSizes(spec);
    var blocks := Split(data, sizes);
    SizesSum(version);
    FlattenSplit(data, sizes);
    DeinterleaveInterleave(blocks, Longest(spec),
      Columns(ErrorCorrection(blocks, spec.eccPerBlock), spec.eccPerBlock));
    ParseDataBits(payload, version);
  }

  lemma CodewordStreamSize(data: seq<bv8>, version: Version)
    requires |data| == Sum(BlockSizes(SpecFor(version)))
    ensures |CodewordStream(data, SpecFor(version))| == TotalCodewords(version)
  {
    hide SpecFor, Sum, Split, Columns, PositionsIn, ReedSolomon.Remainder;
    var spec := SpecFor(version);
    var sizes := BlockSizes(spec);
    var blocks := Split(data, sizes);
    var parity := ErrorCorrection(blocks, spec.eccPerBlock);
    SizesSum(version);
    FlattenSplit(data, sizes);
    DeinterleaveInterleave(blocks, Longest(spec), []);
    DeinterleaveInterleave(parity, spec.eccPerBlock, []);
    RepeatSum(BlockCount(spec), spec.eccPerBlock);
    assert Lengths(parity) == Repeat(BlockCount(spec), spec.eccPerBlock);
  }

  // -------------------------------------------------- error correction ---

  lemma BlocksAreShort(version: Version, b: nat)
    requires b < BlockCount(SpecFor(version))
    ensures BlockSizes(SpecFor(version))[b] + SpecFor(version).eccPerBlock <= 255
  {
    hide SpecFor;
    var spec := SpecFor(version);
    LongestIsShort(version);
    SizesSum(version);
  }

  lemma LongestIsShort(version: Version)
    ensures Longest(SpecFor(version)) + SpecFor(version).eccPerBlock <= 255
  {
  }

  /**
   In every block of every version, as many byte errors as half the error-correction codewords
   leave the data of the block determined.
   */
  lemma BlockSurvivesErrors(version: Version, b: nat, sent: seq<bv8>, other: seq<bv8>, received: seq<bv8>)
    requires b < BlockCount(SpecFor(version))
    requires |sent| == |other| == BlockSizes(SpecFor(version))[b]
    requires |received| == |sent| + SpecFor(version).eccPerBlock
    requires var ecc := SpecFor(version).eccPerBlock;
      && 2 * |ReedSolomon.Differences(sent + ReedSolomon.Remainder(sent, ecc), received)| <= ecc
      && 2 * |ReedSolomon.Differences(other + ReedSolomon.Remainder(other, ecc), received)| <= ecc
    ensures sent == other
  {
    hide SpecFor, BlockSizes, ReedSolomon.Remainder, ReedSolomon.Differences;
    BlocksAreShort(version, b);
    ReedSolomon.FewErrorsAreCorrectable(sent, other, SpecFor(version).eccPerBlock, received);
  }
}

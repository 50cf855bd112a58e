/** What the codeword stream of a symbol carries, told by reading it. */
module QrStream {
  import opened QrVersions
  import opened QrBits
  import opened QrPayload
  import opened QrDigits
  import opened Interleaving
  import ReedSolomon

  /** The sizes of the error-correction blocks. */
  function EccSizes(spec: VersionSpec): (sizes: seq<nat>) {
    Repeat(BlockCount(spec), spec.eccPerBlock)
  }

  ghost predicate Readable(stream: seq<bv8>, version: Version) {
    var spec := SpecFor(version);
    var count := DataCodewordCount(spec);
    && count <= |stream| == TotalCodewords(version)
    && PositionsIn(BlockSizes(spec), count) && PositionsIn(EccSizes(spec), |stream| - count)
  }

  /** The data blocks, from the front of the stream. */
  ghost function DataBlocks(stream: seq<bv8>, version: Version): seq<seq<bv8>>
    requires Readable(stream, version)
  {
    Deinterleave(stream[..DataCodewordCount(SpecFor(version))], BlockSizes(SpecFor(version)))
  }

  /** The error-correction blocks, from the rest. */
  ghost function ParityBlocks(stream: seq<bv8>, version: Version): seq<seq<bv8>>
    requires Readable(stream, version)
  {
    Deinterleave(stream[DataCodewordCount(SpecFor(version))..], EccSizes(SpecFor(version)))
  }

  /** What the data of a symbol must be. */
  ghost function DataDigits(payload: seq<Octet>, version: Version): seq<Digit>
    requires Fits(payload, version)
  {
    DataInDigits(payload, version);
    HeaderDigits(|payload|, version) + PayloadDigits(payload) + [0] + PadDigits(PadCount(|payload|, version))
  }

  /** The joined data blocks spell the payload, and every block with its parity is a codeword. */
  ghost predicate Carries(stream: seq<bv8>, payload: seq<Octet>, version: Version) {
    var ecc := SpecFor(version).eccPerBlock;
    Readable(stream, version) && Fits(payload, version) &&
    var data, parity := DataBlocks(stream, version), ParityBlocks(stream, version);
    && StreamBits(Flatten(data)) == Spelled(DataDigits(payload, version))
    && |data| == |parity|
    && (forall b :: 0 <= b < |data| ==> |parity[b]| == ecc && ReedSolomon.Vanishes(data[b] + parity[b], ecc))
  }

  lemma StreamInHalves(data: seq<bv8>, version: Version, stream: seq<bv8>, blocks: seq<seq<bv8>>)
    requires |data| == Sum(BlockSizes(SpecFor(version)))
    requires stream == CodewordStream(data, SpecFor(version)) && blocks == Split(data, BlockSizes(SpecFor(version)))
    ensures Readable(stream, version) && Flatten(blocks) == data
    ensures DataBlocks(stream, version) == blocks
    ensures ParityBlocks(stream, version) == ErrorCorrection(blocks, SpecFor(version).eccPerBlock)
  {
    hide SpecFor, Split, Columns, PositionsIn, Deinterleave, ErrorCorrection, Flatten, DataCodewordCount, BlockCount, BlockSizes, Repeat;
    var spec := SpecFor(version);
    var sizes := BlockSizes(spec);
    var parity := ErrorCorrection(blocks, spec.eccPerBlock);
    SizesSum(version);
    FlattenSplit(data, sizes);
    CodewordStreamSize(data, version);
    var first, second := Columns(blocks, Longest(spec)), Columns(parity, spec.eccPerBlock);
    DeinterleaveInterleave(blocks, Longest(spec), []);
    ParitySizes(blocks, spec);
    DeinterleaveInterleave(parity, spec.eccPerBlock, []);
    assert first + [] == first && second + [] == second;
    assert (first + second)[..|first|] == first && (first + second)[|first|..] == second;
  }

  lemma ParitySizes(blocks: seq<seq<bv8>>, spec: VersionSpec)
    requires |blocks| == BlockCount(spec)
    ensures Lengths(ErrorCorrection(blocks, spec.eccPerBlock)) == EccSizes(spec)
    ensures Covers(EccSizes(spec), spec.eccPerBlock)
  {
    hide ReedSolomon.Remainder;
    RepeatSum(BlockCount(spec), spec.eccPerBlock);
  }

  lemma ParityVanishes(data: seq<bv8>, degree: nat)
    ensures ReedSolomon.Vanishes(data + ReedSolomon.Remainder(data, degree), degree)
  {
    hide ReedSolomon.Remainder, ReedSolomon.Eval;
    forall i: nat | i < degree
      ensures ReedSolomon.Eval(data + ReedSolomon.Remainder(data, degree), ReedSolomon.Gf256.Exp(i)) == 0
    {
      ReedSolomon.CodewordVanishes(data, degree, i);
    }
  }

  /** The stream that is built for a payload carries it. */
  lemma BuiltStreamCarries(payload: seq<Octet>, version: Version, data: seq<bv8>)
    requires Fits(payload, version) && |data| == Sum(BlockSizes(SpecFor(version)))
    requires StreamBits(data) == DataBits(payload, version)
    ensures Carries(CodewordStream(data, SpecFor(version)), payload, version)
  {
    hide SpecFor, Split, CodewordStream, Flatten, DataBits, StreamBits, Fits, Spelled, Readable, DataBlocks, ParityBlocks,
      BlockCount, BlockSizes, TotalCodewords, ReedSolomon.Vanishes, ReedSolomon.Remainder;
    var spec := SpecFor(version);
    var stream, blocks := CodewordStream(data, spec), Split(data, BlockSizes(spec));
    StreamInHalves(data, version, stream, blocks);
    DataInDigits(payload, version);
    forall b | 0 <= b < |blocks|
      ensures ReedSolomon.Vanishes(blocks[b] + ErrorCorrection(blocks, spec.eccPerBlock)[b], spec.eccPerBlock)
    {
      ParityVanishes(blocks[b], spec.eccPerBlock);
    }
  }
}

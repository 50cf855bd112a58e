/** The encoder's version table: QR versions 1 to 10 at error-correction level M. */
module QrVersions {
  import opened Options

  const MIN_VERSION := 1
  const MAX_VERSION := 10

  type Version = v: int | MIN_VERSION <= v <= MAX_VERSION witness MIN_VERSION

  datatype Group = Group(blocks: nat, size: nat)

  datatype VersionSpec = VersionSpec(
    eccPerBlock: nat,
    group1: Group,
    group2: Option<Group>,
    alignment: seq<nat>)

  function SpecFor(version: Version): VersionSpec {
    if version == 1 then VersionSpec(10, Group(1, 16), None, [])
    else if version == 2 then VersionSpec(16, Group(1, 28), None, [6, 18])
    else if version == 3 then VersionSpec(26, Group(1, 44), None, [6, 22])
    else if version == 4 then VersionSpec(18, Group(2, 32), None, [6, 26])
    else if version == 5 then VersionSpec(24, Group(2, 43), None, [6, 30])
    else if version == 6 then VersionSpec(16, Group(4, 27), None, [6, 34])
    else if version == 7 then VersionSpec(18, Group(4, 31), None, [6, 22, 38])
    else if version == 8 then VersionSpec(22, Group(2, 38), Some(Group(2, 39)), [6, 24, 42])
    else if version == 9 then VersionSpec(22, Group(3, 36), Some(Group(2, 37)), [6, 26, 46])
    else VersionSpec(26, Group(4, 43), Some(Group(1, 44)), [6, 28, 50])
  }

  /** Bits left over in the module grid after the last codeword. */
  function RemainderBits(version: Version): nat {
    if 2 <= version <= 6 then 7 else 0
  }

  function Size(version: Version): (size: nat)
    ensures 21 <= size <= 57
  {
    version * 4 + 17
  }

  function BlockCount(spec: VersionSpec): nat {
    spec.group1.blocks + match spec.group2 case None => 0 case Some(g) => g.blocks
  }

  function DataCodewordCount(spec: VersionSpec): nat {
    spec.group1.blocks * spec.group1.size +
    match spec.group2 case None => 0 case Some(g) => g.blocks * g.size
  }

  function TotalCodewords(version: Version): nat {
    DataCodewordCount(SpecFor(version)) + BlockCount(SpecFor(version)) * SpecFor(version).eccPerBlock
  }

  function CharacterCountBits(version: Version): nat {
    if version < 10 then 8 else 16
  }

  function ByteCapacity(version: Version): nat {
    (DataCodewordCount(SpecFor(version)) * 8 - (4 + CharacterCountBits(version))) / 8
  }

  lemma CapacityGrows(v: Version, w: Version)
    requires v < w
    ensures ByteCapacity(v) < ByteCapacity(w)
  {
  }

  /** A payload within capacity leaves the header room, and its length fits the length field. */
  lemma CapacityIsEnough(version: Version, length: nat)
    requires length <= ByteCapacity(version)
    ensures 4 + CharacterCountBits(version) + 8 * length <= 8 * DataCodewordCount(SpecFor(version))
    ensures length < if version < 10 then 0x100 else 0x1_0000
  {
  }

  /** The smallest version that holds the payload, or nothing when version 10 does not. */
  method ChooseVersion(byteLength: nat) returns (version: Option<Version>)
    ensures version.None? <==> byteLength > ByteCapacity(MAX_VERSION)
    ensures version.Some? ==> byteLength <= ByteCapacity(version.value)
    ensures version.Some? ==> forall v: Version :: v < version.value ==> byteLength > ByteCapacity(v)
  {
    var v := MIN_VERSION;
    while v <= MAX_VERSION
      invariant MIN_VERSION <= v <= MAX_VERSION + 1
      invariant forall w: Version :: w < v ==> byteLength > ByteCapacity(w)
    {
      if byteLength <= ByteCapacity(v) {
        CapacityGrowsUpTo(v);
        return Some(v);
      }
      v := v + 1;
    }
    return None;
  }

  lemma CapacityGrowsUpTo(v: Version)
    ensures ByteCapacity(v) <= ByteCapacity(MAX_VERSION)
  {
    if v < MAX_VERSION {
      CapacityGrows(v, MAX_VERSION);
    }
  }

  function Listed(version: Version, values: seq<nat>): nat
    requires |values| == 10
  {
    values[version - 1]
  }

  /** The sums that tables 7 and 9 of ISO/IEC 18004 give for level M: all codewords, blocks, and the bytes that fit. */
  lemma TableSums(version: Version)
    ensures TotalCodewords(version) == Listed(version, [26, 44, 70, 100, 134, 172, 196, 242, 292, 346])
    ensures BlockCount(SpecFor(version)) == Listed(version, [1, 1, 1, 2, 2, 4, 4, 4, 5, 5])
    ensures ByteCapacity(version) == Listed(version, [14, 26, 42, 62, 84, 106, 122, 152, 180, 213])
  {
    hide Listed;
    ListedAre(version, [26, 44, 70, 100, 134, 172, 196, 242, 292, 346]);
    ListedAre(version, [1, 1, 1, 2, 2, 4, 4, 4, 5, 5]);
    ListedAre(version, [14, 26, 42, 62, 84, 106, 122, 152, 180, 213]);
  }

  lemma ListedAre(version: Version, values: seq<nat>)
    requires |values| == 10
    ensures Listed(version, values) ==
      if version == 1 then values[0] else if version == 2 then values[1] else if version == 3 then values[2]
      else if version == 4 then values[3] else if version == 5 then values[4] else if version == 6 then values[5]
      else if version == 7 then values[6] else if version == 8 then values[7] else if version == 9 then values[8] else values[9]
  {
  }
}

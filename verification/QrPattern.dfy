/** What each module of a finished symbol shows, as a function of its place. */
module QrPattern {
  import opened QrVersions
  import opened QrLayout

  // ------------------------------------------------- function patterns ---

  /** A finder pattern with its separator, relative to the pattern's top left module. */
  predicate FinderDark(y: int, x: int) {
    || (0 <= y <= 6 && (x == 0 || x == 6))
    || (0 <= x <= 6 && (y == 0 || y == 6))
    || (2 <= y <= 4 && 2 <= x <= 4)
  }

  predicate InFinderBox(top: int, left: int, row: nat, column: nat) {
    top - 1 <= row <= top + 7 && left - 1 <= column <= left + 7
  }

  function Distance(a: nat, b: nat): nat {
    if a < b then b - a else a - b
  }

  /** An alignment pattern around its centre: everything but the ring at distance one. */
  predicate AlignmentDarkAround(centreY: nat, centreX: nat, row: nat, column: nat) {
    var dy, dx := Distance(row, centreY), Distance(column, centreX);
    (if dy < dx then dx else dy) != 1
  }

  predicate AlignmentDark(version: Version, row: nat, column: nat) {
    exists y, x :: y in SpecFor(version).alignment && x in SpecFor(version).alignment
      && !NearFinder(Size(version), y, x) && Around(y, x, row, column)
      && AlignmentDarkAround(y, x, row, column)
  }

  // ---------------------------------------------- format information ---

  const FORMAT_MASK: bv16 := 0x5412
  const FORMAT_GENERATOR: bv16 := 0x537

  /** One step of the division by the format generator, for a bit from 14 down to 10. */
  function FormatStep(remainder: bv16, probe: bv16, multiple: bv16): bv16 {
    if remainder & probe != 0 then remainder ^ multiple else remainder
  }

  /** The 15 format bits of level M with the given mask: two zero bits, the mask, ten check bits. */
  function FormatBits(mask: nat): bv16
    requires mask < 8
  {
    var data := (mask as bv16) << 10;
    var r14 := FormatStep(data, 0x4000, FORMAT_GENERATOR << 4);
    var r13 := FormatStep(r14, 0x2000, FORMAT_GENERATOR << 3);
    var r12 := FormatStep(r13, 0x1000, FORMAT_GENERATOR << 2);
    var r11 := FormatStep(r12, 0x0800, FORMAT_GENERATOR << 1);
    var r10 := FormatStep(r11, 0x0400, FORMAT_GENERATOR);
    (data | r10) ^ FORMAT_MASK
  }

  predicate FormatBit(mask: nat, index: nat)
    requires mask < 8 && index < 15
  {
    (FormatBits(mask) >> index) & 1 == 1
  }

  /** Undoes the fixed format mask on the three bits that hold the mask number. */
  function MaskOfFormat(bits: seq<bool>): (mask: nat)
    requires |bits| == 15
    ensures mask < 8
  {
    (if bits[12] then 0 else 4) + (if bits[11] then 2 else 0) + (if bits[10] then 0 else 1)
  }

  lemma MaskSurvivesFormat(mask: nat)
    requires mask < 8
    ensures MaskOfFormat(seq(15, i requires 0 <= i < 15 => FormatBit(mask, i))) == mask
  {
  }

  /** Which format bit a module of either copy holds; -1 elsewhere. */
  function FormatIndex(size: nat, row: nat, column: nat): (index: int)
    ensures -1 <= index < 15
  {
    if column == 8 && row < 6 then row
    else if column == 8 && row == 7 then 6
    else if column == 8 && row == 8 then 7
    else if column == 7 && row == 8 then 8
    else if row == 8 && column < 6 then 14 - column
    else if row == 8 && size - 8 <= column < size then size - 1 - column
    else if column == 8 && size - 7 <= row < size then row - (size - 15)
    else -1
  }

  /** The one module beside the bottom-left finder that is always dark. */
  predicate IsDarkModule(size: nat, row: nat, column: nat) {
    row + 8 == size && column == 8
  }

  // --------------------------------------------- version information ---

  const VERSION_GENERATOR: bv32 := 0x1f25

  function VersionStep(remainder: bv32, probe: bv32, multiple: bv32): bv32 {
    if remainder & probe != 0 then remainder ^ multiple else remainder
  }

  /** The 18 version bits: the version and twelve check bits. */
  function VersionBits(version: Version): bv32 {
    var data := (version as bv32) << 12;
    var r17 := VersionStep(data, 0x20000, VERSION_GENERATOR << 5);
    var r16 := VersionStep(r17, 0x10000, VERSION_GENERATOR << 4);
    var r15 := VersionStep(r16, 0x08000, VERSION_GENERATOR << 3);
    var r14 := VersionStep(r15, 0x04000, VERSION_GENERATOR << 2);
    var r13 := VersionStep(r14, 0x02000, VERSION_GENERATOR << 1);
    var r12 := VersionStep(r13, 0x01000, VERSION_GENERATOR);
    data | r12
  }

  predicate VersionBit(version: Version, index: nat)
    requires index < 18
  {
    (VersionBits(version) >> index) & 1 == 1
  }

  function VersionIndex(size: nat, row: nat, column: nat): (index: nat)
    requires size >= 21
    requires (row < 6 && size - 11 <= column < size - 8) || (column < 6 && size - 11 <= row < size - 8)
    ensures index < 18
  {
    if row < 6 then 3 * row + column - (size - 11) else 3 * column + row - (size - 11)
  }

  // -------------------------------------------------------------- masks ---

  /** The eight mask patterns: true where a data module is inverted. */
  predicate MaskBit(mask: nat, row: nat, column: nat) {
    if mask == 0 then (row + column) % 2 == 0
    else if mask == 1 then row % 2 == 0
    else if mask == 2 then column % 3 == 0
    else if mask == 3 then (row + column) % 3 == 0
    else if mask == 4 then (row / 2 + column / 3) % 2 == 0
    else if mask == 5 then (row * column) % 2 + (row * column) % 3 == 0
    else if mask == 6 then ((row * column) % 2 + (row * column) % 3) % 2 == 0
    else ((row + column) % 2 + (row * column) % 3) % 2 == 0
  }

  // ------------------------------------------- the whole reserved area ---

  /** What the reserved modules show before format and version information are written. */
  predicate PatternDark(version: Version, row: nat, column: nat) {
    var size := Size(version);
    if row <= 7 && column <= 7 then FinderDark(row, column)
    else if row <= 7 && size - 8 <= column then FinderDark(row, column - (size - 7))
    else if size - 8 <= row && column <= 7 then FinderDark(row - (size - 7), column)
    else if row == 6 then column % 2 == 0
    else if column == 6 then row % 2 == 0
    else AlignmentDark(version, row, column)
  }

  /** What a reserved module shows in the finished symbol. */
  predicate ReservedDark(version: Version, mask: nat, row: nat, column: nat)
    requires mask < 8
  {
    var size := Size(version);
    if FormatIndex(size, row, column) >= 0 then FormatBit(mask, FormatIndex(size, row, column))
    else if IsDarkModule(size, row, column) then true
    else if InVersionArea(version, row, column) then VersionBit(version, VersionIndex(size, row, column))
    else PatternDark(version, row, column)
  }
}

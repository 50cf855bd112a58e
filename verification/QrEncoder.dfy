/** The QR encoder: from payload to finished symbol, and the reader that undoes it. */
module QrEncoder {
  import opened Options
  import opened QrVersions
  import opened QrBits
  import opened QrLayout
  import opened QrPattern
  import opened QrMasks
  import opened QrMatrix
  import opened QrFigures
  import QrPayload
  import QrStream
  import QrCount
  import Interleaving
  import Gf256

  // ------------------------------------------------ version information ---

  method ApplyVersionInformation(grid: array2<Module>, version: Version)
    requires grid.Length0 == grid.Length1 == Size(version)
    modifies grid
    ensures forall r: nat, c: nat :: r < Size(version) && c < Size(version) ==>
      grid[r, c] == if InVersionArea(version, r, c) then Set(VersionBit(version, VersionIndex(Size(version), r, c))) else old(grid[r, c])
  {
    hide VersionBit;
    var size := Size(version);
    if version < 7 {
      return;
    }
    for index := 0 to 18
      invariant forall r: nat, c: nat :: r < size && c < size ==>
        grid[r, c] == if InVersionArea(version, r, c) && VersionIndex(size, r, c) < index
                      then Set(VersionBit(version, VersionIndex(size, r, c))) else old(grid[r, c])
    {
      PlaceVersionBit(grid, version, index);
    }
  }

  /** Both copies of one bit of the version information. */
  method PlaceVersionBit(grid: array2<Module>, version: Version, index: nat)
    requires grid.Length0 == grid.Length1 == Size(version) && version >= 7 && index < 18
    modifies grid
    ensures forall r: nat, c: nat :: r < Size(version) && c < Size(version) ==>
      grid[r, c] == if InVersionArea(version, r, c) && VersionIndex(Size(version), r, c) == index
                    then Set(VersionBit(version, index)) else old(grid[r, c])
  {
    hide VersionBit;
    var size := Size(version);
    var bit := VersionBit(version, index);
    var row, column := index / 3, index % 3;
    grid[row, size - 11 + column] := Set(bit);
    grid[size - 11 + column, row] := Set(bit);
  }

  // ------------------------------------------------- format information ---

  method ApplyFormatInformation(grid: array2<Module>, size: nat, mask: nat)
    requires grid.Length0 == grid.Length1 == size >= 21 && mask < 8
    modifies grid
    ensures forall r: nat, c: nat :: r < size && c < size ==>
      grid[r, c] == if FormatIndex(size, r, c) >= 0 then Set(FormatBit(mask, FormatIndex(size, r, c)))
                    else if IsDarkModule(size, r, c) then Set(true) else old(grid[r, c])
  {
    hide FormatBit;
    for index := 0 to 15
      invariant forall r: nat, c: nat :: r < size && c < size ==>
        grid[r, c] == if 0 <= FormatIndex(size, r, c) < index then Set(FormatBit(mask, FormatIndex(size, r, c))) else old(grid[r, c])
    {
      var bit := FormatBit(mask, index);
      if index < 6 {
        grid[index, 8] := Set(bit);
      } else if index == 6 {
        grid[7, 8] := Set(bit);
      } else if index == 7 {
        grid[8, 8] := Set(bit);
      } else if index == 8 {
        grid[8, 7] := Set(bit);
      } else {
        grid[8, 14 - index] := Set(bit);
      }
      if index < 8 {
        grid[8, size - 1 - index] := Set(bit);
      } else {
        grid[size - 15 + index, 8] := Set(bit);
      }
    }
    grid[size - 8, 8] := Set(true);
  }

  // ------------------------------------------------------------ masking ---

  /** A copy of the grid with the mask applied to every module that is not reserved. */
  method ApplyMask(grid: array2<Module>, reserved: array2<bool>, size: nat, mask: nat) returns (candidate: array2<Module>)
    requires SameSquare(grid, reserved, size)
    ensures fresh(candidate) && candidate.Length0 == candidate.Length1 == size
    ensures forall r: nat, c: nat :: r < size && c < size ==>
      candidate[r, c] == if reserved[r, c] then grid[r, c] else Set((grid[r, c] == Set(true)) != MaskBit(mask, r, c))
  {
    candidate := new Module[size, size]((r: nat, c: nat) => Blank);
    for row := 0 to size
      invariant forall r: nat, c: nat :: r < row && c < size ==>
        candidate[r, c] == if reserved[r, c] then grid[r, c] else Set((grid[r, c] == Set(true)) != MaskBit(mask, r, c))
    {
      for column := 0 to size
        invariant forall r: nat, c: nat :: r < size && c < size && (r < row || (r == row && c < column)) ==>
          candidate[r, c] == if reserved[r, c] then grid[r, c] else Set((grid[r, c] == Set(true)) != MaskBit(mask, r, c))
      {
        if reserved[row, column] {
          candidate[row, column] := grid[row, column];
        } else if grid[row, column] == Set(true) {
          candidate[row, column] := Set(!MaskBit(mask, row, column));
        } else {
          candidate[row, column] := Set(MaskBit(mask, row, column));
        }
      }
    }
  }

  /** The grid as rows of booleans; a module that was never set reads as light. */
  method Snapshot(grid: array2<Module>) returns (modules: Modules)
    ensures |modules| == grid.Length0
    ensures forall r :: 0 <= r < |modules| ==> |modules[r]| == grid.Length1
    ensures forall r, c :: 0 <= r < |modules| && 0 <= c < |modules[r]| ==> modules[r][c] == (grid[r, c] == Set(true))
  {
    modules := [];
    for r := 0 to grid.Length0
      invariant |modules| == r
      invariant forall i :: 0 <= i < r ==> |modules[i]| == grid.Length1
      invariant forall i, c :: 0 <= i < r && 0 <= c < |modules[i]| ==> modules[i][c] == (grid[i, c] == Set(true))
    {
      var line := [];
      for c := 0 to grid.Length1
        invariant |line| == c
        invariant forall j :: 0 <= j < c ==> line[j] == (grid[r, j] == Set(true))
      {
        line := line + [grid[r, c] == Set(true)];
      }
      modules := modules + [line];
    }
  }

  // -------------------------------------------------- finished symbols ---

  /** A finished symbol: function patterns and format in place, the masked stream along the zigzag. */
  ghost predicate IsSymbol(modules: Modules, version: Version, mask: nat, codewords: seq<bv8>)
    requires mask < 8
  {
    && ReservedDrawn(modules, version, mask)
    && (forall k :: 0 <= k < |DataCells(version)| ==>
         var cell := DataCells(version)[k];
         && cell.0 < Size(version) && cell.1 < Size(version)
         && modules[cell.0][cell.1] == (StreamBit(codewords, k) != Inverts(mask, cell.0, cell.1)))
  }

  /** The grid before masking. */
  ghost predicate Prepared(grid: array2<Module>, reserved: array2<bool>, version: Version, codewords: seq<bv8>)
    requires SameSquare(grid, reserved, Size(version))
    reads grid, reserved
  {
    && BitsPlaced(grid, Size(version), DataCells(version), codewords)
    && (forall r: nat, c: nat :: r < Size(version) && c < Size(version) ==>
      && reserved[r, c] == Reserved(version, r, c)
      && (Reserved(version, r, c) && !HoldsFormat(Size(version), r, c) ==>
          grid[r, c] == Set(if InVersionArea(version, r, c) then VersionBit(version, VersionIndex(Size(version), r, c))
                            else PatternDark(version, r, c))))
  }

  lemma FormatIsReserved(version: Version, row: nat, column: nat)
    requires row < Size(version) && column < Size(version)
    ensures HoldsFormat(Size(version), row, column) ==> Reserved(version, row, column)
    ensures HoldsFormat(Size(version), row, column) ==> !InVersionArea(version, row, column)
    ensures InVersionArea(version, row, column) ==> Reserved(version, row, column)
  {
    hide InAlignment;
  }

  // ------------------------------------------------------------ encoder ---

  datatype QrSymbol = QrSymbol(version: Version, size: nat, modules: Modules)

  datatype EncodeError = PayloadTooLong | UnsupportedVersion

  /** The source's encodeQr up to the choice of a mask. */
  method Prepare(gf: Gf256.Tables, payload: seq<Octet>, version: Version)
    returns (grid: array2<Module>, reserved: array2<bool>, codewords: seq<bv8>)
    requires gf.Valid() && QrPayload.Fits(payload, version)
    ensures fresh(grid) && fresh(reserved) && SameSquare(grid, reserved, Size(version))
    ensures Prepared(grid, reserved, version, codewords)
    ensures QrPayload.ReadCodewords(codewords, version) == Some(payload)
    ensures |codewords| == TotalCodewords(version) && QrStream.Carries(codewords, payload, version)
  {
    hide QrStream.Carries, Reserved, BitsPlaced, PatternDark, InVersionArea, VersionBit, HoldsFormat, QrPayload.ReadCodewords,
      QrPayload.CodewordStream, QrPayload.DataBits, StreamBits, QrPayload.Fits, Size, SpecFor;
    codewords := QrPayload.BuildCodewords(gf, payload, version);
    ReadBack(payload, version, codewords);
    grid, reserved := PrepareGrid(version, codewords);
  }

  lemma ReadBack(payload: seq<Octet>, version: Version, codewords: seq<bv8>)
    requires QrPayload.Fits(payload, version)
    requires exists data: seq<bv8> ::
      && |data| == Interleaving.Sum(QrPayload.BlockSizes(SpecFor(version)))
      && StreamBits(data) == QrPayload.DataBits(payload, version)
      && codewords == QrPayload.CodewordStream(data, SpecFor(version))
    ensures QrPayload.ReadCodewords(codewords, version) == Some(payload)
    ensures |codewords| == TotalCodewords(version) && QrStream.Carries(codewords, payload, version)
  {
    hide QrStream.Carries, QrPayload.ReadCodewords, QrPayload.CodewordStream, QrPayload.DataBits, StreamBits, QrPayload.Fits,
      SpecFor, TotalCodewords;
    var data: seq<bv8> :|
      && |data| == Interleaving.Sum(QrPayload.BlockSizes(SpecFor(version)))
      && StreamBits(data) == QrPayload.DataBits(payload, version)
      && codewords == QrPayload.CodewordStream(data, SpecFor(version));
    QrPayload.ReadBuiltCodewords(payload, version, data);
    QrPayload.CodewordStreamSize(data, version);
    QrStream.BuiltStreamCarries(payload, version, data);
  }

  method PrepareGrid(version: Version, codewords: seq<bv8>) returns (grid: array2<Module>, reserved: array2<bool>)
    ensures fresh(grid) && fresh(reserved) && SameSquare(grid, reserved, Size(version))
    ensures Prepared(grid, reserved, version, codewords)
  {
    hide Reserved, PatternDark, InVersionArea, VersionBit, HoldsFormat, DataCells, StreamBit, FunctionPatternsPlaced, Size;
    grid, reserved := PlaceEverything(version, codewords);
    var size := Size(version);
    QrLayout.ZigzagVisitsEachFreeCellOnce(version);
    forall r: nat, c: nat | r < size && c < size
      ensures InVersionArea(version, r, c) ==> Reserved(version, r, c)
    {
      FormatIsReserved(version, r, c);
    }
    forall k | 0 <= k < |DataCells(version)|
      ensures FreeCell(version, DataCells(version)[k])
    {
    }
    ApplyVersionInformation(grid, version);
  }

  method NewGrids(size: nat) returns (grid: array2<Module>, reserved: array2<bool>)
    ensures fresh(grid) && fresh(reserved) && SameSquare(grid, reserved, size)
    ensures forall r, c :: 0 <= r < size && 0 <= c < size ==> grid[r, c] == Blank && !reserved[r, c]
  {
    grid := new Module[size, size]((r: nat, c: nat) => Blank);
    reserved := new bool[size, size]((r: nat, c: nat) => false);
  }

  /** Function patterns and codewords, before the version information. */
  method PlaceEverything(version: Version, codewords: seq<bv8>) returns (grid: array2<Module>, reserved: array2<bool>)
    ensures fresh(grid) && fresh(reserved) && SameSquare(grid, reserved, Size(version))
    ensures BitsPlaced(grid, Size(version), DataCells(version), codewords)
    ensures forall r: nat, c: nat :: r < Size(version) && c < Size(version) ==>
      && reserved[r, c] == Reserved(version, r, c)
      && (Reserved(version, r, c) && !HoldsFormat(Size(version), r, c) && !InVersionArea(version, r, c) ==>
          grid[r, c] == Set(PatternDark(version, r, c)))
  {
    hide Reserved, PatternDark, InVersionArea, VersionBit, HoldsFormat, DataCells, StreamBit, Size, BitsPlaced, QrLayout.Distinct;
    var size := Size(version);
    grid, reserved := NewGrids(size);
    PlaceFunctionPatterns(grid, reserved, version);
    DrawOver(grid, reserved, version, codewords);
  }

  /** Drawing the codewords leaves every reserved module alone. */
  method DrawOver(grid: array2<Module>, reserved: array2<bool>, version: Version, codewords: seq<bv8>)
    requires SameSquare(grid, reserved, Size(version))
    requires forall r: nat, c: nat :: r < Size(version) && c < Size(version) ==> reserved[r, c] == Reserved(version, r, c)
    modifies grid
    ensures BitsPlaced(grid, Size(version), DataCells(version), codewords)
    ensures forall r: nat, c: nat :: r < Size(version) && c < Size(version) && Reserved(version, r, c) ==> grid[r, c] == old(grid[r, c])
  {
    hide Reserved, DataCells, StreamBit, Size, BitsPlaced, QrLayout.Distinct;
    var size := Size(version);
    ghost var before := map r: nat, c: nat | r < size && c < size :: (r, c) := grid[r, c];
    DrawCodewords(grid, reserved, version, codewords, before);
    QrLayout.ZigzagVisitsEachFreeCellOnce(version);
    forall r: nat, c: nat | r < size && c < size && Reserved(version, r, c)
      ensures grid[r, c] == before[(r, c)]
    {
      assert !FreeCell(version, (r, c));
    }
  }

  /** One candidate: masked, with its format information, as rows of booleans. */
  method BuildCandidate(grid: array2<Module>, reserved: array2<bool>, version: Version, mask: nat, ghost codewords: seq<bv8>)
    returns (modules: Modules)
    requires SameSquare(grid, reserved, Size(version)) && mask < 8
    requires Prepared(grid, reserved, version, codewords)
    ensures IsSymbol(modules, version, mask, codewords)
  {
    hide Reserved, PatternDark, InVersionArea, VersionBit, FormatBit, FormatIndex, DataCells, StreamBit, MaskBit, Inverts;
    var size := Size(version);
    var candidate := ApplyMask(grid, reserved, size, mask);
    ApplyFormatInformation(candidate, size, mask);
    QrLayout.ZigzagVisitsEachFreeCellOnce(version);
    forall r: nat, c: nat | r < size && c < size
      ensures HoldsFormat(size, r, c) ==> Reserved(version, r, c) && !InVersionArea(version, r, c)
    {
      FormatIsReserved(version, r, c);
    }
    forall k | 0 <= k < |DataCells(version)|
      ensures var cell := DataCells(version)[k];
        && cell.0 < size && cell.1 < size
        && candidate[cell.0, cell.1] == Set(StreamBit(codewords, k) != Inverts(mask, cell.0, cell.1))
    {
      assert FreeCell(version, DataCells(version)[k]);
      FormulaDrawsPattern(mask, DataCells(version)[k].0, DataCells(version)[k].1);
    }
    modules := Snapshot(candidate);
  }

  // ------------------------------------------------------------- reader ---

  /** Where bit number index of the first format copy is found. */
  function FormatPlace(index: nat): (cell: Cell)
    requires index < 15
  {
    if index < 6 then (index, 8)
    else if index == 6 then (7, 8)
    else if index == 7 then (8, 8)
    else if index == 8 then (8, 7)
    else (8, 14 - index)
  }

  ghost function ReadMask(modules: Modules): (mask: nat)
    requires SquareModules(modules, |modules|) && |modules| >= 21
    ensures mask < 8
  {
    MaskOfFormat(seq(15, i requires 0 <= i < 15 => modules[FormatPlace(i).0][FormatPlace(i).1]))
  }

  /** The byte that eight bits spell, most significant first. */
  ghost function PackByte(bits: seq<bool>): (byte: bv8)
    requires |bits| <= 8
  {
    if bits == [] then 0 else
    var n := |bits| - 1;
    if bits[n] then PackByte(bits[..n]) | Mask(n) else PackByte(bits[..n])
  }

  lemma {:induction false} PackByteBits(bits: seq<bool>, j: nat)
    requires |bits| <= 8 && j < 8
    ensures BitAt(PackByte(bits), j) == (j < |bits| && bits[j])
  {
    hide Mask, BitAt;
    if bits == [] {
      ZeroByte();
    } else {
      PackByteBits(bits[..|bits| - 1], j);
      SetBit(PackByte(bits[..|bits| - 1]), |bits| - 1, j);
    }
  }

  ghost function PackBits(bits: seq<bool>, count: nat): (codewords: seq<bv8>)
    requires |bits| >= 8 * count
    ensures |codewords| == count
  {
    seq(count, k requires 0 <= k < count => PackByte(bits[8 * k..8 * k + 8]))
  }

  lemma PackStream(bits: seq<bool>, codewords: seq<bv8>)
    requires |bits| >= 8 * |codewords|
    requires forall i :: 0 <= i < 8 * |codewords| ==> bits[i] == BitAt(codewords[i / 8], i % 8)
    ensures PackBits(bits, |codewords|) == codewords
  {
    hide BitAt, PackByte;
    forall k | 0 <= k < |codewords|
      ensures PackBits(bits, |codewords|)[k] == codewords[k]
    {
      var slice := bits[8 * k..8 * k + 8];
      forall j | 0 <= j < 8
        ensures BitAt(PackByte(slice), j) == BitAt(codewords[k], j)
      {
        PackByteBits(slice, j);
        assert slice[j] == bits[8 * k + j];
        assert (8 * k + j) / 8 == k && (8 * k + j) % 8 == j;
      }
      BytesWithEqualBits(PackByte(slice), codewords[k]);
    }
  }

  /** Walks the zigzag and takes the mask off, by the drawn pattern. */
  ghost function ReadStream(modules: Modules, version: Version, mask: nat): (bits: seq<bool>)
    requires SquareModules(modules, Size(version)) && mask < 8
    ensures |bits| == |DataCells(version)|
  {
    QrLayout.ZigzagVisitsEachFreeCellOnce(version);
    seq(|DataCells(version)|, k requires 0 <= k < |DataCells(version)| =>
      var cell := DataCells(version)[k];
      assert FreeCell(version, cell);
      modules[cell.0][cell.1] != Inverts(mask, cell.0, cell.1))
  }

  /**
   A reader of undamaged symbols: the size gives the version, the format bits the mask; unmask,
   walk the zigzag, pack codewords, de-interleave, parse.
   */
  ghost function ReadQr(modules: Modules): Option<seq<nat>> {
    var size := |modules|;
    if !SquareModules(modules, size) || size < 21 || size > 57 || size % 4 != 1 then None else
    var version: Version := (size - 17) / 4;
    var bits := ReadStream(modules, version, ReadMask(modules));
    QrCount.RoomForEveryCodeword(version);
    QrPayload.ReadCodewords(PackBits(bits, TotalCodewords(version)), version)
  }

  lemma MaskIsReadable(modules: Modules, version: Version, mask: nat, codewords: seq<bv8>)
    requires mask < 8 && IsSymbol(modules, version, mask, codewords)
    ensures ReadMask(modules) == mask
  {
    hide FormatBit, MaskOfFormat, Reserved;
    var read := seq(15, i requires 0 <= i < 15 => modules[FormatPlace(i).0][FormatPlace(i).1]);
    var written := seq(15, i requires 0 <= i < 15 => FormatBit(mask, i));
    forall i | 0 <= i < 15
      ensures read[i] == written[i]
    {
      var cell := FormatPlace(i);
      assert FormatIndex(Size(version), cell.0, cell.1) == i;
      FormatIsReserved(version, cell.0, cell.1);
      assert Reserved(version, cell.0, cell.1);
    }
    MaskSurvivesFormat(mask);
    assert read == written;
  }

  /** Reading a finished symbol gives what its codeword stream encodes. */
  lemma SymbolIsReadable(modules: Modules, version: Version, mask: nat, codewords: seq<bv8>)
    requires mask < 8 && |codewords| == TotalCodewords(version)
    requires IsSymbol(modules, version, mask, codewords)
    ensures ReadQr(modules) == QrPayload.ReadCodewords(codewords, version)
  {
    hide Reserved, ReservedDark, Inverts, DataCells, BitAt, TotalCodewords, QrPayload.ReadCodewords, ReadMask, RemainderBits;
    MaskIsReadable(modules, version, mask, codewords);
    QrCount.RoomForEveryCodeword(version);
    var bits := ReadStream(modules, version, mask);
    forall i | 0 <= i < 8 * |codewords|
      ensures bits[i] == BitAt(codewords[i / 8], i % 8)
    {
      var cell := DataCells(version)[i];
      assert bits[i] == (modules[cell.0][cell.1] != Inverts(mask, cell.0, cell.1));
    }
    PackStream(bits, codewords);
  }

  lemma SymbolShowsFigures(modules: Modules, version: Version, mask: nat, codewords: seq<bv8>)
    requires mask < 8 && IsSymbol(modules, version, mask, codewords)
    ensures ShowsFigures(modules, version, mask)
  {
    hide ReservedDrawn, ShowsFigures;
    DrawnShowsFigures(modules, version, mask);
  }

  // ---------------------------------------------------------- encodeQr ---

  /** The smallest version that holds a payload of the given length is `version`. */
  ghost predicate SmallestVersion(length: nat, version: Version) {
    length <= ByteCapacity(version) && forall v: Version :: v < version ==> length > ByteCapacity(v)
  }

  /** Candidate number mask has the lowest penalty, and the lowest number among equals. */
  ghost predicate FirstBest(candidates: seq<Modules>, penalty: Modules -> nat, mask: nat, count: nat)
    requires mask < |candidates| && count <= |candidates|
  {
    forall k :: 0 <= k < count ==>
      && penalty(candidates[mask]) <= penalty(candidates[k])
      && (k < mask ==> penalty(candidates[mask]) < penalty(candidates[k]))
  }

  /** The choice among the eight masks. */
  method ChooseMask(grid: array2<Module>, reserved: array2<bool>, version: Version, penalty: Modules -> nat,
                    ghost codewords: seq<bv8>)
    returns (best: Modules, ghost candidates: seq<Modules>, ghost mask: nat)
    requires SameSquare(grid, reserved, Size(version)) && Prepared(grid, reserved, version, codewords)
    ensures |candidates| == 8 && mask < 8 && best == candidates[mask]
    ensures forall k :: 0 <= k < 8 ==> IsSymbol(candidates[k], version, k, codewords)
    ensures FirstBest(candidates, penalty, mask, 8)
  {
    hide Prepared, IsSymbol, Size;
    best := BuildCandidate(grid, reserved, version, 0, codewords);
    candidates, mask := [best], 0;
    var bestScore := penalty(best);
    for next := 1 to 8
      invariant |candidates| == next && mask < next && best == candidates[mask]
      invariant bestScore == penalty(best)
      invariant forall k :: 0 <= k < next ==> IsSymbol(candidates[k], version, k, codewords)
      invariant FirstBest(candidates, penalty, mask, next)
      invariant Prepared(grid, reserved, version, codewords)
    {
      var candidate := BuildCandidate(grid, reserved, version, next, codewords);
      var score := penalty(candidate);
      candidates := candidates + [candidate];
      if score < bestScore {
        best, bestScore, mask := candidate, score, next;
      }
    }
  }

  /**
   The source's encodeQr. The penalty is whatever function the caller likes: the symbol can be
   read back whichever mask it favours.
   */
  method EncodeQr(gf: Gf256.Tables, payload: seq<Octet>, minimumVersion: int, penalty: Modules -> nat)
    returns (result: Result<QrSymbol, EncodeError>, ghost candidates: seq<Modules>, ghost mask: nat, ghost codewords: seq<bv8>)
    requires gf.Valid()
    ensures result == Err(PayloadTooLong) <==> |payload| > ByteCapacity(MAX_VERSION)
    ensures result == Err(UnsupportedVersion) <==> |payload| <= ByteCapacity(MAX_VERSION) && minimumVersion > MAX_VERSION
    ensures result.Ok? ==>
      exists v: Version :: SmallestVersion(|payload|, v)
        && result.value.version == if v < minimumVersion then minimumVersion else v
    ensures result.Ok? ==> result.value.size == Size(result.value.version)
    ensures result.Ok? ==> ReadQr(result.value.modules) == Some(payload)
    ensures result.Ok? ==> mask < 8 && ShowsFigures(result.value.modules, result.value.version, mask)
    ensures result.Ok? ==> QrStream.Carries(codewords, payload, result.value.version)
    ensures result.Ok? ==>
      && |candidates| == 8 && mask < 8 && result.value.modules == candidates[mask]
      && (forall k :: 0 <= k < 8 ==> IsSymbol(candidates[k], result.value.version, k, codewords))
      && FirstBest(candidates, penalty, mask, 8)
  {
    hide Prepared, IsSymbol, Size, ReadQr, QrPayload.ReadCodewords, FirstBest, ByteCapacity, TotalCodewords, ShowsFigures,
      QrStream.Carries;
    candidates, mask, codewords := [], 0, [];
    var smallest := ChooseVersion(|payload|);
    if smallest.None? {
      return Err(PayloadTooLong), candidates, mask, codewords;
    }
    if MAX_VERSION < minimumVersion {
      ChosenFits(|payload|, smallest.value, smallest.value);
      return Err(UnsupportedVersion), candidates, mask, codewords;
    }
    assert SmallestVersion(|payload|, smallest.value);
    var version: Version := if smallest.value < minimumVersion then minimumVersion else smallest.value;
    ChosenFits(|payload|, smallest.value, version);
    var grid, reserved, stream := Prepare(gf, payload, version);
    codewords := stream;
    var best;
    best, candidates, mask := ChooseMask(grid, reserved, version, penalty, codewords);
    SymbolIsReadable(best, version, mask, codewords);
    SymbolShowsFigures(best, version, mask, codewords);
    result := Ok(QrSymbol(version, Size(version), best));
  }

  lemma ChosenFits(length: nat, smallest: Version, version: Version)
    requires length <= ByteCapacity(smallest) && smallest <= version
    ensures length <= ByteCapacity(version) && length <= ByteCapacity(MAX_VERSION)
  {
    if smallest < version {
      CapacityGrows(smallest, version);
    }
    CapacityGrowsUpTo(smallest);
  }
}

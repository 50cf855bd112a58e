/** The module grid, filled in place step by step as the encoder does. */
module QrMatrix {
  import opened QrVersions
  import opened QrLayout
  import opened QrPattern
  import opened QrBits
  import QrCount

  datatype Module = Blank | Set(dark: bool)

  ghost predicate SameSquare(grid: array2<Module>, reserved: array2<bool>, size: nat)
  {
    && grid.Length0 == grid.Length1 == size
    && reserved.Length0 == reserved.Length1 == size
  }

  method PlaceFinder(grid: array2<Module>, reserved: array2<bool>, top: int, left: int)
    requires SameSquare(grid, reserved, grid.Length0)
    modifies grid, reserved
    ensures forall r, c :: 0 <= r < grid.Length0 && 0 <= c < grid.Length0 ==>
      grid[r, c] == if InFinderBox(top, left, r, c) then Set(FinderDark(r - top, c - left)) else old(grid[r, c])
    ensures forall r, c :: 0 <= r < grid.Length0 && 0 <= c < grid.Length0 ==>
      reserved[r, c] == (InFinderBox(top, left, r, c) || old(reserved[r, c]))
  {
    hide FinderDark;
    var size := grid.Length0;
    for y := -1 to 8
      invariant forall r, c :: 0 <= r < size && 0 <= c < size ==>
        grid[r, c] == if InFinderBox(top, left, r, c) && r - top < y then Set(FinderDark(r - top, c - left)) else old(grid[r, c])
      invariant forall r, c :: 0 <= r < size && 0 <= c < size ==>
        reserved[r, c] == ((InFinderBox(top, left, r, c) && r - top < y) || old(reserved[r, c]))
    {
      for x := -1 to 8
        invariant forall r, c :: 0 <= r < size && 0 <= c < size ==>
          grid[r, c] == if InFinderBox(top, left, r, c) && (r - top < y || (r - top == y && c - left < x))
                        then Set(FinderDark(r - top, c - left)) else old(grid[r, c])
        invariant forall r, c :: 0 <= r < size && 0 <= c < size ==>
          reserved[r, c] == ((InFinderBox(top, left, r, c) && (r - top < y || (r - top == y && c - left < x))) || old(reserved[r, c]))
      {
        var row, column := top + y, left + x;
        if 0 <= row < size && 0 <= column < size {
          grid[row, column] := Set(FinderDark(y, x));
          reserved[row, column] := true;
        }
      }
    }
  }

  method PlaceOneAlignment(grid: array2<Module>, reserved: array2<bool>, centreY: nat, centreX: nat)
    requires SameSquare(grid, reserved, grid.Length0)
    requires 2 <= centreY < grid.Length0 - 2 && 2 <= centreX < grid.Length0 - 2
    modifies grid, reserved
    ensures forall r, c :: 0 <= r < grid.Length0 && 0 <= c < grid.Length0 ==>
      grid[r, c] == if Around(centreY, centreX, r, c) then Set(AlignmentDarkAround(centreY, centreX, r, c)) else old(grid[r, c])
    ensures forall r, c :: 0 <= r < grid.Length0 && 0 <= c < grid.Length0 ==>
      reserved[r, c] == (Around(centreY, centreX, r, c) || old(reserved[r, c]))
  {
    hide AlignmentDarkAround;
    var size := grid.Length0;
    for y := -2 to 3
      invariant forall r, c :: 0 <= r < size && 0 <= c < size ==>
        grid[r, c] == if Around(centreY, centreX, r, c) && r < centreY + y
                      then Set(AlignmentDarkAround(centreY, centreX, r, c)) else old(grid[r, c])
      invariant forall r, c :: 0 <= r < size && 0 <= c < size ==>
        reserved[r, c] == ((Around(centreY, centreX, r, c) && r < centreY + y) || old(reserved[r, c]))
    {
      for x := -2 to 3
        invariant forall r, c :: 0 <= r < size && 0 <= c < size ==>
          grid[r, c] == if Around(centreY, centreX, r, c) && (r < centreY + y || (r == centreY + y && c < centreX + x))
                        then Set(AlignmentDarkAround(centreY, centreX, r, c)) else old(grid[r, c])
        invariant forall r, c :: 0 <= r < size && 0 <= c < size ==>
          reserved[r, c] == ((Around(centreY, centreX, r, c) && (r < centreY + y || (r == centreY + y && c < centreX + x)))
                             || old(reserved[r, c]))
      {
        grid[centreY + y, centreX + x] := Set(AlignmentDarkAround(centreY, centreX, centreY + y, centreX + x));
        reserved[centreY + y, centreX + x] := true;
      }
    }
  }

  // -------------------------------------------------------- alignment ---

  /** A pair of centres is drawn when it does not collide with a finder pattern. */
  ghost predicate DrawnAround(centres: seq<nat>, size: nat, a: nat, b: nat, row: nat, column: nat) {
    && a < |centres| && b < |centres|
    && !NearFinder(size, centres[a], centres[b]) && Around(centres[a], centres[b], row, column)
  }

  /** The pairs of centres that come before pair (i, j) in the source's double loop. */
  ghost predicate Earlier(a: nat, b: nat, i: nat, j: nat) {
    a < i || (a == i && b < j)
  }

  ghost predicate CoveredBefore(centres: seq<nat>, size: nat, i: nat, j: nat, row: nat, column: nat) {
    exists a: nat, b: nat :: Earlier(a, b, i, j) && DrawnAround(centres, size, a, b, row, column)
  }

  ghost predicate DarkBefore(centres: seq<nat>, size: nat, i: nat, j: nat, row: nat, column: nat) {
    exists a: nat, b: nat :: Earlier(a, b, i, j) && DrawnAround(centres, size, a, b, row, column)
      && AlignmentDarkAround(centres[a], centres[b], row, column)
  }

  ghost predicate Spaced(centres: seq<nat>, size: nat) {
    && (forall a, b :: 0 <= a < b < |centres| ==> centres[a] + 5 <= centres[b])
    && (forall a :: 0 <= a < |centres| ==> 2 <= centres[a] < size - 2)
  }

  lemma BeforeStep(centres: seq<nat>, size: nat, i: nat, j: nat, row: nat, column: nat)
    requires Spaced(centres, size) && i < |centres| && j < |centres|
    ensures CoveredBefore(centres, size, i, j + 1, row, column)
         == (CoveredBefore(centres, size, i, j, row, column) || DrawnAround(centres, size, i, j, row, column))
    ensures DarkBefore(centres, size, i, j + 1, row, column)
         == if DrawnAround(centres, size, i, j, row, column)
            then AlignmentDarkAround(centres[i], centres[j], row, column)
            else DarkBefore(centres, size, i, j, row, column)
  {
    hide NearFinder, AlignmentDarkAround;
    assert Earlier(i, j, i, j + 1);
    forall a: nat, b: nat | Earlier(a, b, i, j)
      ensures Earlier(a, b, i, j + 1)
      ensures !(DrawnAround(centres, size, a, b, row, column) && DrawnAround(centres, size, i, j, row, column))
    {
    }
    forall a: nat, b: nat | Earlier(a, b, i, j + 1)
      ensures Earlier(a, b, i, j) || (a == i && b == j)
    {
    }
  }

  lemma BeforeNextRow(centres: seq<nat>, size: nat, i: nat, row: nat, column: nat)
    ensures CoveredBefore(centres, size, i + 1, 0, row, column) == CoveredBefore(centres, size, i, |centres|, row, column)
    ensures DarkBefore(centres, size, i + 1, 0, row, column) == DarkBefore(centres, size, i, |centres|, row, column)
  {
    hide NearFinder, AlignmentDarkAround, Around;
    forall a: nat, b: nat
      ensures Earlier(a, b, i, |centres|) ==> Earlier(a, b, i + 1, 0)
      ensures Earlier(a, b, i + 1, 0) && b < |centres| ==> Earlier(a, b, i, |centres|)
    {
    }
  }

  ghost predicate Overlaid(grid: Module, before: Module, covered: bool, dark: bool) {
    grid == if covered then Set(dark) else before
  }

  method PlaceAlignment(grid: array2<Module>, reserved: array2<bool>, centres: seq<nat>)
    requires SameSquare(grid, reserved, grid.Length0) && Spaced(centres, grid.Length0)
    modifies grid, reserved
    ensures forall r, c :: 0 <= r < grid.Length0 && 0 <= c < grid.Length0 ==>
      Overlaid(grid[r, c], old(grid[r, c]), CoveredBefore(centres, grid.Length0, |centres|, 0, r, c),
               DarkBefore(centres, grid.Length0, |centres|, 0, r, c))
    ensures forall r, c :: 0 <= r < grid.Length0 && 0 <= c < grid.Length0 ==>
      reserved[r, c] == (CoveredBefore(centres, grid.Length0, |centres|, 0, r, c) || old(reserved[r, c]))
  {
    hide CoveredBefore, DarkBefore, AlignmentDarkAround, NearFinder, Around;
    var size := grid.Length0;
    NothingBefore(centres, size);
    for i := 0 to |centres|
      invariant forall r, c :: 0 <= r < size && 0 <= c < size ==>
        Overlaid(grid[r, c], old(grid[r, c]), CoveredBefore(centres, size, i, 0, r, c), DarkBefore(centres, size, i, 0, r, c))
      invariant forall r, c :: 0 <= r < size && 0 <= c < size ==>
        reserved[r, c] == (CoveredBefore(centres, size, i, 0, r, c) || old(reserved[r, c]))
    {
      for j := 0 to |centres|
        invariant forall r, c :: 0 <= r < size && 0 <= c < size ==>
          Overlaid(grid[r, c], old(grid[r, c]), CoveredBefore(centres, size, i, j, r, c), DarkBefore(centres, size, i, j, r, c))
        invariant forall r, c :: 0 <= r < size && 0 <= c < size ==>
          reserved[r, c] == (CoveredBefore(centres, size, i, j, r, c) || old(reserved[r, c]))
      {
        forall r: nat, c: nat | r < size && c < size
          ensures CoveredBefore(centres, size, i, j + 1, r, c)
               == (CoveredBefore(centres, size, i, j, r, c) || DrawnAround(centres, size, i, j, r, c))
          ensures DarkBefore(centres, size, i, j + 1, r, c)
               == if DrawnAround(centres, size, i, j, r, c) then AlignmentDarkAround(centres[i], centres[j], r, c)
                  else DarkBefore(centres, size, i, j, r, c)
        {
          BeforeStep(centres, size, i, j, r, c);
        }
        if !NearFinder(size, centres[i], centres[j]) {
          PlaceOneAlignment(grid, reserved, centres[i], centres[j]);
        }
      }
      forall r: nat, c: nat | r < size && c < size
        ensures CoveredBefore(centres, size, i + 1, 0, r, c) == CoveredBefore(centres, size, i, |centres|, r, c)
        ensures DarkBefore(centres, size, i + 1, 0, r, c) == DarkBefore(centres, size, i, |centres|, r, c)
      {
        BeforeNextRow(centres, size, i, r, c);
      }
    }
  }

  lemma NothingBefore(centres: seq<nat>, size: nat)
    ensures forall r: nat, c: nat :: !CoveredBefore(centres, size, 0, 0, r, c)
  {
  }

  // ----------------------------------------------- timing and format areas ---

  ghost predicate InTimingRun(size: nat, row: nat, column: nat) {
    (row == 6 && 8 <= column < size - 8) || (column == 6 && 8 <= row < size - 8)
  }

  method PlaceTiming(grid: array2<Module>, reserved: array2<bool>)
    requires SameSquare(grid, reserved, grid.Length0) && grid.Length0 >= 21
    modifies grid, reserved
    ensures forall r, c :: 0 <= r < grid.Length0 && 0 <= c < grid.Length0 ==>
      grid[r, c] == if InTimingRun(grid.Length0, r, c) then Set(if r == 6 then c % 2 == 0 else r % 2 == 0) else old(grid[r, c])
    ensures forall r, c :: 0 <= r < grid.Length0 && 0 <= c < grid.Length0 ==>
      reserved[r, c] == (InTimingRun(grid.Length0, r, c) || old(reserved[r, c]))
  {
    var size := grid.Length0;
    for index := 8 to size - 8
      invariant forall r, c :: 0 <= r < size && 0 <= c < size ==>
        grid[r, c] == if InTimingRun(size, r, c) && (if r == 6 then c < index else r < index)
                      then Set(if r == 6 then c % 2 == 0 else r % 2 == 0) else old(grid[r, c])
      invariant forall r, c :: 0 <= r < size && 0 <= c < size ==>
        reserved[r, c] == ((InTimingRun(size, r, c) && (if r == 6 then c < index else r < index)) || old(reserved[r, c]))
    {
      var dark := index % 2 == 0;
      grid[6, index] := Set(dark);
      grid[index, 6] := Set(dark);
      reserved[6, index] := true;
      reserved[index, 6] := true;
    }
  }

  ghost predicate InFormatArea(size: nat, row: nat, column: nat) {
    || (row == 8 && (column <= 8 || size - 8 <= column))
    || (column == 8 && (row <= 8 || size - 8 <= row))
  }

  method ReserveFormatCopies(reserved: array2<bool>, size: nat)
    requires reserved.Length0 == reserved.Length1 == size >= 21
    modifies reserved
    ensures forall r, c :: 0 <= r < size && 0 <= c < size ==>
      reserved[r, c] == (InFormatArea(size, r, c) || old(reserved[r, c]))
  {
    for index := 0 to 9
      invariant forall r, c :: 0 <= r < size && 0 <= c < size ==>
        reserved[r, c] == ((r == 8 && c < index) || (c == 8 && r < index) || old(reserved[r, c]))
    {
      reserved[8, index] := true;
      reserved[index, 8] := true;
    }
    for index := 0 to 8
      invariant forall r, c :: 0 <= r < size && 0 <= c < size ==>
        reserved[r, c] == (|| (r == 8 && (c <= 8 || size - index <= c))
                           || (c == 8 && (r <= 8 || size - index <= r)) || old(reserved[r, c]))
    {
      reserved[8, size - 1 - index] := true;
      reserved[size - 1 - index, 8] := true;
    }
  }

  method ReserveVersionAreas(reserved: array2<bool>, version: Version)
    requires reserved.Length0 == reserved.Length1 == Size(version) && version >= 7
    modifies reserved
    ensures forall r, c :: 0 <= r < Size(version) && 0 <= c < Size(version) ==>
      reserved[r, c] == (InVersionArea(version, r, c) || old(reserved[r, c]))
  {
    var size := Size(version);
    for y := 0 to 6
      invariant forall r, c :: 0 <= r < size && 0 <= c < size ==>
        reserved[r, c] == (|| (r < y && size - 11 <= c < size - 8)
                           || (c < y && size - 11 <= r < size - 8) || old(reserved[r, c]))
    {
      for x := 0 to 3
        invariant forall r, c :: 0 <= r < size && 0 <= c < size ==>
          reserved[r, c] == (|| (r < y && size - 11 <= c < size - 8) || (r == y && size - 11 <= c < size - 11 + x)
                             || (c < y && size - 11 <= r < size - 8) || (c == y && size - 11 <= r < size - 11 + x)
                             || old(reserved[r, c]))
      {
        reserved[y, size - 11 + x] := true;
        reserved[size - 11 + x, y] := true;
      }
    }
  }

  /** The source's reserveFormatAreas. */
  method ReserveFormatAreas(reserved: array2<bool>, version: Version)
    requires reserved.Length0 == reserved.Length1 == Size(version)
    modifies reserved
    ensures forall r, c :: 0 <= r < Size(version) && 0 <= c < Size(version) ==>
      reserved[r, c] == (InFormatArea(Size(version), r, c) || InVersionArea(version, r, c) || old(reserved[r, c]))
  {
    ReserveFormatCopies(reserved, Size(version));
    if version >= 7 {
      ReserveVersionAreas(reserved, version);
    }
  }

  // --------------------------------------------- all function patterns ---

  /** The modules that applyFormatInformation writes. */
  predicate HoldsFormat(size: nat, row: nat, column: nat) {
    FormatIndex(size, row, column) >= 0 || IsDarkModule(size, row, column)
  }

  ghost predicate FunctionPatternsPlaced(grid: array2<Module>, reserved: array2<bool>, version: Version)
    requires SameSquare(grid, reserved, Size(version))
    reads grid, reserved
  {
    forall r, c :: 0 <= r < Size(version) && 0 <= c < Size(version) ==>
      && reserved[r, c] == Reserved(version, r, c)
      && (Reserved(version, r, c) && !HoldsFormat(Size(version), r, c) && !InVersionArea(version, r, c) ==>
          grid[r, c] == Set(PatternDark(version, r, c)))
  }

  lemma CentresAreSpaced(version: Version)
    ensures Spaced(SpecFor(version).alignment, Size(version))
  {
  }

  lemma CoveredIsAlignment(version: Version, row: nat, column: nat)
    ensures var centres := SpecFor(version).alignment;
      && CoveredBefore(centres, Size(version), |centres|, 0, row, column) == InAlignment(version, row, column)
      && DarkBefore(centres, Size(version), |centres|, 0, row, column) == AlignmentDark(version, row, column)
  {
    hide NearFinder, AlignmentDarkAround, Around, SpecFor;
    var centres := SpecFor(version).alignment;
    if InAlignment(version, row, column) {
      var y, x :| y in centres && x in centres && !NearFinder(Size(version), y, x) && Around(y, x, row, column);
      var a, b :| 0 <= a < |centres| && 0 <= b < |centres| && centres[a] == y && centres[b] == x;
      assert Earlier(a, b, |centres|, 0) && DrawnAround(centres, Size(version), a, b, row, column);
    }
    if AlignmentDark(version, row, column) {
      var y, x :| y in centres && x in centres && !NearFinder(Size(version), y, x) && Around(y, x, row, column)
        && AlignmentDarkAround(y, x, row, column);
      var a, b :| 0 <= a < |centres| && 0 <= b < |centres| && centres[a] == y && centres[b] == x;
      assert Earlier(a, b, |centres|, 0) && DrawnAround(centres, Size(version), a, b, row, column);
    }
  }

  ghost predicate InAnyFinderBox(size: nat, row: nat, column: nat) {
    InFinderBox(0, 0, row, column) || InFinderBox(0, size - 7, row, column) || InFinderBox(size - 7, 0, row, column)
  }

  lemma ReservedInPieces(version: Version, row: nat, column: nat)
    requires row < Size(version) && column < Size(version)
    ensures var size := Size(version);
      Reserved(version, row, column) ==
      (|| InAnyFinderBox(size, row, column) || InAlignment(version, row, column) || InTimingRun(size, row, column)
       || InFormatArea(size, row, column) || InVersionArea(version, row, column))
  {
    hide InAlignment, InVersionArea;
  }

  lemma AlignmentAvoidsFinders(version: Version, row: nat, column: nat)
    ensures InAlignment(version, row, column) ==> !InAnyFinderBox(Size(version), row, column)
  {
    hide InAlignment;
    QrCount.AlignmentIs(version, row, column);
  }

  /** What a module holds after the finders, then the alignment patterns, then the timing runs. */
  ghost function Layered(version: Version, row: nat, column: nat): Module {
    var size := Size(version);
    if InTimingRun(size, row, column) then Set(if row == 6 then column % 2 == 0 else row % 2 == 0)
    else if InAlignment(version, row, column) then Set(AlignmentDark(version, row, column))
    else if InFinderBox(size - 7, 0, row, column) then Set(FinderDark(row - (size - 7), column))
    else if InFinderBox(0, size - 7, row, column) then Set(FinderDark(row, column - (size - 7)))
    else if InFinderBox(0, 0, row, column) then Set(FinderDark(row, column))
    else Blank
  }

  lemma LayersGivePattern(version: Version, row: nat, column: nat)
    requires row < Size(version) && column < Size(version)
    requires Reserved(version, row, column)
    requires !HoldsFormat(Size(version), row, column) && !InVersionArea(version, row, column)
    ensures Layered(version, row, column) == Set(PatternDark(version, row, column))
  {
    hide InAlignment, InVersionArea, FinderDark, AlignmentDark, Reserved;
    ReservedInPieces(version, row, column);
    AlignmentAvoidsFinders(version, row, column);
  }

  method PlaceFunctionPatterns(grid: array2<Module>, reserved: array2<bool>, version: Version)
    requires SameSquare(grid, reserved, Size(version))
    requires forall r, c :: 0 <= r < Size(version) && 0 <= c < Size(version) ==> grid[r, c] == Blank && !reserved[r, c]
    modifies grid, reserved
    ensures FunctionPatternsPlaced(grid, reserved, version)
  {
    hide InFinderBox, FinderDark, InTimingRun, InFormatArea, InVersionArea, InAlignment, AlignmentDark,
      PatternDark, Reserved, HoldsFormat, CoveredBefore, DarkBefore;
    var size := Size(version);
    PlaceFinder(grid, reserved, 0, 0);
    PlaceFinder(grid, reserved, 0, size - 7);
    PlaceFinder(grid, reserved, size - 7, 0);
    CentresAreSpaced(version);
    PlaceAlignment(grid, reserved, SpecFor(version).alignment);
    PlaceTiming(grid, reserved);
    ReserveFormatAreas(reserved, version);
    forall r: nat, c: nat | r < size && c < size
      ensures grid[r, c] == Layered(version, r, c)
      ensures reserved[r, c] == Reserved(version, r, c)
    {
      CoveredIsAlignment(version, r, c);
      ReservedInPieces(version, r, c);
    }
    forall r: nat, c: nat | r < size && c < size && Reserved(version, r, c)
      && !HoldsFormat(size, r, c) && !InVersionArea(version, r, c)
      ensures grid[r, c] == Set(PatternDark(version, r, c))
    {
      LayersGivePattern(version, r, c);
    }
  }

  // ------------------------------------------------------ codeword bits ---

  /** Bit k of the codeword stream; zero past its end. */
  predicate StreamBit(codewords: seq<bv8>, k: nat) {
    k < 8 * |codewords| && BitAt(codewords[k / 8], k % 8)
  }

  /** The first cells of the zigzag hold the first bits of the stream. */
  ghost predicate BitsPlaced(grid: array2<Module>, size: nat, cells: seq<Cell>, codewords: seq<bv8>)
    requires grid.Length0 == grid.Length1 == size
    reads grid
  {
    forall k :: 0 <= k < |cells| ==>
      && cells[k].0 < size && cells[k].1 < size
      && grid[cells[k].0, cells[k].1] == Set(StreamBit(codewords, k))
  }

  ghost predicate OnlyCellsChanged(grid: array2<Module>, before: map<Cell, Module>, size: nat, cells: seq<Cell>)
    requires grid.Length0 == grid.Length1 == size
    reads grid
  {
    forall r: nat, c: nat :: r < size && c < size && (r, c) !in cells ==>
      (r, c) in before && grid[r, c] == before[(r, c)]
  }

  /** The body of the source's two innermost loops, for one module. */
  method PlaceBit(grid: array2<Module>, reserved: array2<bool>, version: Version, row: nat, column: nat,
                  codewords: seq<bv8>, bitIndex: nat, ghost before: map<Cell, Module>, ghost cells: seq<Cell>)
    returns (bitIndex': nat)
    requires SameSquare(grid, reserved, Size(version)) && row < Size(version) && column < Size(version)
    requires reserved[row, column] == Reserved(version, row, column)
    requires bitIndex == |cells| && (row, column) !in cells
    requires BitsPlaced(grid, Size(version), cells, codewords)
    requires OnlyCellsChanged(grid, before, Size(version), cells)
    modifies grid
    ensures bitIndex' == |cells + CellIfFree(version, row, column)|
    ensures BitsPlaced(grid, Size(version), cells + CellIfFree(version, row, column), codewords)
    ensures OnlyCellsChanged(grid, before, Size(version), cells + CellIfFree(version, row, column))
  {
    hide Reserved, BitAt;
    bitIndex' := bitIndex;
    if reserved[row, column] {
      assert cells + CellIfFree(version, row, column) == cells;
      return;
    }
    var bit := false;
    if bitIndex < 8 * |codewords| {
      bit := BitAt(codewords[bitIndex / 8], bitIndex % 8);
    }
    bitIndex' := bitIndex + 1;
    grid[row, column] := Set(bit);
  }

  lemma NotVisitedYet(version: Version, pair: nat, step: nat)
    requires pair < PairCount(version) && step < Size(version)
    ensures var row, right := RowAt(version, pair, step), RightColumn(version, pair);
      var cells := CellsOfPairs(version, pair) + PairCells(version, pair, step);
      && (row, right) !in cells
      && (row, right - 1) !in cells + CellIfFree(version, row, right)
  {
    hide Reserved, InPair, RightColumn;
    var row, right := RowAt(version, pair, step), RightColumn(version, pair);
    CellAheadIsNew(version, pair, step, (row, right));
    CellAheadIsNew(version, pair, step, (row, right - 1));
  }

  lemma CellAheadIsNew(version: Version, pair: nat, step: nat, cell: Cell)
    requires pair < PairCount(version) && step < Size(version)
    requires cell.0 == RowAt(version, pair, step)
    requires RightColumn(version, pair) - 1 <= cell.1 <= RightColumn(version, pair)
    ensures cell !in CellsOfPairs(version, pair) && cell !in PairCells(version, pair, step)
  {
    hide Reserved, RightColumn;
    PairCellsAre(version, pair, step, cell);
    CellsOfPairsAre(version, pair, cell);
    forall p: nat | p < pair
      ensures !InPair(version, p, cell)
    {
      PairsAreDisjoint(version, p, pair, cell);
    }
  }

  /** One pair of columns of the zigzag. */
  method DrawPair(grid: array2<Module>, reserved: array2<bool>, version: Version, ghost pair: nat, rightColumn: nat, upward: bool,
                  codewords: seq<bv8>, bitIndex: nat, ghost before: map<Cell, Module>)
    returns (bitIndex': nat)
    requires SameSquare(grid, reserved, Size(version)) && pair < PairCount(version)
    requires rightColumn == RightColumn(version, pair) && upward == (pair % 2 == 0)
    requires forall r: nat, c: nat :: r < Size(version) && c < Size(version) ==> reserved[r, c] == Reserved(version, r, c)
    requires bitIndex == |CellsOfPairs(version, pair)|
    requires BitsPlaced(grid, Size(version), CellsOfPairs(version, pair), codewords)
    requires OnlyCellsChanged(grid, before, Size(version), CellsOfPairs(version, pair))
    modifies grid
    ensures bitIndex' == |CellsOfPairs(version, pair + 1)|
    ensures BitsPlaced(grid, Size(version), CellsOfPairs(version, pair + 1), codewords)
    ensures OnlyCellsChanged(grid, before, Size(version), CellsOfPairs(version, pair + 1))
  {
    hide Reserved, BitsPlaced, OnlyCellsChanged, CellIfFree, RightColumn, PairCells, CellsOfPairs, Size;
    var size := Size(version);
    ghost var done := CellsOfPairs(version, pair);
    bitIndex' := bitIndex;
    PairStarts(version, pair);
    for step := 0 to size
      invariant bitIndex' == |done + PairCells(version, pair, step)|
      invariant BitsPlaced(grid, size, done + PairCells(version, pair, step), codewords)
      invariant OnlyCellsChanged(grid, before, size, done + PairCells(version, pair, step))
    {
      var row := if upward then size - 1 - step else step;
      ghost var cells := done + PairCells(version, pair, step);
      NotVisitedYet(version, pair, step);
      PairStep(version, pair, step);
      bitIndex' := PlaceBit(grid, reserved, version, row, rightColumn, codewords, bitIndex', before, cells);
      cells := cells + CellIfFree(version, row, rightColumn);
      bitIndex' := PlaceBit(grid, reserved, version, row, rightColumn - 1, codewords, bitIndex', before, cells);
      cells := cells + CellIfFree(version, row, rightColumn - 1);
      assert cells == done + PairCells(version, pair, step + 1);
    }
  }

  lemma PairStarts(version: Version, pair: nat)
    requires pair < PairCount(version)
    ensures CellsOfPairs(version, pair) + PairCells(version, pair, 0) == CellsOfPairs(version, pair)
    ensures CellsOfPairs(version, pair + 1) == CellsOfPairs(version, pair) + PairCells(version, pair, Size(version))
  {
    hide Reserved;
    assert PairCells(version, pair, 0) == [];
  }

  lemma PairStep(version: Version, pair: nat, step: nat)
    requires pair < PairCount(version) && step < Size(version)
    ensures var row, right := RowAt(version, pair, step), RightColumn(version, pair);
      PairCells(version, pair, step + 1)
        == PairCells(version, pair, step) + CellIfFree(version, row, right) + CellIfFree(version, row, right - 1)
  {
    hide CellIfFree, RightColumn;
  }

  lemma NothingPlaced(grid: array2<Module>, version: Version, codewords: seq<bv8>)
    requires grid.Length0 == grid.Length1 == Size(version)
    ensures CellsOfPairs(version, 0) == [] && BitsPlaced(grid, Size(version), [], codewords)
  {
  }

  /** The source's drawCodewords. */
  method DrawCodewords(grid: array2<Module>, reserved: array2<bool>, version: Version, codewords: seq<bv8>,
                       ghost before: map<Cell, Module>)
    requires SameSquare(grid, reserved, Size(version))
    requires forall r: nat, c: nat :: r < Size(version) && c < Size(version) ==> reserved[r, c] == Reserved(version, r, c)
    requires OnlyCellsChanged(grid, before, Size(version), [])
    modifies grid
    ensures BitsPlaced(grid, Size(version), DataCells(version), codewords)
    ensures OnlyCellsChanged(grid, before, Size(version), DataCells(version))
  {
    hide Reserved, OnlyCellsChanged, BitsPlaced, CellsOfPairs;
    NothingPlaced(grid, version, codewords);
    var size := Size(version);
    var bitIndex := 0;
    var upward := true;
    var right: int := size - 1;
    ghost var pair := 0;
    while right >= 1
      invariant right == size - 1 - 2 * pair && pair <= PairCount(version)
      invariant upward == (pair % 2 == 0)
      invariant bitIndex == |CellsOfPairs(version, pair)|
      invariant BitsPlaced(grid, size, CellsOfPairs(version, pair), codewords)
      invariant OnlyCellsChanged(grid, before, size, CellsOfPairs(version, pair))
    {
      var rightColumn := if right <= 6 then right - 1 else right;
      bitIndex := DrawPair(grid, reserved, version, pair, rightColumn, upward, codewords, bitIndex, before);
      upward := !upward;
      right := right - 2;
      pair := pair + 1;
    }
  }
}

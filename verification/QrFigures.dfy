/**
 The fixed parts of a symbol as ISO/IEC 18004 draws and tabulates them: finders, alignment patterns, timing,
 and the finished words of format and version information. Nothing here is computed the way the encoder does.
 */
module QrFigures {
  import opened QrVersions
  import opened QrLayout
  import opened QrPattern
  import opened QrMatrix
  import QrCount

  type Modules = seq<seq<bool>>

  ghost predicate SquareModules(modules: Modules, size: nat) {
    |modules| == size && forall r :: 0 <= r < size ==> |modules[r]| == size
  }

  // ----------------------------------------------------------- drawings ---

  function FinderRow(y: nat): (row: string)
    requires y < 7
    ensures |row| == 7
  {
    if y == 0 then "#######"
    else if y == 1 then "#.....#"
    else if y == 2 then "#.###.#"
    else if y == 3 then "#.###.#"
    else if y == 4 then "#.###.#"
    else if y == 5 then "#.....#"
    else "#######"
  }

  function AlignmentRow(y: nat): (row: string)
    requires y < 5
    ensures |row| == 5
  {
    if y == 0 then "#####"
    else if y == 1 then "#...#"
    else if y == 2 then "#.#.#"
    else if y == 3 then "#...#"
    else "#####"
  }

  /** The format information of level M, table C.1, most significant bit first. */
  function FormatWord(mask: nat): (word: string)
    requires mask < 8
    ensures |word| == 15
  {
    if mask == 0 then "101010000010010"
    else if mask == 1 then "101000100100101"
    else if mask == 2 then "101111001111100"
    else if mask == 3 then "101101101001011"
    else if mask == 4 then "100010111111001"
    else if mask == 5 then "100000011001110"
    else if mask == 6 then "100111110010111"
    else "100101010100000"
  }

  /** The version information, table D.1, most significant bit first. */
  function VersionWord(version: Version): (word: string)
    requires version >= 7
    ensures |word| == 18
  {
    if version == 7 then "000111110010010100"
    else if version == 8 then "001000010110111100"
    else if version == 9 then "001001101010011001"
    else "001010010011010011"
  }

  // --------------------------------------------------- what is to be seen ---

  ghost predicate FinderAt(modules: Modules, size: nat, top: nat, left: nat, y: nat, x: nat)
    requires SquareModules(modules, size) && top + 7 <= size && left + 7 <= size && y < 7 && x < 7
  {
    modules[top + y][left + x] == (FinderRow(y)[x] == '#')
  }

  ghost predicate ShowsFinder(modules: Modules, size: nat, top: nat, left: nat)
    requires SquareModules(modules, size) && top + 7 <= size && left + 7 <= size
  {
    forall y: nat, x: nat :: y < 7 && x < 7 ==> FinderAt(modules, size, top, left, y, x)
  }

  /** One module from each inner side of the finders' boxes. */
  ghost predicate SeparatorAt(modules: Modules, size: nat, i: nat)
    requires SquareModules(modules, size) && size >= 21 && i < 8
  {
    && !modules[7][i] && !modules[i][7]
    && !modules[7][size - 1 - i] && !modules[i][size - 8]
    && !modules[size - 8][i] && !modules[size - 1 - i][7]
  }

  ghost predicate ShowsSeparators(modules: Modules, size: nat)
    requires SquareModules(modules, size) && size >= 21
  {
    forall i: nat :: i < 8 ==> SeparatorAt(modules, size, i)
  }

  ghost predicate AlignmentAt(modules: Modules, size: nat, centreY: nat, centreX: nat, y: nat, x: nat)
    requires SquareModules(modules, size) && y < 5 && x < 5
    requires 2 <= centreY && centreY + 2 < size && 2 <= centreX && centreX + 2 < size
  {
    modules[centreY - 2 + y][centreX - 2 + x] == (AlignmentRow(y)[x] == '#')
  }

  /** An alignment pattern inside the symbol, given by its centre. */
  ghost predicate ShowsAlignment(modules: Modules, size: nat, centreY: nat, centreX: nat)
    requires SquareModules(modules, size)
  {
    && 2 <= centreY && centreY + 2 < size && 2 <= centreX && centreX + 2 < size
    && (forall y: nat, x: nat :: y < 5 && x < 5 ==> AlignmentAt(modules, size, centreY, centreX, y, x))
  }

  /** Dark and light in turn between the finders, beginning and ending with dark. */
  ghost predicate ShowsTiming(modules: Modules, size: nat)
    requires SquareModules(modules, size) && size >= 21
  {
    && modules[6][8] && modules[8][6]
    && (forall i: nat :: 8 <= i < size - 9 ==> modules[6][i + 1] == !modules[6][i] && modules[i + 1][6] == !modules[i][6])
  }

  /** Bit number index of the format word, in the copy round the top left finder. */
  function FirstCopy(index: nat): (cell: Cell)
    requires index < 15
    ensures cell.0 <= 8 && cell.1 <= 8
  {
    if index == 0 then (0, 8) else if index == 1 then (1, 8) else if index == 2 then (2, 8)
    else if index == 3 then (3, 8) else if index == 4 then (4, 8) else if index == 5 then (5, 8)
    else if index == 6 then (7, 8) else if index == 7 then (8, 8) else if index == 8 then (8, 7)
    else if index == 9 then (8, 5) else if index == 10 then (8, 4) else if index == 11 then (8, 3)
    else if index == 12 then (8, 2) else if index == 13 then (8, 1) else (8, 0)
  }

  /** The same bit in the other copy: eight along the top right finder, seven along the bottom left one. */
  function SecondCopy(size: nat, index: nat): (cell: Cell)
    requires index < 15 && size >= 21
    ensures cell.0 < size && cell.1 < size
  {
    if index < 8 then (8, size - 1 - index) else (size - 7 + (index - 8), 8)
  }

  ghost predicate FormatAt(modules: Modules, size: nat, mask: nat, i: nat)
    requires SquareModules(modules, size) && size >= 21 && mask < 8 && i < 15
  {
    && modules[FirstCopy(i).0][FirstCopy(i).1] == (FormatWord(mask)[14 - i] == '1')
    && modules[SecondCopy(size, i).0][SecondCopy(size, i).1] == (FormatWord(mask)[14 - i] == '1')
  }

  ghost predicate ShowsFormat(modules: Modules, size: nat, mask: nat)
    requires SquareModules(modules, size) && size >= 21 && mask < 8
  {
    modules[size - 8][8] && forall i: nat :: i < 15 ==> FormatAt(modules, size, mask, i)
  }

  /** A module of the six by three block beside the top right finder, and its transposed copy. */
  ghost predicate VersionAt(modules: Modules, version: Version, y: nat, x: nat)
    requires SquareModules(modules, Size(version)) && version >= 7 && y < 6 && x < 3
  {
    && modules[y][Size(version) - 11 + x] == (VersionWord(version)[17 - (3 * y + x)] == '1')
    && modules[Size(version) - 11 + x][y] == (VersionWord(version)[17 - (3 * y + x)] == '1')
  }

  ghost predicate ShowsVersion(modules: Modules, version: Version)
    requires SquareModules(modules, Size(version))
  {
    version >= 7 ==> forall y: nat, x: nat :: y < 6 && x < 3 ==> VersionAt(modules, version, y, x)
  }

  ghost predicate HasAlignment(version: Version, centreY: nat, centreX: nat) {
    centreY in SpecFor(version).alignment && centreX in SpecFor(version).alignment && !NearFinder(Size(version), centreY, centreX)
  }

  ghost predicate ShowsAlignments(modules: Modules, version: Version)
    requires SquareModules(modules, Size(version))
  {
    forall y: nat, x: nat :: HasAlignment(version, y, x) ==> ShowsAlignment(modules, Size(version), y, x)
  }

  /** Everything a scanner looks for before it reads data. */
  ghost predicate ShowsFigures(modules: Modules, version: Version, mask: nat)
    requires mask < 8
  {
    var size := Size(version);
    && SquareModules(modules, size)
    && ShowsFinder(modules, size, 0, 0) && ShowsFinder(modules, size, 0, size - 7) && ShowsFinder(modules, size, size - 7, 0)
    && ShowsSeparators(modules, size)
    && ShowsAlignments(modules, version)
    && ShowsTiming(modules, size)
    && ShowsFormat(modules, size, mask)
    && ShowsVersion(modules, version)
  }

  // -------------------------------------------------------------- proofs ---

  /** The function patterns, format and version of a symbol, module by module. */
  ghost predicate ReservedDrawn(modules: Modules, version: Version, mask: nat)
    requires mask < 8
  {
    && SquareModules(modules, Size(version))
    && (forall r: nat, c: nat :: r < Size(version) && c < Size(version) && Reserved(version, r, c) ==>
         modules[r][c] == ReservedDark(version, mask, r, c))
  }

  lemma FinderIsDrawn(y: nat, x: nat)
    requires y < 7 && x < 7
    ensures FinderDark(y, x) == (FinderRow(y)[x] == '#')
  {
  }

  lemma FinderModule(version: Version, mask: nat, top: nat, left: nat, y: nat, x: nat)
    requires mask < 8 && y < 7 && x < 7
    requires var size := Size(version); (top, left) in {(0, 0), (0, size - 7), (size - 7, 0)}
    ensures Reserved(version, top + y, left + x)
    ensures ReservedDark(version, mask, top + y, left + x) == FinderDark(y, x)
  {
    hide FinderDark, FormatBit, VersionBit, AlignmentDark, InAlignment;
  }

  lemma FinderShows(modules: Modules, version: Version, mask: nat, top: nat, left: nat)
    requires mask < 8 && ReservedDrawn(modules, version, mask)
    requires var size := Size(version); (top, left) in {(0, 0), (0, size - 7), (size - 7, 0)}
    ensures ShowsFinder(modules, Size(version), top, left)
  {
    hide FinderDark, FinderRow, Reserved, ReservedDark;
    forall y: nat, x: nat | y < 7 && x < 7
      ensures FinderAt(modules, Size(version), top, left, y, x)
    {
      FinderIsDrawn(y, x);
      FinderModule(version, mask, top, left, y, x);
    }
  }

  lemma SeparatorModules(version: Version, mask: nat, i: nat)
    requires mask < 8 && i < 8
    ensures var size := Size(version);
      && !ReservedDark(version, mask, 7, i) && !ReservedDark(version, mask, i, 7)
      && !ReservedDark(version, mask, 7, size - 1 - i) && !ReservedDark(version, mask, i, size - 8)
      && !ReservedDark(version, mask, size - 8, i) && !ReservedDark(version, mask, size - 1 - i, 7)
  {
    hide FormatBit, VersionBit, AlignmentDark;
  }

  lemma SeparatorsShow(modules: Modules, version: Version, mask: nat)
    requires mask < 8 && ReservedDrawn(modules, version, mask)
    ensures ShowsSeparators(modules, Size(version))
  {
    hide ReservedDark, InAlignment, InVersionArea;
    var size := Size(version);
    forall i: nat | i < 8
      ensures SeparatorAt(modules, size, i)
    {
      SeparatorModules(version, mask, i);
    }
  }

  lemma TimingModules(version: Version, mask: nat, i: nat)
    requires mask < 8 && 8 <= i < Size(version) - 8
    ensures ReservedDark(version, mask, 6, i) == (i % 2 == 0) == ReservedDark(version, mask, i, 6)
  {
    hide FormatBit, VersionBit, AlignmentDark;
  }

  lemma TimingShows(modules: Modules, version: Version, mask: nat)
    requires mask < 8 && ReservedDrawn(modules, version, mask)
    ensures ShowsTiming(modules, Size(version))
  {
    hide ReservedDark, InAlignment, InVersionArea, InCorner;
    TimingModules(version, mask, 8);
    forall i: nat | 8 <= i < Size(version) - 9
      ensures modules[6][i + 1] == !modules[6][i] && modules[i + 1][6] == !modules[i][6]
    {
      TimingModules(version, mask, i);
      TimingModules(version, mask, i + 1);
    }
  }

  lemma LowFormatBitsAre(mask: nat, index: nat)
    requires mask < 4 && index < 15
    ensures FormatBit(mask, index) == (FormatWord(mask)[14 - index] == '1')
  {
    hide FormatBits;
    FormatBitsAreWord(mask);
  }

  lemma HighFormatBitsAre(mask: nat, index: nat)
    requires 4 <= mask < 8 && index < 15
    ensures FormatBit(mask, index) == (FormatWord(mask)[14 - index] == '1')
  {
    hide FormatBits;
    FormatBitsAreWord(mask);
  }

  lemma FormatBitsAre(mask: nat, index: nat)
    requires mask < 8 && index < 15
    ensures FormatBit(mask, index) == (FormatWord(mask)[14 - index] == '1')
  {
    hide FormatBit, FormatWord;
    if mask < 4 {
      LowFormatBitsAre(mask, index);
    } else {
      HighFormatBitsAre(mask, index);
    }
  }

  /** The division by the format generator gives the tabulated words. */
  lemma FormatBitsAreWord(mask: nat)
    requires mask < 8
    ensures FormatBits(mask) ==
      if mask == 0 then 0x5412 else if mask == 1 then 0x5125 else if mask == 2 then 0x5e7c else if mask == 3 then 0x5b4b
      else if mask == 4 then 0x45f9 else if mask == 5 then 0x40ce else if mask == 6 then 0x4f97 else 0x4aa0
  {
  }

  lemma SeventhVersionBits()
    ensures VersionBits(7) == 0x07c94
  {
  }

  lemma EighthVersionBits()
    ensures VersionBits(8) == 0x085bc
  {
  }

  lemma NinthVersionBits()
    ensures VersionBits(9) == 0x09a99
  {
  }

  lemma TenthVersionBits()
    ensures VersionBits(10) == 0x0a4d3
  {
  }

  /** The division by the version generator gives the tabulated words. */
  lemma VersionBitsAreWord(version: Version)
    requires version >= 7
    ensures VersionBits(version) ==
      if version == 7 then 0x07c94 else if version == 8 then 0x085bc else if version == 9 then 0x09a99 else 0x0a4d3
  {
    hide VersionBits;
    SeventhVersionBits();
    EighthVersionBits();
    NinthVersionBits();
    TenthVersionBits();
  }

  lemma VersionBitsAre(version: Version, index: nat)
    requires version >= 7 && index < 18
    ensures VersionBit(version, index) == (VersionWord(version)[17 - index] == '1')
  {
    hide VersionBits;
    VersionBitsAreWord(version);
  }

  lemma FormatPlaces(version: Version, mask: nat, index: nat)
    requires mask < 8 && index < 15
    ensures var size := Size(version);
      var a, b := FirstCopy(index), SecondCopy(size, index);
      && Reserved(version, a.0, a.1) && ReservedDark(version, mask, a.0, a.1) == FormatBit(mask, index)
      && Reserved(version, b.0, b.1) && ReservedDark(version, mask, b.0, b.1) == FormatBit(mask, index)
  {
    hide FormatBit, VersionBit, AlignmentDark, InAlignment, InVersionArea, PatternDark;
  }

  lemma FormatShows(modules: Modules, version: Version, mask: nat)
    requires mask < 8 && ReservedDrawn(modules, version, mask)
    ensures ShowsFormat(modules, Size(version), mask)
  {
    hide FormatBit, ReservedDark, Reserved, FormatWord, FirstCopy;
    var size := Size(version);
    DarkModule(version, mask);
    forall i: nat | i < 15
      ensures FormatAt(modules, size, mask, i)
    {
      FormatPlaces(version, mask, i);
      FormatBitsAre(mask, i);
    }
  }

  lemma DarkModule(version: Version, mask: nat)
    requires mask < 8
    ensures Reserved(version, Size(version) - 8, 8) && ReservedDark(version, mask, Size(version) - 8, 8)
  {
    hide FormatBit, VersionBit, AlignmentDark, InAlignment, InVersionArea, PatternDark;
  }

  lemma VersionPlaces(version: Version, mask: nat, y: nat, x: nat)
    requires version >= 7 && mask < 8 && y < 6 && x < 3
    ensures var size := Size(version);
      && Reserved(version, y, size - 11 + x) && ReservedDark(version, mask, y, size - 11 + x) == VersionBit(version, 3 * y + x)
      && Reserved(version, size - 11 + x, y) && ReservedDark(version, mask, size - 11 + x, y) == VersionBit(version, 3 * y + x)
  {
    hide FormatBit, VersionBit, AlignmentDark, InAlignment, PatternDark;
  }

  lemma VersionShows(modules: Modules, version: Version, mask: nat)
    requires mask < 8 && ReservedDrawn(modules, version, mask)
    ensures ShowsVersion(modules, version)
  {
    hide VersionBit, ReservedDark, Reserved, VersionWord;
    if version >= 7 {
      forall y: nat, x: nat | y < 6 && x < 3
        ensures VersionAt(modules, version, y, x)
      {
        VersionPlaces(version, mask, y, x);
        VersionBitsAre(version, 3 * y + x);
      }
    }
  }

  lemma AlignmentRing(centreY: nat, centreX: nat, y: nat, x: nat)
    requires 2 <= centreY && 2 <= centreX && y < 5 && x < 5
    ensures AlignmentDarkAround(centreY, centreX, centreY - 2 + y, centreX - 2 + x) == (AlignmentRow(y)[x] == '#')
  {
  }

  lemma CentreInside(version: Version, centreY: nat, centreX: nat)
    requires HasAlignment(version, centreY, centreX)
    ensures centreY % 2 == 0 && 6 <= centreY && centreY + 2 < Size(version)
    ensures centreX % 2 == 0 && 6 <= centreX && centreX + 2 < Size(version)
    ensures (centreY == 6 || centreY > 8) && (centreX == 6 || centreX > 8)
  {
    QrCount.AlignmentCentres(version);
  }

  /** Only one alignment pattern covers a module. */
  lemma OneAlignment(version: Version, centreY: nat, centreX: nat, row: nat, column: nat)
    requires HasAlignment(version, centreY, centreX) && Around(centreY, centreX, row, column)
    ensures InAlignment(version, row, column)
    ensures AlignmentDark(version, row, column) == AlignmentDarkAround(centreY, centreX, row, column)
  {
    hide NearFinder, AlignmentDarkAround, SpecFor;
    var centres := SpecFor(version).alignment;
    CentresAreSpaced(version);
    if AlignmentDark(version, row, column) {
      var y, x :| y in centres && x in centres && !NearFinder(Size(version), y, x) && Around(y, x, row, column)
        && AlignmentDarkAround(y, x, row, column);
      SameCentre(centres, Size(version), y, centreY);
      SameCentre(centres, Size(version), x, centreX);
    }
  }

  lemma SameCentre(centres: seq<nat>, size: nat, a: nat, b: nat)
    requires Spaced(centres, size) && a in centres && b in centres
    requires a <= b + 4 && b <= a + 4
    ensures a == b
  {
    var i, j :| 0 <= i < |centres| && 0 <= j < |centres| && centres[i] == a && centres[j] == b;
  }

  lemma AlignmentIsClear(version: Version, row: nat, column: nat)
    requires InAlignment(version, row, column)
    ensures !InCorner(Size(version), row, column) && !InVersionArea(version, row, column)
    ensures !HoldsFormat(Size(version), row, column)
  {
    hide InAlignment;
    QrCount.AlignmentIs(version, row, column);
  }

  lemma AlignmentModule(version: Version, mask: nat, centreY: nat, centreX: nat, y: nat, x: nat)
    requires mask < 8 && HasAlignment(version, centreY, centreX) && y < 5 && x < 5
    ensures 2 <= centreY && centreY + 2 < Size(version) && 2 <= centreX && centreX + 2 < Size(version)
    ensures Reserved(version, centreY - 2 + y, centreX - 2 + x)
    ensures ReservedDark(version, mask, centreY - 2 + y, centreX - 2 + x) == (AlignmentRow(y)[x] == '#')
  {
    hide HasAlignment, InAlignment, AlignmentDark, AlignmentDarkAround, InVersionArea, FormatIndex, FinderDark;
    CentreInside(version, centreY, centreX);
    var row, column := centreY - 2 + y, centreX - 2 + x;
    OneAlignment(version, centreY, centreX, row, column);
    AlignmentIsClear(version, row, column);
    AlignmentRing(centreY, centreX, y, x);
    if row == 6 {
      assert y == 2 && column % 2 == x % 2;
    } else if column == 6 {
      assert x == 2 && row % 2 == y % 2;
    }
  }

  lemma AlignmentsShow(modules: Modules, version: Version, mask: nat)
    requires mask < 8 && ReservedDrawn(modules, version, mask)
    ensures ShowsAlignments(modules, version)
  {
    hide HasAlignment, ReservedDark, Reserved, AlignmentRow;
    forall y: nat, x: nat | HasAlignment(version, y, x)
      ensures ShowsAlignment(modules, Size(version), y, x)
    {
      CentreInside(version, y, x);
      forall dy: nat, dx: nat | dy < 5 && dx < 5
        ensures AlignmentAt(modules, Size(version), y, x, dy, dx)
      {
        AlignmentModule(version, mask, y, x, dy, dx);
      }
    }
  }

  /** A symbol drawn module by module as the encoder does shows all the figures. */
  lemma DrawnShowsFigures(modules: Modules, version: Version, mask: nat)
    requires mask < 8 && ReservedDrawn(modules, version, mask)
    ensures ShowsFigures(modules, version, mask)
  {
    hide ReservedDrawn, ShowsFinder, ShowsSeparators, ShowsAlignments, ShowsTiming, ShowsFormat, ShowsVersion;
    var size := Size(version);
    SquareOfDrawn(modules, version, mask);
    FinderShows(modules, version, mask, 0, 0);
    FinderShows(modules, version, mask, 0, size - 7);
    FinderShows(modules, version, mask, size - 7, 0);
    SeparatorsShow(modules, version, mask);
    AlignmentsShow(modules, version, mask);
    TimingShows(modules, version, mask);
    FormatShows(modules, version, mask);
    VersionShows(modules, version, mask);
  }

  lemma SquareOfDrawn(modules: Modules, version: Version, mask: nat)
    requires mask < 8 && ReservedDrawn(modules, version, mask)
    ensures SquareModules(modules, Size(version))
  {
  }

  // ------------------------------------------------------- finding the finders ---

  /** The seven modules from a place on, along a row or down a column. */
  ghost function Run(modules: Modules, size: nat, row: nat, column: nat, along: bool): (run: seq<bool>)
    requires SquareModules(modules, size) && row < size && column < size
    requires if along then column + 7 <= size else row + 7 <= size
  {
    seq(7, i requires 0 <= i < 7 => if along then modules[row][column + i] else modules[row + i][column])
  }

  const ONE_ONE_THREE_ONE_ONE := [true, false, true, true, true, false, true]

  /** A scanner finds 1:1:3:1:1 in every line through the core of a finder, across and down. */
  lemma FindersAreFound(modules: Modules, version: Version, mask: nat, top: nat, left: nat, i: nat)
    requires mask < 8 && ShowsFigures(modules, version, mask)
    requires var size := Size(version); (top, left) in {(0, 0), (0, size - 7), (size - 7, 0)}
    requires 2 <= i <= 4
    ensures Run(modules, Size(version), top + i, left, true) == ONE_ONE_THREE_ONE_ONE
    ensures Run(modules, Size(version), top, left + i, false) == ONE_ONE_THREE_ONE_ONE
  {
    hide ShowsSeparators, ShowsAlignments, ShowsTiming, ShowsFormat, ShowsVersion, FinderRow;
    var size := Size(version);
    FinderCore(i);
    forall x: nat | x < 7
      ensures modules[top + i][left + x] == ONE_ONE_THREE_ONE_ONE[x] == modules[top + x][left + i]
    {
      assert FinderAt(modules, size, top, left, i, x) && FinderAt(modules, size, top, left, x, i);
    }
  }

  lemma FinderCore(i: nat)
    requires 2 <= i <= 4
    ensures forall x: nat :: x < 7 ==> (FinderRow(i)[x] == '#') == ONE_ONE_THREE_ONE_ONE[x]
    ensures forall x: nat :: x < 7 ==> (FinderRow(x)[i] == '#') == ONE_ONE_THREE_ONE_ONE[x]
  {
  }
}

/**
 The geometry of a QR symbol: which modules are reserved for function patterns and format
 information, and in which order the zigzag visits the others.
 */
module QrLayout {
  import opened QrVersions

  type Cell = (nat, nat)

  // ---------------------------------------------------------- reserved ---

  /** Finder patterns with their separators and the format areas around them. */
  predicate InCorner(size: nat, row: nat, column: nat) {
    || (row <= 8 && column <= 8)
    || (row <= 8 && size <= column + 8)
    || (size <= row + 8 && column <= 8)
  }

  predicate InTiming(row: nat, column: nat) {
    row == 6 || column == 6
  }

  predicate NearFinder(size: nat, centreY: nat, centreX: nat) {
    || (centreY <= 8 && centreX <= 8)
    || (centreY <= 8 && size <= centreX + 9)
    || (size <= centreY + 9 && centreX <= 8)
  }

  predicate Around(centreY: nat, centreX: nat, row: nat, column: nat) {
    centreY <= row + 2 && row <= centreY + 2 && centreX <= column + 2 && column <= centreX + 2
  }

  predicate InAlignment(version: Version, row: nat, column: nat) {
    exists y, x :: y in SpecFor(version).alignment && x in SpecFor(version).alignment
      && !NearFinder(Size(version), y, x) && Around(y, x, row, column)
  }

  predicate InVersionArea(version: Version, row: nat, column: nat) {
    var size := Size(version);
    version >= 7 &&
    ((row < 6 && size - 11 <= column < size - 8) || (column < 6 && size - 11 <= row < size - 8))
  }

  predicate Reserved(version: Version, row: nat, column: nat) {
    || InCorner(Size(version), row, column)
    || InTiming(row, column)
    || InAlignment(version, row, column)
    || InVersionArea(version, row, column)
  }

  predicate FreeCell(version: Version, cell: Cell) {
    cell.0 < Size(version) && cell.1 < Size(version) && !Reserved(version, cell.0, cell.1)
  }

  // ------------------------------------------------------------ zigzag ---

  function PairCount(version: Version): nat {
    (Size(version) - 1) / 2
  }

  /** The right-hand column of each pair of columns, stepping over the timing column. */
  function RightColumn(version: Version, pair: nat): (column: nat)
    requires pair < PairCount(version)
    ensures 1 <= column < Size(version) && column != 6 && column != 7
  {
    var right := Size(version) - 1 - 2 * pair;
    if right <= 6 then right - 1 else right
  }

  /** Even pairs run upwards, odd pairs downwards. */
  function RowAt(version: Version, pair: nat, step: nat): (row: nat)
    requires step < Size(version)
    ensures row < Size(version)
  {
    if pair % 2 == 0 then Size(version) - 1 - step else step
  }

  ghost function CellIfFree(version: Version, row: nat, column: nat): (cells: seq<Cell>) {
    if Reserved(version, row, column) then [] else [(row, column)]
  }

  /** The free cells of the first steps rows of a pair, right column before left. */
  ghost function PairCells(version: Version, pair: nat, steps: nat): seq<Cell>
    requires pair < PairCount(version) && steps <= Size(version)
  {
    if steps == 0 then [] else
    var row, right := RowAt(version, pair, steps - 1), RightColumn(version, pair);
    PairCells(version, pair, steps - 1)
      + CellIfFree(version, row, right) + CellIfFree(version, row, right - 1)
  }

  ghost function CellsOfPairs(version: Version, pairs: nat): seq<Cell>
    requires pairs <= PairCount(version)
  {
    if pairs == 0 then [] else
    CellsOfPairs(version, pairs - 1) + PairCells(version, pairs - 1, Size(version))
  }

  /** Every free cell in the order in which codeword bits are placed. */
  ghost function DataCells(version: Version): seq<Cell> {
    CellsOfPairs(version, PairCount(version))
  }

  // ------------------------------------------- what the zigzag visits ---

  ghost predicate InPair(version: Version, pair: nat, cell: Cell)
    requires pair < PairCount(version)
  {
    cell.1 == RightColumn(version, pair) || cell.1 == RightColumn(version, pair) - 1
  }

  /** A cell of the first steps rows of the pair, in either column, reserved or not. */
  ghost predicate Visited(version: Version, pair: nat, steps: nat, cell: Cell)
    requires pair < PairCount(version)
  {
    && InPair(version, pair, cell)
    && cell.0 < Size(version)
    && (if pair % 2 == 0 then Size(version) - steps <= cell.0 else cell.0 < steps)
  }

  lemma {:induction false} PairCellsAre(version: Version, pair: nat, steps: nat, cell: Cell)
    requires pair < PairCount(version) && steps <= Size(version)
    ensures cell in PairCells(version, pair, steps) <==>
      (Visited(version, pair, steps, cell) && !Reserved(version, cell.0, cell.1))
  {
    hide Reserved;
    if steps > 0 {
      PairCellsAre(version, pair, steps - 1, cell);
    }
  }

  ghost predicate Distinct(cells: seq<Cell>) {
    forall i, j :: 0 <= i < j < |cells| ==> cells[i] != cells[j]
  }

  lemma DistinctConcat(a: seq<Cell>, b: seq<Cell>)
    requires Distinct(a) && Distinct(b)
    requires forall cell :: !(cell in a && cell in b)
    ensures Distinct(a + b)
  {
    var c := a + b;
    forall i, j | 0 <= i < j < |c|
      ensures c[i] != c[j]
    {
      if i < |a| && |a| <= j {
        assert c[i] in a && c[j] in b;
      }
    }
  }

  lemma NextRowIsNew(version: Version, pair: nat, step: nat, column: nat)
    requires pair < PairCount(version) && step < Size(version)
    ensures (RowAt(version, pair, step), column) !in PairCells(version, pair, step)
  {
    hide Reserved, RightColumn, PairCells;
    PairCellsAre(version, pair, step, (RowAt(version, pair, step), column));
  }

  lemma {:induction false} PairCellsDistinct(version: Version, pair: nat, steps: nat)
    requires pair < PairCount(version) && steps <= Size(version)
    ensures Distinct(PairCells(version, pair, steps))
  {
    hide Reserved, RightColumn, RowAt;
    if steps > 0 {
      var row, right := RowAt(version, pair, steps - 1), RightColumn(version, pair);
      var front := PairCells(version, pair, steps - 1);
      PairCellsDistinct(version, pair, steps - 1);
      NextRowIsNew(version, pair, steps - 1, right);
      NextRowIsNew(version, pair, steps - 1, right - 1);
      DistinctConcat(front, CellIfFree(version, row, right));
      DistinctConcat(front + CellIfFree(version, row, right), CellIfFree(version, row, right - 1));
    }
  }

  lemma PairsAreDisjoint(version: Version, p: nat, q: nat, cell: Cell)
    requires p < q < PairCount(version)
    ensures !(InPair(version, p, cell) && InPair(version, q, cell))
  {
  }

  lemma {:induction false} CellsOfPairsAre(version: Version, pairs: nat, cell: Cell)
    requires pairs <= PairCount(version)
    ensures cell in CellsOfPairs(version, pairs) <==>
      (&& cell.0 < Size(version) && !Reserved(version, cell.0, cell.1)
       && exists p: nat :: p < pairs && InPair(version, p, cell))
  {
    hide Reserved, InPair, PairCells;
    if pairs > 0 {
      CellsOfPairsAre(version, pairs - 1, cell);
      PairCellsAre(version, pairs - 1, Size(version), cell);
    }
  }

  lemma NextPairIsNew(version: Version, pair: nat, cell: Cell)
    requires pair < PairCount(version)
    ensures !(cell in CellsOfPairs(version, pair) && cell in PairCells(version, pair, Size(version)))
  {
    hide Reserved, InPair, CellsOfPairs, PairCells, Size;
    CellsOfPairsAre(version, pair, cell);
    PairCellsAre(version, pair, Size(version), cell);
    forall p: nat | p < pair
      ensures !(InPair(version, p, cell) && InPair(version, pair, cell))
    {
      PairsAreDisjoint(version, p, pair, cell);
    }
  }

  lemma PairsUnfold(version: Version, pairs: nat)
    requires pairs <= PairCount(version)
    ensures pairs == 0 ==> CellsOfPairs(version, pairs) == [] && Distinct([])
    ensures pairs > 0 ==>
              CellsOfPairs(version, pairs) == CellsOfPairs(version, pairs - 1) + PairCells(version, pairs - 1, Size(version))
  {
    hide PairCells;
  }

  lemma {:induction false} CellsOfPairsDistinct(version: Version, pairs: nat)
    requires pairs <= PairCount(version)
    ensures Distinct(CellsOfPairs(version, pairs))
  {
    hide Reserved, InPair, PairCells, CellsOfPairs, Size, Distinct;
    PairsUnfold(version, pairs);
    if pairs > 0 {
      var last := PairCells(version, pairs - 1, Size(version));
      CellsOfPairsDistinct(version, pairs - 1);
      PairCellsDistinct(version, pairs - 1, Size(version));
      forall cell
        ensures !(cell in CellsOfPairs(version, pairs - 1) && cell in last)
      {
        NextPairIsNew(version, pairs - 1, cell);
      }
      DistinctConcat(CellsOfPairs(version, pairs - 1), last);
    }
  }

  lemma SomePairHasColumn(version: Version, cell: Cell)
    requires cell.1 < Size(version) && cell.1 != 6
    ensures exists p: nat :: p < PairCount(version) && InPair(version, p, cell)
  {
    var size := Size(version);
    var p := if cell.1 > 6 then (size - 1 - cell.1) / 2 else (size - 2 - cell.1) / 2;
    assert p < PairCount(version);
    assert InPair(version, p, cell);
  }

  /** The zigzag visits every unreserved module of the grid exactly once, and nothing else. */
  lemma ZigzagVisitsEachFreeCellOnce(version: Version)
    ensures Distinct(DataCells(version))
    ensures forall cell: Cell :: cell in DataCells(version) <==> FreeCell(version, cell)
  {
    hide InAlignment, InVersionArea, InPair, InCorner;
    CellsOfPairsDistinct(version, PairCount(version));
    forall cell: Cell
      ensures cell in DataCells(version) <==> FreeCell(version, cell)
    {
      CellsOfPairsAre(version, PairCount(version), cell);
      if cell.1 < Size(version) && cell.1 != 6 {
        SomePairHasColumn(version, cell);
      }
      forall p: nat | p < PairCount(version)
        ensures InPair(version, p, cell) ==> cell.1 < Size(version)
      {
        PairIsInside(version, p, cell);
      }
    }
  }

  lemma PairIsInside(version: Version, p: nat, cell: Cell)
    requires p < PairCount(version)
    ensures InPair(version, p, cell) ==> cell.1 < Size(version)
  {
  }
}

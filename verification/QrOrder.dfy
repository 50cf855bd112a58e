/** The order in which data modules are filled, by the place of a module alone. */
module QrOrder {
  import opened QrVersions
  import opened QrLayout

  /** How many columns stand to the right, the vertical timing column left out. */
  function FromRight(size: nat, column: nat): int {
    if column < 6 then size - 2 - column else size - 1 - column
  }

  /**
   Columns are taken in twos from the right. The first two go from bottom to top, the next two from top to bottom,
   and so on. In each row the right module comes first.
   */
  ghost predicate Precedes(size: nat, a: Cell, b: Cell) {
    var m, n := FromRight(size, a.1), FromRight(size, b.1);
    || m / 2 < n / 2
    || (m / 2 == n / 2 && m / 2 % 2 == 0 && a.0 > b.0)
    || (m / 2 == n / 2 && m / 2 % 2 == 1 && a.0 < b.0)
    || (m / 2 == n / 2 && a.0 == b.0 && m % 2 < n % 2)
  }

  ghost predicate Ascending(size: nat, cells: seq<Cell>) {
    forall i, j :: 0 <= i < j < |cells| ==> Precedes(size, cells[i], cells[j])
  }

  lemma AscendingConcat(size: nat, a: seq<Cell>, b: seq<Cell>)
    requires Ascending(size, a) && Ascending(size, b)
    requires forall x, y :: x in a && y in b ==> Precedes(size, x, y)
    ensures Ascending(size, a + b)
  {
    hide Precedes;
    var c := a + b;
    forall i, j | 0 <= i < j < |c|
      ensures Precedes(size, c[i], c[j])
    {
      if i < |a| && |a| <= j {
        assert c[i] in a && c[j] in b;
      }
    }
  }

  /** Both columns of a pair count as that pair. */
  lemma PairFromRight(version: Version, pair: nat, cell: Cell)
    requires pair < PairCount(version) && InPair(version, pair, cell)
    ensures cell.1 < Size(version) && cell.1 != 6
    ensures FromRight(Size(version), cell.1) / 2 == pair
    ensures FromRight(Size(version), cell.1) % 2 == if cell.1 == RightColumn(version, pair) then 0 else 1
  {
  }

  lemma PairFirst(version: Version, a: Cell, b: Cell, p: nat, q: nat)
    requires p < q < PairCount(version) && InPair(version, p, a) && InPair(version, q, b)
    ensures Precedes(Size(version), a, b)
  {
    hide InPair, FromRight, RightColumn;
    PairFromRight(version, p, a);
    PairFromRight(version, q, b);
  }

  lemma RowFirst(version: Version, pair: nat, steps: nat, a: Cell, b: Cell)
    requires pair < PairCount(version) && steps < Size(version)
    requires Visited(version, pair, steps, a) && InPair(version, pair, b) && b.0 == RowAt(version, pair, steps)
    ensures Precedes(Size(version), a, b)
  {
    hide InPair, FromRight, RightColumn;
    PairFromRight(version, pair, a);
    PairFromRight(version, pair, b);
  }

  lemma RightFirst(version: Version, pair: nat, row: nat)
    requires pair < PairCount(version) && row < Size(version)
    ensures var a, b := (row, RightColumn(version, pair)), (row, RightColumn(version, pair) - 1);
      Precedes(Size(version), a, b)
  {
    hide FromRight, RightColumn;
    PairFromRight(version, pair, (row, RightColumn(version, pair)));
    PairFromRight(version, pair, (row, RightColumn(version, pair) - 1));
  }

  lemma RowAscends(version: Version, pair: nat, row: nat)
    requires pair < PairCount(version) && row < Size(version)
    ensures var right := RightColumn(version, pair);
      Ascending(Size(version), CellIfFree(version, row, right) + CellIfFree(version, row, right - 1))
  {
    hide Reserved, RightColumn, Precedes;
    RightFirst(version, pair, row);
  }

  lemma {:induction false} PairAscends(version: Version, pair: nat, steps: nat)
    requires pair < PairCount(version) && steps <= Size(version)
    ensures Ascending(Size(version), PairCells(version, pair, steps))
  {
    hide Reserved, RightColumn, RowAt, Precedes, InPair, Visited, Ascending;
    if steps > 0 {
      var row, right := RowAt(version, pair, steps - 1), RightColumn(version, pair);
      var front := PairCells(version, pair, steps - 1);
      var last := CellIfFree(version, row, right) + CellIfFree(version, row, right - 1);
      PairAscends(version, pair, steps - 1);
      RowAscends(version, pair, row);
      forall x, y | x in front && y in last
        ensures Precedes(Size(version), x, y)
      {
        PairCellsAre(version, pair, steps - 1, x);
        RowIsInPair(version, pair, row, y);
        RowFirst(version, pair, steps - 1, x, y);
      }
      AscendingConcat(Size(version), front, last);
      assert PairCells(version, pair, steps) == front + last;
    } else {
      NoneAscend(Size(version));
    }
  }

  lemma NoneAscend(size: nat)
    ensures Ascending(size, [])
  {
  }

  lemma RowIsInPair(version: Version, pair: nat, row: nat, cell: Cell)
    requires pair < PairCount(version)
    requires var right := RightColumn(version, pair);
      cell in CellIfFree(version, row, right) + CellIfFree(version, row, right - 1)
    ensures InPair(version, pair, cell) && cell.0 == row
  {
    hide Reserved, RightColumn;
  }

  lemma {:induction false} PairsAscend(version: Version, pairs: nat)
    requires pairs <= PairCount(version)
    ensures Ascending(Size(version), CellsOfPairs(version, pairs))
  {
    hide Reserved, Precedes, InPair, PairCells, Ascending, CellsOfPairs;
    PairsUnfold(version, pairs);
    if pairs > 0 {
      var front, last := CellsOfPairs(version, pairs - 1), PairCells(version, pairs - 1, Size(version));
      PairsAscend(version, pairs - 1);
      PairAscends(version, pairs - 1, Size(version));
      forall x, y | x in front && y in last
        ensures Precedes(Size(version), x, y)
      {
        CellsOfPairsAre(version, pairs - 1, x);
        PairCellsAre(version, pairs - 1, Size(version), y);
        var p: nat :| p < pairs - 1 && InPair(version, p, x);
        PairFirst(version, x, y, p, pairs - 1);
      }
      AscendingConcat(Size(version), front, last);
    } else {
      NoneAscend(Size(version));
    }
  }

  /** The zigzag keeps the standard's order; with ZigzagVisitsEachFreeCellOnce this is the only sequence it can be. */
  lemma ZigzagKeepsOrder(version: Version)
    ensures forall i, j :: 0 <= i < j < |DataCells(version)| ==> Precedes(Size(version), DataCells(version)[i], DataCells(version)[j])
  {
    hide Precedes, CellsOfPairs;
    PairsAscend(version, PairCount(version));
  }
}

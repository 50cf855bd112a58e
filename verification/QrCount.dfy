/** The free modules of each version are exactly enough for its codewords and remainder bits. */
module QrCount {
  import opened QrVersions
  import opened QrLayout

  // ------------------------------------------- counting by rectangles ---

  /** The modules with top <= row < bottom and left <= column < right. */
  datatype Rect = Rect(top: nat, bottom: nat, left: nat, right: nat)

  ghost predicate RectIn(rect: Rect, size: nat) {
    rect.top <= rect.bottom <= size && rect.left <= rect.right <= size
  }

  ghost predicate Inside(rect: Rect, row: nat, column: nat) {
    rect.top <= row < rect.bottom && rect.left <= column < rect.right
  }

  /** How many of the rectangles contain the module. */
  ghost function Cover(rects: seq<Rect>, row: nat, column: nat): nat {
    if rects == [] then 0 else
    (if Inside(rects[0], row, column) then 1 else 0) + Cover(rects[1..], row, column)
  }

  ghost function ColumnCover(rects: seq<Rect>, column: nat, rows: nat): nat {
    if rows == 0 then 0 else ColumnCover(rects, column, rows - 1) + Cover(rects, rows - 1, column)
  }

  ghost function GridCover(rects: seq<Rect>, columns: nat, rows: nat): nat {
    if columns == 0 then 0 else GridCover(rects, columns - 1, rows) + ColumnCover(rects, columns - 1, rows)
  }

  ghost function Area(rects: seq<Rect>): int {
    if rects == [] then 0 else
    (rects[0].bottom - rects[0].top) * (rects[0].right - rects[0].left) + Area(rects[1..])
  }

  /** The length of the part of [lo, hi) below n. */
  ghost function Clip(lo: nat, hi: nat, n: nat): nat {
    if n <= lo then 0 else if n <= hi then n - lo else if lo <= hi then hi - lo else 0
  }

  lemma {:induction false} ColumnCoverStep(rects: seq<Rect>, column: nat, rows: nat)
    requires rects != [] && rects[0].top <= rects[0].bottom
    ensures ColumnCover(rects, column, rows) == ColumnCover(rects[1..], column, rows)
      + if rects[0].left <= column < rects[0].right then Clip(rects[0].top, rects[0].bottom, rows) else 0
  {
    if rows > 0 {
      ColumnCoverStep(rects, column, rows - 1);
    }
  }

  lemma {:induction false} GridCoverStep(rects: seq<Rect>, columns: nat, rows: nat)
    requires rects != [] && RectIn(rects[0], rows)
    ensures GridCover(rects, columns, rows) == GridCover(rects[1..], columns, rows)
      + Clip(rects[0].left, rects[0].right, columns) * (rects[0].bottom - rects[0].top)
  {
    if columns > 0 {
      GridCoverStep(rects, columns - 1, rows);
      ColumnCoverStep(rects, columns - 1, rows);
      var height := rects[0].bottom - rects[0].top;
      assert Clip(rects[0].top, rects[0].bottom, rows) == height;
      if rects[0].left <= columns - 1 < rects[0].right {
        assert Clip(rects[0].left, rects[0].right, columns) == Clip(rects[0].left, rects[0].right, columns - 1) + 1;
        Distribute(Clip(rects[0].left, rects[0].right, columns - 1), height);
      }
    }
  }

  lemma Distribute(a: nat, b: nat)
    ensures (a + 1) * b == a * b + b
  {
  }

  lemma {:induction false} GridCoverOfNone(columns: nat, rows: nat)
    ensures GridCover([], columns, rows) == 0
  {
    if columns > 0 {
      GridCoverOfNone(columns - 1, rows);
      ColumnCoverOfNone(columns - 1, rows);
    }
  }

  lemma {:induction false} ColumnCoverOfNone(column: nat, rows: nat)
    ensures ColumnCover([], column, rows) == 0
  {
    if rows > 0 {
      ColumnCoverOfNone(column, rows - 1);
    }
  }

  lemma {:induction false} GridCoverIsArea(rects: seq<Rect>, size: nat)
    requires forall k :: 0 <= k < |rects| ==> RectIn(rects[k], size)
    ensures GridCover(rects, size, size) == Area(rects)
  {
    hide GridCover;
    if rects == [] {
      GridCoverOfNone(size, size);
    } else {
      GridCoverStep(rects, size, size);
      GridCoverIsArea(rects[1..], size);
    }
  }

  // ----------------------------------------- the reserved area in pieces ---

  /** The middle alignment centre, of the versions that have one. */
  function Middle(version: Version): nat {
    2 * version + 8
  }

  /** The reserved modules, cut into rectangles that do not overlap. */
  ghost function ReservedRects(version: Version): seq<Rect> {
    var size := Size(version);
    var corners := [Rect(0, 9, 0, 9), Rect(0, 9, size - 8, size), Rect(size - 8, size, 0, 9)];
    if version < 7 then
      corners + [Rect(6, 7, 9, size - 8), Rect(9, size - 8, 6, 7)]
        + if version == 1 then [] else [Rect(size - 9, size - 4, size - 9, size - 4)]
    else
      var m := Middle(version);
      corners
        + [Rect(6, 7, 9, m - 2), Rect(6, 7, m + 3, size - 8), Rect(9, m - 2, 6, 7), Rect(m + 3, size - 8, 6, 7)]
        + [Rect(4, 9, m - 2, m + 3), Rect(m - 2, m + 3, 4, 9), Rect(m - 2, m + 3, m - 2, m + 3)]
        + [Rect(m - 2, m + 3, size - 9, size - 4), Rect(size - 9, size - 4, m - 2, m + 3)]
        + [Rect(size - 9, size - 4, size - 9, size - 4)]
        + [Rect(0, 6, size - 11, size - 8), Rect(size - 11, size - 8, 0, 6)]
  }

  /** The alignment patterns that are drawn, written out. */
  ghost predicate AlignmentShape(version: Version, row: nat, column: nat) {
    var m, e := Middle(version), Size(version) - 7;
    || (version >= 2 && Around(e, e, row, column))
    || (version >= 7 && (Around(6, m, row, column) || Around(m, 6, row, column)))
    || (version >= 7 && (Around(m, m, row, column) || Around(m, e, row, column) || Around(e, m, row, column)))
  }

  lemma AlignmentCentres(version: Version)
    ensures version == 1 ==> SpecFor(version).alignment == []
    ensures 2 <= version < 7 ==> SpecFor(version).alignment == [6, Size(version) - 7]
    ensures version >= 7 ==> SpecFor(version).alignment == [6, Middle(version), Size(version) - 7]
  {
  }

  lemma AlignmentIs(version: Version, row: nat, column: nat)
    ensures InAlignment(version, row, column) == AlignmentShape(version, row, column)
  {
    hide SpecFor, Around;
    AlignmentCentres(version);
    var m, e, size := Middle(version), Size(version) - 7, Size(version);
    assert NearFinder(size, 6, 6) && NearFinder(size, 6, e) && NearFinder(size, e, 6);
    if version >= 2 {
      assert e in SpecFor(version).alignment && !NearFinder(size, e, e);
    }
    if version >= 7 {
      assert m in SpecFor(version).alignment && 6 in SpecFor(version).alignment;
      assert !NearFinder(size, 6, m) && !NearFinder(size, m, 6) && !NearFinder(size, m, m);
      assert !NearFinder(size, m, e) && !NearFinder(size, e, m);
    }
  }

  ghost function Indicator(rect: Rect, row: nat, column: nat): nat {
    if Inside(rect, row, column) then 1 else 0
  }

  lemma {:induction false} CoverConcat(a: seq<Rect>, b: seq<Rect>, row: nat, column: nat)
    ensures Cover(a + b, row, column) == Cover(a, row, column) + Cover(b, row, column)
  {
    if a == [] {
      assert a + b == b;
    } else {
      assert (a + b)[1..] == a[1..] + b;
      CoverConcat(a[1..], b, row, column);
    }
  }

  lemma CoverOne(a: Rect, row: nat, column: nat)
    ensures Cover([a], row, column) == Indicator(a, row, column)
  {
  }

  lemma CoverTwo(a: Rect, b: Rect, row: nat, column: nat)
    ensures Cover([a, b], row, column) == Indicator(a, row, column) + Indicator(b, row, column)
  {
    assert [a, b] == [a] + [b];
    CoverConcat([a], [b], row, column);
  }

  lemma CoverThree(a: Rect, b: Rect, c: Rect, row: nat, column: nat)
    ensures Cover([a, b, c], row, column)
         == Indicator(a, row, column) + Indicator(b, row, column) + Indicator(c, row, column)
  {
    CoverTwo(b, c, row, column);
    assert [a, b, c] == [a] + [b, c];
    CoverConcat([a], [b, c], row, column);
  }

  ghost function ReservedIndicator(version: Version, row: nat, column: nat): nat {
    if Reserved(version, row, column) then 1 else 0
  }

  lemma SmallVersionCover(version: Version, row: nat, column: nat)
    requires version < 7 && row < Size(version) && column < Size(version)
    ensures Cover(ReservedRects(version), row, column) == ReservedIndicator(version, row, column)
  {
    hide InAlignment, Cover, SpecFor;
    var size := Size(version);
    AlignmentIs(version, row, column);
    var corners := [Rect(0, 9, 0, 9), Rect(0, 9, size - 8, size), Rect(size - 8, size, 0, 9)];
    var timing := [Rect(6, 7, 9, size - 8), Rect(9, size - 8, 6, 7)];
    CoverThree(corners[0], corners[1], corners[2], row, column);
    CoverTwo(timing[0], timing[1], row, column);
    CoverConcat(corners, timing, row, column);
    if version == 1 {
      assert ReservedRects(version) == corners + timing;
    } else {
      var e := Rect(size - 9, size - 4, size - 9, size - 4);
      CoverOne(e, row, column);
      CoverConcat(corners + timing, [e], row, column);
    }
  }

  lemma LargeVersionCover(version: Version, row: nat, column: nat)
    requires version >= 7 && row < Size(version) && column < Size(version)
    ensures Cover(ReservedRects(version), row, column) == ReservedIndicator(version, row, column)
  {
    hide InAlignment, Cover, SpecFor, Indicator, AlignmentShape, ReservedIndicator;
    var size, m := Size(version), Middle(version);
    var a := [Rect(0, 9, 0, 9), Rect(0, 9, size - 8, size), Rect(size - 8, size, 0, 9)];
    var b := [Rect(6, 7, 9, m - 2), Rect(6, 7, m + 3, size - 8), Rect(9, m - 2, 6, 7), Rect(m + 3, size - 8, 6, 7)];
    var c := [Rect(4, 9, m - 2, m + 3), Rect(m - 2, m + 3, 4, 9), Rect(m - 2, m + 3, m - 2, m + 3)];
    var d := [Rect(m - 2, m + 3, size - 9, size - 4), Rect(size - 9, size - 4, m - 2, m + 3)];
    var e := [Rect(size - 9, size - 4, size - 9, size - 4)];
    var f := [Rect(0, 6, size - 11, size - 8), Rect(size - 11, size - 8, 0, 6)];
    CoverThree(a[0], a[1], a[2], row, column);
    assert b == [b[0], b[1]] + [b[2], b[3]];
    CoverConcat([b[0], b[1]], [b[2], b[3]], row, column);
    CoverTwo(b[0], b[1], row, column);
    CoverTwo(b[2], b[3], row, column);
    CoverThree(c[0], c[1], c[2], row, column);
    CoverTwo(d[0], d[1], row, column);
    CoverOne(e[0], row, column);
    CoverTwo(f[0], f[1], row, column);
    CoverConcat(a, b, row, column);
    CoverConcat(a + b, c, row, column);
    CoverConcat(a + b + c, d, row, column);
    CoverConcat(a + b + c + d, e, row, column);
    CoverConcat(a + b + c + d + e, f, row, column);
    assert ReservedRects(version) == a + b + c + d + e + f;
    LargeIndicators(version, size, m, row, column);
  }

  lemma LargeIndicators(version: Version, size: nat, m: nat, row: nat, column: nat)
    requires version >= 7 && size == Size(version) && m == Middle(version)
    requires row < size && column < size
    ensures ReservedIndicator(version, row, column)
      == Indicator(Rect(0, 9, 0, 9), row, column) + Indicator(Rect(0, 9, size - 8, size), row, column)
       + Indicator(Rect(size - 8, size, 0, 9), row, column)
       + Indicator(Rect(6, 7, 9, m - 2), row, column) + Indicator(Rect(6, 7, m + 3, size - 8), row, column)
       + Indicator(Rect(9, m - 2, 6, 7), row, column) + Indicator(Rect(m + 3, size - 8, 6, 7), row, column)
       + Indicator(Rect(4, 9, m - 2, m + 3), row, column) + Indicator(Rect(m - 2, m + 3, 4, 9), row, column)
       + Indicator(Rect(m - 2, m + 3, m - 2, m + 3), row, column)
       + Indicator(Rect(m - 2, m + 3, size - 9, size - 4), row, column)
       + Indicator(Rect(size - 9, size - 4, m - 2, m + 3), row, column)
       + Indicator(Rect(size - 9, size - 4, size - 9, size - 4), row, column)
       + Indicator(Rect(0, 6, size - 11, size - 8), row, column)
       + Indicator(Rect(size - 11, size - 8, 0, 6), row, column)
  {
    hide InAlignment;
    AlignmentIs(version, row, column);
  }

  lemma ReservedIsCover(version: Version, row: nat, column: nat)
    requires row < Size(version) && column < Size(version)
    ensures Cover(ReservedRects(version), row, column) == ReservedIndicator(version, row, column)
  {
    if version < 7 {
      SmallVersionCover(version, row, column);
    } else {
      LargeVersionCover(version, row, column);
    }
  }

  // ------------------------------------------------------ total area ---

  lemma {:induction false} AreaConcat(a: seq<Rect>, b: seq<Rect>)
    ensures Area(a + b) == Area(a) + Area(b)
  {
    if a == [] {
      assert a + b == b;
    } else {
      assert (a + b)[1..] == a[1..] + b;
      AreaConcat(a[1..], b);
    }
  }

  lemma AreaOne(a: Rect)
    ensures Area([a]) == (a.bottom - a.top) * (a.right - a.left)
  {
  }

  lemma AreaTwo(a: Rect, b: Rect)
    ensures Area([a, b]) == (a.bottom - a.top) * (a.right - a.left) + (b.bottom - b.top) * (b.right - b.left)
  {
    assert [a, b] == [a] + [b];
    AreaConcat([a], [b]);
  }

  /** The number of reserved modules, in closed form. */
  function ReservedCount(version: Version): nat {
    225 + 2 * (Size(version) - 17)
      + if version == 1 then 0 else if version < 7 then 25 else 176
  }

  lemma SmallArea(version: Version)
    requires version < 7
    ensures Area(ReservedRects(version)) == ReservedCount(version)
  {
    hide Area;
    var size := Size(version);
    var corners := [Rect(0, 9, 0, 9), Rect(0, 9, size - 8, size), Rect(size - 8, size, 0, 9)];
    var timing := [Rect(6, 7, 9, size - 8), Rect(9, size - 8, 6, 7)];
    CornerArea(corners, size);
    AreaTwo(timing[0], timing[1]);
    AreaConcat(corners, timing);
    if version == 1 {
      assert ReservedRects(version) == corners + timing;
    } else {
      var e := Rect(size - 9, size - 4, size - 9, size - 4);
      AreaOne(e);
      AreaConcat(corners + timing, [e]);
    }
  }

  lemma CornerArea(corners: seq<Rect>, size: nat)
    requires size >= 21
    requires corners == [Rect(0, 9, 0, 9), Rect(0, 9, size - 8, size), Rect(size - 8, size, 0, 9)]
    ensures Area(corners) == 225
  {
    assert corners == [corners[0]] + [corners[1], corners[2]];
    AreaConcat([corners[0]], [corners[1], corners[2]]);
    AreaOne(corners[0]);
    AreaTwo(corners[1], corners[2]);
  }

  lemma LargeArea(version: Version)
    requires version >= 7
    ensures Area(ReservedRects(version)) == ReservedCount(version)
  {
    hide Area;
    var size, m := Size(version), Middle(version);
    var a := [Rect(0, 9, 0, 9), Rect(0, 9, size - 8, size), Rect(size - 8, size, 0, 9)];
    var b := [Rect(6, 7, 9, m - 2), Rect(6, 7, m + 3, size - 8), Rect(9, m - 2, 6, 7), Rect(m + 3, size - 8, 6, 7)];
    var c := [Rect(4, 9, m - 2, m + 3), Rect(m - 2, m + 3, 4, 9), Rect(m - 2, m + 3, m - 2, m + 3)];
    var d := [Rect(m - 2, m + 3, size - 9, size - 4), Rect(size - 9, size - 4, m - 2, m + 3)];
    var e := [Rect(size - 9, size - 4, size - 9, size - 4)];
    var f := [Rect(0, 6, size - 11, size - 8), Rect(size - 11, size - 8, 0, 6)];
    CornerArea(a, size);
    assert b == [b[0], b[1]] + [b[2], b[3]];
    AreaConcat([b[0], b[1]], [b[2], b[3]]);
    AreaTwo(b[0], b[1]);
    AreaTwo(b[2], b[3]);
    assert c == [c[0]] + [c[1], c[2]];
    AreaConcat([c[0]], [c[1], c[2]]);
    AreaOne(c[0]);
    AreaTwo(c[1], c[2]);
    AreaTwo(d[0], d[1]);
    AreaOne(e[0]);
    AreaTwo(f[0], f[1]);
    AreaConcat(a, b);
    AreaConcat(a + b, c);
    AreaConcat(a + b + c, d);
    AreaConcat(a + b + c + d, e);
    AreaConcat(a + b + c + d + e, f);
    assert ReservedRects(version) == a + b + c + d + e + f;
  }

  // ------------------------------------------- counting along the zigzag ---

  /** The free modules of a column in rows lo to hi - 1. */
  ghost function FreeInColumn(version: Version, column: nat, lo: nat, hi: nat): nat
    requires lo <= hi
  {
    if lo == hi then 0 else
    FreeInColumn(version, column, lo, hi - 1) + 1 - ReservedIndicator(version, hi - 1, column)
  }

  lemma {:induction false} FreeInColumnFromTop(version: Version, column: nat, lo: nat, hi: nat)
    requires lo < hi
    ensures FreeInColumn(version, column, lo, hi)
         == FreeInColumn(version, column, lo + 1, hi) + 1 - ReservedIndicator(version, lo, column)
    decreases hi
  {
    if lo + 1 < hi {
      FreeInColumnFromTop(version, column, lo, hi - 1);
    }
  }

  lemma {:induction false} PairCellsSize(version: Version, pair: nat, steps: nat)
    requires pair < PairCount(version) && steps <= Size(version)
    ensures var right := RightColumn(version, pair);
      var lo, hi := if pair % 2 == 0 then Size(version) - steps else 0, if pair % 2 == 0 then Size(version) else steps;
      |PairCells(version, pair, steps)| == FreeInColumn(version, right, lo, hi) + FreeInColumn(version, right - 1, lo, hi)
  {
    hide Reserved;
    if steps > 0 {
      PairCellsSize(version, pair, steps - 1);
      var right := RightColumn(version, pair);
      if pair % 2 == 0 {
        FreeInColumnFromTop(version, right, Size(version) - steps, Size(version));
        FreeInColumnFromTop(version, right - 1, Size(version) - steps, Size(version));
      }
    }
  }

  ghost function FreeColumn(version: Version, column: nat): nat {
    FreeInColumn(version, column, 0, Size(version))
  }

  /** The free modules of columns lo and up. */
  ghost function FreeFrom(version: Version, lo: nat): nat
    requires lo <= Size(version)
    decreases Size(version) - lo
  {
    if lo == Size(version) then 0 else FreeColumn(version, lo) + FreeFrom(version, lo + 1)
  }

  lemma {:induction false} TimingColumnIsFull(version: Version, rows: nat)
    ensures FreeInColumn(version, 6, 0, rows) == 0
  {
    if rows > 0 {
      TimingColumnIsFull(version, rows - 1);
    }
  }

  function LowestColumn(version: Version, pairs: nat): nat
    requires pairs <= PairCount(version)
  {
    if pairs == 0 then Size(version) else RightColumn(version, pairs - 1) - 1
  }

  lemma {:induction false} CellsOfPairsSize(version: Version, pairs: nat)
    requires pairs <= PairCount(version)
    ensures |CellsOfPairs(version, pairs)| == FreeFrom(version, LowestColumn(version, pairs))
  {
    hide FreeInColumn, PairCells, RightColumn, FreeColumn, FreeFrom;
    if pairs == 0 {
      NothingFreePastTheEnd(version);
    } else {
      CellsOfPairsSize(version, pairs - 1);
      PairCellsSize(version, pairs - 1, Size(version));
      NextPairOfColumns(version, pairs);
    }
  }

  lemma NothingFreePastTheEnd(version: Version)
    ensures FreeFrom(version, Size(version)) == 0
  {
  }

  lemma NextPairOfColumns(version: Version, pairs: nat)
    requires 0 < pairs <= PairCount(version)
    ensures var right := RightColumn(version, pairs - 1);
      FreeFrom(version, LowestColumn(version, pairs))
      == FreeInColumn(version, right, 0, Size(version)) + FreeInColumn(version, right - 1, 0, Size(version))
       + FreeFrom(version, LowestColumn(version, pairs - 1))
  {
    hide FreeInColumn;
    var low := LowestColumn(version, pairs);
    assert FreeFrom(version, low) == FreeColumn(version, low) + FreeColumn(version, low + 1) + FreeFrom(version, low + 2);
    if LowestColumn(version, pairs - 1) == low + 3 {
      TimingColumnIsFull(version, Size(version));
    }
  }

  lemma {:induction false} FreeInColumnIsRest(version: Version, column: nat, rows: nat)
    requires rows <= Size(version) && column < Size(version)
    ensures FreeInColumn(version, column, 0, rows) + ColumnCover(ReservedRects(version), column, rows) == rows
  {
    if rows > 0 {
      FreeInColumnIsRest(version, column, rows - 1);
      ReservedIsCover(version, rows - 1, column);
    }
  }

  lemma {:induction false} FreeFromIsRest(version: Version, lo: nat)
    requires lo <= Size(version)
    ensures FreeFrom(version, lo) + GridCover(ReservedRects(version), Size(version), Size(version))
         == (Size(version) - lo) * Size(version) + GridCover(ReservedRects(version), lo, Size(version))
    decreases Size(version) - lo
  {
    hide ReservedRects, Size;
    if lo < Size(version) {
      FreeFromIsRest(version, lo + 1);
      FreeInColumnIsRest(version, lo, Size(version));
      Distribute(Size(version) - lo - 1, Size(version));
    }
  }

  lemma RectsFit(version: Version)
    ensures forall k :: 0 <= k < |ReservedRects(version)| ==> RectIn(ReservedRects(version)[k], Size(version))
  {
  }

  lemma LowestColumnAtEnd(version: Version)
    ensures LowestColumn(version, PairCount(version)) == 0
  {
  }

  lemma GridCoverOfNoColumns(version: Version)
    ensures GridCover(ReservedRects(version), 0, Size(version)) == 0
  {
  }

  lemma AreaIsReservedCount(version: Version)
    ensures Area(ReservedRects(version)) == ReservedCount(version)
  {
    if version < 7 {
      SmallArea(version);
    } else {
      LargeArea(version);
    }
  }

  /** The zigzag has room for every codeword bit, and what is left over are the remainder bits. */
  lemma RoomForEveryCodeword(version: Version)
    ensures |DataCells(version)| == 8 * TotalCodewords(version) + RemainderBits(version)
  {
    hide ReservedRects, Area, Size, GridCover, TotalCodewords, RemainderBits, ReservedCount, FreeFrom, LowestColumn;
    CellsOfPairsSize(version, PairCount(version));
    LowestColumnAtEnd(version);
    FreeFromIsRest(version, 0);
    GridCoverOfNoColumns(version);
    RectsFit(version);
    GridCoverIsArea(ReservedRects(version), Size(version));
    AreaIsReservedCount(version);
    ModuleArithmetic(version);
  }

  lemma ModuleArithmetic(version: Version)
    ensures Size(version) * Size(version) == ReservedCount(version) + 8 * TotalCodewords(version) + RemainderBits(version)
  {
  }
}

/**
 The eight mask patterns as ISO/IEC 18004 draws them: twelve modules by twelve of each, after which all of
 them repeat in both directions. '#' marks a data module that is inverted.
 */
module QrMasks {
  import opened QrPattern

  function PatternZero(row: nat): string {
    if row == 0 then "#.#.#.#.#.#."
    else if row == 1 then ".#.#.#.#.#.#"
    else if row == 2 then "#.#.#.#.#.#."
    else if row == 3 then ".#.#.#.#.#.#"
    else if row == 4 then "#.#.#.#.#.#."
    else if row == 5 then ".#.#.#.#.#.#"
    else if row == 6 then "#.#.#.#.#.#."
    else if row == 7 then ".#.#.#.#.#.#"
    else if row == 8 then "#.#.#.#.#.#."
    else if row == 9 then ".#.#.#.#.#.#"
    else if row == 10 then "#.#.#.#.#.#."
    else ".#.#.#.#.#.#"
  }

  function PatternOne(row: nat): string {
    if row == 0 then "############"
    else if row == 1 then "............"
    else if row == 2 then "############"
    else if row == 3 then "............"
    else if row == 4 then "############"
    else if row == 5 then "............"
    else if row == 6 then "############"
    else if row == 7 then "............"
    else if row == 8 then "############"
    else if row == 9 then "............"
    else if row == 10 then "############"
    else "............"
  }

  function PatternTwo(row: nat): string {
    if row == 0 then "#..#..#..#.."
    else if row == 1 then "#..#..#..#.."
    else if row == 2 then "#..#..#..#.."
    else if row == 3 then "#..#..#..#.."
    else if row == 4 then "#..#..#..#.."
    else if row == 5 then "#..#..#..#.."
    else if row == 6 then "#..#..#..#.."
    else if row == 7 then "#..#..#..#.."
    else if row == 8 then "#..#..#..#.."
    else if row == 9 then "#..#..#..#.."
    else if row == 10 then "#..#..#..#.."
    else "#..#..#..#.."
  }

  function PatternThree(row: nat): string {
    if row == 0 then "#..#..#..#.."
    else if row == 1 then "..#..#..#..#"
    else if row == 2 then ".#..#..#..#."
    else if row == 3 then "#..#..#..#.."
    else if row == 4 then "..#..#..#..#"
    else if row == 5 then ".#..#..#..#."
    else if row == 6 then "#..#..#..#.."
    else if row == 7 then "..#..#..#..#"
    else if row == 8 then ".#..#..#..#."
    else if row == 9 then "#..#..#..#.."
    else if row == 10 then "..#..#..#..#"
    else ".#..#..#..#."
  }

  function PatternFour(row: nat): string {
    if row == 0 then "###...###..."
    else if row == 1 then "###...###..."
    else if row == 2 then "...###...###"
    else if row == 3 then "...###...###"
    else if row == 4 then "###...###..."
    else if row == 5 then "###...###..."
    else if row == 6 then "...###...###"
    else if row == 7 then "...###...###"
    else if row == 8 then "###...###..."
    else if row == 9 then "###...###..."
    else if row == 10 then "...###...###"
    else "...###...###"
  }

  function PatternFive(row: nat): string {
    if row == 0 then "############"
    else if row == 1 then "#.....#....."
    else if row == 2 then "#..#..#..#.."
    else if row == 3 then "#.#.#.#.#.#."
    else if row == 4 then "#..#..#..#.."
    else if row == 5 then "#.....#....."
    else if row == 6 then "############"
    else if row == 7 then "#.....#....."
    else if row == 8 then "#..#..#..#.."
    else if row == 9 then "#.#.#.#.#.#."
    else if row == 10 then "#..#..#..#.."
    else "#.....#....."
  }

  function PatternSix(row: nat): string {
    if row == 0 then "############"
    else if row == 1 then "###...###..."
    else if row == 2 then "##.##.##.##."
    else if row == 3 then "#.#.#.#.#.#."
    else if row == 4 then "#.##.##.##.#"
    else if row == 5 then "#...###...##"
    else if row == 6 then "############"
    else if row == 7 then "###...###..."
    else if row == 8 then "##.##.##.##."
    else if row == 9 then "#.#.#.#.#.#."
    else if row == 10 then "#.##.##.##.#"
    else "#...###...##"
  }

  function PatternSeven(row: nat): string {
    if row == 0 then "#.#.#.#.#.#."
    else if row == 1 then "...###...###"
    else if row == 2 then "#...###...##"
    else if row == 3 then ".#.#.#.#.#.#"
    else if row == 4 then "###...###..."
    else if row == 5 then ".###...###.."
    else if row == 6 then "#.#.#.#.#.#."
    else if row == 7 then "...###...###"
    else if row == 8 then "#...###...##"
    else if row == 9 then ".#.#.#.#.#.#"
    else if row == 10 then "###...###..."
    else ".###...###.."
  }

  /** A row of a pattern, as far as the first repetition. */
  function PatternRow(mask: nat, row: nat): string
    requires mask < 8
  {
    if mask == 0 then PatternZero(row)
    else if mask == 1 then PatternOne(row)
    else if mask == 2 then PatternTwo(row)
    else if mask == 3 then PatternThree(row)
    else if mask == 4 then PatternFour(row)
    else if mask == 5 then PatternFive(row)
    else if mask == 6 then PatternSix(row)
    else PatternSeven(row)
  }

  /** Whether a mask inverts a module, by looking at its pattern. */
  predicate Inverts(mask: nat, row: nat, column: nat)
    requires mask < 8
  {
    RowsAreTwelveWide(mask, row % 12);
    PatternRow(mask, row % 12)[column % 12] == '#'
  }

  lemma RowsAreTwelveWide(mask: nat, row: nat)
    requires mask < 8
    ensures |PatternRow(mask, row)| == 12
  {
  }

  // --------------------------------------------------------- the formulas ---

  /** The formulas without products of the two coordinates, whose remainders follow from those of the factors. */
  predicate MaskByRemainders(mask: nat, row: nat, column: nat) {
    var byTwo := if row % 2 == 1 && column % 2 == 1 then 1 else 0;
    var byThree := if row % 3 == 0 || column % 3 == 0 then 0 else if row % 3 == column % 3 then 1 else 2;
    if mask == 5 then byTwo + byThree == 0
    else if mask == 6 then (byTwo + byThree) % 2 == 0
    else if mask == 7 then ((row + column) % 2 + byThree) % 2 == 0
    else MaskBit(mask, row, column)
  }

  lemma ProductByTwo(row: nat, column: nat)
    ensures (row * column) % 2 == if row % 2 == 1 && column % 2 == 1 then 1 else 0
  {
    var a, i, b, j := row / 2, row % 2, column / 2, column % 2;
    Expand(2, a, i, b, j);
    EvenPart(2 * a * b + a * j + b * i, i * j);
  }

  lemma ProductByThree(row: nat, column: nat)
    ensures (row * column) % 3 == if row % 3 == 0 || column % 3 == 0 then 0 else if row % 3 == column % 3 then 1 else 2
  {
    var a, i, b, j := row / 3, row % 3, column / 3, column % 3;
    Expand(3, a, i, b, j);
    var small := (i * j) % 3;
    ThirdPart(3 * a * b + a * j + b * i + (i * j) / 3, small);
  }

  lemma Expand(n: nat, a: nat, i: nat, b: nat, j: nat)
    ensures (n * a + i) * (n * b + j) == n * (n * a * b + a * j + b * i) + i * j
  {
  }

  lemma EvenPart(q: nat, r: nat)
    requires r < 2
    ensures (2 * q + r) % 2 == r
  {
  }

  lemma ThirdPart(q: nat, r: nat)
    requires r < 3
    ensures (3 * q + r) % 3 == r
  {
  }

  lemma FormulaByRemainders(mask: nat, row: nat, column: nat)
    requires mask < 8
    ensures MaskBit(mask, row, column) == MaskByRemainders(mask, row, column)
  {
    ProductByTwo(row, column);
    ProductByThree(row, column);
  }

  /** All formulas repeat after twelve modules in either direction. */
  lemma RemaindersRepeat(mask: nat, row: nat, column: nat)
    requires mask < 8
    ensures MaskByRemainders(mask, row, column) == MaskByRemainders(mask, row % 12, column % 12)
  {
    Twelve(row);
    Twelve(column);
    SumRepeats(row, column);
  }

  lemma Twelve(n: nat)
    ensures var r := n % 12;
      r % 2 == n % 2 && r % 3 == n % 3 && n / 2 == 6 * (n / 12) + r / 2 && n / 3 == 4 * (n / 12) + r / 3
  {
  }

  lemma TwelveMore(x: nat, k: nat)
    ensures (x + 12 * k) % 2 == x % 2 && (x + 12 * k) % 3 == x % 3
  {
  }

  lemma TwoMore(x: nat, k: nat)
    ensures (x + 2 * k) % 2 == x % 2
  {
  }

  lemma SumRepeats(m: nat, n: nat)
    ensures (m % 12 + n % 12) % 2 == (m + n) % 2 && (m % 12 + n % 12) % 3 == (m + n) % 3
    ensures (m / 2 + n / 3) % 2 == ((m % 12) / 2 + (n % 12) / 3) % 2
  {
    Twelve(m);
    Twelve(n);
    var r, s, a, b := m % 12, n % 12, m / 12, n / 12;
    TwelveMore(r + s, a + b);
    TwoMore(r / 2 + s / 3, 3 * a + 2 * b);
    assert m + n == r + s + 12 * (a + b);
  }

  lemma PatternZeroIs(row: nat, column: nat)
    requires row < 12 && column < 12
    ensures |PatternZero(row)| == 12 && MaskByRemainders(0, row, column) == (PatternZero(row)[column] == '#')
  {
  }

  lemma PatternOneIs(row: nat, column: nat)
    requires row < 12 && column < 12
    ensures |PatternOne(row)| == 12 && MaskByRemainders(1, row, column) == (PatternOne(row)[column] == '#')
  {
  }

  lemma PatternTwoIs(row: nat, column: nat)
    requires row < 12 && column < 12
    ensures |PatternTwo(row)| == 12 && MaskByRemainders(2, row, column) == (PatternTwo(row)[column] == '#')
  {
  }

  lemma PatternThreeIs(row: nat, column: nat)
    requires row < 12 && column < 12
    ensures |PatternThree(row)| == 12 && MaskByRemainders(3, row, column) == (PatternThree(row)[column] == '#')
  {
  }

  lemma FourRowsOn(row: nat, column: nat)
    requires row < 12
    ensures MaskByRemainders(4, row, column) == MaskByRemainders(4, row % 4, column)
  {
    HalfOf(row);
    TwoMore((row % 4) / 2 + column / 3, row / 4);
  }

  lemma HalfOf(row: nat)
    ensures row / 2 == 2 * (row / 4) + (row % 4) / 2
  {
  }

  lemma SixRowsOn(mask: nat, row: nat, column: nat)
    requires 5 <= mask <= 7 && row < 12
    ensures MaskByRemainders(mask, row, column) == MaskByRemainders(mask, row % 6, column)
  {
    hide MaskBit;
    assert (row % 6) % 2 == row % 2 && (row % 6) % 3 == row % 3;
  }

  lemma PatternFourFirst(row: nat, column: nat)
    requires 0 <= row < 2 && column < 12
    ensures |PatternFour(row)| == 12 && MaskByRemainders(4, row, column) == (PatternFour(row)[column] == '#')
  {
  }

  lemma PatternFourSecond(row: nat, column: nat)
    requires 2 <= row < 4 && column < 12
    ensures |PatternFour(row)| == 12 && MaskByRemainders(4, row, column) == (PatternFour(row)[column] == '#')
  {
  }

  lemma PatternFourRepeats(row: nat)
    requires row < 12
    ensures PatternFour(row) == PatternFour(row % 4)
  {
  }

  lemma PatternFourIs(row: nat, column: nat)
    requires row < 12 && column < 12
    ensures |PatternFour(row)| == 12 && MaskByRemainders(4, row, column) == (PatternFour(row)[column] == '#')
  {
    hide PatternFour, MaskBit, MaskByRemainders;
    PatternFourRepeats(row);
    FourRowsOn(row, column);
    if row % 4 < 2 {
      PatternFourFirst(row % 4, column);
    } else {
      PatternFourSecond(row % 4, column);
    }
  }

  lemma PatternFiveFirst(row: nat, column: nat)
    requires 0 <= row < 3 && column < 12
    ensures |PatternFive(row)| == 12 && MaskByRemainders(5, row, column) == (PatternFive(row)[column] == '#')
  {
    hide MaskBit;
  }

  lemma PatternFiveSecond(row: nat, column: nat)
    requires 3 <= row < 6 && column < 12
    ensures |PatternFive(row)| == 12 && MaskByRemainders(5, row, column) == (PatternFive(row)[column] == '#')
  {
    hide MaskBit;
  }

  lemma PatternFiveRepeats(row: nat)
    requires row < 12
    ensures PatternFive(row) == PatternFive(row % 6)
  {
  }

  lemma PatternFiveIs(row: nat, column: nat)
    requires row < 12 && column < 12
    ensures |PatternFive(row)| == 12 && MaskByRemainders(5, row, column) == (PatternFive(row)[column] == '#')
  {
    hide PatternFive, MaskBit, MaskByRemainders;
    PatternFiveRepeats(row);
    SixRowsOn(5, row, column);
    if row % 6 < 3 {
      PatternFiveFirst(row % 6, column);
    } else {
      PatternFiveSecond(row % 6, column);
    }
  }

  lemma PatternSixFirst(row: nat, column: nat)
    requires 0 <= row < 3 && column < 12
    ensures |PatternSix(row)| == 12 && MaskByRemainders(6, row, column) == (PatternSix(row)[column] == '#')
  {
    hide MaskBit;
  }

  lemma PatternSixSecond(row: nat, column: nat)
    requires 3 <= row < 6 && column < 12
    ensures |PatternSix(row)| == 12 && MaskByRemainders(6, row, column) == (PatternSix(row)[column] == '#')
  {
    hide MaskBit;
  }

  lemma PatternSixRepeats(row: nat)
    requires row < 12
    ensures PatternSix(row) == PatternSix(row % 6)
  {
  }

  lemma PatternSixIs(row: nat, column: nat)
    requires row < 12 && column < 12
    ensures |PatternSix(row)| == 12 && MaskByRemainders(6, row, column) == (PatternSix(row)[column] == '#')
  {
    hide PatternSix, MaskBit, MaskByRemainders;
    PatternSixRepeats(row);
    SixRowsOn(6, row, column);
    if row % 6 < 3 {
      PatternSixFirst(row % 6, column);
    } else {
      PatternSixSecond(row % 6, column);
    }
  }

  lemma PatternSevenFirst(row: nat, column: nat)
    requires 0 <= row < 3 && column < 12
    ensures |PatternSeven(row)| == 12 && MaskByRemainders(7, row, column) == (PatternSeven(row)[column] == '#')
  {
    hide MaskBit;
  }

  lemma PatternSevenSecond(row: nat, column: nat)
    requires 3 <= row < 6 && column < 12
    ensures |PatternSeven(row)| == 12 && MaskByRemainders(7, row, column) == (PatternSeven(row)[column] == '#')
  {
    hide MaskBit;
  }

  lemma PatternSevenRepeats(row: nat)
    requires row < 12
    ensures PatternSeven(row) == PatternSeven(row % 6)
  {
  }

  lemma PatternSevenIs(row: nat, column: nat)
    requires row < 12 && column < 12
    ensures |PatternSeven(row)| == 12 && MaskByRemainders(7, row, column) == (PatternSeven(row)[column] == '#')
  {
    hide PatternSeven, MaskBit, MaskByRemainders;
    PatternSevenRepeats(row);
    SixRowsOn(7, row, column);
    if row % 6 < 3 {
      PatternSevenFirst(row % 6, column);
    } else {
      PatternSevenSecond(row % 6, column);
    }
  }

  /** The formulas draw the patterns, everywhere. */
  lemma FormulaDrawsPattern(mask: nat, row: nat, column: nat)
    requires mask < 8
    ensures MaskBit(mask, row, column) == Inverts(mask, row, column)
  {
    hide MaskBit, MaskByRemainders, PatternZero, PatternOne, PatternTwo, PatternThree, PatternFour, PatternFive, PatternSix, PatternSeven;
    FormulaByRemainders(mask, row, column);
    RemaindersRepeat(mask, row, column);
    var r, c := row % 12, column % 12;
    if mask == 0 {
      PatternZeroIs(r, c);
    } else if mask == 1 {
      PatternOneIs(r, c);
    } else if mask == 2 {
      PatternTwoIs(r, c);
    } else if mask == 3 {
      PatternThreeIs(r, c);
    } else if mask == 4 {
      PatternFourIs(r, c);
    } else if mask == 5 {
      PatternFiveIs(r, c);
    } else if mask == 6 {
      PatternSixIs(r, c);
    } else {
      PatternSevenIs(r, c);
    }
  }
}

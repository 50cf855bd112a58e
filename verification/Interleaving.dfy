/** Column-by-column interleaving of blocks that need not have the same length, and its inverse. */
module Interleaving {
  import opened Arithmetic

  type Blocks<T> = seq<seq<T>>

  ghost function Lengths<T>(blocks: Blocks<T>): (lengths: seq<nat>)
    ensures |lengths| == |blocks|
    ensures forall b :: 0 <= b < |blocks| ==> lengths[b] == |blocks[b]|
  {
    seq(|blocks|, b requires 0 <= b < |blocks| => |blocks[b]|)
  }

  ghost function Sum(lengths: seq<nat>): nat {
    if lengths == [] then 0 else Sum(lengths[..|lengths| - 1]) + lengths[|lengths| - 1]
  }

  // ----------------------------------------------------- interleaving ---

  /** Element number index of every block that has one, in block order. */
  ghost function Column<T>(blocks: Blocks<T>, index: nat): seq<T> {
    if blocks == [] then [] else
    var last := blocks[|blocks| - 1];
    Column(blocks[..|blocks| - 1], index) + if index < |last| then [last[index]] else []
  }

  /** The first n columns, one after the other. */
  ghost function Columns<T>(blocks: Blocks<T>, n: nat): seq<T> {
    if n == 0 then [] else Columns(blocks, n - 1) + Column(blocks, n - 1)
  }

  ghost predicate Covers(lengths: seq<nat>, n: nat) {
    forall b :: 0 <= b < |lengths| ==> lengths[b] <= n
  }

  /** The nested loops of the source: skip a block that has run out. */
  method Interleave<T>(blocks: Blocks<T>, longest: nat) returns (interleaved: seq<T>)
    ensures interleaved == Columns(blocks, longest)
  {
    interleaved := [];
    for index := 0 to longest
      invariant interleaved == Columns(blocks, index)
    {
      for b := 0 to |blocks|
        invariant interleaved == Columns(blocks, index) + Column(blocks[..b], index)
      {
        assert blocks[..b + 1][..b] == blocks[..b];
        if index < |blocks[b]| {
          interleaved := interleaved + [blocks[b][index]];
        }
      }
      assert blocks[..|blocks|] == blocks;
    }
  }

  // --------------------------------------------------------- positions ---

  /** How many elements the first index columns hold. */
  function Below(lengths: seq<nat>, index: nat): nat {
    if lengths == [] then 0 else
    Below(lengths[..|lengths| - 1], index) + Min(lengths[|lengths| - 1], index)
  }

  /** How many of the blocks reach past index. */
  function Longer(lengths: seq<nat>, index: nat): nat {
    if lengths == [] then 0 else
    Longer(lengths[..|lengths| - 1], index) + if index < lengths[|lengths| - 1] then 1 else 0
  }

  /** Where element number index of block b goes in the interleaved stream. */
  function Position(lengths: seq<nat>, b: nat, index: nat): nat
    requires b < |lengths|
  {
    Below(lengths, index) + Longer(lengths[..b], index)
  }

  lemma {:induction false} BelowStep(lengths: seq<nat>, index: nat)
    ensures Below(lengths, index + 1) == Below(lengths, index) + Longer(lengths, index)
  {
    if lengths != [] {
      BelowStep(lengths[..|lengths| - 1], index);
    }
  }

  lemma {:induction false} BelowMonotone(lengths: seq<nat>, i: nat, j: nat)
    requires i <= j
    ensures Below(lengths, i) <= Below(lengths, j)
  {
    if lengths != [] {
      BelowMonotone(lengths[..|lengths| - 1], i, j);
    }
  }

  lemma {:induction false} BelowAll(lengths: seq<nat>, n: nat)
    requires Covers(lengths, n)
    ensures Below(lengths, n) == Sum(lengths)
  {
    if lengths != [] {
      BelowAll(lengths[..|lengths| - 1], n);
    }
  }

  lemma BelowZero(lengths: seq<nat>)
    ensures Below(lengths, 0) == 0
  {
  }

  lemma {:induction false} LongerGrows(lengths: seq<nat>, b: nat, index: nat)
    requires b < |lengths| && index < lengths[b]
    ensures Longer(lengths[..b], index) + 1 == Longer(lengths[..b + 1], index) <= Longer(lengths, index)
  {
    assert lengths[..b + 1][..b] == lengths[..b];
    if b + 1 < |lengths| {
      LongerGrows(lengths[..|lengths| - 1], b, index);
      assert lengths[..|lengths| - 1][..b] == lengths[..b];
      assert lengths[..|lengths| - 1][..b + 1] == lengths[..b + 1];
    } else {
      assert lengths[..b + 1] == lengths;
    }
  }

  lemma {:induction false} LongerMonotone(lengths: seq<nat>, b: nat, c: nat, index: nat)
    requires b <= c <= |lengths|
    ensures Longer(lengths[..b], index) <= Longer(lengths[..c], index)
  {
    if b < c {
      assert lengths[..c][..c - 1] == lengths[..c - 1];
      LongerMonotone(lengths, b, c - 1, index);
    }
  }

  ghost predicate Within(lengths: seq<nat>, b: nat, index: nat) {
    b < |lengths| && index < lengths[b]
  }

  /** Every element's position lies inside its own column. */
  lemma PositionInColumn(lengths: seq<nat>, b: nat, index: nat)
    requires Within(lengths, b, index)
    ensures Below(lengths, index) <= Position(lengths, b, index) < Below(lengths, index + 1)
  {
    LongerGrows(lengths, b, index);
    BelowStep(lengths, index);
  }

  /** No two elements share a position. */
  lemma PositionInjective(lengths: seq<nat>, b: nat, i: nat, c: nat, j: nat)
    requires Within(lengths, b, i) && Within(lengths, c, j)
    requires Position(lengths, b, i) == Position(lengths, c, j)
    ensures b == c && i == j
  {
    PositionInColumn(lengths, b, i);
    PositionInColumn(lengths, c, j);
    if i < j {
      BelowMonotone(lengths, i + 1, j);
    } else if j < i {
      BelowMonotone(lengths, j + 1, i);
    } else if b < c {
      LongerGrows(lengths, b, i);
      LongerMonotone(lengths, b + 1, c, i);
    } else if c < b {
      LongerGrows(lengths, c, i);
      LongerMonotone(lengths, c + 1, b, i);
    }
  }

  /** The stream takes the first elements of all blocks, then the second elements, and each time in block order. */
  lemma PositionAscends(lengths: seq<nat>, b: nat, i: nat, c: nat, j: nat)
    requires Within(lengths, b, i) && Within(lengths, c, j)
    requires i < j || (i == j && b < c)
    ensures Position(lengths, b, i) < Position(lengths, c, j)
  {
    PositionInColumn(lengths, b, i);
    PositionInColumn(lengths, c, j);
    if i < j {
      BelowMonotone(lengths, i + 1, j);
    } else {
      LongerGrows(lengths, b, i);
      LongerMonotone(lengths, b + 1, c, i);
    }
  }

  // --------------------------------------------------- the two inverses ---

  lemma {:induction false} ColumnAt<T>(blocks: Blocks<T>, b: nat, index: nat)
    requires b < |blocks| && index < |blocks[b]|
    ensures |Column(blocks, index)| == Longer(Lengths(blocks), index)
    ensures Longer(Lengths(blocks)[..b], index) < |Column(blocks, index)|
    ensures Column(blocks, index)[Longer(Lengths(blocks)[..b], index)] == blocks[b][index]
  {
    var front := blocks[..|blocks| - 1];
    assert Lengths(front) == Lengths(blocks)[..|blocks| - 1];
    ColumnSize(front, index);
    if b < |front| {
      ColumnAt(front, b, index);
      assert Lengths(front)[..b] == Lengths(blocks)[..b];
    }
  }

  lemma {:induction false} ColumnSize<T>(blocks: Blocks<T>, index: nat)
    ensures |Column(blocks, index)| == Longer(Lengths(blocks), index)
  {
    if blocks != [] {
      ColumnSize(blocks[..|blocks| - 1], index);
      assert Lengths(blocks[..|blocks| - 1]) == Lengths(blocks)[..|blocks| - 1];
    }
  }

  lemma {:induction false} ColumnsSize<T>(blocks: Blocks<T>, n: nat)
    ensures |Columns(blocks, n)| == Below(Lengths(blocks), n)
  {
    hide Below, Min, Lengths, Longer, Column;
    if n == 0 {
      BelowZero(Lengths(blocks));
    } else {
      ColumnsSize(blocks, n - 1);
      ColumnSize(blocks, n - 1);
      BelowStep(Lengths(blocks), n - 1);
    }
  }

  /** Interleaving puts element number index of block b at its position. */
  lemma {:induction false} ColumnsAt<T>(blocks: Blocks<T>, n: nat, b: nat, index: nat)
    requires b < |blocks| && index < |blocks[b]| && index < n
    ensures Position(Lengths(blocks), b, index) < |Columns(blocks, n)|
    ensures Columns(blocks, n)[Position(Lengths(blocks), b, index)] == blocks[b][index]
  {
    hide Below, Longer, Column, Min;
    ColumnsSize(blocks, n - 1);
    if index == n - 1 {
      ColumnAt(blocks, b, index);
    } else {
      ColumnsAt(blocks, n - 1, b, index);
    }
  }

  predicate PositionsIn(lengths: seq<nat>, size: nat) {
    forall b, i :: 0 <= b < |lengths| && 0 <= i < lengths[b] ==> Position(lengths, b, i) < size
  }

  /** What a reader does: fetch each block's elements from their positions. */
  function Deinterleave<T>(stream: seq<T>, lengths: seq<nat>): (blocks: Blocks<T>)
    requires PositionsIn(lengths, |stream|)
    ensures |blocks| == |lengths|
    ensures forall b :: 0 <= b < |blocks| ==> |blocks[b]| == lengths[b]
    ensures forall b, i :: 0 <= b < |blocks| && 0 <= i < |blocks[b]| ==>
      blocks[b][i] == stream[Position(lengths, b, i)]
  {
    seq(|lengths|, b requires 0 <= b < |lengths| =>
      seq(lengths[b], i requires 0 <= i < lengths[b] => stream[Position(lengths, b, i)]))
  }

  lemma PositionsFit(lengths: seq<nat>, n: nat, size: nat)
    requires Covers(lengths, n) && Sum(lengths) <= size
    ensures PositionsIn(lengths, size)
  {
    forall b, i | 0 <= b < |lengths| && 0 <= i < lengths[b]
      ensures Position(lengths, b, i) < size
    {
      PositionInColumn(lengths, b, i);
      BelowMonotone(lengths, i + 1, n);
      BelowAll(lengths, n);
    }
  }

  /** De-interleaving undoes interleaving, whatever follows the interleaved stream. */
  lemma DeinterleaveInterleave<T>(blocks: Blocks<T>, n: nat, rest: seq<T>)
    requires Covers(Lengths(blocks), n)
    ensures |Columns(blocks, n)| == Sum(Lengths(blocks))
    ensures PositionsIn(Lengths(blocks), |Columns(blocks, n) + rest|)
    ensures Deinterleave(Columns(blocks, n) + rest, Lengths(blocks)) == blocks
  {
    var lengths := Lengths(blocks);
    var stream := Columns(blocks, n) + rest;
    ColumnsSize(blocks, n);
    BelowAll(lengths, n);
    PositionsFit(lengths, n, |stream|);
    var again := Deinterleave(stream, lengths);
    forall b | 0 <= b < |blocks|
      ensures again[b] == blocks[b]
    {
      forall i | 0 <= i < |blocks[b]|
        ensures again[b][i] == blocks[b][i]
      {
        ColumnsAt(blocks, n, b, i);
      }
    }
  }

  lemma {:induction false} ColumnOfDeinterleaved<T>(stream: seq<T>, lengths: seq<nat>, blocks: Blocks<T>, b: nat, index: nat)
    requires PositionsIn(lengths, |stream|)
    requires blocks == Deinterleave(stream, lengths) && b <= |blocks|
    requires Below(lengths, index + 1) <= |stream|
    ensures Below(lengths, index) + Longer(lengths[..b], index) <= |stream|
    ensures Column(blocks[..b], index)
         == stream[Below(lengths, index)..Below(lengths, index) + Longer(lengths[..b], index)]
  {
    hide Below, Min, Lengths;
    BelowStep(lengths, index);
    LongerMonotone(lengths, b, |lengths|, index);
    assert lengths[..|lengths|] == lengths;
    if b > 0 {
      ColumnOfDeinterleaved(stream, lengths, blocks, b - 1, index);
      assert blocks[..b][..b - 1] == blocks[..b - 1];
      assert lengths[..b][..b - 1] == lengths[..b - 1];
    }
  }

  lemma {:induction false} ColumnsOfDeinterleaved<T>(stream: seq<T>, lengths: seq<nat>, n: nat)
    requires PositionsIn(lengths, |stream|)
    requires Below(lengths, n) <= |stream|
    ensures Columns(Deinterleave(stream, lengths), n) == stream[..Below(lengths, n)]
  {
    hide Below, Min, Lengths, Longer, Column, Position, PositionsIn;
    if n == 0 {
      BelowZero(lengths);
    } else {
      var blocks := Deinterleave(stream, lengths);
      BelowMonotone(lengths, n - 1, n);
      ColumnsOfDeinterleaved(stream, lengths, n - 1);
      ColumnOfDeinterleaved(stream, lengths, blocks, |blocks|, n - 1);
      assert blocks[..|blocks|] == blocks && lengths[..|lengths|] == lengths;
      BelowStep(lengths, n - 1);
    }
  }

  /** Interleaving undoes de-interleaving: the positions are a permutation of the stream. */
  lemma InterleaveDeinterleave<T>(stream: seq<T>, lengths: seq<nat>, n: nat)
    requires Covers(lengths, n) && |stream| == Sum(lengths)
    ensures PositionsIn(lengths, |stream|)
    ensures Columns(Deinterleave(stream, lengths), n) == stream
  {
    PositionsFit(lengths, n, |stream|);
    BelowAll(lengths, n);
    ColumnsOfDeinterleaved(stream, lengths, n);
    assert stream[..|stream|] == stream;
  }
}

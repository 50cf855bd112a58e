/**
 Newline framing: what the non-empty lines of a byte stream are, whatever chunks it arrives in and
 wherever it is cut.
 */
module Framing {
  newtype byte = b: int | 0 <= b < 256

  const NEWLINE: byte := 10

  type Line = seq<byte>

  ghost predicate HasNewline(s: seq<byte>) {
    exists i :: 0 <= i < |s| && s[i] == NEWLINE
  }

  /** The first newline, as indexOf and memchr find it; the length if there is none. */
  function IndexOfNewline(s: seq<byte>): (k: nat)
    ensures k <= |s| && (k < |s| ==> s[k] == NEWLINE)
    ensures forall i :: 0 <= i < k ==> s[i] != NEWLINE
    ensures k < |s| <==> HasNewline(s)
  {
    if s == [] || s[0] == NEWLINE then 0 else IndexOfNewline(s[1..]) + 1
  }

  /** The complete lines of a stream, empty ones dropped. */
  function Lines(s: seq<byte>): seq<Line> {
    var k := IndexOfNewline(s);
    if k == |s| then [] else (if k == 0 then [] else [s[..k]]) + Lines(s[k + 1..])
  }

  /** What follows the last newline. */
  function Rest(s: seq<byte>): seq<byte> {
    var k := IndexOfNewline(s);
    if k == |s| then s else Rest(s[k + 1..])
  }

  /** No line is longer than max, not even the one still incomplete. */
  predicate AllFit(s: seq<byte>, max: nat) {
    var k := IndexOfNewline(s);
    k <= max && (k < |s| ==> AllFit(s[k + 1..], max))
  }

  lemma IndexUnique(s: seq<byte>, k: nat)
    requires k <= |s| && (k < |s| ==> s[k] == NEWLINE)
    requires forall i :: 0 <= i < k ==> s[i] != NEWLINE
    ensures IndexOfNewline(s) == k
  {
  }

  lemma IndexAfter(a: seq<byte>, b: seq<byte>)
    requires !HasNewline(a)
    ensures IndexOfNewline(a + b) == |a| + IndexOfNewline(b)
  {
    IndexUnique(a + b, |a| + IndexOfNewline(b));
  }

  lemma {:induction false} RestIsOneLine(s: seq<byte>)
    ensures !HasNewline(Rest(s)) && |Rest(s)| <= |s| && Rest(s) == s[|s| - |Rest(s)|..]
  {
    hide Lines, Rest, AllFit, IndexOfNewline, HasNewline;
    var k := IndexOfNewline(s);
    if k < |s| {
      var tail := s[k + 1..];
      LinesStep(s, k);
      RestIsOneLine(tail);
      DropTwice(s, k + 1, |tail| - |Rest(tail)|);
    } else {
      NoLinesYet(s);
    }
  }

  lemma DropTwice(s: seq<byte>, a: nat, b: nat)
    requires a + b <= |s|
    ensures s[a..][b..] == s[a + b..]
  {
  }

  /** The frame that a line of this text makes: none if it is empty. */
  function Frames(line: Line): seq<Line> {
    if line == [] then [] else [line]
  }

  /** The lines before the first that is longer than max. */
  function LinesWithin(s: seq<byte>, max: nat): seq<Line> {
    var k := IndexOfNewline(s);
    if k == |s| || k > max then [] else Frames(s[..k]) + LinesWithin(s[k + 1..], max)
  }

  lemma WithinStep(s: seq<byte>, max: nat)
    ensures var k := IndexOfNewline(s);
      LinesWithin(s, max) == if k == |s| || k > max then [] else Frames(s[..k]) + LinesWithin(s[k + 1..], max)
  {
    hide Lines, Rest, AllFit, IndexOfNewline, HasNewline;
    var k := IndexOfNewline(s);
    if k == |s| || k > max {
    } else {
      WithinUnfolds(s, max, k, s[..k], s[k + 1..]);
    }
  }

  lemma WithinUnfolds(s: seq<byte>, max: nat, k: nat, line: Line, tail: seq<byte>)
    requires k == IndexOfNewline(s) < |s| && k <= max && line == s[..k] && tail == s[k + 1..]
    ensures LinesWithin(s, max) == Frames(line) + LinesWithin(tail, max)
  {
    hide Lines, Rest, AllFit, IndexOfNewline, HasNewline, Frames;
  }

  lemma LinesStep(s: seq<byte>, k: nat)
    requires k < |s| && s[k] == NEWLINE
    requires forall i :: 0 <= i < k ==> s[i] != NEWLINE
    ensures Lines(s) == Frames(s[..k]) + Lines(s[k + 1..]) && Rest(s) == Rest(s[k + 1..])
  {
    IndexUnique(s, k);
    assert k == 0 ==> Frames(s[..k]) + Lines(s[k + 1..]) == Lines(s[1..]);
  }

  lemma NoLinesYet(s: seq<byte>)
    requires !HasNewline(s)
    ensures Lines(s) == [] && Rest(s) == s
  {
  }

  /** Reading a stream in two parts, the second together with what the first left over, is reading it whole. */
  lemma {:induction false} LinesOfParts(a: seq<byte>, b: seq<byte>)
    ensures Lines(a + b) == Lines(a) + Lines(Rest(a) + b)
    ensures Rest(a + b) == Rest(Rest(a) + b)
    decreases |a|
  {
    hide Lines, Rest, Frames, IndexOfNewline, HasNewline;
    var k := IndexOfNewline(a);
    if k == |a| {
      NoLinesYet(a);
    } else {
      var tail := a[k + 1..];
      assert (a + b)[k + 1..] == tail + b && (a + b)[..k] == a[..k];
      LinesStep(a, k);
      LinesStep(a + b, k);
      LinesOfParts(tail, b);
    }
  }

  lemma {:induction false} FitOfParts(a: seq<byte>, b: seq<byte>, max: nat)
    ensures AllFit(a + b, max) ==> AllFit(a, max)
    ensures AllFit(a, max) ==> (AllFit(a + b, max) <==> AllFit(Rest(a) + b, max))
    decreases |a|
  {
    var k := IndexOfNewline(a);
    if k < |a| {
      IndexUnique(a + b, k);
      assert (a + b)[k + 1..] == a[k + 1..] + b;
      FitOfParts(a[k + 1..], b, max);
    } else {
      assert IndexOfNewline(a + b) >= k;
    }
  }

  lemma {:induction false} RestFits(s: seq<byte>, max: nat)
    requires AllFit(s, max)
    ensures |Rest(s)| <= max
  {
    var k := IndexOfNewline(s);
    if k < |s| {
      RestFits(s[k + 1..], max);
    }
  }

  /** A frame is non-empty text without a newline; its newline comes after it. */
  predicate IsFrame(line: Line, max: nat) {
    0 < |line| <= max && NEWLINE !in line
  }

  predicate AreFrames(frames: seq<Line>, max: nat) {
    forall i :: 0 <= i < |frames| ==> IsFrame(frames[i], max)
  }

  /** The bytes that sending these frames puts on the wire. */
  function Wire(frames: seq<Line>): seq<byte> {
    if frames == [] then [] else frames[0] + [NEWLINE] + Wire(frames[1..])
  }

  lemma {:induction false} FramesSurviveTheWire(frames: seq<Line>, max: nat)
    requires AreFrames(frames, max)
    ensures Lines(Wire(frames)) == frames && Rest(Wire(frames)) == [] && AllFit(Wire(frames), max)
  {
    if frames != [] {
      var wire := Wire(frames);
      IndexUnique(wire, |frames[0]|);
      assert wire[..|frames[0]|] == frames[0];
      assert wire[|frames[0]| + 1..] == Wire(frames[1..]);
      FramesSurviveTheWire(frames[1..], max);
    }
  }

  /**
   Wherever the stream is cut, what came before the cut delivers a prefix of the frames, whole ones
   only, and holds on to less than one frame with its newline.
   */
  lemma CutDeliversWholeFrames(frames: seq<Line>, max: nat, cut: nat)
    requires AreFrames(frames, max) && cut <= |Wire(frames)|
    ensures Lines(Wire(frames)[..cut]) <= frames
    ensures AllFit(Wire(frames)[..cut], max) && |Rest(Wire(frames)[..cut])| <= max
  {
    var a, b := Wire(frames)[..cut], Wire(frames)[cut..];
    assert a + b == Wire(frames);
    FramesSurviveTheWire(frames, max);
    LinesOfParts(a, b);
    FitOfParts(a, b, max);
    RestFits(a, max);
  }

  lemma {:induction false} WireAppend(a: seq<Line>, b: seq<Line>)
    ensures Wire(a + b) == Wire(a) + Wire(b)
  {
    if a == [] {
      assert a + b == b;
    } else {
      assert (a + b)[1..] == a[1..] + b;
      WireAppend(a[1..], b);
    }
  }

  /** Once the first n frames have arrived in full, they are delivered. */
  lemma ArrivedFramesAreDelivered(frames: seq<Line>, max: nat, cut: nat, n: nat)
    requires AreFrames(frames, max) && n <= |frames| && |Wire(frames[..n])| <= cut <= |Wire(frames)|
    ensures frames[..n] <= Lines(Wire(frames)[..cut])
  {
    assert frames == frames[..n] + frames[n..];
    WireAppend(frames[..n], frames[n..]);
    var a := Wire(frames[..n]);
    var b := Wire(frames)[|a|..cut];
    assert Wire(frames)[..cut] == a + b;
    FramesSurviveTheWire(frames[..n], max);
    LinesOfParts(a, b);
  }
}

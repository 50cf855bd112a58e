/**
 The three receivers that cut a byte stream into lines: the bridge's control connection, the
 handheld's push link, and the bridge's reader of its agent process. Each delivers exactly the
 non-empty lines of what it was given, in bounded memory, or gives up on a line over its limit.
 */
module LineReceivers {
  import opened Framing

  const MAX_PUSH_FRAME_BYTES: nat := 4096
  const PUSH_FRAME_CAPACITY: nat := 4096

  // ------------------------------------------- the bridge's connection ---

  class ControlInput {
    var input: seq<byte>
    /** Everything received, everything handed on, and whether the connection has been failed. */
    ghost var stream: seq<byte>
    ghost var delivered: seq<Line>
    ghost var failed: bool

    ghost predicate Valid()
      reads this
    {
      if failed then
        && delivered <= Lines(stream)
        && (|input| > 2 * (MAX_PUSH_FRAME_BYTES + 1) || IndexOfNewline(input) > MAX_PUSH_FRAME_BYTES)
      else
        && delivered == Lines(stream) && input == Rest(stream)
        && AllFit(stream, MAX_PUSH_FRAME_BYTES) && |input| <= MAX_PUSH_FRAME_BYTES
    }

    constructor ()
      ensures Valid() && !failed && stream == [] && delivered == []
    {
      input, stream, delivered, failed := [], [], [], false;
    }

    /**
     Takes a chunk and hands on the lines it completes. It fails, for good, exactly when the chunk
     would hold over 8 KiB of input or a line over 4 KiB has begun.
     */
    method OnData(chunk: seq<byte>) returns (lines: seq<Line>, fault: bool)
      requires Valid()
      modifies this
      ensures Valid()
      ensures stream == old(stream) + chunk && delivered == old(delivered) + lines
      ensures failed <==> || old(failed) || |old(input)| + |chunk| > 2 * (MAX_PUSH_FRAME_BYTES + 1)
                          || !AllFit(stream, MAX_PUSH_FRAME_BYTES)
      ensures fault == failed
      ensures lines == if old(failed) || |old(input)| + |chunk| > 2 * (MAX_PUSH_FRAME_BYTES + 1) then []
                       else LinesWithin(old(input) + chunk, MAX_PUSH_FRAME_BYTES)
    {
      hide Lines, Rest, AllFit, LinesWithin;
      if !failed {
        LinesOfParts(stream, chunk);
        FitOfParts(stream, chunk, MAX_PUSH_FRAME_BYTES);
      } else {
        LinesOfParts(stream, chunk);
        IndexGrows(input, chunk);
      }
      input := input + chunk;
      stream := stream + chunk;
      if |input| > 2 * (MAX_PUSH_FRAME_BYTES + 1) {
        failed := true;
        return [], true;
      }
      lines, fault := ProcessInput();
    }

    method ProcessInput() returns (lines: seq<Line>, fault: bool)
      requires failed ==> delivered <= Lines(stream) && IndexOfNewline(input) > MAX_PUSH_FRAME_BYTES
      requires !failed ==> Lines(stream) == delivered + Lines(input) && Rest(stream) == Rest(input)
      requires !failed ==> (AllFit(stream, MAX_PUSH_FRAME_BYTES) <==> AllFit(input, MAX_PUSH_FRAME_BYTES))
      modifies this
      ensures Valid() && stream == old(stream) && delivered == old(delivered) + lines
      ensures failed <==> old(failed) || !AllFit(stream, MAX_PUSH_FRAME_BYTES)
      ensures fault == failed
      ensures lines == if old(failed) then [] else LinesWithin(old(input), MAX_PUSH_FRAME_BYTES)
    {
      hide Lines, Rest, AllFit, HasNewline, LinesWithin, IndexOfNewline;
      lines := [];
      while true
        invariant stream == old(stream) && failed == old(failed) && delivered == old(delivered)
        invariant failed ==> lines == [] && IndexOfNewline(input) > MAX_PUSH_FRAME_BYTES
        invariant !failed ==> Lines(stream) == delivered + lines + Lines(input) && Rest(stream) == Rest(input)
        invariant !failed ==> LinesWithin(old(input), MAX_PUSH_FRAME_BYTES) == lines + LinesWithin(input, MAX_PUSH_FRAME_BYTES)
        invariant !failed ==> (AllFit(stream, MAX_PUSH_FRAME_BYTES) <==> AllFit(input, MAX_PUSH_FRAME_BYTES))
        decreases |input|
      {
        var newline := IndexOfNewline(input);
        if newline == |input| {
          NoNewlineStep(input, MAX_PUSH_FRAME_BYTES);
          fault := |input| > MAX_PUSH_FRAME_BYTES;
          failed := fault;
          delivered := delivered + lines;
          return;
        }
        if newline > MAX_PUSH_FRAME_BYTES {
          TooLongStep(input, MAX_PUSH_FRAME_BYTES);
          fault, failed := true, true;
          delivered := delivered + lines;
          return;
        }
        var line := input[..newline];
        LineStep(input, MAX_PUSH_FRAME_BYTES, newline, line, input[newline + 1..]);
        input := input[newline + 1..];
        if line != [] {
          lines := lines + [line];
        }
      }
    }
  }

  /** What one turn of the loop over the input finds: no newline, ... */
  lemma NoNewlineStep(s: seq<byte>, max: nat)
    requires IndexOfNewline(s) == |s|
    ensures Lines(s) == [] && LinesWithin(s, max) == [] && Rest(s) == s && (AllFit(s, max) <==> |s| <= max)
  {
    hide Lines, Rest, LinesWithin, AllFit, Frames, IndexOfNewline;
    WithinStep(s, max);
    FitStep(s, max);
    NoLinesYet(s);
  }

  /** ... a line over the limit, ... */
  lemma TooLongStep(s: seq<byte>, max: nat)
    requires IndexOfNewline(s) > max
    ensures LinesWithin(s, max) == [] && !AllFit(s, max)
  {
    hide Lines, Rest, HasNewline, Frames, IndexOfNewline;
  }

  /** ... or a line that ends at k. */
  lemma LineStep(s: seq<byte>, max: nat, k: nat, line: Line, tail: seq<byte>)
    requires k == IndexOfNewline(s) < |s| && k <= max && line == s[..k] && tail == s[k + 1..]
    ensures Lines(s) == Frames(line) + Lines(tail) && Rest(s) == Rest(tail)
    ensures LinesWithin(s, max) == Frames(line) + LinesWithin(tail, max)
    ensures AllFit(s, max) <==> AllFit(tail, max)
  {
    hide Lines, Rest, LinesWithin, AllFit, Frames, HasNewline, IndexOfNewline;
    LinesStep(s, k);
    WithinUnfolds(s, max, k, line, tail);
    FitUnfolds(s, max, k, tail);
  }

  // --------------------------------------------- the handheld's link ---

  /** memmove to the front of the same buffer. */
  method MoveToFront(a: array<byte>, from: nat, count: nat)
    requires from + count <= a.Length
    modifies a
    ensures a[..count] == old(a[from..from + count])
  {
    for i := 0 to count
      invariant a[..i] == old(a[from..from + i])
      invariant forall j :: i <= j < a.Length ==> a[j] == old(a[j])
    {
      a[i] := a[from + i];
    }
  }

  /** memchr */
  method FindNewline(a: array<byte>, size: nat) returns (k: nat)
    requires size <= a.Length
    ensures k == IndexOfNewline(a[..size])
  {
    k := 0;
    while k < size && a[k] != NEWLINE
      invariant k <= size && forall j :: 0 <= j < k ==> a[j] != NEWLINE
    {
      k := k + 1;
    }
    IndexUnique(a[..size], k);
  }

  class PushInput {
    const input: array<byte>
    const frame: array<byte>
    var inputSize: nat
    var frameSize: nat
    var frameReady: bool
    /** Everything received on this connection, and every frame taken from it. */
    ghost var stream: seq<byte>
    ghost var delivered: seq<Line>

    ghost predicate Valid()
      reads this, input
    {
      && input != frame && input.Length == frame.Length == PUSH_FRAME_CAPACITY + 1
      && inputSize <= PUSH_FRAME_CAPACITY && frameSize <= PUSH_FRAME_CAPACITY
      && Lines(stream) == delivered + Lines(input[..inputSize])
      && Rest(stream) == Rest(input[..inputSize])
    }

    constructor ()
      ensures Valid() && !frameReady && stream == [] && delivered == [] && fresh(input) && fresh(frame)
    {
      input := new byte[PUSH_FRAME_CAPACITY + 1];
      frame := new byte[PUSH_FRAME_CAPACITY + 1];
      inputSize, frameSize, frameReady, stream, delivered := 0, 0, false, [], [];
    }

    /** push_extract_frame: the next complete line becomes the frame; empty lines are dropped on the way. */
    method ExtractFrame() returns (ready: bool)
      requires Valid() && !frameReady
      modifies this`inputSize, this`frameSize, this`frameReady, this`delivered, input, frame
      ensures Valid() && ready == frameReady
      ensures ready ==> delivered == old(delivered) + [frame[..frameSize]]
      ensures !ready ==> delivered == old(delivered) == Lines(stream) && input[..inputSize] == Rest(stream)
      ensures old(inputSize) >= inputSize
    {
      hide Lines, Rest, HasNewline, IndexOfNewline;
      var newline := FindNewline(input, inputSize);
      while newline == 0 && inputSize > 0
        invariant Valid() && newline == IndexOfNewline(input[..inputSize])
        invariant inputSize <= old(inputSize)
        decreases inputSize
        modifies this`inputSize, input
      {
        DropEmptyLine();
        newline := FindNewline(input, inputSize);
      }
      if newline == inputSize {
        NoLinesYet(input[..inputSize]);
        return false;
      }
      Take(newline);
      ready := true;
    }

    /** Shifts an empty line out of the buffer. */
    method DropEmptyLine()
      requires Valid() && inputSize > 0 && IndexOfNewline(input[..inputSize]) == 0
      modifies this`inputSize, input
      ensures Valid() && inputSize == old(inputSize) - 1
    {
      hide Lines, Rest, HasNewline, IndexOfNewline;
      EmptyLineStep(input[..inputSize], input[1..inputSize]);
      MoveToFront(input, 1, inputSize - 1);
      inputSize := inputSize - 1;
    }

    /** Copies the line that ends at a newline into the frame buffer and shifts the rest down. */
    method Take(newline: nat)
      requires Valid() && 0 < newline < inputSize && newline == IndexOfNewline(input[..inputSize])
      modifies this`inputSize, this`frameSize, this`frameReady, this`delivered, input, frame
      ensures Valid() && frameReady && inputSize < old(inputSize)
      ensures delivered == old(delivered) + [frame[..frameSize]]
    {
      hide Lines, Rest, HasNewline, IndexOfNewline;
      ghost var buffered := input[..inputSize];
      LinesStep(buffered, newline);
      for i := 0 to newline
        invariant frame[..i] == input[..i]
        modifies frame
      {
        frame[i] := input[i];
      }
      frameSize := newline;
      assert frame[..frameSize] == buffered[..newline];
      assert input[newline + 1..inputSize] == buffered[newline + 1..];
      MoveToFront(input, newline + 1, inputSize - (newline + 1));
      inputSize := inputSize - (newline + 1);
      frameReady := true;
      delivered := delivered + [frame[..frameSize]];
    }

    /**
     pump_push_receive, where available is what the socket has to read. A frame waiting to be
     consumed holds everything up; the link overflows exactly when a line over the capacity has begun.
     */
    method Receive(available: seq<byte>) returns (taken: nat, overflow: bool)
      requires Valid()
      modifies this`inputSize, this`frameSize, this`frameReady, this`stream, this`delivered, input, frame
      ensures taken <= |available| && stream == old(stream) + available[..taken]
      ensures Valid() && old(delivered) <= delivered && |delivered| <= |old(delivered)| + 1
      ensures old(frameReady) ==> taken == 0 && !overflow && frameReady && delivered == old(delivered)
      ensures !old(frameReady) ==> frameReady == (|delivered| > |old(delivered)|)
      ensures !old(frameReady) && frameReady ==> delivered[|old(delivered)|] == frame[..frameSize]
      ensures overflow <==> !old(frameReady) && old(delivered) == old(Lines(stream)) && |old(Rest(stream))| >= PUSH_FRAME_CAPACITY
      ensures !overflow && !frameReady && available != [] ==> taken > 0 && delivered == Lines(stream)
    {
      hide Lines, Rest, HasNewline, IndexOfNewline;
      taken, overflow := 0, false;
      assert available[..0] == [];
      if frameReady {
        return;
      }
      var ready := ExtractFrame();
      if ready {
        NotAllDelivered(old(delivered), old(stream), old(input[..inputSize]));
        return;
      }
      if inputSize >= PUSH_FRAME_CAPACITY {
        return 0, true;
      }
      taken := if |available| < PUSH_FRAME_CAPACITY - inputSize then |available| else PUSH_FRAME_CAPACITY - inputSize;
      Store(available[..taken]);
      ready := ExtractFrame();
    }

    /** recv into the free part of the buffer. */
    method Store(bytes: seq<byte>)
      requires Valid() && inputSize + |bytes| <= PUSH_FRAME_CAPACITY
      modifies this`inputSize, this`stream, input
      ensures Valid() && stream == old(stream) + bytes
    {
      hide Lines, Rest, HasNewline, IndexOfNewline;
      ghost var buffered := input[..inputSize];
      LinesOfParts(stream, bytes);
      LinesOfParts(buffered, bytes);
      for i := 0 to |bytes|
        invariant input[..inputSize] == buffered && input[inputSize..inputSize + i] == bytes[..i]
        modifies input
      {
        input[inputSize + i] := bytes[i];
      }
      inputSize := inputSize + |bytes|;
      stream := stream + bytes;
      assert input[..inputSize] == buffered + bytes;
    }

    /** network_push_consume_frame */
    method Consume()
      requires Valid()
      modifies this`frameReady, this`frameSize
      ensures Valid() && !frameReady
    {
      frameReady, frameSize := false, 0;
    }

    /** The part of push_schedule_reconnect about input: what was buffered is forgotten, an extracted frame is kept. */
    method Reset()
      requires Valid()
      modifies this`inputSize, this`stream, this`delivered
      ensures Valid() && stream == [] && delivered == [] && inputSize == 0
    {
      inputSize, stream, delivered := 0, [], [];
    }
  }

  lemma EmptyLineStep(s: seq<byte>, tail: seq<byte>)
    requires s != [] && IndexOfNewline(s) == 0 && tail == s[1..]
    ensures Lines(s) == Lines(tail) && Rest(s) == Rest(tail)
  {
    hide Lines, Rest, HasNewline, IndexOfNewline;
    LinesStep(s, 0);
  }

  lemma NotAllDelivered(delivered: seq<Line>, stream: seq<byte>, buffered: seq<byte>)
    requires Lines(stream) == delivered + Lines(buffered) && Lines(buffered) != []
    ensures delivered != Lines(stream)
  {
    hide Lines;
  }

  // ------------------------------------ the bridge's agent process reader ---

  class StdoutReader {
    const maximumLineBytes: nat
    var inputRemainder: seq<byte>
    /** The client's closed or failed states. */
    var unavailable: bool
    ghost var stream: seq<byte>
    ghost var delivered: seq<Line>

    ghost predicate Valid()
      reads this
    {
      !unavailable ==>
        && delivered == Lines(stream) && inputRemainder == Rest(stream)
        && AllFit(stream, maximumLineBytes)
    }

    constructor (maximumLineBytes: nat)
      ensures Valid() && !unavailable && stream == [] && delivered == [] && this.maximumLineBytes == maximumLineBytes
    {
      this.maximumLineBytes := maximumLineBytes;
      inputRemainder, unavailable, stream, delivered := [], false, [], [];
    }

    /** Adds the text up to the chunk's next newline to the line being read, unless that makes it too long. */
    method AddSegment(chunk: seq<byte>, offset: nat, ghost pending: seq<byte>) returns (end: nat)
      requires offset <= |chunk| && pending == inputRemainder + chunk[offset..]
      requires !HasNewline(inputRemainder) && !unavailable
      modifies this`inputRemainder, this`unavailable
      ensures offset <= end <= |chunk| && (end == |chunk| <==> IndexOfNewline(pending) == |pending|)
      ensures unavailable <==> IndexOfNewline(pending) > maximumLineBytes
      ensures !unavailable ==> inputRemainder == pending[..IndexOfNewline(pending)]
      ensures end < |chunk| ==> pending[IndexOfNewline(pending) + 1..] == chunk[end + 1..]
    {
      hide HasNewline, IndexOfNewline;
      end := offset + IndexOfNewline(chunk[offset..]);
      var segment := chunk[offset..end];
      SegmentAt(inputRemainder, chunk, offset, pending, end, inputRemainder + segment);
      if |inputRemainder| + |segment| > maximumLineBytes {
        unavailable := true;
        return;
      }
      inputRemainder := inputRemainder + segment;
    }

    /** It fails exactly when a line over the maximum has begun; nothing is delivered after that. */
    method OnStdout(chunk: seq<byte>) returns (lines: seq<Line>)
      requires Valid()
      modifies this
      ensures Valid() && delivered == old(delivered) + lines
      ensures old(unavailable) ==> unavailable && lines == []
      ensures !old(unavailable) ==> stream == old(stream) + chunk && delivered <= Lines(stream)
      ensures !old(unavailable) ==> (unavailable <==> !AllFit(stream, maximumLineBytes))
      ensures !old(unavailable) ==> lines == LinesWithin(old(inputRemainder) + chunk, maximumLineBytes)
    {
      hide Lines, Rest, AllFit, HasNewline, IndexOfNewline, LinesWithin, Reading;
      lines := [];
      if unavailable {
        return;
      }
      LinesOfParts(stream, chunk);
      FitOfParts(stream, chunk, maximumLineBytes);
      stream := stream + chunk;
      RestIsOneLine(old(stream));
      RestFits(old(stream), maximumLineBytes);
      EmptyHasNoNewline();
      ghost var begun := inputRemainder + chunk;
      ReadingBegins(stream, delivered, begun, maximumLineBytes);
      ghost var pending := begun;
      assert chunk[0..] == chunk;
      var offset := 0;
      while offset < |chunk|
        invariant offset <= |chunk| && !unavailable && delivered == old(delivered) && stream == old(stream) + chunk
        invariant !HasNewline(inputRemainder) && |inputRemainder| <= maximumLineBytes
        invariant pending == inputRemainder + chunk[offset..]
        invariant Reading(stream, delivered, begun, maximumLineBytes, lines, pending)
        modifies this`inputRemainder, this`unavailable, this`delivered
      {
        var end := AddSegment(chunk, offset, pending);
        if unavailable {
          ReadingFails(stream, delivered, begun, maximumLineBytes, lines, pending);
          delivered := delivered + lines;
          return;
        }
        if end == |chunk| {
          ReadingEnds(stream, delivered, begun, maximumLineBytes, lines, pending);
          delivered := delivered + lines;
          return;
        }
        ReadingLine(stream, delivered, begun, maximumLineBytes, lines, pending, inputRemainder, chunk[end + 1..]);
        pending := chunk[end + 1..];
        assert [] + pending == pending && lines + [] == lines;
        var line := inputRemainder;
        inputRemainder := [];
        offset := end + 1;
        if line != [] {
          lines := lines + [line];
        }
      }
      assert pending == inputRemainder;
      ReadingEnds(stream, delivered, begun, maximumLineBytes, lines, pending);
      delivered := delivered + lines;
    }
  }

  lemma EmptyHasNoNewline()
    ensures !HasNewline([])
  {
  }

  /**
   What a reader holds true while it takes lines off what was pending when it began: of the whole
   stream, base was delivered before, lines since, and the pending bytes are still to be read.
   */
  ghost predicate Reading(stream: seq<byte>, base: seq<Line>, begun: seq<byte>, max: nat, lines: seq<Line>, pending: seq<byte>) {
    && Lines(stream) == base + lines + Lines(pending) && Rest(stream) == Rest(pending)
    && (AllFit(stream, max) <==> AllFit(pending, max))
    && LinesWithin(begun, max) == lines + LinesWithin(pending, max)
  }

  lemma ReadingBegins(stream: seq<byte>, base: seq<Line>, begun: seq<byte>, max: nat)
    requires Lines(stream) == base + Lines(begun) && Rest(stream) == Rest(begun)
    requires AllFit(stream, max) <==> AllFit(begun, max)
    ensures Reading(stream, base, begun, max, [], begun)
  {
    hide Lines, Rest, AllFit, LinesWithin;
  }

  lemma ReadingLine(stream: seq<byte>, base: seq<Line>, begun: seq<byte>, max: nat, lines: seq<Line>, pending: seq<byte>,
                    line: Line, tail: seq<byte>)
    requires Reading(stream, base, begun, max, lines, pending)
    requires |line| == IndexOfNewline(pending) < |pending| && |line| <= max
    requires line == pending[..|line|] && tail == pending[|line| + 1..]
    ensures Reading(stream, base, begun, max, lines + Frames(line), tail)
  {
    hide Lines, Rest, AllFit, LinesWithin, Frames, IndexOfNewline, HasNewline;
    LineStep(pending, max, |line|, line, tail);
    Regroup(lines, Frames(line), LinesWithin(tail, max));
    Regroup(base + lines, Frames(line), Lines(tail));
    Regroup(base, lines, Frames(line));
  }

  lemma Regroup(a: seq<Line>, b: seq<Line>, c: seq<Line>)
    ensures a + b + c == a + (b + c)
  {
  }

  lemma ReadingEnds(stream: seq<byte>, base: seq<Line>, begun: seq<byte>, max: nat, lines: seq<Line>, pending: seq<byte>)
    requires Reading(stream, base, begun, max, lines, pending) && IndexOfNewline(pending) == |pending|
    ensures Lines(stream) == base + lines && Rest(stream) == pending && lines == LinesWithin(begun, max)
    ensures AllFit(stream, max) <==> |pending| <= max
  {
    hide Lines, Rest, AllFit, LinesWithin, IndexOfNewline, HasNewline;
    NoNewlineStep(pending, max);
  }

  lemma ReadingFails(stream: seq<byte>, base: seq<Line>, begun: seq<byte>, max: nat, lines: seq<Line>, pending: seq<byte>)
    requires Reading(stream, base, begun, max, lines, pending) && IndexOfNewline(pending) > max
    ensures !AllFit(stream, max) && lines == LinesWithin(begun, max) && base + lines <= Lines(stream)
  {
    hide Lines, Rest, AllFit, LinesWithin, IndexOfNewline, HasNewline;
    TooLongStep(pending, max);
  }

  /** The line that the part of a chunk up to its next newline completes, and what follows it. */
  lemma SegmentAt(remainder: seq<byte>, chunk: seq<byte>, offset: nat, pending: seq<byte>, end: nat, line: Line)
    requires offset <= |chunk| && !HasNewline(remainder) && pending == remainder + chunk[offset..]
    requires end == offset + IndexOfNewline(chunk[offset..]) && line == remainder + chunk[offset..end]
    ensures IndexOfNewline(pending) == |line| && pending[..|line|] == line && (end == |chunk| <==> |line| == |pending|)
    ensures |line| == |remainder| + (end - offset)
    ensures end < |chunk| ==> pending[|line| + 1..] == chunk[end + 1..]
  {
    hide HasNewline, IndexOfNewline;
    IndexAfter(remainder, chunk[offset..]);
  }

  lemma FitStep(s: seq<byte>, max: nat)
    ensures var k := IndexOfNewline(s);
      && (k > max ==> !AllFit(s, max))
      && (k == |s| <= max ==> AllFit(s, max))
      && (k < |s| && k <= max ==> (AllFit(s, max) <==> AllFit(s[k + 1..], max)))
  {
    hide HasNewline, IndexOfNewline;
    var k := IndexOfNewline(s);
    if k > max {
    } else if k == |s| {
    } else {
      FitUnfolds(s, max, k, s[k + 1..]);
    }
  }

  lemma FitUnfolds(s: seq<byte>, max: nat, k: nat, tail: seq<byte>)
    requires k == IndexOfNewline(s) < |s| && k <= max && tail == s[k + 1..]
    ensures AllFit(s, max) <==> AllFit(tail, max)
  {
    hide HasNewline, IndexOfNewline;
  }

  lemma IndexGrows(a: seq<byte>, b: seq<byte>)
    ensures IndexOfNewline(a + b) >= IndexOfNewline(a)
  {
    assert forall i :: 0 <= i < |a| ==> (a + b)[i] == a[i];
  }

  /**
   Every frame the bridge can send fits the handheld's receiver: it refuses to send a line over
   4 KiB, newline included, and wherever such a stream is cut, less than the capacity is left over.
   */
  lemma BridgeFramesFitTheHandheld(frames: seq<Line>, cut: nat)
    requires AreFrames(frames, MAX_PUSH_FRAME_BYTES - 1) && cut <= |Wire(frames)|
    ensures |Rest(Wire(frames)[..cut])| < PUSH_FRAME_CAPACITY && Lines(Wire(frames)[..cut]) <= frames
  {
    CutDeliversWholeFrames(frames, MAX_PUSH_FRAME_BYTES - 1, cut);
  }

  /**
   Every frame the handheld can send fits the bridge's receiver: its output buffer holds at most
   4 KiB, newline included, and the bridge fails such a stream only on a chunk that arrives on
   top of a partial frame and brings the input over 8 KiB.
   */
  lemma HandheldFramesFitTheBridge(frames: seq<Line>, cut: nat)
    requires AreFrames(frames, PUSH_FRAME_CAPACITY - 1) && cut <= |Wire(frames)|
    ensures AllFit(Wire(frames)[..cut], MAX_PUSH_FRAME_BYTES) && Lines(Wire(frames)[..cut]) <= frames
    ensures |Rest(Wire(frames)[..cut])| < MAX_PUSH_FRAME_BYTES
  {
    CutDeliversWholeFrames(frames, PUSH_FRAME_CAPACITY - 1, cut);
    FitLarger(Wire(frames)[..cut], PUSH_FRAME_CAPACITY - 1, MAX_PUSH_FRAME_BYTES);
  }

  /** Three frames that each fit fail the bridge's connection if they arrive in one chunk. */
  method FittingFramesCanFail() returns (input: ControlInput, frames: seq<Line>)
    ensures AreFrames(frames, MAX_PUSH_FRAME_BYTES) && input.stream == Wire(frames) && input.failed && input.delivered == []
  {
    hide Lines, Rest, AllFit, LinesWithin;
    var line: Line := seq(MAX_PUSH_FRAME_BYTES, _ => 1);
    frames := [line, line, line];
    input := new ControlInput();
    var chunk := Wire(frames);
    WireOfThree(line);
    var lines, fault := input.OnData(chunk);
    assert [] + chunk == chunk;
  }

  lemma WireOfThree(line: Line)
    ensures |Wire([line, line, line])| == 3 * (|line| + 1)
  {
    WireAppend([line], [line, line]);
    WireAppend([line], [line]);
    assert [line] + [line] == [line, line] && [line] + [line, line] == [line, line, line];
    assert [line][1..] == [];
  }

  lemma {:induction false} FitLarger(s: seq<byte>, max: nat, more: nat)
    requires AllFit(s, max) && max <= more
    ensures AllFit(s, more)
  {
    if IndexOfNewline(s) < |s| {
      FitLarger(s[IndexOfNewline(s) + 1..], max, more);
    }
  }
}

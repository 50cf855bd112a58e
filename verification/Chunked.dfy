/**
 Chunked transfer coding (section 7.1 of RFC 9112): the chunks the handheld writes, and the reader
 of the development server that takes them apart again.
 */
module Chunked {
  import opened Arithmetic
  import opened Framing
  import opened Hexadecimal
  import opened Options

  const CR: byte := 13
  const SEMICOLON: byte := 59
  const SPACE: byte := 32
  const CRLF: seq<byte> := [CR, NEWLINE]

  // -------------------------------------------------------- hexadecimal ---

  /** "%x" */
  function Hex(n: nat): (s: seq<byte>)
    ensures s != []
  {
    if n < 16 then [Digit(n)] else Hex(n / 16) + [Digit(n % 16)]
  }

  /** A number written in plain hexadecimal digits. */
  function HexValue(s: seq<byte>): Option<nat> {
    if s == [] then None
    else
      var last := DigitValue(s[|s| - 1]);
      if last.None? then None
      else if |s| == 1 then last
      else
        var high := HexValue(s[..|s| - 1]);
        if high.None? then None else Some(16 * high.value + last.value)
  }

  predicate IsDigits(s: seq<byte>) {
    forall i :: 0 <= i < |s| ==> DigitValue(s[i]).Some?
  }

  lemma {:induction false} HexSurvives(n: nat)
    ensures HexValue(Hex(n)) == Some(n) && IsDigits(Hex(n))
  {
    if n >= 16 {
      HexSurvives(n / 16);
      assert Hex(n)[..|Hex(n)| - 1] == Hex(n / 16);
    }
  }

  /** A size below 16 to the k takes at most k digits. */
  lemma {:induction false} HexIsShort(n: nat, k: nat)
    requires n < Power(16, k) && k > 0
    ensures |Hex(n)| <= k
  {
    if n >= 16 {
      HexIsShort(n / 16, k - 1);
    }
  }

  // ------------------------------------------------------------- writing ---

  /** network_audio_stream_write */
  function Chunk(data: seq<byte>): seq<byte> {
    Hex(|data|) + CRLF + data + CRLF
  }

  const LAST_CHUNK: seq<byte> := [48] + CRLF + CRLF

  function Body(chunks: seq<seq<byte>>): seq<byte> {
    if chunks == [] then [] else Chunk(chunks[0]) + Body(chunks[1..])
  }

  function Flatten(chunks: seq<seq<byte>>): seq<byte> {
    if chunks == [] then [] else chunks[0] + Flatten(chunks[1..])
  }

  lemma BodyAppend(chunks: seq<seq<byte>>, data: seq<byte>)
    ensures Body(chunks + [data]) == Body(chunks) + Chunk(data)
    ensures Flatten(chunks + [data]) == Flatten(chunks) + data
  {
    BodyPush(chunks, data);
    FlattenPush(chunks, data);
  }

  lemma {:induction false} BodyPush(chunks: seq<seq<byte>>, data: seq<byte>)
    ensures Body(chunks + [data]) == Body(chunks) + Chunk(data)
  {
    hide Chunk;
    if chunks == [] {
      assert [data][1..] == [] && [] + [data] == [data];
      assert Body([data]) == Chunk(data) + [];
    } else {
      assert (chunks + [data])[1..] == chunks[1..] + [data];
      BodyPush(chunks[1..], data);
    }
  }

  lemma {:induction false} FlattenPush(chunks: seq<seq<byte>>, data: seq<byte>)
    ensures Flatten(chunks + [data]) == Flatten(chunks) + data
  {
    if chunks == [] {
      assert [data][1..] == [] && [] + [data] == [data];
      assert Flatten([data]) == data + [];
    } else {
      assert (chunks + [data])[1..] == chunks[1..] + [data];
      FlattenPush(chunks[1..], data);
    }
  }

  // ------------------------------------------------------------- reading ---

  datatype BodyError = IncompleteSize | InvalidSize | InvalidTrailer | TooLarge | IncompleteData | PartialSamples

  /** How many bytes readline(max) takes: through the first newline, at most max, at most all there is. */
  function LineLength(s: seq<byte>, max: nat): (n: nat)
    ensures n <= |s| && n <= max
  {
    var k := IndexOfNewline(s);
    var n := if k < |s| then k + 1 else k;
    if n <= max then n else max
  }

  predicate EndsWithCrlf(line: seq<byte>) {
    |line| >= 2 && line[|line| - 2..] == CRLF
  }

  /** What comes before the first semicolon. */
  function BeforeExtension(s: seq<byte>): seq<byte> {
    if s == [] || s[0] == SEMICOLON then [] else [s[0]] + BeforeExtension(s[1..])
  }

  predicate IsSpace(c: byte) {
    c == SPACE || 9 <= c <= 13
  }

  function Strip(s: seq<byte>): seq<byte> {
    if s != [] && IsSpace(s[0]) then Strip(s[1..])
    else if s != [] && IsSpace(s[|s| - 1]) then Strip(s[..|s| - 1])
    else s
  }

  function ChunkSize(line: seq<byte>): Result<nat, BodyError> {
    if !EndsWithCrlf(line) then Err(IncompleteSize)
    else
      match HexValue(Strip(BeforeExtension(line[..|line| - 2])))
      case None => Err(InvalidSize)
      case Some(size) => Ok(size)
  }

  /** Trailer lines, up to an empty line or the end of the stream. */
  function SkipTrailer(s: seq<byte>): Result<seq<byte>, BodyError> {
    var n := LineLength(s, 1024);
    if n == 0 || s[..n] == CRLF then Ok(s[n..])
    else if !EndsWithCrlf(s[..n]) then Err(InvalidTrailer)
    else SkipTrailer(s[n..])
  }

  /** Either the next chunk or, after the last one, nothing; and what is left of the stream. */
  datatype Piece = Piece(chunk: Option<seq<byte>>, rest: seq<byte>)

  /** _read_audio_chunk */
  function ReadChunk(s: seq<byte>, limit: nat): (r: Result<Piece, BodyError>)
    ensures r.Ok? && r.value.chunk.Some? ==> |r.value.rest| < |s| && 0 < |r.value.chunk.value| <= limit
  {
    var n := LineLength(s, 64);
    match ChunkSize(s[..n])
    case Err(error) => Err(error)
    case Ok(size) =>
      var rest := s[n..];
      if size == 0 then
        match SkipTrailer(rest)
        case Err(error) => Err(error)
        case Ok(after) => Ok(Piece(None, after))
      else if size > limit then Err(TooLarge)
      else if |rest| < size + 2 || rest[size..size + 2] != CRLF then Err(IncompleteData)
      else Ok(Piece(Some(rest[..size]), rest[size + 2..]))
  }

  /** What the server has saved by the end of the body, and what of the stream it has not read. */
  datatype Recording = Recording(pcm: seq<byte>, unread: seq<byte>)

  function Saved(before: seq<byte>, s: seq<byte>, maxBytes: nat): Result<Recording, BodyError>
    requires |before| <= maxBytes
    decreases |s|
  {
    match ReadChunk(s, maxBytes - |before|)
    case Err(error) => Err(error)
    case Ok(piece) =>
      match piece.chunk
      case None => Ok(Recording(before, piece.rest))
      case Some(chunk) => Saved(before + chunk, piece.rest, maxBytes)
  }

  predicate WholeSamples(pcm: seq<byte>) {
    pcm != [] && |pcm| % 2 == 0
  }

  /** A body is accepted if it decodes to at least one sample and no part of one. */
  function Accepted(body: seq<byte>, maxBytes: nat): Result<Recording, BodyError> {
    match Saved([], body, maxBytes)
    case Err(error) => Err(error)
    case Ok(recording) => if WholeSamples(recording.pcm) then Ok(recording) else Err(PartialSamples)
  }

  /** _save_audio_stream, once the request's header has been accepted. */
  method SaveAudioStream(body: seq<byte>, maxBytes: nat) returns (result: Result<Recording, BodyError>)
    ensures result == Accepted(body, maxBytes)
  {
    var recording: seq<byte> := [];
    var stream := body;
    while true
      invariant |recording| <= maxBytes
      invariant Saved([], body, maxBytes) == Saved(recording, stream, maxBytes)
      decreases |stream|
    {
      var piece := ReadChunk(stream, maxBytes - |recording|);
      match piece {
        case Err(error) => return Err(error);
        case Ok(Piece(None, rest)) =>
          if |recording| == 0 || |recording| % 2 != 0 {
            return Err(PartialSamples);
          }
          return Ok(Recording(recording, rest));
        case Ok(Piece(Some(chunk), rest)) =>
          recording := recording + chunk;
          stream := rest;
      }
    }
  }

  // ------------------------------------------------------------ round trip ---

  /** The chunks that the handheld may write: at most 8 KiB each. */
  const AUDIO_CHUNK_CAPACITY: nat := 8192

  predicate AreChunks(chunks: seq<seq<byte>>) {
    forall i :: 0 <= i < |chunks| ==> 0 < |chunks[i]| <= AUDIO_CHUNK_CAPACITY
  }

  lemma DigitsArePlain(s: seq<byte>)
    requires IsDigits(s) && s != []
    ensures !HasNewline(s) && BeforeExtension(s) == s && Strip(s) == s
  {
    DigitsHaveNoExtension(s);
    assert DigitValue(s[0]).Some? && DigitValue(s[|s| - 1]).Some?;
  }

  lemma {:induction false} DigitsHaveNoExtension(s: seq<byte>)
    requires IsDigits(s)
    ensures BeforeExtension(s) == s
  {
    if s != [] {
      assert DigitValue(s[0]).Some?;
      DigitsHaveNoExtension(s[1..]);
    }
  }

  /** The size line of a chunk, read back from a stream that starts with it. */
  lemma SizeLineIsRead(size: nat, more: seq<byte>)
    requires size <= AUDIO_CHUNK_CAPACITY
    ensures var line := Hex(size) + CRLF;
      |line| <= 6 && LineLength(line + more, 64) == |line| && ChunkSize(line) == Ok(size)
  {
    hide Hex, HexValue, BeforeExtension, Strip, HasNewline;
    var line := Hex(size) + CRLF;
    HexSurvives(size);
    DigitsArePlain(Hex(size));
    SizeIsShort(size);
    assert line[..|line| - 2] == Hex(size) && line[|line| - 2..] == CRLF;
    IndexAfter(Hex(size), CRLF + more);
    assert line + more == Hex(size) + (CRLF + more);
    IndexUnique(CRLF + more, 1);
  }

  lemma SizeIsShort(size: nat)
    requires size <= AUDIO_CHUNK_CAPACITY
    ensures |Hex(size)| <= 4
  {
    assert Power(16, 4) == 65536 by { assert Power(16, 1) == 16 && Power(16, 2) == 256 && Power(16, 3) == 4096; }
    HexIsShort(size, 4);
  }

  lemma ChunkIsRead(data: seq<byte>, more: seq<byte>, limit: nat)
    requires 0 < |data| <= AUDIO_CHUNK_CAPACITY && |data| <= limit
    ensures ReadChunk(Chunk(data) + more, limit) == Ok(Piece(Some(data), more))
  {
    hide Hex, LineLength, ChunkSize;
    var line, s := Hex(|data|) + CRLF, Chunk(data) + more;
    assert s == line + (data + CRLF + more);
    SizeLineIsRead(|data|, data + CRLF + more);
    assert s[..|line|] == line && s[|line|..] == data + CRLF + more;
    var rest := data + CRLF + more;
    assert rest[..|data|] == data && rest[|data|..|data| + 2] == CRLF && rest[|data| + 2..] == more;
  }

  lemma LastChunkIsRead(more: seq<byte>, limit: nat)
    ensures ReadChunk(LAST_CHUNK + more, limit) == Ok(Piece(None, more))
  {
    hide LineLength, ChunkSize;
    var line, s := Hex(0) + CRLF, LAST_CHUNK + more;
    SizeLineIsRead(0, CRLF + more);
    assert s == line + (CRLF + more);
    assert s[..|line|] == line && s[|line|..] == CRLF + more;
    EmptyTrailer(more);
  }

  lemma EmptyTrailer(more: seq<byte>)
    ensures SkipTrailer(CRLF + more) == Ok(more)
  {
    IndexUnique(CRLF + more, 1);
    assert (CRLF + more)[..2] == CRLF && (CRLF + more)[2..] == more;
  }

  /** Reading a whole body gives exactly the bytes that were chunked, in order, and leaves what follows it. */
  lemma {:induction false} BodyIsSaved(before: seq<byte>, chunks: seq<seq<byte>>, more: seq<byte>, maxBytes: nat)
    requires AreChunks(chunks) && |before| + |Flatten(chunks)| <= maxBytes
    ensures Saved(before, Body(chunks) + LAST_CHUNK + more, maxBytes) == Ok(Recording(before + Flatten(chunks), more))
    decreases |chunks|
  {
    hide ReadChunk, Chunk;
    var s := Body(chunks) + LAST_CHUNK + more;
    if chunks == [] {
      assert s == LAST_CHUNK + more && before + Flatten(chunks) == before;
      LastChunkIsRead(more, maxBytes - |before|);
    } else {
      var rest := Body(chunks[1..]) + LAST_CHUNK + more;
      assert s == Chunk(chunks[0]) + rest;
      ChunkIsRead(chunks[0], rest, maxBytes - |before|);
      BodyIsSaved(before + chunks[0], chunks[1..], more, maxBytes);
      assert before + Flatten(chunks) == before + chunks[0] + Flatten(chunks[1..]);
    }
  }

  // ---------------------------------------------------------- cut streams ---

  lemma CutChunkFails(data: seq<byte>, cut: nat, limit: nat)
    requires 0 < |data| <= AUDIO_CHUNK_CAPACITY && cut < |Chunk(data)|
    ensures ReadChunk(Chunk(data)[..cut], limit).Err?
  {
    hide Hex, LineLength, ChunkSize;
    var line, s := Hex(|data|) + CRLF, Chunk(data)[..cut];
    if cut < |line| {
      assert s == line[..cut];
      CutLineFails(|data|, cut);
    } else {
      var rest := (data + CRLF)[..cut - |line|];
      assert s == line + rest;
      SizeLineIsRead(|data|, rest);
      assert s[..|line|] == line && s[|line|..] == rest;
    }
  }

  lemma CutLineFails(size: nat, cut: nat)
    requires size <= AUDIO_CHUNK_CAPACITY && cut < |Hex(size) + CRLF|
    ensures var s := (Hex(size) + CRLF)[..cut];
      LineLength(s, 64) == cut && ChunkSize(s[..cut]) == Err(IncompleteSize)
  {
    hide Hex, HexValue, HasNewline;
    var line := Hex(size) + CRLF;
    HexSurvives(size);
    DigitsArePlain(Hex(size));
    SizeIsShort(size);
    var s := line[..cut];
    IndexUnique(s, cut);
    assert s[..cut] == s;
    CrlfEndsInNewline(s);
    assert cut > 0 ==> s[cut - 1] != NEWLINE;
  }

  lemma CrlfEndsInNewline(line: seq<byte>)
    ensures EndsWithCrlf(line) ==> line[|line| - 1] == NEWLINE
  {
    assert |line| >= 2 ==> line[|line| - 2..][1] == line[|line| - 1];
  }

  /** Cut short of a complete last line, a body is refused; it is never saved with anything missing. */
  lemma {:induction false} CutBodyIsNeverSavedShort(before: seq<byte>, chunks: seq<seq<byte>>, cut: nat, maxBytes: nat)
    requires AreChunks(chunks) && |before| <= maxBytes && cut <= |Body(chunks) + LAST_CHUNK|
    ensures var saved := Saved(before, (Body(chunks) + LAST_CHUNK)[..cut], maxBytes);
      && (saved.Ok? ==> saved.value.pcm == before + Flatten(chunks))
      && (saved.Ok? <==> (|before| + |Flatten(chunks)| <= maxBytes
                          && (cut == |Body(chunks)| + 3 || cut == |Body(chunks)| + 5)))
    decreases |chunks|
  {
    hide ReadChunk, Chunk;
    var s := (Body(chunks) + LAST_CHUNK)[..cut];
    if chunks == [] {
      assert s == LAST_CHUNK[..cut] && before + Flatten(chunks) == before;
      CutLastChunk(cut, maxBytes - |before|);
    } else {
      var first, tail := Chunk(chunks[0]), Body(chunks[1..]) + LAST_CHUNK;
      assert Body(chunks) + LAST_CHUNK == first + tail;
      assert before + Flatten(chunks) == before + chunks[0] + Flatten(chunks[1..]);
      if cut < |first| {
        assert s == first[..cut];
        CutChunkFails(chunks[0], cut, maxBytes - |before|);
      } else {
        assert s == first + tail[..cut - |first|];
        if |chunks[0]| <= maxBytes - |before| {
          ChunkIsRead(chunks[0], tail[..cut - |first|], maxBytes - |before|);
          CutBodyIsNeverSavedShort(before + chunks[0], chunks[1..], cut - |first|, maxBytes);
        } else {
          OversizeChunkFails(chunks[0], tail[..cut - |first|], maxBytes - |before|);
        }
      }
    }
  }

  lemma OversizeChunkFails(data: seq<byte>, more: seq<byte>, limit: nat)
    requires limit < |data| <= AUDIO_CHUNK_CAPACITY
    ensures ReadChunk(Chunk(data) + more, limit) == Err(TooLarge)
  {
    hide Hex, LineLength, ChunkSize;
    var line, s := Hex(|data|) + CRLF, Chunk(data) + more;
    assert s == line + (data + CRLF + more);
    SizeLineIsRead(|data|, data + CRLF + more);
    assert s[..|line|] == line && s[|line|..] == data + CRLF + more;
  }

  lemma CutLastChunk(cut: nat, limit: nat)
    requires cut <= 5
    ensures cut < 3 || cut == 4 ==> ReadChunk(LAST_CHUNK[..cut], limit).Err?
    ensures cut == 3 || cut == 5 ==> ReadChunk(LAST_CHUNK[..cut], limit) == Ok(Piece(None, []))
  {
    hide LineLength, ChunkSize;
    var line := Hex(0) + CRLF;
    assert LAST_CHUNK == line + CRLF;
    if cut < 3 {
      assert LAST_CHUNK[..cut] == line[..cut];
      CutLineFails(0, cut);
    } else {
      var rest := CRLF[..cut - 3];
      var s := LAST_CHUNK[..cut];
      assert s == line + rest;
      SizeLineIsRead(0, rest);
      assert s[..|line|] == line && s[|line|..] == rest;
      CutTrailer(cut - 3);
    }
  }

  lemma CutTrailer(cut: nat)
    requires cut <= 2
    ensures SkipTrailer(CRLF[..cut]) == if cut == 1 then Err(InvalidTrailer) else Ok([])
  {
    if cut == 1 {
      IndexUnique([CR], 1);
      assert CRLF[..1] == [CR];
    } else if cut == 2 {
      EmptyTrailer([]);
      assert CRLF[..2] == CRLF + [];
    }
  }
}

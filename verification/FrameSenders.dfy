/**
 What either end of the pushed link puts on the wire: its guards on the size of a frame, and with them
 that every stream it can send fits the receiver at the other end.
 */
module FrameSenders {
  import opened Framing
  import opened JsonText
  import opened LineReceivers
  import opened Options
  import Pairing

  const PROTOCOL_VERSION: nat := 1

  function Ascii(s: string): (bytes: seq<byte>)
    ensures |bytes| == |s|
  {
    seq(|s|, i requires 0 <= i < |s| => if s[i] < 128 as char then s[i] as byte else QUESTION)
  }

  lemma AsciiHasNoNewline(s: string)
    requires '\n' !in s
    ensures NEWLINE !in Ascii(s)
  {
  }

  /** %u */
  function Decimal(n: nat): seq<byte> {
    Ascii(Pairing.Decimal(n))
  }

  lemma DecimalHasNoNewline(n: nat)
    ensures NEWLINE !in Decimal(n)
  {
    Pairing.DecimalIsRead(n);
    AsciiHasNoNewline(Pairing.Decimal(n));
  }

  /** One line of text and the newline after it. */
  ghost predicate IsText(text: seq<byte>) {
    |text| > 1 && text[|text| - 1] == NEWLINE && NEWLINE !in text[..|text| - 1]
  }

  /** The text whose line is made of these parts. */
  function Text(parts: seq<seq<byte>>): (text: seq<byte>) {
    Joined(parts) + [NEWLINE]
  }

  function Joined(parts: seq<seq<byte>>): seq<byte> {
    if parts == [] then [] else Joined(parts[..|parts| - 1]) + parts[|parts| - 1]
  }

  lemma {:induction false} JoinedHasNoNewline(parts: seq<seq<byte>>)
    requires forall i :: 0 <= i < |parts| ==> NEWLINE !in parts[i]
    ensures NEWLINE !in Joined(parts)
    ensures parts != [] && parts[0] != [] ==> Joined(parts) != []
  {
    if |parts| == 1 {
      assert Joined(parts) == [] + parts[0];
    } else if parts != [] {
      JoinedHasNoNewline(parts[..|parts| - 1]);
    }
  }

  lemma TextOfParts(parts: seq<seq<byte>>)
    requires forall i :: 0 <= i < |parts| ==> NEWLINE !in parts[i]
    requires parts != [] && parts[0] != []
    ensures IsText(Text(parts)) && Text(parts)[..|Text(parts)| - 1] == Joined(parts)
  {
    hide Joined;
    JoinedHasNoNewline(parts);
  }

  // ----------------------------------------------------------- the handheld ---

  /** The hello's parts; a token is left out if there is none. */
  function HelloParts(session: seq<byte>, after: nat, token: seq<byte>): seq<seq<byte>> {
    [Ascii("{\"protocolVersion\":"), Decimal(PROTOCOL_VERSION), Ascii(",\"type\":\"connection.hello\","), Ascii("\"sessionId\":\""),
     session, Ascii("\",\"after\":"), Decimal(after)]
    + (if token == [] then [] else [Ascii(",\"deviceToken\":\""), token, [QUOTE]])
    + [Ascii("}")]
  }

  function TextCommandParts(commandId: seq<byte>, escaped: seq<byte>): seq<seq<byte>> {
    [Ascii("{\"protocolVersion\":"), Decimal(PROTOCOL_VERSION), Ascii(",\"type\":\"command\",\"commandId\":\""), commandId,
     Ascii("\",\"command\":{\"type\":"), Ascii("\"capture.text\",\"text\":\""), escaped, Ascii("\"}}")]
  }

  function PingParts(nonce: nat): seq<seq<byte>> {
    [Ascii("{\"protocolVersion\":"), Decimal(PROTOCOL_VERSION), Ascii(",\"type\":\"ping\",\"nonce\":"), Decimal(nonce), Ascii("}")]
  }

  lemma HelloIsText(session: seq<byte>, after: nat, token: seq<byte>)
    requires NEWLINE !in session && NEWLINE !in token
    ensures var parts := HelloParts(session, after, token);
      IsText(Text(parts)) && Text(parts)[..|Text(parts)| - 1] == Joined(parts)
  {
    hide Text, Joined, IsText, Ascii, Decimal;
    LiteralsHaveNoNewline();
    DecimalHasNoNewline(PROTOCOL_VERSION);
    DecimalHasNoNewline(after);
    TextOfParts(HelloParts(session, after, token));
  }

  lemma TextCommandIsText(commandId: seq<byte>, escaped: seq<byte>)
    requires NEWLINE !in commandId && NEWLINE !in escaped
    ensures IsText(Text(TextCommandParts(commandId, escaped)))
  {
    hide Text, Joined, IsText, Ascii, Decimal;
    LiteralsHaveNoNewline();
    DecimalHasNoNewline(PROTOCOL_VERSION);
    TextOfParts(TextCommandParts(commandId, escaped));
  }

  lemma PingIsText(nonce: nat)
    ensures IsText(Text(PingParts(nonce)))
  {
    hide Text, Joined, IsText, Ascii, Decimal;
    LiteralsHaveNoNewline();
    DecimalHasNoNewline(PROTOCOL_VERSION);
    DecimalHasNoNewline(nonce);
    TextOfParts(PingParts(nonce));
  }

  lemma LiteralsHaveNoNewline()
    ensures NEWLINE !in Ascii("{\"protocolVersion\":")
    ensures NEWLINE !in Ascii(",\"type\":\"connection.hello\",") && NEWLINE !in Ascii("\"sessionId\":\"")
    ensures NEWLINE !in Ascii("\",\"after\":")
    ensures NEWLINE !in Ascii(",\"deviceToken\":\"") && NEWLINE !in Ascii("}")
    ensures NEWLINE !in Ascii(",\"type\":\"command\",\"commandId\":\"")
    ensures NEWLINE !in Ascii("\",\"command\":{\"type\":") && NEWLINE !in Ascii("\"capture.text\",\"text\":\"") && NEWLINE !in Ascii("\"}}")
    ensures NEWLINE !in Ascii(",\"type\":\"ping\",\"nonce\":")
  {
  }

  /** The output and command buffers of the push link. */
  class LinkOutput {
    var output: seq<byte>
    /** The pending command's text; none if it is empty. */
    var command: seq<byte>
    /** The line of every frame that has been put into the output buffer. */
    ghost var frames: seq<Line>

    ghost predicate Valid()
      reads this
    {
      AreFrames(frames, PUSH_FRAME_CAPACITY - 1) && (command != [] ==> IsText(command) && |command| <= PUSH_FRAME_CAPACITY)
    }

    constructor ()
      ensures Valid() && frames == [] && command == [] && output == []
    {
      output, command, frames := [], [], [];
    }

    /** push_set_output: refused if the text is empty or over 4 KiB. */
    method SetOutput(text: seq<byte>) returns (ok: bool)
      requires Valid() && (text != [] ==> IsText(text))
      modifies this`output, this`frames
      ensures Valid() && (ok <==> 0 < |text| <= PUSH_FRAME_CAPACITY)
      ensures output == (if ok then text else old(output))
      ensures frames == if ok then old(frames) + [text[..|text| - 1]] else old(frames)
    {
      ok := 0 < |text| <= PUSH_FRAME_CAPACITY;
      if ok {
        output := text;
        frames := frames + [text[..|text| - 1]];
      }
    }

    /** push_build_hello: snprintf must have had room for the whole text. */
    method BuildHello(session: seq<byte>, after: nat, token: seq<byte>) returns (ok: bool)
      requires Valid() && NEWLINE !in session && NEWLINE !in token
      modifies this`output, this`frames
      ensures Valid() && (ok <==> |Text(HelloParts(session, after, token))| < PUSH_FRAME_CAPACITY + 1)
      ensures output == (if ok then Text(HelloParts(session, after, token)) else old(output))
      ensures frames == if ok then old(frames) + [Joined(HelloParts(session, after, token))] else old(frames)
    {
      hide Text, Joined, HelloParts;
      var text := Text(HelloParts(session, after, token));
      HelloIsText(session, after, token);
      if |text| >= PUSH_FRAME_CAPACITY + 1 {
        return false;
      }
      output := text;
      frames := frames + [text[..|text| - 1]];
      ok := true;
    }

    /** push_queue_command, on a link that is not stopped. */
    method QueueCommand(json: seq<byte>) returns (ok: bool)
      requires Valid() && (json != [] ==> IsText(json))
      modifies this`command
      ensures Valid() && (ok <==> old(command) == [] && 0 < |json| <= PUSH_FRAME_CAPACITY)
      ensures command == if ok then json else old(command)
    {
      ok := command == [] && 0 < |json| <= PUSH_FRAME_CAPACITY;
      if ok {
        command := json;
      }
    }

    /** network_push_send_text: any text at all, as long as its escaped form fits in a frame. */
    method SendText(text: seq<byte>, commandId: seq<byte>) returns (ok: bool)
      requires Valid() && NEWLINE !in commandId
      modifies this`command
      ensures Valid()
      ensures var frame := Text(TextCommandParts(commandId, Escape(text)));
        && (ok <==> old(command) == [] && |Escape(text)| < PUSH_FRAME_CAPACITY && |frame| <= PUSH_FRAME_CAPACITY)
        && command == if ok then frame else old(command)
    {
      hide Text, TextCommandParts, Escape;
      var escaped := PushJsonEscape(text, PUSH_FRAME_CAPACITY);
      if escaped.None? {
        return false;
      }
      EscapeHasNoNewline(text);
      TextCommandIsText(commandId, escaped.value);
      var frame := Text(TextCommandParts(commandId, escaped.value));
      if |frame| >= PUSH_FRAME_CAPACITY + 1 {
        return false;
      }
      ok := QueueCommand(frame);
    }

    /** The pending command becomes the output. */
    method OfferCommand() returns (ok: bool)
      requires Valid() && command != []
      modifies this`output, this`frames
      ensures Valid() && ok && output == command && frames == old(frames) + [command[..|command| - 1]]
    {
      ok := SetOutput(command);
    }

    /** The output is a ping. */
    method OfferPing(nonce: nat) returns (ok: bool)
      requires Valid()
      modifies this`output, this`frames
      ensures Valid() && (ok <==> |Text(PingParts(nonce))| < 128)
      ensures ok ==> output == Text(PingParts(nonce))
      ensures !ok ==> output == old(output) && frames == old(frames)
    {
      hide Text, PingParts;
      PingIsText(nonce);
      var ping := Text(PingParts(nonce));
      if |ping| >= 128 {
        return false;
      }
      ok := SetOutput(ping);
    }

    /** Whatever has been sent, wherever it was cut: whole frames, within the bridge's limits. */
    lemma StreamFitsTheBridge(cut: nat)
      requires Valid() && cut <= |Wire(frames)|
      ensures AllFit(Wire(frames)[..cut], MAX_PUSH_FRAME_BYTES) && Lines(Wire(frames)[..cut]) <= frames
      ensures |Rest(Wire(frames)[..cut])| < MAX_PUSH_FRAME_BYTES
    {
      hide AllFit, Lines, Rest, Wire, AreFrames;
      HandheldFramesFitTheBridge(frames, cut);
    }
  }

  // ------------------------------------------------------------- the bridge ---

  datatype SendError = FrameTooLarge

  /** The writing end of a push connection's socket. */
  class FrameWriter {
    var written: seq<byte>
    ghost var frames: seq<Line>

    ghost predicate Valid()
      reads this
    {
      written == Wire(frames) && AreFrames(frames, MAX_PUSH_FRAME_BYTES - 1)
    }

    constructor ()
      ensures Valid() && written == [] && frames == []
    {
      written, frames := [], [];
    }

    /** The size check of #send; json is a frame's JSON text, which stands on one line. */
    method Send(json: seq<byte>) returns (result: Result<(), SendError>)
      requires Valid() && json != [] && NEWLINE !in json
      modifies this
      ensures Valid()
      ensures result == if |json| + 1 > MAX_PUSH_FRAME_BYTES then Err(FrameTooLarge) else Ok(())
      ensures frames == (if result.Ok? then old(frames) + [json] else old(frames))
      ensures written == if result.Ok? then old(written) + json + [NEWLINE] else old(written)
    {
      var line := json + [NEWLINE];
      if |line| > MAX_PUSH_FRAME_BYTES {
        return Err(FrameTooLarge);
      }
      WireAppend(frames, [json]);
      assert [json][1..] == [] && Wire([json]) == line;
      written := written + line;
      frames := frames + [json];
      result := Ok(());
    }

    /** Whatever has been written, wherever it was cut: whole frames, and less than the handheld's buffer left over. */
    lemma StreamFitsTheHandheld(cut: nat)
      requires Valid() && cut <= |written|
      ensures Lines(written[..cut]) <= frames && |Rest(written[..cut])| < PUSH_FRAME_CAPACITY
    {
      hide Lines, Rest, Wire, AreFrames;
      BridgeFramesFitTheHandheld(frames, cut);
    }
  }
}

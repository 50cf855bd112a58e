/**
 JSON as text: how the handheld escapes what it sends, how it reads a string back, and where its
 search for a member by name can end up.
 */
module JsonText {
  import opened Framing
  import opened Hexadecimal
  import opened Options

  const QUOTE: byte := 34
  const BACKSLASH: byte := 92
  const SLASH: byte := 47
  const COLON: byte := 58
  const COMMA: byte := 44
  const QUESTION: byte := 63

  // ---------------------------------------------------------------- escaping ---

  /** The letter of a control character's short escape. */
  function ShortEscape(c: byte): Option<byte> {
    if c == 8 then Some(98)
    else if c == 12 then Some(102)
    else if c == 10 then Some(110)
    else if c == 13 then Some(114)
    else if c == 9 then Some(116)
    else None
  }

  function EscapeByte(c: byte): (e: seq<byte>)
    ensures 1 <= |e| <= 6
  {
    if c == QUOTE || c == BACKSLASH then [BACKSLASH, c]
    else if ShortEscape(c).Some? then [BACKSLASH, ShortEscape(c).value]
    else if c < 32 then [BACKSLASH, 117, 48, 48, Digit(c as nat / 16), Digit(c as nat % 16)]
    else [c]
  }

  function Escape(s: seq<byte>): (e: seq<byte>) {
    if s == [] then [] else Escape(s[..|s| - 1]) + EscapeByte(s[|s| - 1])
  }

  lemma EscapePush(s: seq<byte>, c: byte)
    ensures Escape(s + [c]) == Escape(s) + EscapeByte(c)
  {
    assert (s + [c])[..|s|] == s;
  }

  lemma {:induction false} EscapeGrows(s: seq<byte>, n: nat)
    requires n <= |s|
    ensures |Escape(s[..n])| <= |Escape(s)|
    decreases |s| - n
  {
    if n < |s| {
      assert s[..n + 1] == s[..n] + [s[n]];
      EscapePush(s[..n], s[n]);
      EscapeGrows(s, n + 1);
    } else {
      assert s[..n] == s;
    }
  }

  /** Escaped text stands on one line. */
  lemma {:induction false} EscapeHasNoNewline(s: seq<byte>)
    ensures NEWLINE !in Escape(s)
  {
    if s != [] {
      EscapeHasNoNewline(s[..|s| - 1]);
      EscapedByteHasNoNewline(s[|s| - 1]);
    }
  }

  lemma EscapedByteHasNoNewline(c: byte)
    ensures NEWLINE !in EscapeByte(c)
  {
  }

  /** push_json_escape: it succeeds exactly when the escaped text and its terminator fit. */
  method PushJsonEscape(source: seq<byte>, capacity: nat) returns (result: Option<seq<byte>>)
    ensures result == if |Escape(source)| < capacity then Some(Escape(source)) else None
  {
    if capacity == 0 {
      return None;
    }
    var destination: seq<byte> := [];
    for cursor := 0 to |source|
      invariant destination == Escape(source[..cursor]) && |destination| < capacity
    {
      assert source[..cursor + 1] == source[..cursor] + [source[cursor]];
      EscapePush(source[..cursor], source[cursor]);
      EscapeGrows(source, cursor + 1);
      var escape := EscapeByte(source[cursor]);
      if |destination| + |escape| >= capacity {
        return None;
      }
      destination := destination + escape;
    }
    assert source[..|source|] == source;
    result := Some(destination);
  }

  // ---------------------------------------------------------------- decoding ---

  function HexByte(high: byte, low: byte): Option<nat> {
    if DigitValue(high).Some? && DigitValue(low).Some? then Some(16 * DigitValue(high).value + DigitValue(low).value) else None
  }

  /** The character that a letter after a backslash stands for, by section 7 of RFC 8259. */
  function Unescape(letter: byte): Option<byte> {
    if letter == QUOTE || letter == BACKSLASH || letter == SLASH then Some(letter)
    else if letter == 98 then Some(8)
    else if letter == 102 then Some(12)
    else if letter == 110 then Some(10)
    else if letter == 114 then Some(13)
    else if letter == 116 then Some(9)
    else None
  }

  /**
   The content of a string by section 7 of RFC 8259, which lets no control character and no quote
   stand unescaped; of the hexadecimal escapes, those of ASCII characters.
   */
  function Decode(s: seq<byte>): Option<seq<byte>>
    decreases |s|
  {
    if s == [] then Some([])
    else if s[0] != BACKSLASH then
      if s[0] == QUOTE || s[0] < 32 then None else Prepend(s[0], Decode(s[1..]))
    else if |s| < 2 then None
    else if Unescape(s[1]).Some? then Prepend(Unescape(s[1]).value, Decode(s[2..]))
    else if s[1] == 117 && |s| >= 6 && s[2] == 48 && s[3] == 48 && HexByte(s[4], s[5]).Some? && HexByte(s[4], s[5]).value < 128 then
      Prepend(HexByte(s[4], s[5]).value as byte, Decode(s[6..]))
    else None
  }

  function Prepend(c: byte, rest: Option<seq<byte>>): Option<seq<byte>> {
    if rest.None? then None else Some([c] + rest.value)
  }

  lemma DecodeEscapedByte(c: byte, rest: seq<byte>)
    ensures Decode(EscapeByte(c) + rest) == Prepend(c, Decode(rest))
  {
    var e := EscapeByte(c);
    assert (e + rest)[|e|..] == rest;
    if |e| == 6 {
      HexSurvives(c);
    }
  }

  lemma HexSurvives(c: byte)
    requires c < 32
    ensures HexByte(Digit(c as nat / 16), Digit(c as nat % 16)) == Some(c as nat)
  {
  }

  lemma {:induction false} EscapeHead(s: seq<byte>)
    requires s != []
    ensures Escape(s) == EscapeByte(s[0]) + Escape(s[1..])
    decreases |s|
  {
    hide EscapeByte;
    if |s| == 1 {
      assert Escape(s) == [] + EscapeByte(s[0]) && s[1..] == [];
    } else {
      var front, middle, last := s[..|s| - 1], s[1..|s| - 1], s[|s| - 1];
      EscapeHead(front);
      EscapePush(front, last);
      EscapePush(middle, last);
      hide Escape;
      assert front[1..] == middle && s == front + [last] && s[1..] == middle + [last];
      assert EscapeByte(s[0]) + Escape(middle) + EscapeByte(last) == EscapeByte(s[0]) + (Escape(middle) + EscapeByte(last));
    }
  }

  /** Escaping loses nothing: the standard's reading of the escaped text is the text. */
  lemma {:induction false} EscapeIsDecoded(s: seq<byte>)
    ensures Decode(Escape(s)) == Some(s)
    decreases |s|
  {
    if s != [] {
      EscapeHead(s);
      DecodeEscapedByte(s[0], Escape(s[1..]));
      EscapeIsDecoded(s[1..]);
      assert [s[0]] + s[1..] == s;
    }
  }

  // ---------------------------------------------------------- reading strings ---

  /** What json_read_string makes of the text after an opening quote: the characters, and what is left from the end on. */
  datatype Reading = Reading(value: seq<byte>, rest: seq<byte>)

  function ReadBody(s: seq<byte>): Option<Reading>
    decreases |s|
  {
    if s == [] then None
    else if s[0] == QUOTE then Some(Reading([], s))
    else if s[0] != BACKSLASH then ReadOn(s[0], ReadBody(s[1..]))
    else if |s| < 2 then None
    else if Unescape(s[1]).Some? then ReadOn(Unescape(s[1]).value, ReadBody(s[2..]))
    else if s[1] == 117 then ReadOn(QUESTION, ReadBody(if |s| < 6 then [] else s[6..]))
    else None
  }

  function ReadOn(c: byte, rest: Option<Reading>): Option<Reading> {
    if rest.None? then None else Some(Reading([c] + rest.value.value, rest.value.rest))
  }

  function Cut(value: seq<byte>, capacity: nat): seq<byte>
    requires capacity > 0
  {
    if |value| < capacity then value else value[..capacity - 1]
  }

  /** json_read_string, from the value on. */
  method ReadString(encoded: seq<byte>, capacity: nat) returns (result: Option<seq<byte>>)
    ensures result == if encoded == [] || encoded[0] != QUOTE || capacity == 0 || ReadBody(encoded[1..]).None? then None
                      else Some(Cut(ReadBody(encoded[1..]).value.value, capacity))
  {
    if encoded == [] || encoded[0] != QUOTE || capacity == 0 {
      return None;
    }
    var text := encoded[1..];
    var value: seq<byte> := [];
    ghost var all: seq<byte> := [];
    ReadAfterNothing(ReadBody(text));
    while text != [] && text[0] != QUOTE
      invariant value == Cut(all, capacity)
      invariant ReadBody(encoded[1..]) == ReadAfter(all, ReadBody(text))
      decreases |text|
    {
      var decoded := text[0];
      ghost var before := text;
      text := text[1..];
      if decoded == BACKSLASH {
        if text == [] {
          return None;
        }
        var letter := text[0];
        text := text[1..];
        if letter == 117 {
          decoded := QUESTION;
          text := if |text| < 4 then [] else text[4..];
        } else if Unescape(letter).Some? {
          decoded := Unescape(letter).value;
        } else {
          return None;
        }
      }
      ReadStep(before, decoded, text);
      ReadAfterPush(all, decoded, ReadBody(text));
      if |value| + 1 < capacity {
        value := value + [decoded];
      }
      all := all + [decoded];
    }
    if text == [] {
      return None;
    }
    assert all + [] == all;
    result := Some(value);
  }

  ghost function ReadAfter(before: seq<byte>, rest: Option<Reading>): Option<Reading> {
    if rest.None? then None else Some(Reading(before + rest.value.value, rest.value.rest))
  }

  lemma ReadAfterNothing(rest: Option<Reading>)
    ensures ReadAfter([], rest) == rest
  {
    assert rest.Some? ==> [] + rest.value.value == rest.value.value;
  }

  lemma ReadAfterPush(before: seq<byte>, c: byte, rest: Option<Reading>)
    ensures ReadAfter(before, ReadOn(c, rest)) == ReadAfter(before + [c], rest)
  {
    if rest.Some? {
      assert before + ([c] + rest.value.value) == before + [c] + rest.value.value;
    }
  }

  lemma ReadStep(s: seq<byte>, c: byte, rest: seq<byte>)
    requires s != [] && s[0] != QUOTE
    requires if s[0] != BACKSLASH then c == s[0] && rest == s[1..]
             else |s| >= 2 && if s[1] == 117 then c == QUESTION && rest == (if |s| < 6 then [] else s[6..])
                              else Unescape(s[1]) == Some(c) && rest == s[2..]
    ensures ReadBody(s) == ReadOn(c, ReadBody(rest))
  {
  }

  /** A control character without a short escape reads back as a question mark. */
  function Shown(c: byte): byte {
    if c < 32 && ShortEscape(c).None? then QUESTION else c
  }

  function ShownAll(s: seq<byte>): (shown: seq<byte>)
    ensures |shown| == |s|
  {
    seq(|s|, i requires 0 <= i < |s| => Shown(s[i]))
  }

  lemma ReadEscapedByte(c: byte, rest: seq<byte>)
    ensures ReadBody(EscapeByte(c) + rest) == ReadOn(Shown(c), ReadBody(rest))
  {
    var e := EscapeByte(c);
    assert (e + rest)[|e|..] == rest;
    ReadStep(e + rest, Shown(c), rest);
  }

  lemma ReadAtQuote(rest: seq<byte>)
    ensures ReadBody(Escape([]) + [QUOTE] + rest) == Some(Reading(ShownAll([]), [QUOTE] + rest))
  {
    assert Escape([]) + [QUOTE] + rest == [QUOTE] + rest;
  }

  /** Reading escaped text: every character comes back, but for control characters that have no short escape. */
  lemma {:induction false} EscapeIsRead(s: seq<byte>, rest: seq<byte>)
    ensures ReadBody(Escape(s) + [QUOTE] + rest) == Some(Reading(ShownAll(s), [QUOTE] + rest))
    decreases |s|
  {
    hide EscapeByte, Escape, ReadBody, Shown;
    if s == [] {
      ReadAtQuote(rest);
    } else {
      EscapeHead(s);
      EscapeIsRead(s[1..], rest);
      var tail := Escape(s[1..]) + [QUOTE] + rest;
      assert Escape(s) + [QUOTE] + rest == EscapeByte(s[0]) + tail;
      ReadEscapedByte(s[0], tail);
      assert ShownAll(s) == [Shown(s[0])] + ShownAll(s[1..]);
    }
  }

  /** So a text is read back unchanged exactly when its control characters all have short escapes and it fits. */
  lemma ReadBackUnchanged(s: seq<byte>, rest: seq<byte>, capacity: nat)
    requires capacity > 0
    ensures ReadBody(Escape(s) + [QUOTE] + rest).Some?
    ensures (Cut(ReadBody(Escape(s) + [QUOTE] + rest).value.value, capacity) == s
             <==> |s| < capacity && forall i :: 0 <= i < |s| && s[i] < 32 ==> ShortEscape(s[i]).Some?)
  {
    EscapeIsRead(s, rest);
    var shown := ShownAll(s);
    assert forall i :: 0 <= i < |s| ==> shown[i] == Shown(s[i]);
  }

  // ------------------------------------------------------- any well-formed string ---

  /** The short escapes of RFC 8259, letter by letter. */
  lemma ShortEscapesAre(letter: byte)
    ensures Unescape('"' as byte) == Some('"' as byte) && Unescape('\\' as byte) == Some('\\' as byte)
    ensures Unescape('/' as byte) == Some('/' as byte)
    ensures Unescape('b' as byte) == Some(0x08) && Unescape('f' as byte) == Some(0x0c) && Unescape('n' as byte) == Some(0x0a)
    ensures Unescape('r' as byte) == Some(0x0d) && Unescape('t' as byte) == Some(0x09)
    ensures Unescape(letter).Some? ==> letter as char in "\"\\/bfnrt"
  {
    assert "\"\\/bfnrt"[0] == 34 as char && "\"\\/bfnrt"[1] == 92 as char && "\"\\/bfnrt"[2] == 47 as char;
    assert "\"\\/bfnrt"[3] == 98 as char && "\"\\/bfnrt"[4] == 102 as char && "\"\\/bfnrt"[5] == 110 as char;
    assert "\"\\/bfnrt"[6] == 114 as char && "\"\\/bfnrt"[7] == 116 as char;
  }

  /** No hexadecimal escape occurs in it. */
  predicate HasNoHex(s: seq<byte>)
    decreases |s|
  {
    s == [] || (if s[0] != BACKSLASH || |s| < 2 then HasNoHex(s[1..]) else s[1] != 117 && HasNoHex(s[2..]))
  }

  /** json_read_string reads every well-formed string without hexadecimal escapes as the standard says, whoever escaped it. */
  lemma {:induction false} StandardIsRead(s: seq<byte>, rest: seq<byte>)
    requires Decode(s).Some? && HasNoHex(s)
    ensures ReadBody(s + [QUOTE] + rest) == Some(Reading(Decode(s).value, [QUOTE] + rest))
    decreases |s|
  {
    hide Unescape, ReadBody;
    if s == [] {
      ReadAtQuote(rest);
    } else {
      var n := if s[0] == BACKSLASH then 2 else 1;
      StandardIsRead(s[n..], rest);
      var tail := s[n..] + [QUOTE] + rest;
      assert s + [QUOTE] + rest == s[..n] + tail;
      assert (s[..n] + tail)[n..] == tail;
      ReadStep(s[..n] + tail, if s[0] == BACKSLASH then Unescape(s[1]).value else s[0], tail);
    }
  }
}

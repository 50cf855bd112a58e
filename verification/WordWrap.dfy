/** Word wrap of the response text, over UTF-8 bytes and per-glyph advances, and the scrolled window on its lines. */
module WordWrap {
  import opened Framing
  import opened Options

  const SPACE: byte := 32
  const UI_WRAP_MAX_LINES: nat := 192

  datatype Glyph = Glyph(codepoint: nat, size: nat)

  predicate IsContinuation(text: seq<byte>, i: nat) {
    i < |text| && 0x80 <= text[i] < 0xC0
  }

  /** The glyph that starts at a byte, if a well-formed one does. */
  function Decode(text: seq<byte>, i: nat): (glyph: Option<Glyph>)
    ensures glyph.Some? ==> 1 <= glyph.value.size && i + glyph.value.size <= |text|
    ensures glyph.Some? && text[i] < 0x80 ==> glyph.value == Glyph(text[i] as nat, 1)
    ensures glyph.Some? ==> forall j :: i < j < i + glyph.value.size ==> IsContinuation(text, j)
    ensures glyph.Some? && glyph.value.codepoint == SPACE as nat ==> text[i] == SPACE && glyph.value.size == 1
  {
    if i >= |text| then None
    else
      var b := text[i] as nat;
      if b < 0x80 then Some(Glyph(b, 1))
      else if 0xC2 <= b < 0xE0 && IsContinuation(text, i + 1) then
        Some(Glyph((b - 0xC0) * 64 + Low(text[i + 1]), 2))
      else if 0xE0 <= b < 0xF0 && IsContinuation(text, i + 1) && IsContinuation(text, i + 2) then
        var code := ((b - 0xE0) * 64 + Low(text[i + 1])) * 64 + Low(text[i + 2]);
        if code < 0x800 then None else Some(Glyph(code, 3))
      else if 0xF0 <= b < 0xF5 && IsContinuation(text, i + 1) && IsContinuation(text, i + 2) && IsContinuation(text, i + 3) then
        var code := (((b - 0xF0) * 64 + Low(text[i + 1])) * 64 + Low(text[i + 2])) * 64 + Low(text[i + 3]);
        if code < 0x10000 then None else Some(Glyph(code, 4))
      else None
  }

  function Low(b: byte): (low: nat)
    requires 0x80 <= b < 0xC0
    ensures low < 64
  {
    b as nat - 0x80
  }

  /** The encoding of a codepoint by section 3 of RFC 3629. */
  function Utf8(codepoint: nat): (bytes: seq<byte>)
    requires codepoint < 0x11_0000
    ensures 1 <= |bytes| <= 4
  {
    if codepoint < 0x80 then [codepoint as byte]
    else if codepoint < 0x800 then [(0xC0 + codepoint / 0x40) as byte, (0x80 + codepoint % 0x40) as byte]
    else if codepoint < 0x1_0000 then
      [(0xE0 + codepoint / 0x1000) as byte, (0x80 + codepoint / 0x40 % 0x40) as byte, (0x80 + codepoint % 0x40) as byte]
    else
      [(0xF0 + codepoint / 0x4_0000) as byte, (0x80 + codepoint / 0x1000 % 0x40) as byte,
       (0x80 + codepoint / 0x40 % 0x40) as byte, (0x80 + codepoint % 0x40) as byte]
  }

  lemma InSixes(c: nat)
    ensures c == (c / 0x40) * 64 + c % 0x40 && c / 0x40 / 0x40 == c / 0x1000 && c / 0x1000 / 0x40 == c / 0x4_0000
    ensures c / 0x40 == (c / 0x1000) * 64 + c / 0x40 % 0x40 && c / 0x1000 == (c / 0x4_0000) * 64 + c / 0x1000 % 0x40
  {
  }

  /** Whatever stands around it, an encoded codepoint is decoded to itself and takes the bytes of its encoding. */
  lemma EncodedIsDecoded(before: seq<byte>, codepoint: nat, behind: seq<byte>)
    requires codepoint < 0x11_0000
    ensures Decode(before + Utf8(codepoint) + behind, |before|) == Some(Glyph(codepoint, |Utf8(codepoint)|))
  {
    InSixes(codepoint);
    var text, code := before + Utf8(codepoint) + behind, Utf8(codepoint);
    assert forall j :: 0 <= j < |code| ==> text[|before| + j] == code[j];
  }

  /** And nothing else is decoded: a glyph in the Unicode range stands in the text as its codepoint's encoding. */
  lemma DecodedIsEncoded(text: seq<byte>, i: nat)
    requires Decode(text, i).Some? && Decode(text, i).value.codepoint < 0x11_0000
    ensures var glyph := Decode(text, i).value;
      text[i..i + glyph.size] == Utf8(glyph.codepoint)
  {
    var glyph := Decode(text, i).value;
    InSixes(glyph.codepoint);
    var code := Utf8(glyph.codepoint);
    if glyph.size == 2 {
      assert text[i] as nat - 0xC0 == glyph.codepoint / 0x40;
    } else if glyph.size == 3 {
      Digits3(text[i] as nat - 0xE0, Low(text[i + 1]), Low(text[i + 2]));
    } else if glyph.size == 4 {
      Digits4(text[i] as nat - 0xF0, Low(text[i + 1]), Low(text[i + 2]), Low(text[i + 3]));
    }
  }

  lemma Digits3(a: nat, b: nat, c: nat)
    requires b < 64 && c < 64
    ensures var n := (a * 64 + b) * 64 + c; n / 0x1000 == a && n / 0x40 % 0x40 == b && n % 0x40 == c
  {
  }

  lemma Digits4(a: nat, b: nat, c: nat, d: nat)
    requires b < 64 && c < 64 && d < 64
    ensures var n := ((a * 64 + b) * 64 + c) * 64 + d;
      n / 0x4_0000 == a && n / 0x1000 % 0x40 == b && n / 0x40 % 0x40 == c && n % 0x40 == d
  {
    var n, m := ((a * 64 + b) * 64 + c) * 64 + d, (a * 64 + b) * 64 + c;
    LastSix(m, d);
    LastSix(a * 64 + b, c);
    LastSix(a, b);
    InSixes(n);
  }

  lemma LastSix(q: nat, r: nat)
    requires r < 64
    ensures (q * 64 + r) / 0x40 == q && (q * 64 + r) % 0x40 == r
  {
  }

  /** Whole glyphs fill the text from a to b. */
  ghost predicate Glyphs(text: seq<byte>, a: nat, b: nat)
    decreases b - a
  {
    a == b || (a < b && Decode(text, a).Some? && a + Decode(text, a).value.size <= b && Glyphs(text, a + Decode(text, a).value.size, b))
  }

  ghost predicate WellFormed(text: seq<byte>) {
    Glyphs(text, 0, |text|)
  }

  /** How wide the glyphs from a to b are drawn. */
  ghost function Width(text: seq<byte>, a: nat, b: nat, advance: nat -> nat): nat
    requires Glyphs(text, a, b)
    decreases b - a
  {
    if a == b then 0
    else advance(Decode(text, a).value.codepoint) + Width(text, a + Decode(text, a).value.size, b, advance)
  }

  ghost predicate OneGlyph(text: seq<byte>, a: nat, b: nat) {
    Decode(text, a).Some? && b == a + Decode(text, a).value.size
  }

  ghost predicate IsBlank(text: seq<byte>, a: nat, b: nat) {
    forall i :: a <= i < b && i < |text| ==> text[i] == SPACE || text[i] == NEWLINE
  }

  ghost predicate NoNewline(text: seq<byte>, a: nat, b: nat) {
    forall i :: a <= i < b && i < |text| ==> text[i] != NEWLINE
  }

  // ------------------------------------------------------------ glyph runs ---

  lemma {:induction false} GlyphsJoin(text: seq<byte>, a: nat, m: nat, b: nat, advance: nat -> nat)
    requires Glyphs(text, a, m) && Glyphs(text, m, b) && a <= m <= b
    ensures Glyphs(text, a, b) && Width(text, a, b, advance) == Width(text, a, m, advance) + Width(text, m, b, advance)
    decreases m - a
  {
    if a < m {
      GlyphsJoin(text, a + Decode(text, a).value.size, m, b, advance);
    }
  }

  lemma OneGlyphRun(text: seq<byte>, a: nat, advance: nat -> nat)
    requires Decode(text, a).Some?
    ensures var b := a + Decode(text, a).value.size;
      Glyphs(text, a, b) && Width(text, a, b, advance) == advance(Decode(text, a).value.codepoint)
  {
  }

  /** Two runs from the same byte agree: the longer one goes on where the shorter one ends. */
  lemma {:induction false} GlyphsSplit(text: seq<byte>, a: nat, m: nat, b: nat)
    requires Glyphs(text, a, m) && Glyphs(text, a, b) && m <= b
    ensures Glyphs(text, m, b)
    decreases m - a
  {
    if a < m {
      GlyphsSplit(text, a + Decode(text, a).value.size, m, b);
    }
  }

  /** A space at the end of a run is a glyph of its own. */
  lemma {:induction false} GlyphsTrim(text: seq<byte>, a: nat, b: nat)
    requires Glyphs(text, a, b) && a < b <= |text| && text[b - 1] == SPACE
    ensures Glyphs(text, a, b - 1)
    decreases b - a
  {
    var size := Decode(text, a).value.size;
    if a + size < b {
      GlyphsTrim(text, a + size, b);
    } else {
      assert size > 1 ==> IsContinuation(text, b - 1);
    }
  }

  // ------------------------------------------------------------- one line ---

  /** How the scan of a line ended. */
  datatype Scan = Scan(end: nat, wordBreak: Option<nat>, newline: bool)

  /** The glyphs from start to end fit, or are a single one. */
  ghost predicate Fits(text: seq<byte>, start: nat, end: nat, width: nat, advance: nat -> nat) {
    Glyphs(text, start, end) && (Width(text, start, end, advance) <= width || OneGlyph(text, start, end))
  }

  /** The glyph at end would not fit any more. */
  ghost predicate NextOverflows(text: seq<byte>, start: nat, end: nat, width: nat, advance: nat -> nat) {
    && Glyphs(text, start, end) && Decode(text, end).Some?
    && Width(text, start, end, advance) + advance(Decode(text, end).value.codepoint) > width
  }

  ghost predicate NoSpace(text: seq<byte>, a: nat, b: nat) {
    forall i :: a <= i < b && i < |text| ==> text[i] != SPACE
  }

  ghost predicate ScanOk(text: seq<byte>, start: nat, scan: Scan, width: nat, advance: nat -> nat) {
    && start <= scan.end <= |text| && Fits(text, start, scan.end, width, advance) && NoNewline(text, start, scan.end)
    && (scan.newline ==> scan.end < |text| && text[scan.end] == NEWLINE)
    && (scan.wordBreak.Some? ==>
         && start < scan.wordBreak.value <= scan.end && text[scan.wordBreak.value - 1] == SPACE
         && Glyphs(text, start, scan.wordBreak.value) && NoSpace(text, scan.wordBreak.value, scan.end))
    && (scan.wordBreak.None? ==> NoSpace(text, start, scan.end))
  }

  /** The inner loop of ui_wrap: as many glyphs as fit on the line, at least one. */
  method ScanLine(text: seq<byte>, start: nat, width: nat, advance: nat -> nat) returns (scan: Scan)
    requires start < |text|
    ensures ScanOk(text, start, scan, width, advance)
    ensures !scan.newline && scan.end < |text| ==>
              Decode(text, scan.end).None? || (scan.end > start && NextOverflows(text, start, scan.end, width, advance))
  {
    var used := 0;
    scan := Scan(start, None, false);
    while scan.end < |text|
      invariant ScanOk(text, start, scan, width, advance) && !scan.newline
      invariant used == Width(text, start, scan.end, advance)
      decreases |text| - scan.end
    {
      if text[scan.end] == NEWLINE {
        return scan.(newline := true);
      }
      var decoded := Decode(text, scan.end);
      if decoded.None? {
        return;
      }
      var glyph := decoded.value;
      var step := advance(glyph.codepoint);
      if used + step > width && scan.end > start {
        return;
      }
      ScanStep(text, start, scan, width, advance);
      used := used + step;
      var end := scan.end + glyph.size;
      scan := Scan(end, if glyph.codepoint == SPACE as nat then Some(end) else scan.wordBreak, false);
    }
  }

  lemma ScanStep(text: seq<byte>, start: nat, scan: Scan, width: nat, advance: nat -> nat)
    requires ScanOk(text, start, scan, width, advance) && !scan.newline
    requires scan.end < |text| && text[scan.end] != NEWLINE && Decode(text, scan.end).Some?
    requires var step := advance(Decode(text, scan.end).value.codepoint);
      Width(text, start, scan.end, advance) + step <= width || scan.end == start
    ensures var glyph := Decode(text, scan.end).value;
      var end := scan.end + glyph.size;
      && ScanOk(text, start, Scan(end, if glyph.codepoint == SPACE as nat then Some(end) else scan.wordBreak, false), width, advance)
      && Width(text, start, end, advance) == Width(text, start, scan.end, advance) + advance(glyph.codepoint)
  {
    hide Glyphs, Width, Decode;
    var glyph := Decode(text, scan.end).value;
    var end := scan.end + glyph.size;
    OneGlyphRun(text, scan.end, advance);
    GlyphsJoin(text, start, scan.end, end, advance);
    forall i | scan.end <= i < end
      ensures text[i] != NEWLINE && (text[i] == SPACE ==> glyph.codepoint == SPACE as nat)
    {
      assert i > scan.end ==> IsContinuation(text, i);
    }
  }

  // ---------------------------------------------------------------- lines ---

  datatype Line = Line(offset: nat, length: nat)

  function End(line: Line): nat {
    line.offset + line.length
  }

  /**
   A line is drawable as it stands: whole glyphs, no newline, no trailing space, and it fits unless
   a single glyph is too wide for any line.
   */
  ghost predicate LineOk(text: seq<byte>, line: Line, width: nat, advance: nat -> nat) {
    && End(line) <= |text| && Fits(text, line.offset, End(line), width, advance) && NoNewline(text, line.offset, End(line))
    && (line.length > 0 ==> text[End(line) - 1] != SPACE)
  }

  /**
   The text goes on below only because it must: at a newline, or because there is no room for one
   more glyph; and then between words if there is a space on the line, so that only a word longer
   than a line is ever cut.
   */
  ghost predicate BrokenForReason(text: seq<byte>, line: Line, next: nat, width: nat, advance: nat -> nat) {
    || (End(line) <= next && next > 0 && next <= |text| && text[next - 1] == NEWLINE)
    || next == |text|
    || exists end :: End(line) <= end && 0 < next <= |text| && NextOverflows(text, line.offset, end, width, advance)
                     && (next <= end ==> NoSpace(text, next, end))
                     && (NoSpace(text, line.offset, end) || text[next - 1] == SPACE)
  }

  /** Lines up to a byte of the text: in order, apart, with only blanks between and after them. */
  ghost predicate LinesOk(text: seq<byte>, lines: seq<Line>, upTo: nat, width: nat, advance: nat -> nat) {
    && (forall i :: 0 <= i < |lines| ==> LineOk(text, lines[i], width, advance))
    && (forall i :: 0 <= i < |lines| ==>
         && End(lines[i]) <= Next(lines, i, upTo) <= |text|
         && IsBlank(text, End(lines[i]), Next(lines, i, upTo))
         && BrokenForReason(text, lines[i], Next(lines, i, upTo), width, advance))
    && (if lines == [] then upTo == 0 else lines[0].offset == 0)
  }

  /** Where the text goes on after a line. */
  function Next(lines: seq<Line>, i: nat, upTo: nat): nat
    requires i < |lines|
  {
    if i + 1 < |lines| then lines[i + 1].offset else upTo
  }

  lemma LinesPush(text: seq<byte>, lines: seq<Line>, upTo: nat, line: Line, next: nat, width: nat, advance: nat -> nat)
    requires LinesOk(text, lines, upTo, width, advance) && LineOk(text, line, width, advance) && line.offset == upTo
    requires End(line) <= next <= |text| && IsBlank(text, End(line), next) && BrokenForReason(text, line, next, width, advance)
    ensures LinesOk(text, lines + [line], next, width, advance)
  {
    hide LineOk, IsBlank, BrokenForReason;
    var longer := lines + [line];
    forall i | 0 <= i < |longer|
      ensures && End(longer[i]) <= Next(longer, i, next) <= |text|
              && IsBlank(text, End(longer[i]), Next(longer, i, next))
              && BrokenForReason(text, longer[i], Next(longer, i, next), width, advance)
    {
      if i < |lines| {
        assert longer[i] == lines[i] && Next(longer, i, next) == Next(lines, i, upTo);
      }
    }
  }

  /** Where the line ends and the text goes on, before trailing spaces are dropped. */
  method EndOfLine(text: seq<byte>, start: nat, scan: Scan) returns (end: nat, next: nat)
    requires start <= scan.end <= |text| && (scan.newline ==> scan.end < |text|)
    requires scan.wordBreak.Some? ==> start < scan.wordBreak.value <= scan.end
    ensures if scan.newline then end == scan.end && next == scan.end + 1
            else if scan.end == |text| || scan.wordBreak.None? then end == next == scan.end
            else end == scan.wordBreak.value <= next <= |text| && (forall i :: end <= i < next ==> text[i] == SPACE)
                 && (next < |text| ==> text[next] != SPACE)
  {
    if scan.newline {
      return scan.end, scan.end + 1;
    }
    if scan.end == |text| || scan.wordBreak.None? {
      return scan.end, scan.end;
    }
    end := scan.wordBreak.value;
    next := end;
    while next < |text| && text[next] == SPACE
      invariant end <= next <= |text| && forall i :: end <= i < next ==> text[i] == SPACE
    {
      next := next + 1;
    }
  }

  /** Drops the spaces at the end of a line. */
  method TrimSpaces(text: seq<byte>, start: nat, end: nat, ghost width: nat, ghost advance: nat -> nat) returns (trimmed: nat)
    requires start <= end <= |text| && Fits(text, start, end, width, advance) && NoNewline(text, start, end)
    ensures start <= trimmed <= end && LineOk(text, Line(start, trimmed - start), width, advance)
    ensures IsBlank(text, trimmed, end)
  {
    trimmed := end;
    while trimmed > start && text[trimmed - 1] == SPACE
      invariant start <= trimmed <= end && Fits(text, start, trimmed, width, advance) && IsBlank(text, trimmed, end)
    {
      FitsTrimmed(text, start, trimmed, width, advance);
      trimmed := trimmed - 1;
    }
  }

  lemma FitsTrimmed(text: seq<byte>, start: nat, end: nat, width: nat, advance: nat -> nat)
    requires start < end <= |text| && Fits(text, start, end, width, advance) && text[end - 1] == SPACE
    ensures Fits(text, start, end - 1, width, advance)
  {
    GlyphsTrim(text, start, end);
    GlyphsSplit(text, start, end - 1, end);
    GlyphsJoin(text, start, end - 1, end, advance);
    if OneGlyph(text, start, end) {
      LongGlyphsEndOtherwise(text, start);
    }
  }

  lemma LongGlyphsEndOtherwise(text: seq<byte>, a: nat)
    requires Decode(text, a).Some?
    ensures Decode(text, a).value.size > 1 ==> text[a + Decode(text, a).value.size - 1] != SPACE
  {
    hide Decode;
    var size := Decode(text, a).value.size;
    if size > 1 {
      assert IsContinuation(text, a + size - 1);
    }
  }

  /** A run shortened to an earlier boundary still fits. */
  lemma FitsShorter(text: seq<byte>, start: nat, m: nat, end: nat, width: nat, advance: nat -> nat)
    requires Fits(text, start, end, width, advance) && Glyphs(text, start, m) && start < m <= end
    ensures Fits(text, start, m, width, advance)
  {
    GlyphsSplit(text, start, m, end);
    GlyphsJoin(text, start, m, end, advance);
  }

  /** One line: where it is and where the text goes on after it. */
  method WrapLine(text: seq<byte>, start: nat, width: nat, advance: nat -> nat) returns (line: Line, next: nat)
    requires start < |text|
    ensures line.offset == start && LineOk(text, line, width, advance) && End(line) <= next <= |text|
    ensures IsBlank(text, End(line), next)
    ensures Glyphs(text, start, |text|) ==>
              start < next && Glyphs(text, next, |text|) && BrokenForReason(text, line, next, width, advance)
  {
    hide Glyphs, Width, Decode, LineOk, Fits;
    var scan := ScanLine(text, start, width, advance);
    var end: nat;
    end, next := EndOfLine(text, start, scan);
    EndFits(text, start, scan, end, width, advance);
    var trimmed := TrimSpaces(text, start, end, width, advance);
    line := Line(start, trimmed - start);
    BlankOnward(text, start, scan, end, next, width, advance);
    assert IsBlank(text, trimmed, next);
    if Glyphs(text, start, |text|) {
      Reaches(text, start, scan, end, next, width, advance);
    }
  }

  lemma EndFits(text: seq<byte>, start: nat, scan: Scan, end: nat, width: nat, advance: nat -> nat)
    requires ScanOk(text, start, scan, width, advance)
    requires end == scan.end || scan.wordBreak == Some(end)
    ensures start <= end <= |text| && Fits(text, start, end, width, advance) && NoNewline(text, start, end)
  {
    if end != scan.end {
      FitsShorter(text, start, end, scan.end, width, advance);
    }
  }

  lemma BlankOnward(text: seq<byte>, start: nat, scan: Scan, end: nat, next: nat, width: nat, advance: nat -> nat)
    requires ScanOk(text, start, scan, width, advance) && end <= next <= |text|
    requires scan.newline ==> end == scan.end && next == end + 1
    requires !scan.newline ==> forall i :: end <= i < next ==> text[i] == SPACE
    ensures IsBlank(text, end, next)
  {
  }

  /** Spaces are glyphs, and so is a newline. */
  lemma {:induction false} BlankIsGlyphs(text: seq<byte>, a: nat, b: nat)
    requires a <= b <= |text| && IsBlank(text, a, b)
    ensures Glyphs(text, a, b)
    decreases b - a
  {
    if a < b {
      BlankIsGlyphs(text, a + 1, b);
    }
  }

  /** In well-formed text, the next line starts further on, again at a glyph. */
  lemma Reaches(text: seq<byte>, start: nat, scan: Scan, end: nat, next: nat, width: nat, advance: nat -> nat)
    requires start < |text| && ScanOk(text, start, scan, width, advance) && Glyphs(text, start, |text|)
    requires !scan.newline && scan.end < |text| ==>
              Decode(text, scan.end).None? || (scan.end > start && NextOverflows(text, start, scan.end, width, advance))
    requires if scan.newline then end == scan.end && next == scan.end + 1
             else if scan.end == |text| || scan.wordBreak.None? then end == next == scan.end
             else end == scan.wordBreak.value <= next <= |text| && (forall i :: end <= i < next ==> text[i] == SPACE)
                  && (next < |text| ==> text[next] != SPACE)
    ensures start < next && Glyphs(text, next, |text|)
    ensures forall line: Line :: line.offset == start && End(line) <= end ==> BrokenForReason(text, line, next, width, advance)
  {
    hide Width, Decode;
    GlyphsSplit(text, start, scan.end, |text|);
    if scan.newline {
      assert Decode(text, scan.end) == Some(Glyph(NEWLINE as nat, 1));
    } else if scan.wordBreak.Some? && scan.end < |text| {
      GlyphsSplit(text, start, end, |text|);
      BlankIsGlyphs(text, end, next);
      GlyphsSplit(text, end, next, |text|);
    }
  }

  lemma NoLines(text: seq<byte>, width: nat, advance: nat -> nat)
    ensures LinesOk(text, [], 0, width, advance)
  {
  }

  /** ui_wrap: every well-formed text that takes less than the maximum number of lines is on them whole. */
  method Wrap(text: seq<byte>, width: nat, advance: nat -> nat) returns (lines: seq<Line>)
    ensures |lines| <= UI_WRAP_MAX_LINES
    ensures forall i :: 0 <= i < |lines| ==> LineOk(text, lines[i], width, advance)
    ensures WellFormed(text) ==> exists upTo :: LinesOk(text, lines, upTo, width, advance)
                                              && (|lines| < UI_WRAP_MAX_LINES ==> upTo == |text|)
  {
    hide Glyphs, LineOk, LinesOk;
    lines := [];
    var cursor: nat := 0;
    NoLines(text, width, advance);
    while |lines| < UI_WRAP_MAX_LINES && cursor < |text|
      invariant |lines| <= UI_WRAP_MAX_LINES && cursor <= |text|
      invariant forall i :: 0 <= i < |lines| ==> LineOk(text, lines[i], width, advance)
      invariant WellFormed(text) ==> Glyphs(text, cursor, |text|) && LinesOk(text, lines, cursor, width, advance)
      decreases UI_WRAP_MAX_LINES - |lines|
    {
      var line, next := WrapLine(text, cursor, width, advance);
      if WellFormed(text) {
        LinesPush(text, lines, cursor, line, next, width, advance);
      }
      lines := lines + [line];
      cursor := next;
    }
    assert WellFormed(text) ==> LinesOk(text, lines, cursor, width, advance);
  }

  // ------------------------------------------------------ the scrolled window ---

  datatype Window = Window(first: nat, last: nat)

  /**
   The lines that ui_response_body shows: inside the list for any scroll value, as many as are
   visible or there are, and the newest ones when not scrolled.
   */
  function Visible(lineCount: nat, visibleLines: nat, scrollLines: nat): (w: Window)
    ensures w.first <= w.last <= lineCount
    ensures w.last - w.first == (if lineCount < visibleLines then lineCount else visibleLines)
    ensures scrollLines == 0 ==> w.last == lineCount
    ensures scrollLines >= MaxScroll(lineCount, visibleLines) ==> w.first == 0
  {
    var latestStart := if lineCount > visibleLines then lineCount - visibleLines else 0;
    var scroll := if scrollLines > latestStart then latestStart else scrollLines;
    var first := latestStart - scroll;
    Window(first, if first + visibleLines > lineCount then lineCount else first + visibleLines)
  }

  /** ui_max_scroll */
  function MaxScroll(lineCount: nat, visibleLines: nat): nat {
    if lineCount <= visibleLines then 0 else lineCount - visibleLines
  }
}

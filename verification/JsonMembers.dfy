/**
 Looking a member up by searching the text for its quoted name and a colon: on the compact JSON that
 the bridge prints, whatever the search finds is a member's name and never part of a string.
 */
module JsonMembers {
  import opened Framing
  import opened Options
  import opened JsonText

  const LEFT_BRACE: byte := 123
  const RIGHT_BRACE: byte := 125
  const LEFT_BRACKET: byte := 91
  const RIGHT_BRACKET: byte := 93

  // --------------------------------------------------------------- searching ---

  predicate OccursAt(text: seq<byte>, pattern: seq<byte>, p: nat) {
    p + |pattern| <= |text| && text[p..p + |pattern|] == pattern
  }

  /** strstr */
  method Search(text: seq<byte>, pattern: seq<byte>) returns (p: Option<nat>)
    ensures p.Some? ==> OccursAt(text, pattern, p.value) && forall q :: 0 <= q < p.value ==> !OccursAt(text, pattern, q)
    ensures p.None? ==> forall q :: 0 <= q <= |text| ==> !OccursAt(text, pattern, q)
  {
    for q := 0 to |text| + 1
      invariant forall r :: 0 <= r < q ==> !OccursAt(text, pattern, r)
    {
      if q + |pattern| <= |text| && text[q..q + |pattern|] == pattern {
        return Some(q);
      }
    }
    return None;
  }

  function NamePattern(key: seq<byte>): seq<byte> {
    [QUOTE] + key + [QUOTE, COLON]
  }

  // ----------------------------------------------------------------- lexing ---

  /** Between strings, inside one (and whether it has had an escape), or right after its backslash. */
  datatype Lex = Out | In(escaped: bool) | Esc

  function Step(l: Lex, c: byte): Lex {
    match l
    case Out => if c == QUOTE then In(false) else Out
    case In(escaped) => if c == QUOTE then Out else if c == BACKSLASH then Esc else In(escaped)
    case Esc => In(true)
  }

  function Run(l: Lex, text: seq<byte>): Lex {
    if text == [] then l else Step(Run(l, text[..|text| - 1]), text[|text| - 1])
  }

  lemma RunPush(l: Lex, text: seq<byte>, c: byte)
    ensures Run(l, text + [c]) == Step(Run(l, text), c)
  {
    assert (text + [c])[..|text|] == text;
  }

  lemma {:induction false} RunParts(l: Lex, a: seq<byte>, b: seq<byte>)
    ensures Run(l, a + b) == Run(Run(l, a), b)
    decreases |b|
  {
    if b == [] {
      assert a + b == a;
    } else {
      assert (a + b)[..|a + b| - 1] == a + b[..|b| - 1];
      RunParts(l, a, b[..|b| - 1]);
    }
  }

  /** The byte at i closes a string. */
  predicate ClosesAt(text: seq<byte>, i: nat) {
    i < |text| && text[i] == QUOTE && Run(Out, text[..i]).In?
  }

  predicate FollowsString(c: byte) {
    c == COMMA || c == COLON || c == RIGHT_BRACE || c == RIGHT_BRACKET
  }

  /** After a string comes punctuation, and a colon only after a plain name. */
  ghost predicate StringsStandAlone(text: seq<byte>) {
    forall i :: 0 <= i < |text| - 1 && ClosesAt(text, i) ==>
      && FollowsString(text[i + 1])
      && (text[i + 1] == COLON ==> Run(Out, text[..i]) == In(false))
  }

  /** Names that need no escaping and do not start like punctuation. */
  predicate IsPlainName(key: seq<byte>) {
    && (forall i :: 0 <= i < |key| ==> key[i] != QUOTE && key[i] != BACKSLASH)
    && (key != [] ==> !FollowsString(key[0]))
  }

  lemma {:induction false} PlainStaysInside(l: Lex, key: seq<byte>)
    requires l.In? && forall i :: 0 <= i < |key| ==> key[i] != QUOTE && key[i] != BACKSLASH
    ensures Run(l, key) == l
  {
    if key != [] {
      PlainStaysInside(l, key[..|key| - 1]);
    }
  }

  /** The name of a member begins here: a string of its own, holding just the name, and a colon after it. */
  ghost predicate NameAt(text: seq<byte>, key: seq<byte>, p: nat) {
    OccursAt(text, NamePattern(key), p) && Run(Out, text[..p]) == Out
  }

  /** What an occurrence inside a string would close. */
  lemma OccurrenceCloses(text: seq<byte>, key: seq<byte>, p: nat)
    requires IsPlainName(key) && OccursAt(text, NamePattern(key), p)
    ensures var q := p + 1 + |key|;
      && text[q] == QUOTE && text[q + 1] == COLON && text[p + 1] == (if key == [] then QUOTE else key[0])
      && (Run(Out, text[..p]).In? ==> ClosesAt(text, p))
      && (Run(Out, text[..p]) == Esc ==> ClosesAt(text, q) && Run(Out, text[..q]) == In(true))
  {
    var q := p + 1 + |key|;
    assert text[p] == NamePattern(key)[0] && text[q] == NamePattern(key)[1 + |key|] && text[q + 1] == NamePattern(key)[2 + |key|];
    assert text[p + 1] == NamePattern(key)[1];
    assert text[p + 1..q] == key by {
      forall i | 0 <= i < |key|
        ensures text[p + 1 + i] == key[i]
      {
        assert text[p + 1 + i] == NamePattern(key)[1 + i];
      }
    }
    assert text[..p + 1] == text[..p] + [text[p]];
    RunPush(Out, text[..p], text[p]);
    assert text[..q] == text[..p + 1] + text[p + 1..q];
    RunParts(Out, text[..p + 1], text[p + 1..q]);
    PlainStaysInside(In(true), key);
  }

  /** Wherever the search for a plain name stops, it has found the name of a member. */
  lemma FoundIsName(text: seq<byte>, key: seq<byte>, p: nat)
    requires StringsStandAlone(text) && IsPlainName(key) && OccursAt(text, NamePattern(key), p)
    ensures NameAt(text, key, p)
  {
    hide ClosesAt, Run;
    OccurrenceCloses(text, key, p);
  }

  // ---------------------------------------------------------------- printing ---

  datatype Json =
    | Scalar(text: seq<byte>)
    | Str(content: seq<byte>)
    | Arr(items: seq<Json>)
    | Obj(members: seq<Member>)

  datatype Member = Member(name: seq<byte>, value: Json)

  /** Compact JSON, as JSON.stringify prints it. */
  function Print(v: Json): seq<byte>
    decreases v, 1
  {
    match v
    case Scalar(text) => text
    case Str(content) => [QUOTE] + Escape(content) + [QUOTE]
    case Arr(items) => [LEFT_BRACKET] + PrintItems(items) + [RIGHT_BRACKET]
    case Obj(members) => [LEFT_BRACE] + PrintMembers(members) + [RIGHT_BRACE]
  }

  function PrintItems(items: seq<Json>): seq<byte>
    decreases items, 0
  {
    if items == [] then []
    else if |items| == 1 then Print(items[0])
    else Print(items[0]) + [COMMA] + PrintItems(items[1..])
  }

  function PrintMember(m: Member): seq<byte>
    decreases m, 0
  {
    [QUOTE] + m.name + [QUOTE, COLON] + Print(m.value)
  }

  function PrintMembers(members: seq<Member>): seq<byte>
    decreases members, 0
  {
    if members == [] then []
    else if |members| == 1 then PrintMember(members[0])
    else PrintMember(members[0]) + [COMMA] + PrintMembers(members[1..])
  }

  /** Numbers and literals hold no quote, and every name is plain. */
  predicate Printable(v: Json)
    decreases v, 1
  {
    match v
    case Scalar(text) => QUOTE !in text
    case Str(_) => true
    case Arr(items) => forall i :: 0 <= i < |items| ==> Printable(items[i])
    case Obj(members) => forall i :: 0 <= i < |members| ==> IsPlainName(members[i].name) && Printable(members[i].value)
  }

  // ------------------------------------------------------- gluing texts together ---

  ghost predicate Whole(text: seq<byte>) {
    Run(Out, text) == Out && StringsStandAlone(text)
  }

  predicate EndsInString(text: seq<byte>) {
    text != [] && ClosesAt(text, |text| - 1)
  }

  lemma ClosesInPart(a: seq<byte>, b: seq<byte>, i: nat)
    requires Run(Out, a) == Out && i < |a| + |b|
    ensures ClosesAt(a + b, i) <==> if i < |a| then ClosesAt(a, i) else ClosesAt(b, i - |a|)
    ensures Run(Out, (a + b)[..i]) == if i < |a| then Run(Out, a[..i]) else Run(Out, b[..i - |a|])
  {
    if i < |a| {
      assert (a + b)[..i] == a[..i];
    } else {
      assert (a + b)[..i] == a + b[..i - |a|];
      RunParts(Out, a, b[..i - |a|]);
    }
  }

  lemma Glue(a: seq<byte>, b: seq<byte>)
    requires Whole(a) && Whole(b) && b != []
    requires EndsInString(a) ==> FollowsString(b[0]) && b[0] != COLON
    ensures Whole(a + b) && (EndsInString(a + b) <==> EndsInString(b))
  {
    hide ClosesAt, Run;
    RunParts(Out, a, b);
    ClosesInPart(a, b, |a + b| - 1);
    forall i | 0 <= i < |a + b| - 1 && ClosesAt(a + b, i)
      ensures FollowsString((a + b)[i + 1])
      ensures (a + b)[i + 1] == COLON ==> Run(Out, (a + b)[..i]) == In(false)
    {
      ClosesInPart(a, b, i);
      ClosesInPart(a, b, i + 1);
    }
  }

  lemma {:induction false} NoStringIsWhole(text: seq<byte>)
    requires QUOTE !in text
    ensures Whole(text) && !EndsInString(text)
  {
    if text != [] {
      NoStringIsWhole(text[..|text| - 1]);
    }
  }

  /** Text that stays inside a string. */
  ghost predicate Inside(l: Lex, text: seq<byte>) {
    Run(l, text).In? && forall i :: 0 <= i < |text| && text[i] == QUOTE ==> !Run(l, text[..i]).In?
  }

  lemma InsideParts(l: Lex, a: seq<byte>, b: seq<byte>)
    requires Inside(l, a) && Inside(Run(l, a), b)
    ensures Inside(l, a + b)
  {
    RunParts(l, a, b);
    forall i | 0 <= i < |a + b| && (a + b)[i] == QUOTE
      ensures !Run(l, (a + b)[..i]).In?
    {
      if i < |a| {
        assert (a + b)[..i] == a[..i];
      } else {
        assert (a + b)[..i] == a + b[..i - |a|];
        RunParts(l, a, b[..i - |a|]);
      }
    }
  }

  lemma PlainByteInside(l: Lex, c: byte)
    requires l.In? && c != QUOTE && c != BACKSLASH
    ensures Inside(l, [c])
  {
    assert [c][..0] == [];
  }

  lemma EscapePairInside(l: Lex, c: byte)
    requires l.In?
    ensures Inside(l, [BACKSLASH, c])
  {
    var e := [BACKSLASH, c];
    RunPush(l, [], BACKSLASH);
    RunPush(l, [BACKSLASH], c);
    assert e == [BACKSLASH] + [c] && [] + [BACKSLASH] == [BACKSLASH];
    assert e[..0] == [] && e[..1] == [BACKSLASH];
  }

  lemma EscapedByteInside(l: Lex, c: byte)
    requires l.In?
    ensures Inside(l, EscapeByte(c))
  {
    hide Inside;
    var e := EscapeByte(c);
    if |e| == 1 {
      PlainByteInside(l, c);
    } else {
      EscapePairInside(l, e[1]);
      assert |e| == 2 ==> e == [BACKSLASH, e[1]];
      if |e| == 6 {
        UnicodeInside(l, e);
      }
    }
  }

  lemma UnicodeInside(l: Lex, e: seq<byte>)
    requires l.In? && |e| == 6 && e[0] == BACKSLASH
    requires forall i :: 2 <= i < 6 ==> e[i] != QUOTE && e[i] != BACKSLASH
    ensures Inside(l, e)
  {
    EscapePairInside(l, e[1]);
    var tail := e[2..];
    PlainInside(Run(l, [BACKSLASH, e[1]]), tail);
    InsideParts(l, [BACKSLASH, e[1]], tail);
    assert e == [BACKSLASH, e[1]] + tail;
  }

  lemma {:induction false} PlainInside(l: Lex, text: seq<byte>)
    requires l.In? && forall i :: 0 <= i < |text| ==> text[i] != QUOTE && text[i] != BACKSLASH
    ensures Inside(l, text)
  {
    PlainStaysInside(l, text);
  }

  lemma {:induction false} EscapedInside(l: Lex, s: seq<byte>)
    requires l.In?
    ensures Inside(l, Escape(s))
  {
    hide EscapeByte;
    if s != [] {
      var front := s[..|s| - 1];
      EscapedInside(l, front);
      EscapedByteInside(Run(l, Escape(front)), s[|s| - 1]);
      InsideParts(l, Escape(front), EscapeByte(s[|s| - 1]));
    }
  }

  lemma AfterOpeningQuote(inner: seq<byte>, i: nat)
    requires 1 <= i <= |inner| + 1
    ensures var t := [QUOTE] + inner + [QUOTE];
      Run(Out, t[..i]) == Run(In(false), inner[..i - 1])
  {
    var t := [QUOTE] + inner + [QUOTE];
    assert t[..i] == [QUOTE] + inner[..i - 1];
    RunParts(Out, [QUOTE], inner[..i - 1]);
    RunPush(Out, [], QUOTE);
    assert [] + [QUOTE] == [QUOTE];
  }

  /** A string token. */
  lemma QuotedIsWhole(inner: seq<byte>)
    requires Inside(In(false), inner)
    ensures var t := [QUOTE] + inner + [QUOTE];
      Whole(t) && EndsInString(t) && Run(Out, t[..|t| - 1]) == Run(In(false), inner)
  {
    hide Run;
    var t, n := [QUOTE] + inner + [QUOTE], |inner| + 1;
    AfterOpeningQuote(inner, n);
    assert inner[..n - 1] == inner && t[..n] + [QUOTE] == t;
    RunPush(Out, t[..n], QUOTE);
    forall i | 0 <= i < n
      ensures !ClosesAt(t, i)
    {
      if i == 0 {
        RunNothing(t);
      } else {
        AfterOpeningQuote(inner, i);
      }
    }
  }

  lemma RunNothing(t: seq<byte>)
    ensures Run(Out, t[..0]) == Out
  {
  }

  /** A member's name with its colon. */
  lemma NameIsWhole(name: seq<byte>)
    requires IsPlainName(name)
    ensures Whole(NamePattern(name)) && !EndsInString(NamePattern(name))
  {
    hide Inside;
    PlainInside(In(false), name);
    PlainStaysInside(In(false), name);
    QuotedIsWhole(name);
    var t := [QUOTE] + name + [QUOTE];
    assert NamePattern(name) == t + [COLON];
    ColonAfterName(t);
  }

  lemma ColonAfterName(t: seq<byte>)
    requires Whole(t) && EndsInString(t) && Run(Out, t[..|t| - 1]) == In(false)
    ensures Whole(t + [COLON]) && !EndsInString(t + [COLON])
  {
    hide Run;
    var c := [COLON];
    NoStringIsWhole(c);
    RunParts(Out, t, c);
    ClosesInPart(t, c, |t|);
    forall i | 0 <= i < |t| && ClosesAt(t + c, i)
      ensures FollowsString((t + c)[i + 1])
      ensures (t + c)[i + 1] == COLON ==> Run(Out, (t + c)[..i]) == In(false)
    {
      ClosesInPart(t, c, i);
    }
  }

  /** Glue, also for nothing, before text that may follow anything. */
  lemma GlueMore(a: seq<byte>, b: seq<byte>)
    requires Whole(a) && Whole(b)
    requires b != [] && EndsInString(a) ==> FollowsString(b[0]) && b[0] != COLON
    ensures Whole(a + b)
  {
    if b == [] {
      assert a + b == a;
    } else {
      Glue(a, b);
    }
  }

  lemma Bracketed(open: byte, inner: seq<byte>, close: byte)
    requires Whole(inner) && open != QUOTE && (close == RIGHT_BRACE || close == RIGHT_BRACKET)
    ensures Whole([open] + inner + [close])
  {
    NoStringIsWhole([open]);
    NoStringIsWhole([close]);
    GlueMore([open], inner);
    GlueMore([open] + inner, [close]);
  }

  lemma Separated(a: seq<byte>, b: seq<byte>)
    requires Whole(a) && Whole(b)
    ensures Whole(a + [COMMA] + b)
  {
    NoStringIsWhole([COMMA]);
    Glue(a, [COMMA]);
    GlueMore(a + [COMMA], b);
  }

  /** Everything the bridge prints keeps its strings apart. */
  lemma {:induction false} PrintedIsWhole(v: Json)
    requires Printable(v)
    ensures Whole(Print(v))
    decreases v, 1
  {
    match v
    case Scalar(text) => NoStringIsWhole(text);
    case Str(content) =>
      EscapedInside(In(false), content);
      QuotedIsWhole(Escape(content));
    case Arr(items) =>
      ItemsAreWhole(items);
      Bracketed(LEFT_BRACKET, PrintItems(items), RIGHT_BRACKET);
    case Obj(members) =>
      MembersAreWhole(members);
      Bracketed(LEFT_BRACE, PrintMembers(members), RIGHT_BRACE);
  }

  lemma {:induction false} ItemsAreWhole(items: seq<Json>)
    requires forall i :: 0 <= i < |items| ==> Printable(items[i])
    ensures Whole(PrintItems(items))
    decreases items, 0
  {
    hide Whole;
    if items == [] {
      NoStringIsWhole([]);
    } else {
      PrintedIsWhole(items[0]);
      if |items| > 1 {
        ItemsAreWhole(items[1..]);
        Separated(Print(items[0]), PrintItems(items[1..]));
      }
    }
  }

  lemma MemberIsWhole(m: Member)
    requires IsPlainName(m.name) && Printable(m.value)
    ensures Whole(PrintMember(m))
    decreases m, 0
  {
    hide Whole, EndsInString;
    PrintedIsWhole(m.value);
    NameIsWhole(m.name);
    GlueMore(NamePattern(m.name), Print(m.value));
  }

  lemma {:induction false} MembersAreWhole(members: seq<Member>)
    requires forall i :: 0 <= i < |members| ==> IsPlainName(members[i].name) && Printable(members[i].value)
    ensures Whole(PrintMembers(members))
    decreases members, 0
  {
    hide Whole;
    if members == [] {
      NoStringIsWhole([]);
    } else {
      MemberIsWhole(members[0]);
      if |members| > 1 {
        MembersAreWhole(members[1..]);
        Separated(PrintMember(members[0]), PrintMembers(members[1..]));
      }
    }
  }

  // ------------------------------------------------------------- the reader ---

  const PATTERN_CAPACITY: nat := 48

  /** The name's first occurrence is at p, and after its colon only blanks come before at. */
  ghost predicate IsValueOf(text: seq<byte>, key: seq<byte>, p: nat, at: nat) {
    var start := p + |NamePattern(key)|;
    && OccursAt(text, NamePattern(key), p) && (forall q :: 0 <= q < p ==> !OccursAt(text, NamePattern(key), q))
    && start <= at <= |text| && (forall i :: start <= i < at ==> text[i] == 32 || text[i] == 9)
  }

  /** find_json_value: where the value of the first member of this name begins. */
  method FindValue(text: seq<byte>, key: seq<byte>) returns (value: Option<nat>)
    ensures value.Some? ==> |NamePattern(key)| < PATTERN_CAPACITY && exists p: nat :: IsValueOf(text, key, p, value.value)
    ensures value.None? ==> |NamePattern(key)| >= PATTERN_CAPACITY || forall q :: 0 <= q <= |text| ==> !OccursAt(text, NamePattern(key), q)
  {
    var pattern := NamePattern(key);
    if |pattern| >= PATTERN_CAPACITY {
      return None;
    }
    var found := Search(text, pattern);
    if found.None? {
      return None;
    }
    var at := found.value + |pattern|;
    while at < |text| && (text[at] == 32 || text[at] == 9)
      invariant found.value + |pattern| <= at <= |text|
      invariant forall i :: found.value + |pattern| <= i < at ==> text[i] == 32 || text[i] == 9
    {
      at := at + 1;
    }
    assert IsValueOf(text, key, found.value, at);
    value := Some(at);
  }

  /** Searching what the bridge prints for a plain name never ends inside a string: it finds a member's name. */
  lemma SearchFindsNames(v: Json, key: seq<byte>, p: nat)
    requires Printable(v) && IsPlainName(key) && OccursAt(Print(v), NamePattern(key), p)
    ensures NameAt(Print(v), key, p)
  {
    PrintedIsWhole(v);
    FoundIsName(Print(v), key, p);
  }

  /**
   A test for a member with a given string value, made on the text alone, is met only where a member
   has that name: text inside a string cannot pass for it.
   */
  lemma TestFindsMember(v: Json, key: seq<byte>, value: seq<byte>, p: nat)
    requires Printable(v) && IsPlainName(key)
    requires OccursAt(Print(v), NamePattern(key) + ([QUOTE] + value + [QUOTE]), p)
    ensures NameAt(Print(v), key, p)
  {
    hide Print, Printable;
    OccursInPart(Print(v), NamePattern(key), [QUOTE] + value + [QUOTE], p);
    SearchFindsNames(v, key, p);
  }

  lemma OccursInPart(text: seq<byte>, a: seq<byte>, b: seq<byte>, p: nat)
    requires OccursAt(text, a + b, p)
    ensures OccursAt(text, a, p)
  {
    var found := text[p..p + |a + b|];
    assert found[..|a|] == a;
    forall i | 0 <= i < |a|
      ensures text[p + i] == a[i]
    {
      assert found[i] == text[p + i];
    }
  }
}

/** What the handheld's frames say: each is the compact JSON text of the object it stands for, and can be read back. */
module FrameTexts {
  import opened Framing
  import opened JsonText
  import opened JsonMembers
  import opened FrameSenders
  import opened LineReceivers
  import Pairing

  /** Nothing in it needs escaping: identifiers and tokens are made of such bytes. */
  predicate IsPlain(s: seq<byte>) {
    forall i :: 0 <= i < |s| ==> s[i] >= 32 && s[i] != QUOTE && s[i] != BACKSLASH
  }

  lemma {:induction false} PlainIsItself(s: seq<byte>)
    requires IsPlain(s)
    ensures Escape(s) == s
  {
    hide EscapeByte, Escape;
    if s == [] {
      EscapeNothing();
    } else {
      var front, last := s[..|s| - 1], s[|s| - 1];
      PlainIsItself(front);
      PlainByteIsItself(last);
      EscapePush(front, last);
      assert s == front + [last];
    }
  }

  lemma EscapeNothing()
    ensures Escape([]) == []
  {
  }

  lemma PlainByteIsItself(c: byte)
    requires c >= 32 && c != QUOTE && c != BACKSLASH
    ensures EscapeByte(c) == [c]
  {
  }

  function Entry(name: string, value: Json): Member {
    Member(Ascii(name), value)
  }

  function HelloJson(session: seq<byte>, after: nat, token: seq<byte>): Json {
    Obj([Entry("protocolVersion", Scalar(Decimal(PROTOCOL_VERSION))), Entry("type", Str(Ascii("connection.hello"))),
         Entry("sessionId", Str(session)), Entry("after", Scalar(Decimal(after)))]
        + if token == [] then [] else [Entry("deviceToken", Str(token))])
  }

  function TextCommandJson(commandId: seq<byte>, text: seq<byte>): Json {
    Obj([Entry("protocolVersion", Scalar(Decimal(PROTOCOL_VERSION))), Entry("type", Str(Ascii("command"))),
         Entry("commandId", Str(commandId)),
         Entry("command", Obj([Entry("type", Str(Ascii("capture.text"))), Entry("text", Str(text))]))])
  }

  function PingJson(nonce: nat): Json {
    Obj([Entry("protocolVersion", Scalar(Decimal(PROTOCOL_VERSION))), Entry("type", Str(Ascii("ping"))),
         Entry("nonce", Scalar(Decimal(nonce)))])
  }

  // ---------------------------------------------------------- the texts in pieces ---

  lemma OpeningIs()
    ensures Ascii("{\"protocolVersion\":") == [LEFT_BRACE] + NamePattern(Ascii("protocolVersion"))
  {
  }

  lemma HelloTypeIs()
    ensures Ascii(",\"type\":\"connection.hello\",")
         == [COMMA] + NamePattern(Ascii("type")) + [QUOTE] + Ascii("connection.hello") + [QUOTE, COMMA]
  {
  }

  lemma SessionIs()
    ensures Ascii("\"sessionId\":\"") == NamePattern(Ascii("sessionId")) + [QUOTE]
  {
  }

  lemma AfterIs()
    ensures Ascii("\",\"after\":") == [QUOTE, COMMA] + NamePattern(Ascii("after"))
  {
  }

  lemma TokenIs()
    ensures Ascii(",\"deviceToken\":\"") == [COMMA] + NamePattern(Ascii("deviceToken")) + [QUOTE]
  {
  }

  lemma ClosingIs()
    ensures Ascii("}") == [RIGHT_BRACE]
  {
  }

  lemma NamesArePlain()
    ensures IsPlain(Ascii("connection.hello")) && IsPlain(Ascii("command")) && IsPlain(Ascii("capture.text")) && IsPlain(Ascii("ping"))
  {
  }

  lemma PrintOne(m: Member)
    ensures PrintMembers([m]) == PrintMember(m)
  {
    hide PrintMember;
  }

  lemma PrintMore(m: Member, rest: seq<Member>)
    requires rest != []
    ensures PrintMembers([m] + rest) == PrintMember(m) + [COMMA] + PrintMembers(rest)
  {
    hide PrintMember;
    assert ([m] + rest)[1..] == rest;
  }

  // ----------------------------------------------------------- frames are JSON ---

  lemma JoinedPush(parts: seq<seq<byte>>, part: seq<byte>)
    ensures Joined(parts + [part]) == Joined(parts) + part
  {
    assert (parts + [part])[..|parts|] == parts;
  }

  lemma JoinedThree(a: seq<byte>, b: seq<byte>, c: seq<byte>)
    ensures Joined([a, b, c]) == a + b + c
  {
    hide Joined;
    JoinedNone();
    JoinedPush([], a);
    JoinedPush([a], b);
    JoinedPush([a, b], c);
    assert [] + [a] == [a] && [a] + [b] == [a, b] && [a, b] + [c] == [a, b, c];
  }

  lemma JoinedNone()
    ensures Joined([]) == []
  {
  }

  lemma JoinedSeven(a: seq<byte>, b: seq<byte>, c: seq<byte>, d: seq<byte>, e: seq<byte>, f: seq<byte>, g: seq<byte>)
    ensures Joined([a, b, c, d, e, f, g]) == a + b + c + d + e + f + g
  {
    hide Joined;
    JoinedThree(a, b, c);
    JoinedPush([a, b, c], d);
    JoinedPush([a, b, c, d], e);
    JoinedPush([a, b, c, d, e], f);
    JoinedPush([a, b, c, d, e, f], g);
    assert [a, b, c] + [d] == [a, b, c, d] && [a, b, c, d] + [e] == [a, b, c, d, e];
    assert [a, b, c, d, e] + [f] == [a, b, c, d, e, f] && [a, b, c, d, e, f] + [g] == [a, b, c, d, e, f, g];
  }

  lemma {:induction false} JoinedParts(a: seq<seq<byte>>, b: seq<seq<byte>>)
    ensures Joined(a + b) == Joined(a) + Joined(b)
    decreases |b|
  {
    if b == [] {
      assert a + b == a;
    } else {
      assert a + b == (a + b[..|b| - 1]) + [b[|b| - 1]];
      JoinedPush(a + b[..|b| - 1], b[|b| - 1]);
      JoinedParts(a, b[..|b| - 1]);
    }
  }

  /** A hello without its token and its closing brace. */
  function HelloLine(session: seq<byte>, after: nat): seq<byte> {
    [LEFT_BRACE] + (NamePattern(Ascii("protocolVersion")) + Decimal(PROTOCOL_VERSION))
    + ([COMMA] + (NamePattern(Ascii("type")) + ([QUOTE] + Ascii("connection.hello") + [QUOTE])))
    + ([COMMA] + (NamePattern(Ascii("sessionId")) + ([QUOTE] + session + [QUOTE])))
    + ([COMMA] + (NamePattern(Ascii("after")) + Decimal(after)))
  }

  function TokenLine(token: seq<byte>): seq<byte> {
    if token == [] then [] else [COMMA] + (NamePattern(Ascii("deviceToken")) + ([QUOTE] + token + [QUOTE]))
  }

  lemma Regroup(l: seq<byte>, n1: seq<byte>, d: seq<byte>, n2: seq<byte>, h: seq<byte>, n3: seq<byte>, s: seq<byte>, n4: seq<byte>,
                a: seq<byte>)
    ensures (l + n1) + d + ([COMMA] + n2 + [QUOTE] + h + [QUOTE, COMMA]) + (n3 + [QUOTE]) + s + ([QUOTE, COMMA] + n4) + a
         == l + (n1 + d) + ([COMMA] + (n2 + ([QUOTE] + h + [QUOTE]))) + ([COMMA] + (n3 + ([QUOTE] + s + [QUOTE]))) + ([COMMA] + (n4 + a))
  {
  }

  lemma HelloStart(session: seq<byte>, after: nat)
    ensures Joined([Ascii("{\"protocolVersion\":"), Decimal(PROTOCOL_VERSION), Ascii(",\"type\":\"connection.hello\","),
                    Ascii("\"sessionId\":\""), session, Ascii("\",\"after\":"), Decimal(after)]) == HelloLine(session, after)
  {
    hide Joined, Ascii, Decimal, NamePattern;
    JoinedSeven(Ascii("{\"protocolVersion\":"), Decimal(PROTOCOL_VERSION), Ascii(",\"type\":\"connection.hello\","),
                Ascii("\"sessionId\":\""), session, Ascii("\",\"after\":"), Decimal(after));
    OpeningIs();
    HelloTypeIs();
    SessionIs();
    AfterIs();
    Regroup([LEFT_BRACE], NamePattern(Ascii("protocolVersion")), Decimal(PROTOCOL_VERSION), NamePattern(Ascii("type")),
            Ascii("connection.hello"), NamePattern(Ascii("sessionId")), session, NamePattern(Ascii("after")), Decimal(after));
  }

  lemma HelloEnd(token: seq<byte>)
    ensures Joined((if token == [] then [] else [Ascii(",\"deviceToken\":\""), token, [QUOTE]]) + [Ascii("}")])
         == TokenLine(token) + [RIGHT_BRACE]
  {
    hide Joined, Ascii, NamePattern;
    ClosingIs();
    TokenIs();
    JoinedNone();
    JoinedPush(if token == [] then [] else [Ascii(",\"deviceToken\":\""), token, [QUOTE]], Ascii("}"));
    if token != [] {
      JoinedThree(Ascii(",\"deviceToken\":\""), token, [QUOTE]);
      assert [COMMA] + NamePattern(Ascii("deviceToken")) + [QUOTE] + token + [QUOTE] == TokenLine(token);
    }
  }

  lemma HelloText(session: seq<byte>, after: nat, token: seq<byte>)
    ensures Joined(HelloParts(session, after, token)) == HelloLine(session, after) + (TokenLine(token) + [RIGHT_BRACE])
  {
    hide Joined, Ascii, NamePattern, HelloLine, TokenLine, Decimal;
    HelloStart(session, after);
    HelloEnd(token);
    var start := [Ascii("{\"protocolVersion\":"), Decimal(PROTOCOL_VERSION), Ascii(",\"type\":\"connection.hello\","),
                  Ascii("\"sessionId\":\""), session, Ascii("\",\"after\":"), Decimal(after)];
    var field := if token == [] then [] else [Ascii(",\"deviceToken\":\""), token, [QUOTE]];
    JoinedParts(start, field + [Ascii("}")]);
    assert HelloParts(session, after, token) == start + (field + [Ascii("}")]);
  }

  lemma PrintEntry(name: string, value: Json)
    ensures PrintMember(Entry(name, value)) == NamePattern(Ascii(name)) + Print(value)
  {
    hide Print, Ascii;
  }

  lemma PrintText(content: seq<byte>)
    requires IsPlain(content)
    ensures Print(Str(content)) == [QUOTE] + content + [QUOTE]
  {
    PlainIsItself(content);
  }

  lemma PrintScalar(text: seq<byte>)
    ensures Print(Scalar(text)) == text
  {
  }

  lemma PrintObject(members: seq<Member>)
    ensures Print(Obj(members)) == [LEFT_BRACE] + PrintMembers(members) + [RIGHT_BRACE]
  {
  }

  lemma {:induction false} PrintMembersAppend(a: seq<Member>, b: seq<Member>)
    requires a != [] && b != []
    ensures PrintMembers(a + b) == PrintMembers(a) + ([COMMA] + PrintMembers(b))
    decreases |a|
  {
    hide PrintMembers, PrintMember;
    assert a + b == [a[0]] + (a[1..] + b);
    if |a| == 1 {
      assert a == [a[0]] && a[1..] + b == b;
      PrintOne(a[0]);
      PrintMore(a[0], b);
    } else {
      PrintMembersAppend(a[1..], b);
      PrintMore(a[0], a[1..] + b);
      PrintMore(a[0], a[1..]);
      assert a == [a[0]] + a[1..];
    }
  }

  lemma HelloStartPrints(session: seq<byte>, after: nat)
    requires IsPlain(session)
    ensures PrintMembers([Entry("protocolVersion", Scalar(Decimal(PROTOCOL_VERSION))), Entry("type", Str(Ascii("connection.hello"))),
                          Entry("sessionId", Str(session)), Entry("after", Scalar(Decimal(after)))])
         == (NamePattern(Ascii("protocolVersion")) + Decimal(PROTOCOL_VERSION))
              + ([COMMA] + (NamePattern(Ascii("type")) + ([QUOTE] + Ascii("connection.hello") + [QUOTE])))
              + ([COMMA] + (NamePattern(Ascii("sessionId")) + ([QUOTE] + session + [QUOTE])))
              + ([COMMA] + (NamePattern(Ascii("after")) + Decimal(after)))
  {
    hide Ascii, NamePattern, Decimal, Print, PrintMembers, PrintMember, IsPlain, Entry;
    NamesArePlain();
    PrintText(Ascii("connection.hello"));
    PrintText(session);
    PrintScalar(Decimal(PROTOCOL_VERSION));
    PrintScalar(Decimal(after));
    PrintEntry("protocolVersion", Scalar(Decimal(PROTOCOL_VERSION)));
    PrintEntry("type", Str(Ascii("connection.hello")));
    PrintEntry("sessionId", Str(session));
    PrintEntry("after", Scalar(Decimal(after)));
    FourMembers(Entry("protocolVersion", Scalar(Decimal(PROTOCOL_VERSION))), Entry("type", Str(Ascii("connection.hello"))),
                Entry("sessionId", Str(session)), Entry("after", Scalar(Decimal(after))));
  }

  lemma TokenPrints(four: seq<Member>, token: seq<byte>)
    requires IsPlain(token) && four != []
    ensures PrintMembers(four + if token == [] then [] else [Entry("deviceToken", Str(token))])
         == PrintMembers(four) + TokenLine(token)
  {
    hide Ascii, NamePattern, Print, PrintMembers, PrintMember, IsPlain, Entry;
    if token == [] {
      assert four + [] == four && PrintMembers(four) + [] == PrintMembers(four);
    } else {
      PrintText(token);
      PrintEntry("deviceToken", Str(token));
      PrintOne(Entry("deviceToken", Str(token)));
      PrintMembersAppend(four, [Entry("deviceToken", Str(token))]);
    }
  }

  lemma Enclose(l: seq<byte>, a: seq<byte>, b: seq<byte>, c: seq<byte>, d: seq<byte>, t: seq<byte>, r: seq<byte>)
    ensures l + (a + b + c + d + t) + r == (l + a + b + c + d) + (t + r)
  {
  }

  /** A hello is the JSON text of its session, cursor and token. */
  lemma HelloIsJson(session: seq<byte>, after: nat, token: seq<byte>)
    requires IsPlain(session) && IsPlain(token)
    ensures Joined(HelloParts(session, after, token)) == Print(HelloJson(session, after, token))
  {
    hide Joined, Ascii, NamePattern, Decimal, Print, PrintMembers, PrintMember, HelloParts, IsPlain, Entry, TokenLine;
    HelloText(session, after, token);
    HelloStartPrints(session, after);
    var four := [Entry("protocolVersion", Scalar(Decimal(PROTOCOL_VERSION))), Entry("type", Str(Ascii("connection.hello"))),
                 Entry("sessionId", Str(session)), Entry("after", Scalar(Decimal(after)))];
    TokenPrints(four, token);
    PrintObject(four + if token == [] then [] else [Entry("deviceToken", Str(token))]);
    Enclose([LEFT_BRACE], NamePattern(Ascii("protocolVersion")) + Decimal(PROTOCOL_VERSION),
            [COMMA] + (NamePattern(Ascii("type")) + ([QUOTE] + Ascii("connection.hello") + [QUOTE])),
            [COMMA] + (NamePattern(Ascii("sessionId")) + ([QUOTE] + session + [QUOTE])),
            [COMMA] + (NamePattern(Ascii("after")) + Decimal(after)), TokenLine(token), [RIGHT_BRACE]);
  }

  lemma FourMembers(m1: Member, m2: Member, m3: Member, m4: Member)
    ensures PrintMembers([m1, m2, m3, m4])
         == PrintMember(m1) + ([COMMA] + PrintMember(m2)) + ([COMMA] + PrintMember(m3)) + ([COMMA] + PrintMember(m4))
  {
    hide PrintMembers, PrintMember;
    PrintOne(m1);
    PrintOne(m2);
    PrintOne(m3);
    PrintOne(m4);
    PrintMembersAppend([m1], [m2]);
    PrintMembersAppend([m1, m2], [m3]);
    PrintMembersAppend([m1, m2, m3], [m4]);
    assert [m1] + [m2] == [m1, m2] && [m1, m2] + [m3] == [m1, m2, m3] && [m1, m2, m3] + [m4] == [m1, m2, m3, m4];
  }

  // ------------------------------------------------------- commands and pings ---

  lemma CommandTypeIs()
    ensures Ascii(",\"type\":\"command\",\"commandId\":\"")
         == [COMMA] + NamePattern(Ascii("type")) + [QUOTE] + Ascii("command") + [QUOTE, COMMA] + NamePattern(Ascii("commandId")) + [QUOTE]
  {
  }

  lemma CommandIs()
    ensures Ascii("\",\"command\":{\"type\":") == [QUOTE, COMMA] + NamePattern(Ascii("command")) + [LEFT_BRACE] + NamePattern(Ascii("type"))
  {
  }

  lemma CaptureIs()
    ensures Ascii("\"capture.text\",\"text\":\"") == [QUOTE] + Ascii("capture.text") + [QUOTE, COMMA] + NamePattern(Ascii("text")) + [QUOTE]
  {
  }

  lemma CommandClosingIs()
    ensures Ascii("\"}}") == [QUOTE] + [RIGHT_BRACE] + [RIGHT_BRACE]
  {
  }

  lemma PingTypeIs()
    ensures Ascii(",\"type\":\"ping\",\"nonce\":")
         == [COMMA] + NamePattern(Ascii("type")) + [QUOTE] + Ascii("ping") + [QUOTE, COMMA] + NamePattern(Ascii("nonce"))
  {
  }

  lemma RegroupCommand(l: seq<byte>, n1: seq<byte>, d: seq<byte>, n2: seq<byte>, k: seq<byte>, n3: seq<byte>, id: seq<byte>)
    ensures (l + n1) + d + ([COMMA] + n2 + [QUOTE] + k + [QUOTE, COMMA] + n3 + [QUOTE]) + id
         == l + (n1 + d) + ([COMMA] + (n2 + ([QUOTE] + k + [QUOTE]))) + ([COMMA] + (n3 + ([QUOTE] + id)))
  {
  }

  lemma RegroupCapture(start: seq<byte>, m: seq<byte>, id: seq<byte>, n4: seq<byte>, n5: seq<byte>, c: seq<byte>, n6: seq<byte>,
                       e: seq<byte>)
    ensures start + ([COMMA] + (m + ([QUOTE] + id))) + ([QUOTE, COMMA] + n4 + [LEFT_BRACE] + n5)
              + ([QUOTE] + c + [QUOTE, COMMA] + n6 + [QUOTE])
              + e + ([QUOTE] + [RIGHT_BRACE] + [RIGHT_BRACE])
         == start + ([COMMA] + (m + ([QUOTE] + id + [QUOTE])))
              + ([COMMA] + (n4 + ([LEFT_BRACE] + ((n5 + ([QUOTE] + c + [QUOTE]))
                                                  + ([COMMA] + (n6 + ([QUOTE] + e + [QUOTE])))) + [RIGHT_BRACE])))
              + [RIGHT_BRACE]
  {
  }

  /** A text command is the JSON text of its ID and of the text before it was escaped, whatever that is. */
  lemma TextCommandIsJson(commandId: seq<byte>, text: seq<byte>)
    requires IsPlain(commandId)
    ensures Joined(TextCommandParts(commandId, Escape(text))) == Print(TextCommandJson(commandId, text))
  {
    hide Joined, Ascii, NamePattern, Decimal, Print, PrintMembers, PrintMember, IsPlain, Entry, Escape;
    NamesArePlain();
    OpeningIs();
    CommandTypeIs();
    CommandIs();
    CaptureIs();
    CommandClosingIs();
    CommandParts(commandId, Escape(text));
    RegroupCommand([LEFT_BRACE], NamePattern(Ascii("protocolVersion")), Decimal(PROTOCOL_VERSION), NamePattern(Ascii("type")),
                   Ascii("command"), NamePattern(Ascii("commandId")), commandId);
    RegroupCapture([LEFT_BRACE] + (NamePattern(Ascii("protocolVersion")) + Decimal(PROTOCOL_VERSION))
                     + ([COMMA] + (NamePattern(Ascii("type")) + ([QUOTE] + Ascii("command") + [QUOTE]))),
                   NamePattern(Ascii("commandId")), commandId, NamePattern(Ascii("command")), NamePattern(Ascii("type")),
                   Ascii("capture.text"), NamePattern(Ascii("text")), Escape(text));
    CommandPrints(commandId, text);
  }

  lemma CommandParts(commandId: seq<byte>, escaped: seq<byte>)
    ensures Joined(TextCommandParts(commandId, escaped))
         == Ascii("{\"protocolVersion\":") + Decimal(PROTOCOL_VERSION) + Ascii(",\"type\":\"command\",\"commandId\":\"") + commandId
              + Ascii("\",\"command\":{\"type\":") + Ascii("\"capture.text\",\"text\":\"") + escaped + Ascii("\"}}")
  {
    hide Joined, Ascii, Decimal;
    var parts := TextCommandParts(commandId, escaped);
    JoinedSeven(parts[0], parts[1], parts[2], parts[3], parts[4], parts[5], parts[6]);
    assert parts == [parts[0], parts[1], parts[2], parts[3], parts[4], parts[5], parts[6]] + [parts[7]];
    JoinedPush([parts[0], parts[1], parts[2], parts[3], parts[4], parts[5], parts[6]], parts[7]);
  }

  lemma CommandPrints(commandId: seq<byte>, text: seq<byte>)
    requires IsPlain(commandId)
    ensures Print(TextCommandJson(commandId, text))
         == [LEFT_BRACE] + (NamePattern(Ascii("protocolVersion")) + Decimal(PROTOCOL_VERSION))
              + ([COMMA] + (NamePattern(Ascii("type")) + ([QUOTE] + Ascii("command") + [QUOTE])))
              + ([COMMA] + (NamePattern(Ascii("commandId")) + ([QUOTE] + commandId + [QUOTE])))
              + ([COMMA] + (NamePattern(Ascii("command")) + ([LEFT_BRACE]
                  + ((NamePattern(Ascii("type")) + ([QUOTE] + Ascii("capture.text") + [QUOTE]))
                     + ([COMMA] + (NamePattern(Ascii("text")) + ([QUOTE] + Escape(text) + [QUOTE])))) + [RIGHT_BRACE])))
              + [RIGHT_BRACE]
  {
    hide Ascii, NamePattern, Decimal, Print, PrintMembers, PrintMember, IsPlain, Entry, Escape;
    NamesArePlain();
    PrintText(Ascii("command"));
    PrintText(Ascii("capture.text"));
    PrintText(commandId);
    PrintString(text);
    PrintScalar(Decimal(PROTOCOL_VERSION));
    var capture, content := Entry("type", Str(Ascii("capture.text"))), Entry("text", Str(text));
    PrintEntry("type", Str(Ascii("capture.text")));
    PrintEntry("text", Str(text));
    PrintOne(capture);
    PrintOne(content);
    PrintMembersAppend([capture], [content]);
    assert [capture] + [content] == [capture, content];
    PrintObject([capture, content]);
    PrintEntry("protocolVersion", Scalar(Decimal(PROTOCOL_VERSION)));
    PrintEntry("type", Str(Ascii("command")));
    PrintEntry("commandId", Str(commandId));
    PrintEntry("command", Obj([capture, content]));
    FourMembers(Entry("protocolVersion", Scalar(Decimal(PROTOCOL_VERSION))), Entry("type", Str(Ascii("command"))),
                Entry("commandId", Str(commandId)), Entry("command", Obj([capture, content])));
    PrintObject([Entry("protocolVersion", Scalar(Decimal(PROTOCOL_VERSION))), Entry("type", Str(Ascii("command"))),
                 Entry("commandId", Str(commandId)), Entry("command", Obj([capture, content]))]);
  }

  lemma PrintString(content: seq<byte>)
    ensures Print(Str(content)) == [QUOTE] + Escape(content) + [QUOTE]
  {
  }

  lemma RegroupPing(l: seq<byte>, n1: seq<byte>, d: seq<byte>, n2: seq<byte>, k: seq<byte>, n3: seq<byte>, e: seq<byte>)
    ensures (l + n1) + d + ([COMMA] + n2 + [QUOTE] + k + [QUOTE, COMMA] + n3) + e
         == l + (n1 + d) + ([COMMA] + (n2 + ([QUOTE] + k + [QUOTE]))) + ([COMMA] + (n3 + e))
  {
  }

  /** A ping is the JSON text of its nonce. */
  lemma PingIsJson(nonce: nat)
    ensures Joined(PingParts(nonce)) == Print(PingJson(nonce))
  {
    hide Joined, Ascii, NamePattern, Decimal, Print, PrintMembers, PrintMember, IsPlain, Entry;
    NamesArePlain();
    OpeningIs();
    PingTypeIs();
    ClosingIs();
    var parts := PingParts(nonce);
    JoinedThree(parts[0], parts[1], parts[2]);
    JoinedPush([parts[0], parts[1], parts[2]], parts[3]);
    JoinedPush([parts[0], parts[1], parts[2], parts[3]], parts[4]);
    assert [parts[0], parts[1], parts[2]] + [parts[3]] == [parts[0], parts[1], parts[2], parts[3]];
    assert parts == [parts[0], parts[1], parts[2], parts[3]] + [parts[4]];
    RegroupPing([LEFT_BRACE], NamePattern(Ascii("protocolVersion")), Decimal(PROTOCOL_VERSION), NamePattern(Ascii("type")),
                Ascii("ping"), NamePattern(Ascii("nonce")), Decimal(nonce));
    PrintText(Ascii("ping"));
    PrintScalar(Decimal(PROTOCOL_VERSION));
    PrintScalar(Decimal(nonce));
    PrintEntry("protocolVersion", Scalar(Decimal(PROTOCOL_VERSION)));
    PrintEntry("type", Str(Ascii("ping")));
    PrintEntry("nonce", Scalar(Decimal(nonce)));
    var m1, m2 := Entry("protocolVersion", Scalar(Decimal(PROTOCOL_VERSION))), Entry("type", Str(Ascii("ping")));
    var m3 := Entry("nonce", Scalar(Decimal(nonce)));
    PrintOne(m1);
    PrintOne(m2);
    PrintOne(m3);
    PrintMembersAppend([m1], [m2]);
    PrintMembersAppend([m1, m2], [m3]);
    assert [m1] + [m2] == [m1, m2] && [m1, m2] + [m3] == [m1, m2, m3];
    PrintObject([m1, m2, m3]);
  }

  // --------------------------------------------------------- reading a hello back ---

  /** The first occurrence of a name, when nothing in front of it can be one. */
  lemma FirstFound(text: seq<byte>, before: seq<byte>, key: seq<byte>, behind: seq<byte>, p: nat, at: nat)
    requires text == before + NamePattern(key) + behind && behind != [] && behind[0] != 32 && behind[0] != 9
    requires forall q :: 0 <= q < |before| ==> !OccursAt(text, NamePattern(key), q)
    requires IsValueOf(text, key, p, at)
    ensures at == |before| + |NamePattern(key)| && text[at..] == behind
  {
    assert text[|before|..|before| + |NamePattern(key)|] == NamePattern(key);
    assert OccursAt(text, NamePattern(key), |before|);
    assert p == |before|;
    assert text[|before| + |NamePattern(key)|] == behind[0];
  }

  /** An occurrence begins with a quote and the first letter, and ends with a quote and a colon. */
  lemma OccurrenceEnds(text: seq<byte>, key: seq<byte>, p: nat)
    requires OccursAt(text, NamePattern(key), p) && key != []
    ensures text[p] == QUOTE && text[p + 1] == key[0] && text[p + 1 + |key|] == QUOTE && text[p + 2 + |key|] == COLON
  {
    var pattern := NamePattern(key);
    assert pattern[0] == QUOTE && pattern[1] == key[0] && pattern[1 + |key|] == QUOTE && pattern[2 + |key|] == COLON;
    assert text[p..p + |pattern|][0] == text[p] && text[p..p + |pattern|][1] == text[p + 1];
    assert text[p..p + |pattern|][1 + |key|] == text[p + 1 + |key|] && text[p..p + |pattern|][2 + |key|] == text[p + 2 + |key|];
  }

  /** What stands in front of the session's name. */
  function HelloOpening(): seq<byte> {
    Ascii("{\"protocolVersion\":") + Ascii("1") + Ascii(",\"type\":\"connection.hello\",")
  }

  lemma HelloOpeningIs(session: seq<byte>, after: nat)
    ensures HelloLine(session, after)
         == HelloOpening() + NamePattern(Ascii("sessionId"))
              + ([QUOTE] + session + ([QUOTE, COMMA] + NamePattern(Ascii("after")) + Decimal(after)))
  {
    hide NamePattern, Ascii;
    OneIs();
    hide Decimal;
    OpeningIs();
    HelloTypeIs();
    RegroupOpening([LEFT_BRACE], NamePattern(Ascii("protocolVersion")), Ascii("1"), NamePattern(Ascii("type")), Ascii("connection.hello"),
                   NamePattern(Ascii("sessionId")), session, NamePattern(Ascii("after")), Decimal(after));
  }

  lemma OneIs()
    ensures Decimal(PROTOCOL_VERSION) == Ascii("1")
  {
  }

  lemma RegroupOpening(l: seq<byte>, n1: seq<byte>, d: seq<byte>, n2: seq<byte>, h: seq<byte>, n3: seq<byte>, s: seq<byte>, n4: seq<byte>,
                       a: seq<byte>)
    ensures l + (n1 + d) + ([COMMA] + (n2 + ([QUOTE] + h + [QUOTE]))) + ([COMMA] + (n3 + ([QUOTE] + s + [QUOTE]))) + ([COMMA] + (n4 + a))
         == (l + n1) + d + ([COMMA] + n2 + [QUOTE] + h + [QUOTE, COMMA]) + n3 + ([QUOTE] + s + ([QUOTE, COMMA] + n4 + a))
  {
  }

  /** After a quote never comes one of these two letters; and the last byte is no quote. */
  predicate NoPair(s: seq<byte>, a: byte, b: byte) {
    && (forall q :: 0 <= q < |s| - 1 && s[q] == QUOTE ==> s[q + 1] != a && s[q + 1] != b)
    && (s != [] ==> s[|s| - 1] != QUOTE)
  }

  lemma NoPairJoins(s: seq<byte>, t: seq<byte>, a: byte, b: byte)
    requires NoPair(s, a, b) && NoPair(t, a, b)
    ensures NoPair(s + t, a, b)
  {
  }

  lemma NoPairInOpening()
    ensures NoPair(HelloOpening(), 115, 97)
  {
    var a, b, c := Ascii("{\"protocolVersion\":"), Ascii("1"), Ascii(",\"type\":\"connection.hello\",");
    NoPairFirst();
    NoPairSecond();
    NoPairThird();
    hide Ascii, NoPair;
    NoPairJoins(a, b, 115, 97);
    NoPairJoins(a + b, c, 115, 97);
  }

  lemma NoPairFirst()
    ensures NoPair(Ascii("{\"protocolVersion\":"), 115, 97)
  {
  }

  lemma NoPairSecond()
    ensures NoPair(Ascii("1"), 115, 97)
  {
  }

  lemma NoPairThird()
    ensures NoPair(Ascii(",\"type\":\"connection.hello\","), 115, 97)
  {
  }

  lemma HelloSplit(session: seq<byte>, after: nat, token: seq<byte>)
    ensures var text := Joined(HelloParts(session, after, token));
      var rest := [COMMA] + NamePattern(Ascii("after")) + Decimal(after) + (TokenLine(token) + [RIGHT_BRACE]);
      && text == HelloOpening() + NamePattern(Ascii("sessionId")) + ([QUOTE] + (session + [QUOTE] + rest))
      && text == HelloOpening() + NamePattern(Ascii("sessionId")) + ([QUOTE] + session + [QUOTE, COMMA]) + NamePattern(Ascii("after"))
                   + (Decimal(after) + (TokenLine(token) + [RIGHT_BRACE]))
  {
    hide Joined, HelloParts, HelloLine, HelloOpening, NamePattern, Ascii, Decimal, TokenLine;
    HelloText(session, after, token);
    HelloOpeningIs(session, after);
    RegroupRest(HelloOpening() + NamePattern(Ascii("sessionId")), session, NamePattern(Ascii("after")), Decimal(after),
                TokenLine(token) + [RIGHT_BRACE]);
  }

  lemma RegroupRest(o: seq<byte>, s: seq<byte>, n: seq<byte>, a: seq<byte>, t: seq<byte>)
    ensures o + ([QUOTE] + s + ([QUOTE, COMMA] + n + a)) + t == o + ([QUOTE] + (s + [QUOTE] + ([COMMA] + n + a + t)))
    ensures o + ([QUOTE] + s + ([QUOTE, COMMA] + n + a)) + t == o + ([QUOTE] + s + [QUOTE, COMMA]) + n + (a + t)
  {
  }

  lemma PairElsewhere(text: seq<byte>, opening: seq<byte>, behind: seq<byte>, key: seq<byte>, q: nat)
    requires text == opening + behind && NoPair(opening, 115, 97) && key != [] && (key[0] == 115 || key[0] == 97)
    requires q < |opening|
    ensures !OccursAt(text, NamePattern(key), q)
  {
    if OccursAt(text, NamePattern(key), q) {
      OccurrenceEnds(text, key, q);
      assert false;
    }
  }

  lemma LettersAre()
    ensures |Ascii("sessionId")| == 9 && |Ascii("after")| == 5
    ensures Ascii("sessionId")[0] == 115 && Ascii("after")[0] == 97
    ensures QUOTE !in Ascii("sessionId") && QUOTE !in Ascii("after") && COLON !in Ascii("after")
  {
  }

  /** The first value named sessionId in a hello is its session, as the string that is read there. */
  lemma SessionIsRead(session: seq<byte>, after: nat, token: seq<byte>, p: nat, at: nat)
    requires IsPlain(session)
    requires IsValueOf(Joined(HelloParts(session, after, token)), Ascii("sessionId"), p, at)
    ensures var text := Joined(HelloParts(session, after, token));
      at < |text| && text[at] == QUOTE && ReadBody(text[at + 1..]).Some? && ReadBody(text[at + 1..]).value.value == session
  {
    hide Joined, HelloParts, HelloOpening, NamePattern, Ascii, Decimal, TokenLine, ReadBody, NoPair, OccursAt;
    var text := Joined(HelloParts(session, after, token));
    var key := Ascii("sessionId");
    var rest := [COMMA] + NamePattern(Ascii("after")) + Decimal(after) + (TokenLine(token) + [RIGHT_BRACE]);
    var behind := [QUOTE] + (session + [QUOTE] + rest);
    HelloSplit(session, after, token);
    NoPairInOpening();
    LettersAre();
    assert text == HelloOpening() + (NamePattern(key) + behind);
    forall q: nat | q < |HelloOpening()|
      ensures !OccursAt(text, NamePattern(key), q)
    {
      PairElsewhere(text, HelloOpening(), NamePattern(key) + behind, key, q);
    }
    FirstFound(text, HelloOpening(), key, behind, p, at);
    assert text[at + 1..] == text[at..][1..] == session + [QUOTE] + rest;
    PlainIsItself(session);
    EscapeIsRead(session, rest);
    PlainIsShown(session);
  }

  lemma PlainIsShown(s: seq<byte>)
    requires IsPlain(s)
    ensures ShownAll(s) == s
  {
  }

  /** Between the opening and the cursor's name, no occurrence of that name can begin. */
  lemma NoCursorInSession(text: seq<byte>, o: seq<byte>, session: seq<byte>, behind: seq<byte>, q: nat)
    requires var n, m := NamePattern(Ascii("sessionId")), NamePattern(Ascii("after"));
      text == o + n + ([QUOTE] + session + [QUOTE, COMMA]) + m + behind
    requires IsPlain(session) && |o| <= q < |o| + 12 + |session| + 3
    ensures !OccursAt(text, NamePattern(Ascii("after")), q)
  {
    hide Ascii, OccursAt;
    LettersAre();
    var sid, aft := Ascii("sessionId"), Ascii("after");
    var c := |o| + 12;
    var d := c + 1 + |session|;
    assert text[|o|] == QUOTE && text[|o| + 10] == QUOTE && text[|o| + 11] == COLON;
    assert forall i :: 0 <= i < 9 ==> text[|o| + 1 + i] == sid[i];
    assert text[c] == QUOTE && text[d] == QUOTE && text[d + 1] == COMMA && text[d + 2] == QUOTE;
    assert forall i :: 0 <= i < |session| ==> text[c + 1 + i] == session[i];
    assert forall i :: 0 <= i < 5 ==> text[d + 3 + i] == aft[i];
    if OccursAt(text, NamePattern(aft), q) {
      OccurrenceEnds(text, aft, q);
      NotThere(text, |o|, session, sid, aft, q);
      assert false;
    }
  }

  lemma NotThere(text: seq<byte>, o: nat, session: seq<byte>, sid: seq<byte>, aft: seq<byte>, q: nat)
    requires |sid| == 9 && |aft| == 5 && QUOTE !in sid && QUOTE !in aft && COLON !in aft && sid[0] == 115 && IsPlain(session)
    requires o + 12 + |session| + 9 <= |text| && o <= q < o + 12 + |session| + 3
    requires text[o + 10] == QUOTE && text[o + 11] == COLON && forall i :: 0 <= i < 9 ==> text[o + 1 + i] == sid[i]
    requires var c, d := o + 12, o + 13 + |session|;
      && text[c] == QUOTE && text[d] == QUOTE && text[d + 1] == COMMA && text[d + 2] == QUOTE
      && (forall i :: 0 <= i < |session| ==> text[c + 1 + i] == session[i])
      && (forall i :: 0 <= i < 5 ==> text[d + 3 + i] == aft[i])
    requires q + 7 < |text|
    ensures !(text[q] == QUOTE && text[q + 1] == 97 && text[q + 6] == QUOTE && text[q + 7] == COLON)
  {
    var c, d := o + 12, o + 13 + |session|;
    if o < q < o + 10 {
      assert text[q] == sid[q - o - 1];
    } else if q == c && text[q + 1] == 97 {
      assert |session| > 5 ==> text[q + 6] == session[5];
      assert |session| == 1 ==> text[q + 6] == aft[1];
      assert |session| == 2 ==> text[q + 6] == aft[0];
      assert |session| == 3 ==> text[q + 7] == aft[0];
    } else if c < q < d {
      assert text[q] == session[q - c - 1];
    }
  }

  /** The first value named after in a hello is its cursor, in decimal digits up to a comma or the closing brace. */
  lemma CursorIsRead(session: seq<byte>, after: nat, token: seq<byte>, p: nat, at: nat)
    requires IsPlain(session)
    requires IsValueOf(Joined(HelloParts(session, after, token)), Ascii("after"), p, at)
    ensures var text, digits := Joined(HelloParts(session, after, token)), Decimal(after);
      && at + |digits| < |text| && text[at..at + |digits|] == digits
      && (text[at + |digits|] == COMMA || text[at + |digits|] == RIGHT_BRACE)
  {
    hide Joined, HelloParts, HelloOpening, NamePattern, Ascii, Decimal, ReadBody, NoPair, OccursAt, TokenLine, IsValueOf, IsPlain;
    var text := Joined(HelloParts(session, after, token));
    var key, o := Ascii("after"), HelloOpening();
    var end := TokenLine(token) + [RIGHT_BRACE];
    var before := o + NamePattern(Ascii("sessionId")) + ([QUOTE] + session + [QUOTE, COMMA]);
    HelloSplit(session, after, token);
    NoPairInOpening();
    LettersAre();
    DecimalBegins(after);
    SessionPatternSize();
    forall q: nat | q < |before|
      ensures !OccursAt(text, NamePattern(key), q)
    {
      if q < |o| {
        assert text == o + text[|o|..];
        PairElsewhere(text, o, text[|o|..], key, q);
      } else {
        NoCursorInSession(text, o, session, Decimal(after) + end, q);
      }
    }
    FirstFound(text, before, key, Decimal(after) + end, p, at);
    EndBegins(token);
    Behind(text, at, Decimal(after), end);
  }

  lemma EndBegins(token: seq<byte>)
    ensures var end := TokenLine(token) + [RIGHT_BRACE]; end[0] == COMMA || end[0] == RIGHT_BRACE
  {
    hide Ascii;
  }

  lemma Behind(text: seq<byte>, at: nat, digits: seq<byte>, end: seq<byte>)
    requires at <= |text| && text[at..] == digits + end && end != []
    ensures at + |digits| < |text| && text[at..at + |digits|] == digits && text[at + |digits|] == end[0]
  {
    assert text[at..at + |digits|] == text[at..][..|digits|];
    assert text[at + |digits|] == text[at..][|digits|];
  }

  lemma SessionPatternSize()
    ensures |NamePattern(Ascii("sessionId"))| == 12
  {
  }

  lemma DecimalBegins(n: nat)
    ensures Decimal(n) != [] && Decimal(n)[0] != 32 && Decimal(n)[0] != 9
  {
    Pairing.DecimalIsRead(n);
    var s := Pairing.Decimal(n);
    assert Pairing.IsDigit(s[0]);
  }
}

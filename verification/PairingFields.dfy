/** Pairing texts that the bridge did not print: fields in any order, words with any separators between them. */
module PairingFields {
  import opened Options
  import opened Pairing

  // ------------------------------------------------------------- URL fields ---

  datatype KeyValue = KeyValue(key: string, value: string)

  predicate IsField(f: KeyValue) {
    Lacks(f.key, '=') && Lacks(f.value, '&')
  }

  function Printed(fields: seq<KeyValue>): string {
    if fields == [] then ""
    else fields[0].key + "=" + fields[0].value + if |fields| == 1 then "" else "&" + Printed(fields[1..])
  }

  /** The value of the last field with this key. */
  function Last(fields: seq<KeyValue>, key: string): Option<string> {
    if fields == [] then None
    else if Last(fields[1..], key).Some? then Last(fields[1..], key)
    else if fields[0].key == key then Some(fields[0].value) else None
  }

  /** The last name that fits; longer ones are passed over. */
  function LastName(fields: seq<KeyValue>): Option<string> {
    if fields == [] then None
    else if LastName(fields[1..]).Some? then LastName(fields[1..])
    else if fields[0].key == "n" && |fields[0].value| < BRIDGE_NAME_CAPACITY then Some(fields[0].value) else None
  }

  /** Every field that gives a version gives version one. */
  predicate VersionsAreOne(fields: seq<KeyValue>) {
    forall i :: 0 <= i < |fields| && fields[i].key == "v" ==> PortOf(fields[i].value) == Some(1)
  }

  function Short(value: string): Option<string> {
    if |value| < HOST_CAPACITY then Some(value) else None
  }

  lemma PartIsField(f: KeyValue, more: bool, rest: string)
    requires IsField(f) && (!more ==> rest == "")
    ensures var s := f.key + "=" + f.value + if more then "&" + rest else "";
      IndexOf(s, '=') == |f.key| < |s| && FirstPart(s) == Part(f.key, f.value, rest)
  {
    var s := f.key + "=" + f.value + if more then "&" + rest else "";
    assert forall i :: 0 <= i < |f.key| ==> s[i] == f.key[i];
    IndexOfIs(s, '=', |f.key|);
    var tail := s[|f.key| + 1..];
    assert tail == f.value + if more then "&" + rest else "";
    IndexOfIs(tail, '&', |f.value|);
    assert s[..|f.key|] == f.key && s[|f.key| + 1..|f.key| + 1 + |f.value|] == f.value;
    if more {
      assert s[|f.key| + 1 + |f.value| + 1..] == rest;
    }
  }

  /** What one field changes. */
  lemma FieldIsUnderstood(d: Draft, f: KeyValue)
    requires f.key == "v" ==> PortOf(f.value) == Some(1)
    ensures Understood(d, f.key, f.value)
         == Ok(Draft(d.version || f.key == "v",
                     if f.key == "h" then Short(f.value) else d.host,
                     if f.key == "p" then PortOf(f.value) else d.httpPort,
                     if f.key == "q" then PortOf(f.value) else d.pushPort,
                     if f.key == "c" then CodeOf(f.value) else d.code,
                     if f.key == "n" && |f.value| < BRIDGE_NAME_CAPACITY then f.value else d.bridgeName))
  {
    hide PortOf, CodeOf;
    if |f.key| == 1 {
      assert f.key == [f.key[0]];
    }
  }

  /** What a sequence of fields changes. */
  function Read(d: Draft, fields: seq<KeyValue>): Draft {
    Draft(d.version || Last(fields, "v").Some?,
          if Last(fields, "h").Some? then Short(Last(fields, "h").value) else d.host,
          if Last(fields, "p").Some? then PortOf(Last(fields, "p").value) else d.httpPort,
          if Last(fields, "q").Some? then PortOf(Last(fields, "q").value) else d.pushPort,
          if Last(fields, "c").Some? then CodeOf(Last(fields, "c").value) else d.code,
          if LastName(fields).Some? then LastName(fields).value else d.bridgeName)
  }

  lemma {:induction false} FieldsAreRead(d: Draft, fields: seq<KeyValue>)
    requires (forall i :: 0 <= i < |fields| ==> IsField(fields[i])) && VersionsAreOne(fields)
    ensures Fields(d, Printed(fields)) == Ok(Read(d, fields))
    decreases |fields|
  {
    hide PortOf, CodeOf, Understood, FirstPart, IsField;
    if fields != [] {
      var f, rest := fields[0], fields[1..];
      PartIsField(f, |fields| > 1, Printed(rest));
      FieldIsUnderstood(d, f);
      FieldsAreRead(Understood(d, f.key, f.value).value, rest);
    }
  }

  lemma {:induction false} OtherVersionIsRefused(d: Draft, fields: seq<KeyValue>)
    requires (forall i :: 0 <= i < |fields| ==> IsField(fields[i])) && !VersionsAreOne(fields)
    ensures Fields(d, Printed(fields)) == Err(NeedsNewerBuild)
    decreases |fields|
  {
    hide PortOf, CodeOf, FirstPart, IsField;
    var f, rest := fields[0], fields[1..];
    PartIsField(f, |fields| > 1, Printed(rest));
    if f.key != "v" || PortOf(f.value) == Some(1) {
      assert !VersionsAreOne(rest) by {
        var i :| 0 <= i < |fields| && fields[i].key == "v" && PortOf(fields[i].value) != Some(1);
        assert rest[i - 1] == fields[i];
      }
      FieldIsUnderstood(d, f);
      OtherVersionIsRefused(Understood(d, f.key, f.value).value, rest);
    }
  }

  /**
   Fields may come in any order and among unknown ones; of several with the same key the last decides. The URL is
   refused exactly if it gives another version, or if one of the five needed is missing or cannot be used.
   */
  lemma UrlInAnyOrder(fields: seq<KeyValue>)
    requires forall i :: 0 <= i < |fields| ==> IsField(fields[i])
    ensures var v, h, p := Last(fields, "v"), Last(fields, "h"), Last(fields, "p");
      var q, c, n := Last(fields, "q"), Last(fields, "c"), LastName(fields);
      UrlMeans(URL_PREFIX + Printed(fields)) ==
        if !VersionsAreOne(fields) then Err(NeedsNewerBuild)
        else if v.None? || h.None? || p.None? || q.None? || c.None? then Err(MissingInformation)
        else if |h.value| >= HOST_CAPACITY || PortOf(p.value).None? || PortOf(q.value).None? || CodeOf(c.value).None?
        then Err(MissingInformation)
        else Ok(Bootstrap(h.value, PortOf(p.value).value, PortOf(q.value).value, CodeOf(c.value).value,
                          if n.Some? then n.value else "bridge"))
  {
    hide PortOf, CodeOf, Fields, Printed, Last, LastName, VersionsAreOne, IsField;
    assert (URL_PREFIX + Printed(fields))[|URL_PREFIX|..] == Printed(fields);
    if VersionsAreOne(fields) {
      FieldsAreRead(NOTHING_YET, fields);
    } else {
      OtherVersionIsRefused(NOTHING_YET, fields);
    }
  }

  // ------------------------------------------------------------- typed words ---

  predicate AllSeparators(s: string) {
    forall i :: 0 <= i < |s| ==> IsSeparator(s[i])
  }

  predicate IsGap(s: string) {
    s != "" && AllSeparators(s)
  }

  lemma WordIsTaken(gap: string, word: string, rest: string, count: nat)
    requires AllSeparators(gap) && IsWord(word) && (rest == "" || IsSeparator(rest[0])) && count > 0
    ensures Words(gap + word + rest, count) == [word] + Words(rest, count - 1)
  {
    var s := gap + word + rest;
    assert s[|gap|] == word[0];
    LeadingIs(s, true, |gap|);
    var t := s[|gap|..];
    assert t == word + rest;
    LeadingIs(t, false, |word|);
    assert t[..|word|] == word && t[|word|..] == rest;
  }

  lemma NoWordIsTaken(gap: string, count: nat)
    requires AllSeparators(gap)
    ensures Words(gap, count) == []
  {
    LeadingIs(gap, true, |gap|);
    assert gap[|gap|..] == "";
  }

  lemma GapComesFirst(gap: string, rest: string)
    requires IsGap(gap)
    ensures (gap + rest)[0] == gap[0] && IsSeparator((gap + rest)[0])
  {
  }

  /** Words may be set apart by any run of blanks, tabs, colons and commas, and anything may follow the fourth. */
  lemma ManualInAnySpacing(s0: string, host: string, s1: string, http: string, s2: string, push: string, s3: string, code: string,
                           rest: string)
    requires AllSeparators(s0) && IsGap(s1) && IsGap(s2) && IsGap(s3) && (rest == "" || IsSeparator(rest[0]))
    requires IsWord(host) && IsWord(http) && IsWord(push) && IsWord(code)
    ensures var text := s0 + host + (s1 + http + (s2 + push + (s3 + code + rest)));
      var result := if |host| >= HOST_CAPACITY then Err(HostTooLong)
        else if PortOf(http).None? || PortOf(push).None? then Err(BadPort)
        else if CodeOf(code).None? then Err(BadCode)
        else Ok(Bootstrap(host, PortOf(http).value, PortOf(push).value, CodeOf(code).value, "bridge"));
      !(URL_PREFIX <= text) ==> ManualMeans(text) == result
  {
    hide Words, PortOf, CodeOf, UrlMeans, IsSeparator, IsGap, IsWord, AllSeparators;
    GapIsSeparators(s1);
    GapIsSeparators(s2);
    GapIsSeparators(s3);
    GapComesFirst(s3, code + rest);
    GapComesFirst(s2, push + (s3 + code + rest));
    GapComesFirst(s1, http + (s2 + push + (s3 + code + rest)));
    assert s3 + (code + rest) == s3 + code + rest;
    assert s2 + (push + (s3 + code + rest)) == s2 + push + (s3 + code + rest);
    assert s1 + (http + (s2 + push + (s3 + code + rest))) == s1 + http + (s2 + push + (s3 + code + rest));
    WordIsTaken(s3, code, rest, 1);
    WordIsTaken(s2, push, s3 + code + rest, 2);
    WordIsTaken(s1, http, s2 + push + (s3 + code + rest), 3);
    WordIsTaken(s0, host, s1 + http + (s2 + push + (s3 + code + rest)), 4);
    NoneLeft(rest);
    assert Words(s0 + host + (s1 + http + (s2 + push + (s3 + code + rest))), 4) == [host, http, push, code];
  }

  lemma GapIsSeparators(gap: string)
    requires IsGap(gap)
    ensures AllSeparators(gap)
  {
  }

  lemma NoneLeft(rest: string)
    ensures Words(rest, 0) == []
  {
  }

  /** Three words are not enough. */
  lemma ThreeWordsAreTooFew(s0: string, host: string, s1: string, http: string, s2: string, push: string, s3: string)
    requires AllSeparators(s0) && IsGap(s1) && IsGap(s2) && AllSeparators(s3)
    requires IsWord(host) && IsWord(http) && IsWord(push)
    ensures var text := s0 + host + (s1 + http + (s2 + push + s3));
      !(URL_PREFIX <= text) ==> ManualMeans(text) == Err(TooFewFields)
  {
    hide Words, PortOf, CodeOf, UrlMeans, IsSeparator, IsGap, IsWord;
    GapIsSeparators(s1);
    GapIsSeparators(s2);
    GapComesFirst(s2, push + s3);
    GapComesFirst(s1, http + (s2 + push + s3));
    assert s2 + (push + s3) == s2 + push + s3;
    assert s1 + (http + (s2 + push + s3)) == s1 + http + (s2 + push + s3);
    NoWordIsTaken(s3, 1);
    WordIsTaken(s2, push, s3, 2);
    WordIsTaken(s1, http, s2 + push + s3, 3);
    WordIsTaken(s0, host, s1 + http + (s2 + push + s3), 4);
    assert Words(s0 + host + (s1 + http + (s2 + push + s3)), 4) == [host, http, push];
  }
}

/**
 Pairing: the URL and the typed code that the bridge prints, the handheld's parsers of both, and the
 record it keeps on its card. Each parser undoes its printer.
 */
module Pairing {
  import opened Arithmetic
  import opened Options

  const HOST_CAPACITY: nat := 48
  const CODE_CAPACITY: nat := 24
  const BRIDGE_NAME_CAPACITY: nat := 24
  const DEVICE_ID_CAPACITY: nat := 40
  const TOKEN_CAPACITY: nat := 96
  const TIMESTAMP_CAPACITY: nat := 32
  const LINE_CAPACITY: nat := 160
  const MAX_BRIDGE_NAME_LENGTH: nat := 20

  /** Where a character first stands, or the length. */
  function IndexOf(s: string, c: char): (k: nat)
    ensures k <= |s| && (k < |s| ==> s[k] == c)
    ensures forall i :: 0 <= i < k ==> s[i] != c
  {
    if s == "" || s[0] == c then 0 else IndexOf(s[1..], c) + 1
  }

  lemma IndexOfIs(s: string, c: char, k: nat)
    requires k <= |s| && (k < |s| ==> s[k] == c) && forall i :: 0 <= i < k ==> s[i] != c
    ensures IndexOf(s, c) == k
  {
  }

  // ------------------------------------------------------------------ ports ---

  function Digit(d: nat): char
    requires d < 10
  {
    '0' + d as char
  }

  function Decimal(n: nat): (s: string)
    ensures s != ""
  {
    if n < 10 then [Digit(n)] else Decimal(n / 10) + [Digit(n % 10)]
  }

  predicate IsDigit(c: char) {
    '0' <= c <= '9'
  }

  /** The value of a string of digits. */
  function Value(s: string): Option<nat> {
    if s == "" then Some(0)
    else
      var front := Value(s[..|s| - 1]);
      var last := s[|s| - 1];
      if front.None? || !IsDigit(last) then None else Some(10 * front.value + (last as nat - '0' as nat))
  }

  function PortOf(s: string): Option<nat> {
    if s == "" || |s| > 5 || Value(s).None? || Value(s).value == 0 || Value(s).value > 65535 then None else Value(s)
  }

  /** parse_port */
  method ParsePort(value: string) returns (port: Option<nat>)
    ensures port == PortOf(value)
  {
    if |value| == 0 || |value| > 5 {
      return None;
    }
    var parsed := 0;
    for index := 0 to |value|
      invariant Value(value[..index]) == Some(parsed)
    {
      assert value[..index + 1][..index] == value[..index];
      if value[index] < '0' || value[index] > '9' {
        NotANumber(value, index + 1);
        return None;
      }
      parsed := 10 * parsed + (value[index] as nat - '0' as nat);
    }
    assert value[..|value|] == value;
    port := if parsed == 0 || parsed > 65535 then None else Some(parsed);
  }

  lemma {:induction false} NotANumber(s: string, n: nat)
    requires n <= |s| && Value(s[..n]).None?
    ensures Value(s).None?
    decreases |s| - n
  {
    if n < |s| {
      assert s[..n + 1][..n] == s[..n];
      NotANumber(s, n + 1);
    } else {
      assert s[..n] == s;
    }
  }

  lemma {:induction false} DecimalIsRead(n: nat)
    ensures Value(Decimal(n)) == Some(n)
    ensures forall i :: 0 <= i < |Decimal(n)| ==> IsDigit(Decimal(n)[i])
  {
    if n >= 10 {
      DecimalIsRead(n / 10);
      assert Decimal(n)[..|Decimal(n)| - 1] == Decimal(n / 10);
    } else {
      assert Decimal(n)[..0] == "";
    }
  }

  lemma PortIsRead(port: nat)
    requires 0 < port <= 65535
    ensures PortOf(Decimal(port)) == Some(port)
  {
    DecimalIsRead(port);
    assert Power(10, 5) == 100000 by { assert Power(10, 2) == 100 && Power(10, 3) == 1000 && Power(10, 4) == 10000; }
    DecimalIsShort(port, 5);
  }

  lemma {:induction false} DecimalIsShort(n: nat, k: nat)
    requires n < Power(10, k) && k > 0
    ensures |Decimal(n)| <= k
  {
    if n >= 10 {
      DecimalIsShort(n / 10, k - 1);
    }
  }

  // ------------------------------------------------------------------- codes ---

  predicate IsAlnum(c: char) {
    '0' <= c <= '9' || 'A' <= c <= 'Z' || 'a' <= c <= 'z'
  }

  function Upper(c: char): char {
    if 'a' <= c <= 'z' then c - 32 as char else c
  }

  function Normalized(s: string): string {
    if s == "" then ""
    else Normalized(s[..|s| - 1]) + (if IsAlnum(s[|s| - 1]) then [Upper(s[|s| - 1])] else "")
  }

  lemma NormalizedPush(s: string, c: char)
    ensures Normalized(s + [c]) == Normalized(s) + (if IsAlnum(c) then [Upper(c)] else "")
  {
    assert (s + [c])[..|s|] == s;
  }

  /** copy_normalized_code */
  method CopyNormalizedCode(value: string, capacity: nat) returns (code: Option<string>)
    ensures code == if |Normalized(value)| < capacity && Normalized(value) != "" then Some(Normalized(value)) else None
  {
    var destination := "";
    for index := 0 to |value|
      invariant destination == Normalized(value[..index])
      invariant destination == "" || |destination| < capacity
    {
      assert value[..index + 1] == value[..index] + [value[index]];
      NormalizedPush(value[..index], value[index]);
      NormalizedGrows(value, index + 1);
      if IsAlnum(value[index]) {
        if |destination| + 1 >= capacity {
          return None;
        }
        destination := destination + [Upper(value[index])];
      }
    }
    assert value[..|value|] == value;
    code := if destination == "" then None else Some(destination);
  }

  lemma {:induction false} NormalizedGrows(s: string, n: nat)
    requires n <= |s|
    ensures |Normalized(s[..n])| <= |Normalized(s)|
    decreases |s| - n
  {
    if n < |s| {
      assert s[..n + 1] == s[..n] + [s[n]];
      NormalizedPush(s[..n], s[n]);
      NormalizedGrows(s, n + 1);
    } else {
      assert s[..n] == s;
    }
  }

  lemma {:induction false} NormalizedParts(a: string, b: string)
    ensures Normalized(a + b) == Normalized(a) + Normalized(b)
    decreases |b|
  {
    if b == "" {
      assert a + b == a;
    } else {
      assert a + b == (a + b[..|b| - 1]) + [b[|b| - 1]];
      NormalizedPush(a + b[..|b| - 1], b[|b| - 1]);
      NormalizedParts(a, b[..|b| - 1]);
    }
  }

  /** formatPairingCode: groups of four. */
  function FormatPairingCode(code: string): string {
    if |code| <= 4 then code else code[..4] + "-" + FormatPairingCode(code[4..])
  }

  /** Grouping a code changes nothing that normalizing keeps. */
  lemma {:induction false} GroupingIsUndone(code: string)
    ensures Normalized(FormatPairingCode(code)) == Normalized(code)
    decreases |code|
  {
    if |code| > 4 {
      var rest := FormatPairingCode(code[4..]);
      NormalizedParts(code[..4] + "-", rest);
      NormalizedPush(code[..4], '-');
      GroupingIsUndone(code[4..]);
      NormalizedParts(code[..4], code[4..]);
      assert code == code[..4] + code[4..];
    }
  }

  /** A dash after every four characters but at the end. */
  lemma {:induction false} GroupsOfFour(code: string, i: nat)
    requires code != ""
    ensures |FormatPairingCode(code)| == |code| + (|code| - 1) / 4
    ensures i < |FormatPairingCode(code)| ==>
      i - i / 5 < |code| && FormatPairingCode(code)[i] == if i % 5 == 4 then '-' else code[i - i / 5]
    decreases |code|
  {
    if |code| > 4 {
      GroupsOfFour(code[4..], if i < 5 then 0 else i - 5);
      if i >= 5 {
        assert (i - 5) / 5 == i / 5 - 1;
      }
    }
  }

  /** A code as the bridge makes them: capital letters and digits. */
  predicate IsCode(code: string) {
    0 < |code| < CODE_CAPACITY && forall i :: 0 <= i < |code| ==> '0' <= code[i] <= '9' || 'A' <= code[i] <= 'Z'
  }

  lemma {:induction false} CodesAreNormal(code: string)
    requires forall i :: 0 <= i < |code| ==> '0' <= code[i] <= '9' || 'A' <= code[i] <= 'Z'
    ensures Normalized(code) == code
  {
    if code != "" {
      CodesAreNormal(code[..|code| - 1]);
    }
  }

  /** The other case of a letter; anything else as it is. */
  function OtherCase(c: char): char {
    if 'a' <= c <= 'z' then c - 32 as char else if 'A' <= c <= 'Z' then c + 32 as char else c
  }

  function InOtherCase(s: string): (t: string)
    ensures |t| == |s|
  {
    seq(|s|, i requires 0 <= i < |s| => OtherCase(s[i]))
  }

  /** A code may be typed in either case: its letters count as capitals. */
  lemma {:induction false} NormalizingIgnoresCase(s: string)
    ensures Normalized(InOtherCase(s)) == Normalized(s)
    ensures forall i :: 0 <= i < |Normalized(s)| ==> '0' <= Normalized(s)[i] <= '9' || 'A' <= Normalized(s)[i] <= 'Z'
  {
    if s != "" {
      var front := s[..|s| - 1];
      NormalizingIgnoresCase(front);
      assert InOtherCase(s)[..|s| - 1] == InOtherCase(front);
    }
  }

  /** So a code is accepted however it is grouped and whatever the case of its letters. */
  lemma TypedCodeIsAccepted(code: string)
    requires IsCode(code)
    ensures Normalized(InOtherCase(FormatPairingCode(code))) == code && Normalized(FormatPairingCode(code)) == code
  {
    NormalizingIgnoresCase(FormatPairingCode(code));
    GroupingIsUndone(code);
    CodesAreNormal(code);
  }

  // -------------------------------------------------------------- bridge names ---

  predicate IsNameChar(c: char) {
    IsAlnum(c) || c == '.' || c == '_' || c == '-'
  }

  /** One more character: what a name cannot have becomes a dash, and a dash after a dash is dropped. */
  function Joined(front: string, last: char): string {
    var c := if IsNameChar(last) then last else '-';
    if c == '-' && front != "" && front[|front| - 1] == '-' then front else front + [c]
  }

  /** Other characters become dashes, and a dash after a dash is dropped. */
  function Dashed(raw: string): string {
    if raw == "" then "" else Joined(Dashed(raw[..|raw| - 1]), raw[|raw| - 1])
  }

  function TrimDashes(s: string): (t: string)
    ensures |t| <= |s| && (t != "" ==> t[0] != '-' && t[|t| - 1] != '-')
    decreases |s|
  {
    if s != "" && s[0] == '-' then TrimDashes(s[1..])
    else if s != "" && s[|s| - 1] == '-' then TrimDashes(s[..|s| - 1])
    else s
  }

  /** sanitizeBridgeName */
  function SanitizeBridgeName(raw: string): string {
    var dashed := Dashed(raw);
    var cut := if |dashed| > MAX_BRIDGE_NAME_LENGTH then dashed[..MAX_BRIDGE_NAME_LENGTH] else dashed;
    var cleaned := TrimDashes(cut);
    if cleaned != "" then cleaned else "bridge"
  }

  predicate AllNameChars(s: string) {
    forall i :: 0 <= i < |s| ==> IsNameChar(s[i])
  }

  lemma {:induction false} DashedIsClean(raw: string)
    ensures AllNameChars(Dashed(raw))
  {
    if raw != "" {
      DashedIsClean(raw[..|raw| - 1]);
    }
  }

  lemma {:induction false} TrimmedIsClean(s: string)
    requires AllNameChars(s)
    ensures AllNameChars(TrimDashes(s))
    decreases |s|
  {
    if s != "" && s[0] == '-' {
      TrimmedIsClean(s[1..]);
    } else if s != "" && s[|s| - 1] == '-' {
      TrimmedIsClean(s[..|s| - 1]);
    }
  }

  lemma NameFits(raw: string)
    ensures var name := SanitizeBridgeName(raw);
      0 < |name| <= MAX_BRIDGE_NAME_LENGTH && AllNameChars(name)
  {
    var dashed := Dashed(raw);
    DashedIsClean(raw);
    var cut := if |dashed| > MAX_BRIDGE_NAME_LENGTH then dashed[..MAX_BRIDGE_NAME_LENGTH] else dashed;
    TrimmedIsClean(cut);
  }

  /** A name that needs no cleaning. */
  predicate IsCleanName(s: string) {
    && 0 < |s| <= MAX_BRIDGE_NAME_LENGTH && AllNameChars(s)
    && s[0] != '-' && s[|s| - 1] != '-'
    && NoDoubleDash(s)
  }

  predicate NoDoubleDash(s: string) {
    forall i :: 0 <= i < |s| - 1 ==> !(s[i] == '-' && s[i + 1] == '-')
  }

  lemma {:induction false} DashedKeeps(s: string)
    requires AllNameChars(s) && NoDoubleDash(s)
    ensures Dashed(s) == s
  {
    hide IsNameChar, Dashed;
    if s == "" {
      NothingDashed();
    } else {
      var n := |s| - 1;
      DashedKeeps(s[..n]);
      DashedStep(s);
      assert s == s[..n] + [s[n]];
      assert n > 0 ==> s[..n][n - 1] == s[n - 1];
    }
  }

  lemma NothingDashed()
    ensures Dashed("") == ""
  {
  }

  lemma DashedStep(raw: string)
    requires raw != ""
    ensures Dashed(raw) == Joined(Dashed(raw[..|raw| - 1]), raw[|raw| - 1])
  {
    hide Joined;
  }

  lemma {:induction false} DashedHasNoDouble(raw: string)
    ensures NoDoubleDash(Dashed(raw))
  {
    if raw != "" {
      DashedHasNoDouble(raw[..|raw| - 1]);
    }
  }

  lemma {:induction false} TrimmedHasNoDouble(s: string)
    requires NoDoubleDash(s)
    ensures NoDoubleDash(TrimDashes(s))
    decreases |s|
  {
    if s != "" && s[0] == '-' {
      TrimmedHasNoDouble(s[1..]);
    } else if s != "" && s[|s| - 1] == '-' {
      TrimmedHasNoDouble(s[..|s| - 1]);
    }
  }

  /** Whatever a bridge is called, its cleaned name is clean. */
  lemma SanitizedIsClean(raw: string)
    ensures IsCleanName(SanitizeBridgeName(raw))
  {
    NameFits(raw);
    DashedHasNoDouble(raw);
    var dashed := Dashed(raw);
    var cut := if |dashed| > MAX_BRIDGE_NAME_LENGTH then dashed[..MAX_BRIDGE_NAME_LENGTH] else dashed;
    TrimmedHasNoDouble(cut);
  }

  /** Exactly the clean names are kept as they are. */
  lemma CleanNamesAreKept(name: string)
    ensures SanitizeBridgeName(name) == name <==> IsCleanName(name)
  {
    if IsCleanName(name) {
      DashedKeeps(name);
    } else {
      SanitizedIsClean(name);
    }
  }

  lemma {:induction false} DashedParts(a: string, c: char, b: string)
    requires AllNameChars(a) && NoDoubleDash(a) && (a != "" ==> a[|a| - 1] != '-') && !IsNameChar(c)
    requires AllNameChars(b) && NoDoubleDash(b) && (b != "" ==> b[0] != '-')
    ensures Dashed(a + [c] + b) == a + "-" + b
    decreases |b|
  {
    if b == "" {
      assert (a + [c])[..|a|] == a && a + [c] + b == a + [c];
      DashedKeeps(a);
    } else {
      var front := b[..|b| - 1];
      assert (a + [c] + b)[..|a + [c] + b| - 1] == a + [c] + front;
      DashedParts(a, c, front);
      assert a + "-" + b == (a + "-" + front) + [b[|b| - 1]];
      assert |b| > 1 ==> (a + "-" + front)[|a| + |b| - 1] == b[|b| - 2];
    }
  }

  /** A character that a name cannot have becomes a dash. */
  lemma OthersBecomeDashes(a: string, c: char, b: string)
    requires IsCleanName(a) && IsCleanName(b) && !IsNameChar(c) && |a| + 1 + |b| <= MAX_BRIDGE_NAME_LENGTH
    ensures SanitizeBridgeName(a + [c] + b) == a + "-" + b
  {
    DashedParts(a, c, b);
    var dashed := a + "-" + b;
    assert dashed[0] == a[0] && dashed[|dashed| - 1] == b[|b| - 1];
  }

  // ------------------------------------------------------------------- the URL ---

  datatype Bootstrap = Bootstrap(host: string, httpPort: nat, pushPort: nat, code: string, bridgeName: string)

  datatype ParseError = NotAPairingCode | NeedsNewerBuild | MissingInformation | TooFewFields | HostTooLong | BadPort | BadCode

  const URL_PREFIX := "3gent://pair?"

  /** buildPairingUrl */
  function BuildUrl(host: string, httpPort: nat, pushPort: nat, bridgeName: string, code: string): string {
    URL_PREFIX + Field('v', "1") + "&" + (Field('h', host) + "&" + (Field('p', Decimal(httpPort)) + "&" +
    (Field('q', Decimal(pushPort)) + "&" + (Field('c', code) + "&" + Field('n', SanitizeBridgeName(bridgeName))))))
  }

  function Field(key: char, value: string): string {
    [key] + "=" + value
  }

  /** What has been understood so far; a field that could not be used is missing again. */
  datatype Draft = Draft(version: bool, host: Option<string>, httpPort: Option<nat>, pushPort: Option<nat>,
                         code: Option<string>, bridgeName: string)

  function CodeOf(value: string): Option<string> {
    if Normalized(value) != "" && |Normalized(value)| < CODE_CAPACITY then Some(Normalized(value)) else None
  }

  function Understood(d: Draft, key: string, value: string): Result<Draft, ParseError> {
    if |key| != 1 then Ok(d)
    else if key[0] == 'v' then if PortOf(value) == Some(1) then Ok(d.(version := true)) else Err(NeedsNewerBuild)
    else if key[0] == 'h' then Ok(d.(host := if |value| < HOST_CAPACITY then Some(value) else None))
    else if key[0] == 'p' then Ok(d.(httpPort := PortOf(value)))
    else if key[0] == 'q' then Ok(d.(pushPort := PortOf(value)))
    else if key[0] == 'c' then Ok(d.(code := CodeOf(value)))
    else if key[0] == 'n' then Ok(if |value| < BRIDGE_NAME_CAPACITY then d.(bridgeName := value) else d)
    else Ok(d)
  }

  /** The first field of a query, and what follows it. */
  datatype Part = Part(key: string, value: string, rest: string)

  function FirstPart(s: string): (part: Part)
    requires IndexOf(s, '=') < |s|
    ensures |part.rest| < |s|
  {
    var equals := IndexOf(s, '=');
    var next := equals + 1 + IndexOf(s[equals + 1..], '&');
    Part(s[..equals], s[equals + 1..next], if next == |s| then "" else s[next + 1..])
  }

  /** Fields apart by ampersands, each a key and a value apart by the first equals sign. */
  function Fields(d: Draft, s: string): Result<Draft, ParseError>
    decreases |s|
  {
    if IndexOf(s, '=') == |s| then Ok(d)
    else
      match Understood(d, FirstPart(s).key, FirstPart(s).value)
      case Err(error) => Err(error)
      case Ok(d') => Fields(d', FirstPart(s).rest)
  }

  const NOTHING_YET := Draft(false, None, None, None, None, "bridge")

  function Finish(d: Draft): Result<Bootstrap, ParseError> {
    if !d.version || d.host.None? || d.httpPort.None? || d.pushPort.None? || d.code.None? then Err(MissingInformation)
    else Ok(Bootstrap(d.host.value, d.httpPort.value, d.pushPort.value, d.code.value, d.bridgeName))
  }

  function UrlMeans(text: string): Result<Bootstrap, ParseError> {
    if !(URL_PREFIX <= text) then Err(NotAPairingCode)
    else
      match Fields(NOTHING_YET, text[|URL_PREFIX|..])
      case Err(error) => Err(error)
      case Ok(d) => Finish(d)
  }

  /** pairing_parse_url */
  method ParseUrl(text: string) returns (result: Result<Bootstrap, ParseError>)
    ensures result == UrlMeans(text)
  {
    hide Understood, Finish, FirstPart;
    if !(URL_PREFIX <= text) {
      return Err(NotAPairingCode);
    }
    var draft := NOTHING_YET;
    var rest := text[|URL_PREFIX|..];
    while rest != ""
      invariant Fields(NOTHING_YET, text[|URL_PREFIX|..]) == Fields(draft, rest)
      decreases |rest|
    {
      if IndexOf(rest, '=') == |rest| {
        break;
      }
      var part := FirstPart(rest);
      var understood := Understand(draft, part.key, part.value);
      if understood.Err? {
        return Err(understood.error);
      }
      draft, rest := understood.value, part.rest;
    }
    result := Finish(draft);
  }

  /** The switch on a field's key. */
  method Understand(d: Draft, key: string, value: string) returns (result: Result<Draft, ParseError>)
    ensures result == Understood(d, key, value)
  {
    if |key| != 1 {
      return Ok(d);
    }
    if key[0] == 'v' {
      var version := ParsePort(value);
      return if version == Some(1) then Ok(d.(version := true)) else Err(NeedsNewerBuild);
    }
    if key[0] == 'h' {
      return Ok(d.(host := if |value| + 1 > HOST_CAPACITY then None else Some(value)));
    }
    if key[0] == 'p' {
      var port := ParsePort(value);
      return Ok(d.(httpPort := port));
    }
    if key[0] == 'q' {
      var port := ParsePort(value);
      return Ok(d.(pushPort := port));
    }
    if key[0] == 'c' {
      var code := CopyNormalizedCode(value, CODE_CAPACITY);
      return Ok(d.(code := code));
    }
    if key[0] == 'n' && |value| + 1 <= BRIDGE_NAME_CAPACITY {
      return Ok(d.(bridgeName := value));
    }
    return Ok(d);
  }

  predicate Lacks(s: string, c: char) {
    forall i :: 0 <= i < |s| ==> s[i] != c
  }

  lemma FirstField(d: Draft, key: char, value: string, rest: string)
    requires key != '=' && Lacks(value, '&') && Understood(d, [key], value).Ok?
    ensures Fields(d, Field(key, value) + "&" + rest) == Fields(Understood(d, [key], value).value, rest)
  {
    var s := Field(key, value) + "&" + rest;
    IndexOfIs(s, '=', 1);
    assert s[2..] == value + "&" + rest;
    IndexOfIs(s[2..], '&', |value|);
    assert s[..1] == [key] && s[2..2 + |value|] == value && s[2 + |value| + 1..] == rest;
  }

  lemma LastField(d: Draft, key: char, value: string)
    requires key != '=' && Lacks(value, '&') && Understood(d, [key], value).Ok?
    ensures Fields(d, Field(key, value)) == Ok(Understood(d, [key], value).value)
  {
    var s := Field(key, value);
    IndexOfIs(s, '=', 1);
    assert s[2..] == value;
    IndexOfIs(value, '&', |value|);
    assert s[..1] == [key] && s[2..2 + |value|] == value;
  }

  /** Reading the URL the bridge prints gives the endpoint and the code it was made of. */
  lemma UrlIsRead(host: string, httpPort: nat, pushPort: nat, bridgeName: string, code: string)
    requires |host| < HOST_CAPACITY && Lacks(host, '&') && IsCode(code)
    requires 0 < httpPort <= 65535 && 0 < pushPort <= 65535
    ensures UrlMeans(BuildUrl(host, httpPort, pushPort, bridgeName, code))
         == Ok(Bootstrap(host, httpPort, pushPort, code, SanitizeBridgeName(bridgeName)))
  {
    hide Fields, Field, SanitizeBridgeName, Decimal, Value, PortOf, Normalized;
    var name, p, q := SanitizeBridgeName(bridgeName), Decimal(httpPort), Decimal(pushPort);
    NameFits(bridgeName);
    CodesAreNormal(code);
    PortIsRead(httpPort);
    PortIsRead(pushPort);
    DecimalIsRead(httpPort);
    DecimalIsRead(pushPort);
    VersionIsOne();
    var n := Field('n', name);
    var c := Field('c', code) + "&" + n;
    var ports := Field('q', q) + "&" + c;
    var rest := Field('p', p) + "&" + ports;
    var all := Field('v', "1") + "&" + (Field('h', host) + "&" + rest);
    assert BuildUrl(host, httpPort, pushPort, bridgeName, code) == URL_PREFIX + all;
    var d1 := NOTHING_YET.(version := true);
    FirstField(NOTHING_YET, 'v', "1", Field('h', host) + "&" + rest);
    FirstField(d1, 'h', host, rest);
    var d2 := d1.(host := Some(host));
    FirstField(d2, 'p', p, ports);
    var d3 := d2.(httpPort := Some(httpPort));
    FirstField(d3, 'q', q, c);
    var d4 := d3.(pushPort := Some(pushPort));
    FirstField(d4, 'c', code, n);
    LastField(d4.(code := Some(code)), 'n', name);
  }

  lemma VersionIsOne()
    ensures PortOf("1") == Some(1)
  {
    assert "1"[..0] == "";
  }

  // ----------------------------------------------------------- the typed code ---

  /** buildManualCode */
  function BuildManualCode(host: string, httpPort: nat, pushPort: nat, code: string): string {
    host + " " + (Decimal(httpPort) + " " + (Decimal(pushPort) + " " + FormatPairingCode(code)))
  }

  predicate IsSeparator(c: char) {
    c == ' ' || c == '\t' || c == ':' || c == ','
  }

  /** How many separators, or other characters, come first. */
  function Leading(s: string, separators: bool): (n: nat)
    ensures n <= |s| && forall i :: 0 <= i < n ==> IsSeparator(s[i]) == separators
    ensures n < |s| ==> IsSeparator(s[n]) != separators
  {
    if s == "" || IsSeparator(s[0]) != separators then 0 else Leading(s[1..], separators) + 1
  }

  lemma LeadingIs(s: string, separators: bool, n: nat)
    requires n <= |s| && (forall i :: 0 <= i < n ==> IsSeparator(s[i]) == separators)
    requires n < |s| ==> IsSeparator(s[n]) != separators
    ensures Leading(s, separators) == n
  {
  }

  /** The next word, if there is one, and what follows it. */
  function NextOf(s: string): (next: Option<(string, string)>)
    ensures next.Some? ==> |next.value.1| < |s|
  {
    var t := s[Leading(s, true)..];
    if t == "" then None else Some((t[..Leading(t, false)], t[Leading(t, false)..]))
  }

  /** The first few words between separators. */
  function Words(s: string, count: nat): (words: seq<string>)
    ensures |words| <= count
  {
    if count == 0 || NextOf(s).None? then [] else [NextOf(s).value.0] + Words(NextOf(s).value.1, count - 1)
  }

  function ManualMeans(text: string): Result<Bootstrap, ParseError> {
    if URL_PREFIX <= text then UrlMeans(text)
    else
      var words := Words(text, 4);
      if |words| < 4 then Err(TooFewFields)
      else if |words[0]| >= HOST_CAPACITY then Err(HostTooLong)
      else if PortOf(words[1]).None? || PortOf(words[2]).None? then Err(BadPort)
      else if CodeOf(words[3]).None? then Err(BadCode)
      else Ok(Bootstrap(words[0], PortOf(words[1]).value, PortOf(words[2]).value, CodeOf(words[3]).value, "bridge"))
  }

  /** pairing_parse_manual */
  method ParseManual(text: string) returns (result: Result<Bootstrap, ParseError>)
    ensures result == ManualMeans(text)
  {
    hide PortOf, Normalized, UrlMeans;
    if URL_PREFIX <= text {
      result := ParseUrl(text);
      return;
    }
    var fields := FindWords(text);
    if |fields| < 4 {
      return Err(TooFewFields);
    }
    if |fields[0]| + 1 > HOST_CAPACITY {
      return Err(HostTooLong);
    }
    var httpPort := ParsePort(fields[1]);
    var pushPort := ParsePort(fields[2]);
    if httpPort.None? || pushPort.None? {
      return Err(BadPort);
    }
    var code := CopyNormalizedCode(fields[3], CODE_CAPACITY);
    if code.None? {
      return Err(BadCode);
    }
    result := Ok(Bootstrap(fields[0], httpPort.value, pushPort.value, code.value, "bridge"));
  }

  /** The loop over the first four fields. */
  method FindWords(text: string) returns (fields: seq<string>)
    ensures fields == Words(text, 4)
  {
    hide NextOf;
    fields := [];
    var rest := text;
    while rest != "" && |fields| < 4
      invariant |fields| <= 4 && Words(text, 4) == fields + Words(rest, 4 - |fields|)
      decreases 4 - |fields|
    {
      var next := TakeWord(rest);
      if next.None? {
        break;
      }
      assert fields + Words(rest, 4 - |fields|) == fields + [next.value.0] + Words(next.value.1, 3 - |fields|);
      fields := fields + [next.value.0];
      rest := next.value.1;
    }
    assert rest == "" ==> NextOf(rest).None? by { NothingLeft(); }
  }

  lemma NothingLeft()
    ensures NextOf("").None?
  {
  }

  method TakeWord(s: string) returns (next: Option<(string, string)>)
    ensures next == NextOf(s)
  {
    hide Leading;
    var skip := Count(s, true);
    var rest := s[skip..];
    if rest == "" {
      return None;
    }
    var length := Count(rest, false);
    next := Some((rest[..length], rest[length..]));
  }

  /** The two inner loops: over separators, and over anything else. */
  method Count(s: string, separators: bool) returns (n: nat)
    ensures n == Leading(s, separators)
  {
    n := 0;
    while n < |s| && IsSeparator(s[n]) == separators
      invariant n <= |s| && forall i :: 0 <= i < n ==> IsSeparator(s[i]) == separators
    {
      n := n + 1;
    }
    LeadingIs(s, separators, n);
  }

  /** A word that a typed code may hold: not empty, and without separators. */
  predicate IsWord(s: string) {
    s != "" && forall i :: 0 <= i < |s| ==> !IsSeparator(s[i])
  }

  lemma NextWord(word: string, rest: string, count: nat)
    requires IsWord(word) && count > 0
    ensures Words(word + " " + rest, count) == [word] + Words(" " + rest, count - 1)
  {
    var s := word + " " + rest;
    LeadingIs(s, true, 0);
    assert s[0..] == s;
    LeadingIs(s, false, |word|);
    assert s[..|word|] == word && s[|word|..] == " " + rest;
  }

  lemma SkipSpace(word: string, rest: string, count: nat)
    requires IsWord(word)
    ensures Words(" " + (word + rest), count) == Words(word + rest, count)
  {
    var s, t := " " + (word + rest), word + rest;
    LeadingIs(s, true, 1);
    LeadingIs(t, true, 0);
    assert s[1..] == t && t[0..] == t;
  }

  lemma LastWord(word: string)
    requires IsWord(word)
    ensures Words(word, 1) == [word]
  {
    LeadingIs(word, true, 0);
    LeadingIs(word, false, |word|);
    assert word[0..] == word && word[..|word|] == word;
  }

  lemma {:induction false} GroupedIsWord(code: string)
    requires code != "" && forall i :: 0 <= i < |code| ==> IsAlnum(code[i])
    ensures IsWord(FormatPairingCode(code))
    decreases |code|
  {
    if |code| > 4 {
      GroupedIsWord(code[4..]);
      var rest := FormatPairingCode(code[4..]);
      forall i | 0 <= i < |FormatPairingCode(code)|
        ensures !IsSeparator(FormatPairingCode(code)[i])
      {
        assert i >= 5 ==> FormatPairingCode(code)[i] == rest[i - 5];
      }
    }
  }

  /** Typing what the bridge prints gives the endpoint and the code it was made of. */
  lemma ManualCodeIsRead(host: string, httpPort: nat, pushPort: nat, code: string)
    requires IsWord(host) && |host| < HOST_CAPACITY && IsCode(code)
    requires 0 < httpPort <= 65535 && 0 < pushPort <= 65535
    ensures ManualMeans(BuildManualCode(host, httpPort, pushPort, code)) == Ok(Bootstrap(host, httpPort, pushPort, code, "bridge"))
  {
    hide Words, Decimal, Value, PortOf, Normalized, FormatPairingCode, UrlMeans, Leading;
    var p, q, grouped := Decimal(httpPort), Decimal(pushPort), FormatPairingCode(code);
    PortIsRead(httpPort);
    PortIsRead(pushPort);
    DecimalIsRead(httpPort);
    DecimalIsRead(pushPort);
    GroupedIsWord(code);
    GroupingIsUndone(code);
    CodesAreNormal(code);
    var tail := q + " " + grouped;
    var text := host + " " + (p + " " + tail);
    NextWord(host, p + " " + tail, 4);
    SkipSpace(p, " " + tail, 3);
    assert p + (" " + tail) == p + " " + tail;
    NextWord(p, tail, 3);
    SkipSpace(q, " " + grouped, 2);
    assert q + (" " + grouped) == q + " " + grouped;
    NextWord(q, grouped, 2);
    SkipSpace(grouped, "", 1);
    assert grouped + "" == grouped;
    LastWord(grouped);
    assert Words(text, 4) == [host, p, q, grouped];
    NotAUrl(host, p + " " + tail);
  }

  /** A host without separators cannot begin like the URL, which has a colon in its prefix. */
  lemma NotAUrl(host: string, rest: string)
    requires IsWord(host)
    ensures !(URL_PREFIX <= host + " " + rest)
  {
    var text := host + " " + rest;
    if |host| <= 5 {
      assert text[|host|] == ' ';
      assert forall i :: 0 <= i < 6 ==> URL_PREFIX[i] != ' ';
    } else {
      assert text[5] == host[5] && URL_PREFIX[5] == ':';
    }
  }
}

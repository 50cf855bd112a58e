/** The pairing record on the handheld's card: saved as lines of key and value, and loaded again. */
module PairingRecord {
  import opened Options
  import opened Pairing

  datatype Record = Record(
    host: string,
    httpPort: nat,
    pushPort: nat,
    bridgeName: string,
    deviceId: string,
    token: string,
    pairedAt: string)

  const PORT_TEXT_CAPACITY: nat := 8

  // ------------------------------------------------------------------ saving ---

  function Entry(key: string, value: string): string {
    key + "=" + value
  }

  function LinesText(lines: seq<string>): string {
    if lines == [] then "" else lines[0] + "\n" + LinesText(lines[1..])
  }

  function Entries(r: Record): (entries: seq<string>)
    ensures |entries| == 8
  {
    [Entry("version", "1"), Entry("host", r.host), Entry("http_port", Decimal(r.httpPort)), Entry("push_port", Decimal(r.pushPort)),
     Entry("bridge", r.bridgeName), Entry("device_id", r.deviceId), Entry("token", r.token), Entry("paired_at", r.pairedAt)]
  }

  /** pairing_save: the whole text of the file. */
  function Saved(r: Record): string {
    LinesText(Entries(r))
  }

  // ----------------------------------------------------------------- loading ---

  /** The strings that the file's lines are read into. */
  datatype Stored = Stored(
    version: string,
    host: string,
    httpPort: string,
    pushPort: string,
    bridgeName: string,
    deviceId: string,
    token: string,
    pairedAt: string)

  const EMPTY := Stored("", "", "", "", "", "", "", "")

  /** snprintf into a field of some capacity. */
  function Cut(value: string, capacity: nat): string
    requires capacity > 0
  {
    if |value| < capacity then value else value[..capacity - 1]
  }

  predicate HasKey(line: string, key: string) {
    key + "=" <= line
  }

  function ValueOf(line: string, key: string): string
    requires HasKey(line, key)
  {
    line[|key| + 1..]
  }

  /** The chain of read_field calls. */
  function Applied(s: Stored, line: string): Stored {
    if HasKey(line, "version") then s.(version := Cut(ValueOf(line, "version"), PORT_TEXT_CAPACITY))
    else if HasKey(line, "host") then s.(host := Cut(ValueOf(line, "host"), HOST_CAPACITY))
    else if HasKey(line, "http_port") then s.(httpPort := Cut(ValueOf(line, "http_port"), PORT_TEXT_CAPACITY))
    else if HasKey(line, "push_port") then s.(pushPort := Cut(ValueOf(line, "push_port"), PORT_TEXT_CAPACITY))
    else if HasKey(line, "bridge") then s.(bridgeName := Cut(ValueOf(line, "bridge"), BRIDGE_NAME_CAPACITY))
    else if HasKey(line, "device_id") then s.(deviceId := Cut(ValueOf(line, "device_id"), DEVICE_ID_CAPACITY))
    else if HasKey(line, "token") then s.(token := Cut(ValueOf(line, "token"), TOKEN_CAPACITY))
    else if HasKey(line, "paired_at") then s.(pairedAt := Cut(ValueOf(line, "paired_at"), TIMESTAMP_CAPACITY))
    else s
  }

  /** How much of the file fgets takes: through the next newline, but no more than the line buffer holds. */
  function LineLength(s: string): (n: nat)
    requires s != ""
    ensures 0 < n <= |s|
  {
    var k := IndexOf(s, '\n');
    var n := if k < |s| then k + 1 else k;
    if n < LINE_CAPACITY then n else LINE_CAPACITY - 1
  }

  function WithoutLineEnd(line: string): string {
    if line != "" && (line[|line| - 1] == '\n' || line[|line| - 1] == '\r') then WithoutLineEnd(line[..|line| - 1]) else line
  }

  function AllApplied(s: Stored, file: string): Stored
    decreases |file|
  {
    if file == "" then s
    else AllApplied(Applied(s, WithoutLineEnd(file[..LineLength(file)])), file[LineLength(file)..])
  }

  function Accepted(s: Stored): Option<Record> {
    if s.version != "1" || s.host == "" || s.token == "" || PortOf(s.httpPort).None? || PortOf(s.pushPort).None? then None
    else Some(Record(s.host, PortOf(s.httpPort).value, PortOf(s.pushPort).value,
                     if s.bridgeName == "" then "bridge" else s.bridgeName, s.deviceId, s.token, s.pairedAt))
  }

  /** pairing_load, from the text of the file. */
  method Load(file: string) returns (record: Option<Record>)
    ensures record == Accepted(AllApplied(EMPTY, file))
  {
    hide Applied, LineLength, WithoutLineEnd, PortOf;
    var stored := EMPTY;
    var rest := file;
    while rest != ""
      invariant AllApplied(EMPTY, file) == AllApplied(stored, rest)
      decreases |rest|
    {
      var taken := LineLength(rest);
      var line := rest[..taken];
      while line != "" && (line[|line| - 1] == '\n' || line[|line| - 1] == '\r')
        invariant WithoutLineEnd(line) == WithoutLineEnd(rest[..taken])
        decreases |line|
      {
        LineEndDropped(line);
        line := line[..|line| - 1];
      }
      NoLineEnd(line);
      if line != "" {
        stored := Applied(stored, line);
      } else {
        EmptyLineChangesNothing(stored);
      }
      rest := rest[taken..];
    }
    var httpPort := ParsePort(stored.httpPort);
    var pushPort := ParsePort(stored.pushPort);
    if stored.version != "1" || stored.host == "" || stored.token == "" || httpPort.None? || pushPort.None? {
      return None;
    }
    var bridgeName := if stored.bridgeName == "" then "bridge" else stored.bridgeName;
    record := Some(Record(stored.host, httpPort.value, pushPort.value, bridgeName, stored.deviceId, stored.token, stored.pairedAt));
  }

  lemma LineEndDropped(line: string)
    requires line != "" && (line[|line| - 1] == '\n' || line[|line| - 1] == '\r')
    ensures WithoutLineEnd(line) == WithoutLineEnd(line[..|line| - 1])
  {
  }

  lemma NoLineEnd(line: string)
    requires line == "" || (line[|line| - 1] != '\n' && line[|line| - 1] != '\r')
    ensures WithoutLineEnd(line) == line
  {
  }

  lemma EmptyLineChangesNothing(s: Stored)
    ensures Applied(s, "") == s
  {
  }

  // -------------------------------------------------------------- round trip ---

  predicate OneLine(s: string) {
    forall i :: 0 <= i < |s| ==> s[i] != '\n' && s[i] != '\r'
  }

  /** A record as pairing makes them: every field fits, and none holds a line break. */
  predicate IsRecord(r: Record) {
    && 0 < |r.host| < HOST_CAPACITY && OneLine(r.host)
    && 0 < r.httpPort <= 65535 && 0 < r.pushPort <= 65535
    && 0 < |r.bridgeName| < BRIDGE_NAME_CAPACITY && OneLine(r.bridgeName)
    && |r.deviceId| < DEVICE_ID_CAPACITY && OneLine(r.deviceId)
    && 0 < |r.token| < TOKEN_CAPACITY && OneLine(r.token)
    && |r.pairedAt| < TIMESTAMP_CAPACITY && OneLine(r.pairedAt)
  }

  lemma LineIsApplied(s: Stored, line: string, rest: string)
    requires OneLine(line) && |line| + 1 < LINE_CAPACITY
    ensures AllApplied(s, line + "\n" + rest) == AllApplied(Applied(s, line), rest)
  {
    hide Applied;
    var file := line + "\n" + rest;
    IndexOfIs(file, '\n', |line|);
    assert file[..|line| + 1] == line + "\n" && file[|line| + 1..] == rest;
    LineEndDropped(line + "\n");
    assert (line + "\n")[..|line|] == line;
    NoLineEnd(line);
  }

  function ApplyLines(s: Stored, lines: seq<string>): Stored
    decreases |lines|
  {
    if lines == [] then s else ApplyLines(Applied(s, lines[0]), lines[1..])
  }

  lemma {:induction false} LinesAreApplied(s: Stored, lines: seq<string>)
    requires forall i :: 0 <= i < |lines| ==> OneLine(lines[i]) && |lines[i]| + 1 < LINE_CAPACITY
    ensures AllApplied(s, LinesText(lines)) == ApplyLines(s, lines)
    decreases |lines|
  {
    hide Applied, AllApplied;
    if lines == [] {
      NothingToApply(s);
    } else {
      LineIsApplied(s, lines[0], LinesText(lines[1..]));
      LinesAreApplied(Applied(s, lines[0]), lines[1..]);
    }
  }

  lemma NothingToApply(s: Stored)
    ensures AllApplied(s, "") == s
  {
  }

  /** Which key an entry has, and its value. */
  lemma EntryIsRead(key: string, value: string, other: string)
    requires IndexOf(key, '=') == |key| && IndexOf(other, '=') == |other|
    ensures HasKey(Entry(key, value), other) <==> key == other
    ensures ValueOf(Entry(key, value), key) == value
  {
    var line := Entry(key, value);
    assert line[..|key| + 1] == key + "=";
    if HasKey(line, other) {
      assert line[|other|] == (other + "=")[|other|] == '=';
      assert forall i :: 0 <= i < |other| ==> line[i] == (other + "=")[i];
      IndexOfIs(line, '=', |key|);
      IndexOfIs(line, '=', |other|);
      assert key == line[..|key|] && other == line[..|other|];
    }
  }

  /** The keys, in the order they are saved. */
  function Key(i: nat): (key: string)
    requires i < 8
    ensures 0 < |key| < 10
  {
    match i
    case 0 => "version"
    case 1 => "host"
    case 2 => "http_port"
    case 3 => "push_port"
    case 4 => "bridge"
    case 5 => "device_id"
    case 6 => "token"
    case _ => "paired_at"
  }

  predicate IsLetters(key: string) {
    forall i :: 0 <= i < |key| ==> 'a' <= key[i] <= 'z' || key[i] == '_'
  }

  lemma KeysAreLetters(i: nat)
    requires i < 8
    ensures IsLetters(Key(i))
  {
  }

  lemma KeysHaveNoEquals(i: nat)
    requires i < 8
    ensures IndexOf(Key(i), '=') == |Key(i)| && OneLine(Key(i))
  {
    KeysAreLetters(i);
    hide Key;
    IndexOfIs(Key(i), '=', |Key(i)|);
  }

  lemma KeysDiffer(i: nat, j: nat)
    requires i < j < 8
    ensures Key(i) != Key(j)
  {
  }

  /** An entry has the key it was made with and no other. */
  lemma EntryHasOneKey(i: nat, value: string, j: nat)
    requires i < 8 && j < 8
    ensures HasKey(Entry(Key(i), value), Key(j)) <==> i == j
    ensures ValueOf(Entry(Key(i), value), Key(i)) == value
  {
    KeysHaveNoEquals(i);
    KeysHaveNoEquals(j);
    EntryIsRead(Key(i), value, Key(j));
    if i < j {
      KeysDiffer(i, j);
    } else if j < i {
      KeysDiffer(j, i);
    }
  }

  function Put(s: Stored, i: nat, value: string): Stored
    requires i < 8
  {
    match i
    case 0 => s.(version := Cut(value, PORT_TEXT_CAPACITY))
    case 1 => s.(host := Cut(value, HOST_CAPACITY))
    case 2 => s.(httpPort := Cut(value, PORT_TEXT_CAPACITY))
    case 3 => s.(pushPort := Cut(value, PORT_TEXT_CAPACITY))
    case 4 => s.(bridgeName := Cut(value, BRIDGE_NAME_CAPACITY))
    case 5 => s.(deviceId := Cut(value, DEVICE_ID_CAPACITY))
    case 6 => s.(token := Cut(value, TOKEN_CAPACITY))
    case _ => s.(pairedAt := Cut(value, TIMESTAMP_CAPACITY))
  }

  lemma EntryIsPut(s: Stored, i: nat, value: string)
    requires i < 8
    ensures Applied(s, Entry(Key(i), value)) == Put(s, i, value)
  {
    hide Entry, HasKey, ValueOf, Cut;
    EntryHasOneKey(i, value, 0);
    EntryHasOneKey(i, value, 1);
    EntryHasOneKey(i, value, 2);
    EntryHasOneKey(i, value, 3);
    EntryHasOneKey(i, value, 4);
    EntryHasOneKey(i, value, 5);
    EntryHasOneKey(i, value, 6);
    EntryHasOneKey(i, value, 7);
  }

  lemma ApplyFirst(s: Stored, i: nat, value: string, rest: seq<string>)
    requires i < 8
    ensures ApplyLines(s, [Entry(Key(i), value)] + rest) == ApplyLines(Put(s, i, value), rest)
  {
    hide Applied, Entry, Put;
    EntryIsPut(s, i, value);
    assert ([Entry(Key(i), value)] + rest)[1..] == rest;
  }

  /** All the values of a record, in the order they are saved. */
  function Values(r: Record): (values: seq<string>)
    ensures |values| == 8
  {
    ["1", r.host, Decimal(r.httpPort), Decimal(r.pushPort), r.bridgeName, r.deviceId, r.token, r.pairedAt]
  }

  function EntriesFrom(values: seq<string>, i: nat): seq<string>
    requires |values| == 8 && i <= 8
    decreases 8 - i
  {
    if i == 8 then [] else [Entry(Key(i), values[i])] + EntriesFrom(values, i + 1)
  }

  function PutFrom(s: Stored, values: seq<string>, i: nat): Stored
    requires |values| == 8 && i <= 8
    decreases 8 - i
  {
    if i == 8 then s else PutFrom(Put(s, i, values[i]), values, i + 1)
  }

  lemma {:induction false} EntriesArePut(s: Stored, values: seq<string>, i: nat)
    requires |values| == 8 && i <= 8
    ensures ApplyLines(s, EntriesFrom(values, i)) == PutFrom(s, values, i)
    decreases 8 - i
  {
    hide Entry, Put, Applied;
    if i < 8 {
      ApplyFirst(s, i, values[i], EntriesFrom(values, i + 1));
      EntriesArePut(Put(s, i, values[i]), values, i + 1);
    }
  }

  lemma EntriesTwo(values: seq<string>, i: nat)
    requires |values| == 8 && i <= 6
    ensures EntriesFrom(values, i)
         == [Entry(Key(i), values[i]), Entry(Key(i + 1), values[i + 1])] + EntriesFrom(values, i + 2)
  {
    hide Entry;
  }

  lemma PutTwo(s: Stored, values: seq<string>, i: nat)
    requires |values| == 8 && i <= 6
    ensures PutFrom(s, values, i) == PutFrom(Put(Put(s, i, values[i]), i + 1, values[i + 1]), values, i + 2)
  {
    hide Put;
  }

  lemma EntriesAre(r: Record)
    ensures Entries(r) == EntriesFrom(Values(r), 0)
  {
    hide Entry, EntriesFrom;
    var values := Values(r);
    EntriesTwo(values, 0);
    EntriesTwo(values, 2);
    EntriesTwo(values, 4);
    EntriesTwo(values, 6);
    NoMoreEntries(values);
  }

  lemma NoMoreEntries(values: seq<string>)
    requires |values| == 8
    ensures EntriesFrom(values, 8) == [] && forall s :: PutFrom(s, values, 8) == s
  {
  }

  lemma PortTextIsShort(port: nat)
    requires 0 < port <= 65535
    ensures |Decimal(port)| <= 5 && OneLine(Decimal(port))
  {
    PortIsRead(port);
    DecimalIsRead(port);
  }

  lemma ValuesFit(r: Record, i: nat)
    requires IsRecord(r) && i < 8
    ensures OneLine(Entry(Key(i), Values(r)[i])) && |Entry(Key(i), Values(r)[i])| + 1 < LINE_CAPACITY
  {
    hide Decimal;
    KeysHaveNoEquals(i);
    PortTextIsShort(r.httpPort);
    PortTextIsShort(r.pushPort);
  }

  /** Loading what was saved gives the record. */
  lemma SavedIsLoaded(r: Record)
    requires IsRecord(r)
    ensures Accepted(AllApplied(EMPTY, Saved(r))) == Some(r)
  {
    hide Entry, Entries, Decimal, PortOf, AllApplied, ApplyLines, LinesText, PutFrom, EntriesFrom;
    var values := Values(r);
    EntriesAre(r);
    forall i | 0 <= i < 8
      ensures OneLine(Entries(r)[i]) && |Entries(r)[i]| + 1 < LINE_CAPACITY
    {
      EntryAt(r, i);
      ValuesFit(r, i);
    }
    LinesAreApplied(EMPTY, Entries(r));
    EntriesArePut(EMPTY, values, 0);
    RecordIsAccepted(r);
  }

  lemma EntryAt(r: Record, i: nat)
    requires i < 8
    ensures Entries(r)[i] == Entry(Key(i), Values(r)[i])
  {
    hide Entry;
  }

  lemma RecordIsAccepted(r: Record)
    requires IsRecord(r)
    ensures Accepted(PutFrom(EMPTY, Values(r), 0)) == Some(r)
  {
    hide Decimal, PortOf, PutFrom;
    var v := Values(r);
    PortIsRead(r.httpPort);
    PortIsRead(r.pushPort);
    PortTextIsShort(r.httpPort);
    PortTextIsShort(r.pushPort);
    var s2 := EMPTY.(version := "1", host := r.host);
    var s4 := s2.(httpPort := v[2], pushPort := v[3]);
    var s6 := s4.(bridgeName := r.bridgeName, deviceId := r.deviceId);
    PutTwo(EMPTY, v, 0);
    PutTwo(s2, v, 2);
    PutTwo(s4, v, 4);
    PutTwo(s6, v, 6);
    NoMoreEntries(v);
  }

  // ------------------------------------------------------- any file of entries ---

  datatype KeyValue = KeyValue(key: string, value: string)

  /** An entry that stands on one line of the file. */
  predicate IsEntry(e: KeyValue) {
    IndexOf(e.key, '=') == |e.key| && OneLine(e.key) && OneLine(e.value) && |e.key| + |e.value| + 2 < LINE_CAPACITY
  }

  function TextOf(entries: seq<KeyValue>): string {
    if entries == [] then "" else Entry(entries[0].key, entries[0].value) + "\n" + TextOf(entries[1..])
  }

  /** What the last entry with this key leaves in a field of some capacity; nothing if there is none. */
  function LastCut(entries: seq<KeyValue>, key: string, capacity: nat, before: string): string
    requires capacity > 0
  {
    if entries == [] then before
    else LastCut(entries[1..], key, capacity, if entries[0].key == key then Cut(entries[0].value, capacity) else before)
  }

  /** The fields after reading these entries. */
  function StoredFrom(entries: seq<KeyValue>, s: Stored): Stored {
    Stored(LastCut(entries, "version", PORT_TEXT_CAPACITY, s.version), LastCut(entries, "host", HOST_CAPACITY, s.host),
           LastCut(entries, "http_port", PORT_TEXT_CAPACITY, s.httpPort), LastCut(entries, "push_port", PORT_TEXT_CAPACITY, s.pushPort),
           LastCut(entries, "bridge", BRIDGE_NAME_CAPACITY, s.bridgeName), LastCut(entries, "device_id", DEVICE_ID_CAPACITY, s.deviceId),
           LastCut(entries, "token", TOKEN_CAPACITY, s.token), LastCut(entries, "paired_at", TIMESTAMP_CAPACITY, s.pairedAt))
  }

  /** An entry sets the field its key names, and an entry with another key none. */
  lemma EntryIsApplied(s: Stored, key: string, value: string)
    requires IndexOf(key, '=') == |key|
    ensures Applied(s, Entry(key, value))
         == Stored(if key == "version" then Cut(value, PORT_TEXT_CAPACITY) else s.version,
                   if key == "host" then Cut(value, HOST_CAPACITY) else s.host,
                   if key == "http_port" then Cut(value, PORT_TEXT_CAPACITY) else s.httpPort,
                   if key == "push_port" then Cut(value, PORT_TEXT_CAPACITY) else s.pushPort,
                   if key == "bridge" then Cut(value, BRIDGE_NAME_CAPACITY) else s.bridgeName,
                   if key == "device_id" then Cut(value, DEVICE_ID_CAPACITY) else s.deviceId,
                   if key == "token" then Cut(value, TOKEN_CAPACITY) else s.token,
                   if key == "paired_at" then Cut(value, TIMESTAMP_CAPACITY) else s.pairedAt)
  {
    hide Cut, Entry, HasKey, ValueOf, IndexOf;
    KeysArePlain();
    EntryIsRead(key, value, "version");
    EntryIsRead(key, value, "host");
    EntryIsRead(key, value, "http_port");
    EntryIsRead(key, value, "push_port");
    EntryIsRead(key, value, "bridge");
    EntryIsRead(key, value, "device_id");
    EntryIsRead(key, value, "token");
    EntryIsRead(key, value, "paired_at");
  }

  lemma KeysArePlain()
    ensures IndexOf("version", '=') == |"version"| && IndexOf("host", '=') == |"host"|
    ensures IndexOf("http_port", '=') == |"http_port"| && IndexOf("push_port", '=') == |"push_port"|
    ensures IndexOf("bridge", '=') == |"bridge"| && IndexOf("device_id", '=') == |"device_id"|
    ensures IndexOf("token", '=') == |"token"| && IndexOf("paired_at", '=') == |"paired_at"|
  {
    hide IndexOf;
    KeysHaveNoEquals(0);
    KeysHaveNoEquals(1);
    KeysHaveNoEquals(2);
    KeysHaveNoEquals(3);
    KeysHaveNoEquals(4);
    KeysHaveNoEquals(5);
    KeysHaveNoEquals(6);
    KeysHaveNoEquals(7);
  }

  lemma EntryIsLine(e: KeyValue)
    requires IsEntry(e)
    ensures OneLine(Entry(e.key, e.value)) && |Entry(e.key, e.value)| + 1 < LINE_CAPACITY
  {
  }

  /** Entries may come in any order and among unknown ones, and of several with the same key the last decides. */
  lemma {:induction false} EntriesInAnyOrder(s: Stored, entries: seq<KeyValue>)
    requires forall i :: 0 <= i < |entries| ==> IsEntry(entries[i])
    ensures AllApplied(s, TextOf(entries)) == StoredFrom(entries, s)
    decreases |entries|
  {
    hide Applied, AllApplied, Cut, Entry, IsEntry;
    if entries == [] {
      NothingToApply(s);
    } else {
      var e, rest := entries[0], entries[1..];
      EntryIsLine(e);
      LineIsApplied(s, Entry(e.key, e.value), TextOf(rest));
      EntryKeyIsPlain(e);
      EntryIsApplied(s, e.key, e.value);
      EntriesInAnyOrder(Applied(s, Entry(e.key, e.value)), rest);
    }
  }

  lemma EntryKeyIsPlain(e: KeyValue)
    requires IsEntry(e)
    ensures IndexOf(e.key, '=') == |e.key|
  {
  }
}

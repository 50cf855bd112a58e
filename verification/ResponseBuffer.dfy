/** The handheld's response text: a bounded tail of everything appended, in one NUL-terminated buffer. */
module ResponseBuffer {
  import opened Framing

  const THREEGENT_RESPONSE_CAPACITY: nat := 4096
  const NUL: byte := 0

  /** strlen, or the length if there is no NUL. */
  function StringLength(s: seq<byte>): (n: nat)
    ensures n <= |s| && (n < |s| ==> s[n] == NUL)
    ensures forall i :: 0 <= i < n ==> s[i] != NUL
  {
    if s == [] || s[0] == NUL then 0 else 1 + StringLength(s[1..])
  }

  lemma StringLengthIs(s: seq<byte>, n: nat)
    requires n < |s| && s[n] == NUL && forall i :: 0 <= i < n ==> s[i] != NUL
    ensures StringLength(s) == n
  {
  }

  // -------------------------------------------------------------- meaning ---

  /** How much is dropped from the front when needed bytes must go: up to and with the next newline if there is one. */
  function Dropped(text: seq<byte>, needed: nat): (drop: nat)
    requires needed <= |text|
    ensures needed <= drop <= |text|
    ensures HasNewline(text[needed..]) ==> EndsLineFrom(text, needed, drop)
    ensures !HasNewline(text[needed..]) ==> drop == needed
  {
    var k := IndexOfNewline(text[needed..]);
    if k < |text| - needed then needed + k + 1 else needed
  }

  function Appended(text: seq<byte>, more: seq<byte>): seq<byte> {
    if more == [] then text
    else if |more| + 1 >= THREEGENT_RESPONSE_CAPACITY then more[|more| - (THREEGENT_RESPONSE_CAPACITY - 1)..]
    else if |text| < THREEGENT_RESPONSE_CAPACITY && |text| + |more| + 1 > THREEGENT_RESPONSE_CAPACITY then
      text[Dropped(text, |text| + |more| + 1 - THREEGENT_RESPONSE_CAPACITY)..] + more
    else text + more
  }

  /** Appending pieces one after another to a cleared buffer. */
  function AppendedAll(pieces: seq<seq<byte>>): seq<byte> {
    if pieces == [] then [] else Appended(AppendedAll(pieces[..|pieces| - 1]), pieces[|pieces| - 1])
  }

  function Concat(pieces: seq<seq<byte>>): seq<byte> {
    if pieces == [] then [] else Concat(pieces[..|pieces| - 1]) + pieces[|pieces| - 1]
  }

  predicate IsSuffix(part: seq<byte>, whole: seq<byte>) {
    |part| <= |whole| && part == whole[|whole| - |part|..]
  }

  /** After any sequence of appends: the end of everything appended, within the buffer. */
  lemma {:induction false} TailOfEverything(pieces: seq<seq<byte>>)
    ensures IsSuffix(AppendedAll(pieces), Concat(pieces))
    ensures |AppendedAll(pieces)| < THREEGENT_RESPONSE_CAPACITY
  {
    if pieces != [] {
      var front, last := pieces[..|pieces| - 1], pieces[|pieces| - 1];
      TailOfEverything(front);
      SuffixGrows(AppendedAll(front), Concat(front), last);
    }
  }

  lemma SuffixGrows(text: seq<byte>, whole: seq<byte>, more: seq<byte>)
    requires IsSuffix(text, whole) && |text| < THREEGENT_RESPONSE_CAPACITY
    ensures IsSuffix(Appended(text, more), whole + more) && |Appended(text, more)| < THREEGENT_RESPONSE_CAPACITY
  {
    hide Dropped, IsSuffix;
    if more == [] {
      assert whole + more == whole;
    } else if |more| + 1 >= THREEGENT_RESPONSE_CAPACITY {
      SuffixOfParts(whole, |more| - (THREEGENT_RESPONSE_CAPACITY - 1), more);
    } else if |text| + |more| + 1 > THREEGENT_RESPONSE_CAPACITY {
      PartlyDropped(text, whole, Dropped(text, |text| + |more| + 1 - THREEGENT_RESPONSE_CAPACITY), more);
    } else {
      PartlyDropped(text, whole, 0, more);
      assert text[0..] == text;
    }
  }

  lemma SuffixOfParts(whole: seq<byte>, drop: nat, more: seq<byte>)
    requires drop <= |more|
    ensures IsSuffix(more[drop..], whole + more)
  {
  }

  lemma PartlyDropped(text: seq<byte>, whole: seq<byte>, drop: nat, more: seq<byte>)
    requires IsSuffix(text, whole) && drop <= |text|
    ensures IsSuffix(text[drop..] + more, whole + more)
  {
    var part := text[drop..] + more;
    assert part == (whole + more)[|whole + more| - |part|..];
  }

  /**
   The newest text is there whole if it fits at all, and everything before it too if there is room.
   Otherwise what was there loses as little as makes room, or as much more as reaches the end of a line.
   */
  lemma AppendKeepsTheNewest(text: seq<byte>, more: seq<byte>) returns (drop: nat)
    requires |text| < THREEGENT_RESPONSE_CAPACITY
    ensures |more| < THREEGENT_RESPONSE_CAPACITY ==> IsSuffix(more, Appended(text, more))
    ensures |text| + |more| < THREEGENT_RESPONSE_CAPACITY ==> Appended(text, more) == text + more
    ensures |text| + |more| >= THREEGENT_RESPONSE_CAPACITY && |more| + 1 < THREEGENT_RESPONSE_CAPACITY && more != [] ==>
              var needed := |text| + |more| + 1 - THREEGENT_RESPONSE_CAPACITY;
              && needed <= drop <= |text| && Appended(text, more) == text[drop..] + more
              && (if HasNewline(text[needed..]) then EndsLineFrom(text, needed, drop) else drop == needed)
  {
    hide Dropped, HasNewline;
    drop := 0;
    if |text| + |more| >= THREEGENT_RESPONSE_CAPACITY && |more| + 1 < THREEGENT_RESPONSE_CAPACITY && more != [] {
      drop := Dropped(text, |text| + |more| + 1 - THREEGENT_RESPONSE_CAPACITY);
    }
  }

  /** The bytes up to drop end in a newline, the first one from needed on. */
  ghost predicate EndsLineFrom(text: seq<byte>, needed: nat, drop: nat) {
    && needed < drop <= |text| && text[drop - 1] == NEWLINE
    && forall i :: needed <= i < drop - 1 ==> text[i] != NEWLINE
  }

  // ------------------------------------------------------------ the buffer ---

  class Response {
    const buffer: array<byte>

    ghost predicate Valid()
      reads buffer
    {
      buffer.Length == THREEGENT_RESPONSE_CAPACITY && StringLength(buffer[..]) < buffer.Length
    }

    function Text(): (text: seq<byte>)
      requires Valid()
      reads buffer
    {
      buffer[..StringLength(buffer[..])]
    }

    constructor ()
      ensures Valid() && Text() == [] && fresh(buffer)
    {
      buffer := new byte[THREEGENT_RESPONSE_CAPACITY](_ => NUL);
    }

    /** clear_response */
    method Clear()
      requires Valid()
      modifies buffer
      ensures Valid() && Text() == []
    {
      buffer[0] := NUL;
      StringLengthIs(buffer[..], 0);
    }

    /** strlen */
    method Used() returns (used: nat)
      requires Valid()
      ensures used == |Text()|
    {
      used := 0;
      while buffer[used] != NUL
        invariant used <= StringLength(buffer[..])
        decreases buffer.Length - used
      {
        used := used + 1;
      }
      StringLengthIs(buffer[..], used);
    }

    /** Copies text to a place in the buffer and ends the string after it. */
    method Put(at: nat, text: seq<byte>)
      requires Valid() && at + |text| < buffer.Length && NUL !in text
      requires forall i :: 0 <= i < at ==> buffer[i] != NUL
      modifies buffer
      ensures Valid() && Text() == old(buffer[..at]) + text
    {
      for i := 0 to |text|
        invariant buffer[..at] == old(buffer[..at]) && buffer[at..at + i] == text[..i]
      {
        buffer[at + i] := text[i];
      }
      buffer[at + |text|] := NUL;
      assert buffer[..at + |text|] == old(buffer[..at]) + text;
      assert forall i :: 0 <= i < at + |text| ==> buffer[..][i] == (old(buffer[..at]) + text)[i];
      StringLengthIs(buffer[..], at + |text|);
    }

    /** append_response */
    method Append(text: seq<byte>)
      requires Valid() && NUL !in text
      modifies buffer
      ensures Valid() && Text() == Appended(old(Text()), text)
    {
      hide Valid, Text, Dropped;
      Capacity();
      if text == [] {
        return;
      }
      var incoming := |text|;
      var used := Used();
      if incoming + 1 >= buffer.Length {
        ReplaceBy(text[incoming - (buffer.Length - 1)..]);
        return;
      }
      if used + incoming + 1 > buffer.Length {
        var needed := used + incoming + 1 - buffer.Length;
        used := DropFront(used, needed);
      }
      Extend(used, text);
    }

    lemma Capacity()
      requires Valid()
      ensures buffer.Length == THREEGENT_RESPONSE_CAPACITY && |Text()| < buffer.Length
    {
      hide StringLength;
    }

    method ReplaceBy(text: seq<byte>)
      requires Valid() && |text| < buffer.Length && NUL !in text
      modifies buffer
      ensures Valid() && Text() == text
    {
      hide StringLength;
      assert buffer[..0] == [];
      Put(0, text);
    }

    method Extend(used: nat, text: seq<byte>)
      requires Valid() && used == |Text()| && used + |text| < buffer.Length && NUL !in text
      modifies buffer
      ensures Valid() && Text() == old(Text()) + text
    {
      hide StringLength;
      assert buffer[..used] == Text();
      Put(used, text);
    }

    /** Drops whole lines, or just enough, from the front. */
    method DropFront(used: nat, needed: nat) returns (left: nat)
      requires Valid() && used == |Text()| && needed <= used
      modifies buffer
      ensures Valid() && left == |Text()| && Text() == old(Text())[Dropped(old(Text()), needed)..]
    {
      hide Dropped, StringLength;
      var drop := NextLine(used, needed);
      left := used - drop;
      Shift(drop, left);
    }

    /** The scan for a line break. */
    method NextLine(used: nat, needed: nat) returns (drop: nat)
      requires Valid() && used == |Text()| && needed <= used
      ensures drop == Dropped(Text(), needed)
    {
      hide StringLength, IndexOfNewline, HasNewline;
      drop := needed;
      while drop < used && buffer[drop] != NEWLINE
        invariant needed <= drop <= used && forall i :: needed <= i < drop ==> buffer[i] != NEWLINE
      {
        drop := drop + 1;
      }
      IndexUnique(Text()[needed..], drop - needed);
      drop := if drop < used then drop + 1 else needed;
    }

    /** memmove of the end of the text to the front, its terminator included. */
    method Shift(drop: nat, left: nat)
      requires Valid() && drop + left == |Text()|
      modifies buffer
      ensures Valid() && Text() == old(Text())[drop..]
    {
      hide StringLength;
      ghost var text := Text();
      for i := 0 to left
        invariant buffer[..i] == text[drop..drop + i]
        invariant forall j :: drop + i <= j < drop + left ==> buffer[j] == text[j]
      {
        buffer[i] := buffer[i + drop];
      }
      buffer[left] := NUL;
      assert buffer[..left] == text[drop..];
      assert forall i :: 0 <= i < left ==> buffer[..][i] == text[drop..][i];
      StringLengthIs(buffer[..], left);
    }
  }
}

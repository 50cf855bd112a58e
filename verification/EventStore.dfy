/** The bridge's per-session event history: bounded in count and in bytes, evicted from the front. */
module EventStore {
  import opened Arithmetic
  import opened Options

  type SessionId = string

  /** Everything in an event besides its place in the log. */
  type Content = string

  datatype Envelope = Envelope(sequence: nat, sessionId: SessionId, content: Content)

  const MAX_EVENT_LINE_BYTES: nat := 640

  datatype StoreError = EventTooLarge | CursorAhead | CursorExpired

  datatype SessionEvents = SessionEvents(
    nextSequence: nat,
    events: seq<Envelope>,
    eventBytes: seq<nat>,
    totalBytes: nat)

  function Sum(sizes: seq<nat>): nat {
    if sizes == [] then 0 else sizes[0] + Sum(sizes[1..])
  }

  lemma {:induction false} SumAppend(sizes: seq<nat>, size: nat)
    ensures Sum(sizes + [size]) == Sum(sizes) + size
  {
    if sizes == [] {
      assert [size][1..] == [];
    } else {
      assert (sizes + [size])[1..] == sizes[1..] + [size];
      SumAppend(sizes[1..], size);
    }
  }

  /** The line sizes of a stretch of events, newline included. */
  ghost function Sizes(events: seq<Envelope>, measure: Envelope -> nat): (sizes: seq<nat>)
    ensures |sizes| == |events|
  {
    seq(|events|, i requires 0 <= i < |events| => measure(events[i]) + 1)
  }

  datatype Limits = Limits(count: nat, bytes: nat, measure: Envelope -> nat)

  ghost predicate WithinLimits(events: seq<Envelope>, limits: Limits) {
    |events| <= limits.count && Sum(Sizes(events, limits.measure)) <= limits.bytes
  }

  /** kept is what is left of all once just enough has been dropped from the front. */
  ghost predicate LongestSuffixWithin(kept: seq<Envelope>, all: seq<Envelope>, limits: Limits) {
    && |kept| <= |all| && kept == all[|all| - |kept|..]
    && WithinLimits(kept, limits)
    && forall k :: 0 <= k < |all| - |kept| ==> !WithinLimits(all[k..], limits)
  }

  /** A session's record is a faithful window on its log. */
  ghost predicate ValidSession(limits: Limits, id: SessionId, session: SessionEvents, log: seq<Envelope>) {
    && session.nextSequence == |log| + 1
    && |session.events| <= |log| && session.events == log[|log| - |session.events|..]
    && session.eventBytes == Sizes(session.events, limits.measure)
    && session.totalBytes == Sum(session.eventBytes)
    && WithinLimits(session.events, limits)
    && (forall i :: 0 <= i < |log| ==> log[i].sequence == i + 1 && log[i].sessionId == id)
    && (log != [] && limits.bytes > MAX_EVENT_LINE_BYTES ==> session.events != [])
  }

  class EventStore {
    /** The two history limits, and the length in bytes of an event's JSON text. */
    const limits: Limits

    var sessions: map<SessionId, SessionEvents>

    /** Every event ever appended, per session. */
    ghost var logs: map<SessionId, seq<Envelope>>

    ghost predicate Valid()
      reads this
    {
      && limits.count > 0 && limits.bytes > 0
      && sessions.Keys == logs.Keys
      && forall id :: id in sessions ==> ValidSession(limits, id, sessions[id], logs[id])
    }

    ghost function Log(id: SessionId): seq<Envelope>
      reads this
    {
      if id in logs then logs[id] else []
    }

    ghost function Retained(id: SessionId): seq<Envelope>
      reads this
    {
      if id in sessions then sessions[id].events else []
    }

    constructor (limits: Limits)
      requires limits.count > 0 && limits.bytes > 0
      ensures Valid() && logs == map[] && this.limits == limits
    {
      this.limits := limits;
      sessions := map[];
      logs := map[];
    }

    method GetOrCreate(id: SessionId) returns (session: SessionEvents)
      requires Valid()
      modifies this
      ensures Valid() && id in sessions && session == sessions[id]
      ensures forall other :: Log(other) == old(Log(other)) && Retained(other) == old(Retained(other))
    {
      hide ValidSession;
      if id !in sessions {
        EmptySessionIsValid(limits, id);
        sessions := sessions[id := SessionEvents(1, [], [], 0)];
        logs := logs[id := []];
      }
      session := sessions[id];
    }

    /** Appends to the session's log; afterwards the history is the longest suffix within both limits. */
    method Append(id: SessionId, content: Content) returns (result: Result<Envelope, StoreError>)
      requires Valid()
      modifies this
      ensures Valid()
      ensures forall other :: other != id ==> Log(other) == old(Log(other)) && Retained(other) == old(Retained(other))
      ensures var event := Envelope(|old(Log(id))| + 1, id, content);
        if limits.measure(event) > MAX_EVENT_LINE_BYTES then
          && result == Err(EventTooLarge)
          && Log(id) == old(Log(id)) && Retained(id) == old(Retained(id))
        else
          && result == Ok(event)
          && Log(id) == old(Log(id)) + [event]
          && LongestSuffixWithin(Retained(id), old(Retained(id)) + [event], limits)
      ensures result.Ok? && limits.bytes > MAX_EVENT_LINE_BYTES ==> Retained(id) != []
    {
      hide ValidSession, LongestSuffixWithin;
      var session := GetOrCreate(id);
      NextIsLength(limits, id, session, logs[id]);
      var event := Envelope(session.nextSequence, id, content);
      var bytes := limits.measure(event) + 1;
      if bytes > MAX_EVENT_LINE_BYTES + 1 {
        return Err(EventTooLarge);
      }
      var evicted := AppendTo(limits, session, event, bytes, logs[id]);
      sessions := sessions[id := evicted];
      logs := logs[id := logs[id] + [event]];
      result := Ok(event);
    }

    /**
     The events after a cursor. It fails exactly when the cursor is ahead of the log, or lies
     before the retained window and that window is not empty; otherwise it is the slice of the log
     starting right after the cursor, except that an emptied history yields nothing.
     */
    method After(id: SessionId, cursor: nat, limit: nat) returns (result: Result<seq<Envelope>, StoreError>)
      requires Valid()
      modifies this
      ensures Valid()
      ensures forall other :: Log(other) == old(Log(other)) && Retained(other) == old(Retained(other))
      ensures |Retained(id)| <= |Log(id)| && result == AfterSpec(Log(id), Retained(id), cursor, limit)
    {
      hide ValidSession;
      var session := GetOrCreate(id);
      result := Select(limits, session, cursor, limit, id, logs[id]);
    }

    method LatestSequence(id: SessionId) returns (sequence: nat)
      requires Valid()
      modifies this
      ensures Valid() && sequence == |Log(id)|
      ensures forall other :: Log(other) == old(Log(other)) && Retained(other) == old(Retained(other))
    {
      hide ValidSession;
      var session := GetOrCreate(id);
      NextIsLength(limits, id, session, logs[id]);
      sequence := session.nextSequence - 1;
    }
  }

  lemma EmptySessionIsValid(limits: Limits, id: SessionId)
    ensures ValidSession(limits, id, SessionEvents(1, [], [], 0), [])
  {
  }

  lemma NextIsLength(limits: Limits, id: SessionId, session: SessionEvents, log: seq<Envelope>)
    requires ValidSession(limits, id, session, log)
    ensures session.nextSequence == |log| + 1 && |session.events| <= |log|
  {
  }

  /** The record after an append: grown by the event, then evicted down to the limits. */
  method AppendTo(limits: Limits, session: SessionEvents, event: Envelope, bytes: nat, ghost log: seq<Envelope>)
    returns (evicted: SessionEvents)
    requires limits.count > 0 && ValidSession(limits, event.sessionId, session, log)
    requires event.sequence == |log| + 1 && bytes == limits.measure(event) + 1 <= MAX_EVENT_LINE_BYTES + 1
    ensures ValidSession(limits, event.sessionId, evicted, log + [event])
    ensures LongestSuffixWithin(evicted.events, session.events + [event], limits)
    ensures limits.bytes > MAX_EVENT_LINE_BYTES ==> evicted.events != []
  {
    hide ValidSession, LongestSuffixWithin, Sum;
    var grown := SessionEvents(session.nextSequence + 1, session.events + [event],
      session.eventBytes + [bytes], session.totalBytes + bytes);
    GrownSizes(limits, session, event, bytes, log);
    evicted := Evict(limits, grown);
    EvictedIsValid(limits, session, event, evicted, log);
  }

  lemma GrownSizes(limits: Limits, session: SessionEvents, event: Envelope, bytes: nat, log: seq<Envelope>)
    requires ValidSession(limits, event.sessionId, session, log) && bytes == limits.measure(event) + 1
    ensures session.nextSequence == |log| + 1
    ensures session.eventBytes + [bytes] == Sizes(session.events + [event], limits.measure)
    ensures session.totalBytes + bytes == Sum(session.eventBytes + [bytes])
  {
    SumAppend(session.eventBytes, bytes);
  }

  /** A suffix of the retained events with the new one added is a suffix of the log with it added. */
  lemma SuffixOfLonger(events: seq<Envelope>, kept: seq<Envelope>, event: Envelope, log: seq<Envelope>)
    requires |events| <= |log| && events == log[|log| - |events|..]
    requires |kept| <= |events| + 1 && kept == (events + [event])[|events| + 1 - |kept|..]
    ensures kept == (log + [event])[|log| + 1 - |kept|..]
  {
    assert events + [event] == (log + [event])[|log| - |events|..];
  }

  lemma EvictedIsValid(limits: Limits, session: SessionEvents, event: Envelope, evicted: SessionEvents, log: seq<Envelope>)
    requires limits.count > 0 && ValidSession(limits, event.sessionId, session, log)
    requires event.sequence == |log| + 1 && limits.measure(event) <= MAX_EVENT_LINE_BYTES
    requires evicted.nextSequence == |log| + 2
    requires evicted.eventBytes == Sizes(evicted.events, limits.measure)
    requires evicted.totalBytes == Sum(evicted.eventBytes)
    requires LongestSuffixWithin(evicted.events, session.events + [event], limits)
    ensures ValidSession(limits, event.sessionId, evicted, log + [event])
    ensures limits.bytes > MAX_EVENT_LINE_BYTES ==> evicted.events != []
  {
    hide WithinLimits, Sum, Sizes;
    if limits.bytes > MAX_EVENT_LINE_BYTES {
      SuffixKeepsNewest(evicted.events, session.events + [event], limits);
    }
    SuffixOfLonger(session.events, evicted.events, event, log);
  }

  /** The eviction loop of append. */
  method Evict(limits: Limits, session: SessionEvents) returns (evicted: SessionEvents)
    requires session.eventBytes == Sizes(session.events, limits.measure)
    requires session.totalBytes == Sum(session.eventBytes)
    ensures evicted.nextSequence == session.nextSequence
    ensures evicted.eventBytes == Sizes(evicted.events, limits.measure)
    ensures evicted.totalBytes == Sum(evicted.eventBytes)
    ensures LongestSuffixWithin(evicted.events, session.events, limits)
  {
    evicted := session;
    ghost var dropped := 0;
    while |evicted.events| > limits.count || evicted.totalBytes > limits.bytes
      invariant evicted.nextSequence == session.nextSequence
      invariant dropped + |evicted.events| == |session.events|
      invariant evicted.events == session.events[dropped..]
      invariant evicted.eventBytes == Sizes(evicted.events, limits.measure)
      invariant evicted.totalBytes == Sum(evicted.eventBytes)
      invariant forall k :: 0 <= k < dropped ==> !WithinLimits(session.events[k..], limits)
      decreases |evicted.events|
    {
      evicted := SessionEvents(evicted.nextSequence, evicted.events[1..], evicted.eventBytes[1..],
        evicted.totalBytes - evicted.eventBytes[0]);
      dropped := dropped + 1;
      assert evicted.eventBytes == Sizes(evicted.events, limits.measure);
    }
  }

  /** The body of after, on one session's record. */
  method Select(limits: Limits, session: SessionEvents, cursor: nat, limit: nat, ghost id: SessionId, ghost log: seq<Envelope>)
    returns (result: Result<seq<Envelope>, StoreError>)
    requires ValidSession(limits, id, session, log)
    ensures |session.events| <= |log| && result == AfterSpec(log, session.events, cursor, limit)
  {
    var latestSequence := session.nextSequence - 1;
    if cursor > latestSequence {
      return Err(CursorAhead);
    }
    ghost var first := |log| - |session.events|;
    if |session.events| > 0 && cursor < session.events[0].sequence - 1 {
      return Err(CursorExpired);
    }
    var selected := NewerThan(session.events, cursor, first, log);
    var answer := if limit < |selected| then selected[..limit] else selected;
    assert session.events != [] ==> answer == log[cursor..Min(cursor + limit, |log|)];
    result := Ok(answer);
  }

  /** The filter of after: events are numbered consecutively, so what passes is a suffix. */
  method NewerThan(events: seq<Envelope>, cursor: nat, ghost first: nat, ghost log: seq<Envelope>) returns (selected: seq<Envelope>)
    requires first <= |log| && events == log[first..]
    requires forall i :: 0 <= i < |log| ==> log[i].sequence == i + 1
    requires cursor <= |log| && (events == [] || first <= cursor)
    ensures selected == if events == [] then [] else log[cursor..]
  {
    selected := [];
    for i := 0 to |events|
      invariant selected == if events == [] || first + i <= cursor then [] else log[cursor..first + i]
    {
      if events[i].sequence > cursor {
        selected := selected + [events[i]];
      }
    }
  }

  // ------------------------------------------------ the log it refines ---

  /** after(cursor, limit), in terms of the whole log and the retained suffix of it. */
  ghost function AfterSpec(log: seq<Envelope>, retained: seq<Envelope>, cursor: nat, limit: nat)
    : (result: Result<seq<Envelope>, StoreError>)
    requires |retained| <= |log|
  {
    if cursor > |log| then Err(CursorAhead)
    else if retained != [] && cursor < |log| - |retained| then Err(CursorExpired)
    else if retained == [] then Ok([])
    else Ok(log[cursor..Min(cursor + limit, |log|)])
  }

  /**
   An answer holds no more events than were asked for, and stops short of that only at the end of the log; a cursor is
   refused exactly when it lies ahead of the log or before everything that is retained.
   */
  lemma AnswerIsBounded(log: seq<Envelope>, retained: seq<Envelope>, cursor: nat, limit: nat)
    requires |retained| <= |log| && retained == log[|log| - |retained|..]
    ensures var answer, first := AfterSpec(log, retained, cursor, limit), |log| - |retained|;
      && (answer == Err(CursorAhead) <==> cursor > |log|)
      && (answer == Err(CursorExpired) <==> cursor < first && retained != [])
      && (answer.Ok? ==> |answer.value| <= limit && answer.value <= log[cursor..])
      && (answer.Ok? && retained != [] ==> first <= cursor && (|answer.value| < limit ==> answer.value == log[cursor..]))
      && (answer.Ok? ==> forall i :: 0 <= i < |answer.value| ==> answer.value[i] in retained)
  {
    var answer, first := AfterSpec(log, retained, cursor, limit), |log| - |retained|;
    if answer.Ok? {
      forall i | 0 <= i < |answer.value|
        ensures answer.value[i] in retained
      {
        assert answer.value[i] == log[cursor + i] == retained[cursor + i - first];
      }
    }
  }

  /** An answer that skips events without saying so comes only from an emptied history. */
  lemma SilentSkipOnlyWhenEmptied(log: seq<Envelope>, retained: seq<Envelope>, cursor: nat, limit: nat)
    requires |retained| <= |log| && limit > 0 && cursor < |log|
    ensures AfterSpec(log, retained, cursor, limit) == Ok([]) <==> retained == []
  {
  }

  /** What is kept of a history holds its newest event, and so is not empty, exactly if that event fits by itself. */
  lemma SuffixKeepsNewest(kept: seq<Envelope>, all: seq<Envelope>, limits: Limits)
    requires LongestSuffixWithin(kept, all, limits) && all != [] && limits.count > 0
    ensures kept != [] <==> limits.measure(all[|all| - 1]) < limits.bytes
    ensures kept != [] ==> kept[|kept| - 1] == all[|all| - 1]
  {
    var last := all[|all| - 1..];
    assert last == [all[|all| - 1]];
    assert Sizes(last, limits.measure)[1..] == [];
    assert Sum(Sizes(last, limits.measure)) == limits.measure(all[|all| - 1]) + 1;
    if kept != [] {
      LastCounts(kept, limits.measure);
    } else {
      assert !WithinLimits(all[|all| - 1..], limits);
    }
  }

  lemma {:induction false} LastCounts(events: seq<Envelope>, measure: Envelope -> nat)
    requires events != []
    ensures Sum(Sizes(events, measure)) >= measure(events[|events| - 1]) + 1
  {
    if |events| > 1 {
      assert Sizes(events, measure)[1..] == Sizes(events[1..], measure);
      LastCounts(events[1..], measure);
    }
  }

  /** An append empties a history of ten bytes, and a reader then skips the event without being told. */
  method AppendCanEmpty() returns (store: EventStore, appended: Result<Envelope, StoreError>, answer: Result<seq<Envelope>, StoreError>)
    ensures appended.Ok? && store.Log("s") == [appended.value] && store.Retained("s") == [] && answer == Ok([])
  {
    hide ValidSession;
    store := new EventStore(Limits(256, 10, _ => 100));
    appended := store.Append("s", "");
    SuffixKeepsNewest(store.Retained("s"), [Envelope(1, "s", "")], store.limits);
    answer := store.After("s", 0, 256);
  }

  /** A reader that resumes where it stopped reads the same events as one that asked for them all at once. */
  lemma ResumeIsSeamless(log: seq<Envelope>, retained: seq<Envelope>, cursor: nat, n: nat, m: nat)
    requires 0 < |retained| <= |log| && |log| - |retained| <= cursor <= |log|
    ensures AfterSpec(log, retained, cursor, n).Ok?
    ensures var first := AfterSpec(log, retained, cursor, n).value;
      && AfterSpec(log, retained, cursor + |first|, m).Ok?
      && (|first| == n ==>
          AfterSpec(log, retained, cursor, n + m) == Ok(first + AfterSpec(log, retained, cursor + |first|, m).value))
  {
    var first := AfterSpec(log, retained, cursor, n).value;
    if |first| == n {
      var second := AfterSpec(log, retained, cursor + n, m).value;
      assert log[cursor..Min(cursor + n + m, |log|)] == first + second;
    }
  }
}

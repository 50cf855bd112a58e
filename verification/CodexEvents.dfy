/** What every step of the Codex adapter tells the bridge's clients, and what it makes of the session's record. */
module CodexEvents {
  import opened Options
  import opened CodexApprovals
  import opened CodexAnswers
  import opened CodexDecisions

  /** Approvals of a kind, reported resolved in order; without an agent, up to the first that still waits. */
  ghost function Resolutions(entries: seq<Entry>, p: Entry -> bool, stdinOpen: bool): (events: seq<Event>) {
    if entries == [] then []
    else if !p(entries[0]) then Resolutions(entries[1..], p, stdinOpen)
    else if !entries[0].responded && !stdinOpen then []
    else [ApprovalResolved(entries[0].id)] + Resolutions(entries[1..], p, stdinOpen)
  }

  /** Nothing stands in the way of answering all of a kind. */
  ghost predicate Answerable(entries: seq<Entry>, p: Entry -> bool, stdinOpen: bool) {
    stdinOpen || WaitingIds(entries, p) == []
  }

  /** The approval is pending in this session, answered or not. */
  ghost predicate Stands(x: Adapter, session: SessionId, id: ApprovalId) {
    exists k :: 0 <= k < |x.pending| && x.pending[k].id == id && x.pending[k].session == session
  }

  function Update(record: Session): Event {
    SessionUpdated(record.state, record.activeTurn, record.pendingApproval)
  }

  /** The record of a session whose approval is over. */
  function Resumed(record: Session): Session {
    Session(if record.activeTurn == None then Idle else Working, record.activeTurn, None)
  }

  // ------------------------------------------------------------- the loops ---

  lemma ResolutionsStep(entries: seq<Entry>, p: Entry -> bool, stdinOpen: bool)
    requires entries != []
    ensures Answerable(entries, p, stdinOpen)
        <==> stdinOpen || (!(p(entries[0]) && !entries[0].responded) && Answerable(entries[1..], p, stdinOpen))
    ensures stdinOpen ==> Answerable(entries[1..], p, stdinOpen)
    ensures !p(entries[0]) ==> Resolutions(entries, p, stdinOpen) == Resolutions(entries[1..], p, stdinOpen)
    ensures p(entries[0]) && !entries[0].responded && !stdinOpen ==> Resolutions(entries, p, stdinOpen) == []
    ensures p(entries[0]) && (entries[0].responded || stdinOpen) ==>
              Resolutions(entries, p, stdinOpen) == [ApprovalResolved(entries[0].id)] + Resolutions(entries[1..], p, stdinOpen)
  {
    assert [] + WaitingIds(entries[1..], p) == WaitingIds(entries[1..], p);
    assert [entries[0].id] + WaitingIds(entries[1..], p) != [];
  }

  lemma NothingResolved(p: Entry -> bool, stdinOpen: bool)
    ensures Resolutions([], p, stdinOpen) == [] && Answerable([], p, stdinOpen)
  {
  }

  lemma ResolvedSays(x: Adapter, k: nat)
    requires k < |x.pending|
    ensures Answered(x, k, Cancel).events == x.events
    ensures Resolved(x, k, Cancel).events == x.events + [ApprovalResolved(x.pending[k].id)]
  {
  }

  lemma {:induction false} CancelledSays(x: Adapter, k: nat, session: SessionId, turn: TurnId)
    requires k <= |x.pending|
    ensures var rest := x.pending[k..];
      && Cancelled(x, k, session, turn).0.events == x.events + Resolutions(rest, OfTurn(session, turn), x.stdinOpen)
      && (Cancelled(x, k, session, turn).1 <==> Answerable(rest, OfTurn(session, turn), x.stdinOpen))
    decreases |x.pending| - k
  {
    hide Cancelled, Resolved, Answered, Resolutions, Answerable;
    CancelledNext(x, k, session, turn);
    if k == |x.pending| {
      assert x.pending[k..] == [];
      NothingResolved(OfTurn(session, turn), x.stdinOpen);
    } else {
      var rest := x.pending[k..];
      assert rest[0] == x.pending[k] && rest[1..] == x.pending[k + 1..];
      ResolutionsStep(rest, OfTurn(session, turn), x.stdinOpen);
      ResolvedFrame(x, k, Cancel);
      ResolvedSays(x, k);
      if !(x.pending[k].session == session && x.pending[k].turn == turn) {
        CancelledSays(x, k + 1, session, turn);
      } else if !Throws(x, k) {
        assert Without(x.pending, k)[k..] == x.pending[k + 1..];
        CancelledSays(Resolved(x, k, Cancel), k, session, turn);
      }
    }
  }

  lemma {:induction false} ShutSays(x: Adapter, k: nat)
    requires k <= |x.pending|
    ensures ShutFrom(x, k).0.events == x.events + Resolutions(x.pending[k..], Anyone(), x.stdinOpen)
    ensures ShutFrom(x, k).0.records == x.records
    decreases |x.pending| - k
  {
    hide ShutFrom, Answered, Resolved, Resolutions;
    ShutNext(x, k);
    if k == |x.pending| {
      assert x.pending[k..] == [];
      NothingResolved(Anyone(), x.stdinOpen);
    } else {
      var rest := x.pending[k..];
      assert rest[0] == x.pending[k] && rest[1..] == x.pending[k + 1..];
      ResolutionsStep(rest, Anyone(), x.stdinOpen);
      ResolvedFrame(x, k, Cancel);
      ResolvedSays(x, k);
      if !Throws(x, k) {
        var y := Noted(Answered(x, k, Cancel), ApprovalResolved(x.pending[k].id));
        assert y.pending[k + 1..] == x.pending[k + 1..];
        ShutSays(y, k + 1);
      }
    }
  }

  // -------------------------------------------------------------- the steps ---

  /** A request is announced if the session announces none; otherwise it is refused, which only an agent that is there hears. */
  lemma RequestSays(x: Adapter, session: SessionId, turn: TurnId, newId: ApprovalId)
    ensures var record, y := Record(x.records, session), Requested(x, session, turn, newId);
      var shown := Session(WaitingForUser, record.activeTurn, Some(newId));
      if record.pendingApproval.None? then
        && y.events == x.events + [ApprovalRequested(newId), Update(shown)] && y.records == x.records[session := shown]
        && y.pending == x.pending + [Entry(newId, session, turn, false)] && y.refusals == x.refusals
      else
        && y.events == x.events + (if x.stdinOpen then [AgentError] else []) && y.records == x.records[session := record]
        && y.pending == x.pending && y.refusals == x.refusals + [Refusal(session, turn, x.stdinOpen)]
  {
    assert x.events + [] == x.events;
  }

  lemma ConcludedSays(x: Adapter, k: nat, decision: Decision)
    requires k < |x.pending|
    ensures var session, y := x.pending[k].session, Concluded(x, k, decision);
      var shown := Resumed(Record(x.records, session));
      if Throws(x, k) then y.events == x.events && y.records == x.records
      else y.events == x.events + [ApprovalResolved(x.pending[k].id), Update(shown)] && y.records == x.records[session := shown]
  {
  }

  lemma PlaceStands(x: Adapter, session: SessionId, id: ApprovalId)
    requires Fair(x, id)
    ensures var k := Place(x.pending, id);
      && (Stands(x, session, id) <==> k < |x.pending| && x.pending[k].session == session)
      && (k < |x.pending| && x.pending[k].session == session ==>
            (x.pending[k].responded <==> WaitingIds(x.pending, OfSession(session, id)) == []))
  {
    hide Fair, WaitingIds;
    var k := Place(x.pending, id);
    WaitingAt(x, id, OfSession(session, id));
    if Stands(x, session, id) {
      var j :| 0 <= j < |x.pending| && x.pending[j].id == id && x.pending[j].session == session;
      assert k < |x.pending|;
      OnlyHolder(x, k, j);
    }
  }

  /**
   The user's answer, written or not needed any more, is reported and the session goes on; one that cannot be written is
   not, and neither is one to an approval that is not pending there or to a bridge that has shut down.
   */
  lemma RespondSays(x: Adapter, session: SessionId, id: ApprovalId, decision: Decision)
    requires Fair(x, id)
    ensures var y, shown := Apply(x, Respond(session, id, decision)), Resumed(Record(x.records, session));
      if !x.closed && Stands(x, session, id) && (x.stdinOpen || WaitingIds(x.pending, OfSession(session, id)) == [])
      then y.events == x.events + [ApprovalResolved(id), Update(shown)] && y.records == x.records[session := shown]
      else y.events == x.events && y.records == x.records
  {
    hide Fair, Concluded, WaitingIds, Stands;
    PlaceStands(x, session, id);
    var k := Place(x.pending, id);
    if k < |x.pending| {
      ConcludedSays(x, k, decision);
    }
  }

  /** A turn that starts is announced once, unless it is remembered as over, and is the session's active turn. */
  lemma TurnStartSays(x: Adapter, session: SessionId, turn: TurnId)
    ensures var y, record := Apply(x, TurnStart(session, turn)), Record(x.records, session);
      var shown := Session(Working, Some(turn), record.pendingApproval);
      if turn in x.terminalTurns then y.events == x.events && y.records == x.records[session := record]
      else
        && y.events == x.events + (if turn in x.startedTurns then [] else [TurnStarted(turn)]) + [Update(shown)]
        && y.records == x.records[session := shown] && turn in y.startedTurns
  {
    assert x.events + [] == x.events;
  }

  /**
   A turn that completes has its approvals reported resolved, and then its own end; if one of them cannot be cancelled,
   nothing more is said and the session stays as it was.
   */
  lemma TurnCompleteSays(x: Adapter, session: SessionId, turn: TurnId, outcome: TurnOutcome)
    ensures var y := Apply(x, TurnComplete(session, turn, outcome));
      var said := x.events + Resolutions(x.pending, OfTurn(session, turn), x.stdinOpen);
      var shown := Session(if outcome == FailedTurn then FailedState else Idle, None, None);
      if Answerable(x.pending, OfTurn(session, turn), x.stdinOpen) then
        && y.events == said + [TextCompleted(turn)] + (if outcome == Interrupted then [TurnInterrupted(turn)] else [])
                         + [TurnCompleted(turn, outcome), Update(shown)]
        && y.records == x.records[session := shown] && turn !in y.startedTurns
      else y.events == said && y.records == x.records[session := Record(x.records, session)]
  {
    hide Cancelled, Resolutions, Answerable, Window, Finish;
    var r := Registered(x, session);
    assert r.pending[0..] == x.pending;
    CancelledSays(r, 0, session, turn);
    CancelledFrame(r, 0, session, turn);
    EndedSays(Cancelled(r, 0, session, turn).0, session, turn, outcome);
  }

  lemma EndedSays(x: Adapter, session: SessionId, turn: TurnId, outcome: TurnOutcome)
    ensures var y := Ended(x, session, turn, outcome);
      var shown := Session(if outcome == FailedTurn then FailedState else Idle, None, None);
      && y.events == x.events + [TextCompleted(turn)] + (if outcome == Interrupted then [TurnInterrupted(turn)] else [])
                       + [TurnCompleted(turn, outcome), Update(shown)]
      && y.records == x.records[session := shown] && turn !in y.startedTurns
  {
    hide Window, Finish;
  }

  /** A session that waits for the user keeps waiting, and any other takes the agent's word for its state. */
  lemma StatusSays(x: Adapter, session: SessionId, status: SessionState)
    ensures var y, record := Apply(x, Status(session, status)), Record(x.records, session);
      var shown := if record.pendingApproval.Some? then record else Session(status, record.activeTurn, None);
      y.events == x.events + [Update(shown)] && y.records == x.records[session := shown]
  {
  }

  /** An error that the agent does not try to get over leaves the session failed. */
  lemma ErrorSays(x: Adapter, session: SessionId, retrying: bool)
    ensures var y, record := Apply(x, ErrorNotice(session, retrying)), Record(x.records, session);
      var shown := Session(FailedState, record.activeTurn, record.pendingApproval);
      if retrying then y.events == x.events + [AgentError] && y.records == x.records[session := record]
      else y.events == x.events + [AgentError, Update(shown)] && y.records == x.records[session := shown]
  {
  }

  /** Shutdown reports what it has cancelled, and says nothing about sessions. */
  lemma ShutdownSays(x: Adapter)
    ensures var y := Apply(x, Shutdown);
      && y.events == x.events + (if x.closed then [] else Resolutions(x.pending, Anyone(), x.stdinOpen))
      && y.records == x.records && y.closed
  {
    hide ShutFrom, Resolutions;
    if x.closed {
      assert x.events + [] == x.events;
    } else {
      var y := x.(closed := true);
      assert y.pending[0..] == x.pending;
      ShutSays(y, 0);
      ShutStaysClosed(y, 0);
    }
  }

  lemma {:induction false} ShutStaysClosed(x: Adapter, k: nat)
    requires k <= |x.pending|
    ensures ShutFrom(x, k).0.closed == x.closed
    decreases |x.pending| - k
  {
    hide ShutFrom, Answered;
    ShutNext(x, k);
    if k < |x.pending| {
      ResolvedFrame(x, k, Cancel);
      if !Throws(x, k) {
        ShutStaysClosed(Noted(Answered(x, k, Cancel), ApprovalResolved(x.pending[k].id)), k + 1);
      }
    }
  }
}

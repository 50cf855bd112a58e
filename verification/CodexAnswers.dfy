/**
 Every stored approval is answered exactly once, and resolved exactly once, as long as the agent is
 there to take the answer: what each operation of the adapter keeps, and what follows for every run.
 */
module CodexAnswers {
  import opened Options
  import opened CodexApprovals

  // ------------------------------------------------ what every approval is owed ---

  /**
   An approval is requested at most once, and then it either waits or an answer to it has been tried,
   once. If that answer was written, the approval is out of the map and has been reported resolved, once.
   */
  ghost predicate Fair(x: Adapter, id: ApprovalId) {
    && Count(x.events, Asks(id)) == Count(x.attempts, Tries(id)) + Count(x.pending, Waits(id)) <= 1
    && Count(x.pending, Holds(id)) <= Count(x.events, Asks(id))
    && (Count(x.attempts, Answers(id)) >= 1 ==> Count(x.events, Settles(id)) == 1 && Count(x.pending, Holds(id)) == 0)
    && (Count(x.attempts, Tries(id)) == 0 ==> Count(x.events, Settles(id)) == 0)
  }

  lemma NotedFair(x: Adapter, event: Event, id: ApprovalId)
    requires Fair(x, id) && event != ApprovalRequested(id) && event != ApprovalResolved(id)
    ensures Fair(Noted(x, event), id)
  {
    hide Count;
    CountPush(x.events, event, Asks(id));
    CountPush(x.events, event, Settles(id));
  }

  /** A used responder's approval has been tried. */
  lemma RespondedIsTried(x: Adapter, k: nat, id: ApprovalId)
    requires Fair(x, id) && k < |x.pending| && x.pending[k].responded && x.pending[k].id == id
    ensures Count(x.attempts, Tries(id)) == 1 && Count(x.attempts, Answers(id)) == 0 && Count(x.pending, Waits(id)) == 0
  {
    hide Count;
    CountSplit(x.pending, k, Holds(id));
    CountSplit(x.pending, k, Waits(id));
    CountLess(Without(x.pending, k), Waits(id), Holds(id));
  }

  lemma AnsweredCounts(x: Adapter, k: nat, decision: Decision, id: ApprovalId)
    requires k < |x.pending| && !x.pending[k].responded
    ensures var y, it := Answered(x, k, decision), x.pending[k].id == id;
      && Count(y.attempts, Tries(id)) == Count(x.attempts, Tries(id)) + (if it then 1 else 0)
      && Count(y.attempts, Answers(id)) == Count(x.attempts, Answers(id)) + (if it && x.stdinOpen then 1 else 0)
      && Count(y.pending, Waits(id)) == Count(x.pending, Waits(id)) - (if it then 1 else 0)
      && Count(y.pending, Holds(id)) == Count(x.pending, Holds(id))
  {
    hide Count;
    CountPush(x.attempts, Attempt(x.pending[k].id, decision, x.stdinOpen), Tries(id));
    CountPush(x.attempts, Attempt(x.pending[k].id, decision, x.stdinOpen), Answers(id));
    CountUpdate(x.pending, k, x.pending[k].(responded := true), Waits(id));
    CountUpdate(x.pending, k, x.pending[k].(responded := true), Holds(id));
  }

  lemma DroppedCounts(x: Adapter, k: nat, id: ApprovalId)
    requires k < |x.pending| && x.pending[k].responded
    ensures Count(Dropped(x, k).pending, Waits(id)) == Count(x.pending, Waits(id))
    ensures Count(Dropped(x, k).pending, Holds(id)) == Count(x.pending, Holds(id)) - (if x.pending[k].id == id then 1 else 0)
  {
    hide Count;
    CountSplit(x.pending, k, Waits(id));
    CountSplit(x.pending, k, Holds(id));
  }

  /** An answer that is lost, whether its approval leaves the map or stays. */
  lemma LostFair(x: Adapter, k: nat, decision: Decision, id: ApprovalId)
    requires Fair(x, id) && k < |x.pending| && Throws(x, k)
    ensures Fair(Answered(x, k, decision), id) && Fair(Dropped(Answered(x, k, decision), k), id)
  {
    hide Count;
    AnsweredCounts(x, k, decision, id);
    DroppedCounts(Answered(x, k, decision), k, id);
    CountLess(x.attempts, Answers(id), Tries(id));
    CountSplit(x.pending, k, Waits(id));
  }

  lemma ResolvedFair(x: Adapter, k: nat, decision: Decision, id: ApprovalId)
    requires Fair(x, id) && k < |x.pending| && !Throws(x, k)
    ensures Fair(Resolved(x, k, decision), id)
  {
    hide Count;
    var y := Answered(x, k, decision);
    CountPush(x.events, ApprovalResolved(x.pending[k].id), Asks(id));
    CountPush(x.events, ApprovalResolved(x.pending[k].id), Settles(id));
    DroppedCounts(y, k, id);
    if x.pending[k].responded {
      if x.pending[k].id == id {
        RespondedIsTried(x, k, id);
      }
    } else {
      AnsweredCounts(x, k, decision, id);
      CountSplit(x.pending, k, Waits(id));
      CountSplit(x.pending, k, Holds(id));
      CountLess(x.attempts, Answers(id), Tries(id));
    }
  }

  lemma RequestFair(x: Adapter, session: SessionId, turn: TurnId, newId: ApprovalId, id: ApprovalId)
    requires Fair(x, id) && Fair(x, newId) && Count(x.events, Asks(newId)) == 0
    ensures Fair(Requested(x, session, turn, newId), id)
  {
    hide Count;
    CountPush(x.pending, Entry(newId, session, turn, false), Waits(id));
    CountPush(x.pending, Entry(newId, session, turn, false), Holds(id));
    var y := Registered(x, session);
    if y.records[session].pendingApproval.Some? {
      CountPush(x.events, AgentError, Asks(id));
      CountPush(x.events, AgentError, Settles(id));
    } else {
      var noted := x.events + [ApprovalRequested(newId)];
      var update := SessionUpdated(WaitingForUser, y.records[session].activeTurn, Some(newId));
      CountPush(x.events, ApprovalRequested(newId), Asks(id));
      CountPush(x.events, ApprovalRequested(newId), Settles(id));
      CountPush(noted, update, Asks(id));
      CountPush(noted, update, Settles(id));
      CountLess(x.attempts, Answers(id), Tries(id));
    }
  }

  lemma ConcludedFair(x: Adapter, k: nat, decision: Decision, id: ApprovalId)
    requires Fair(x, id) && k < |x.pending|
    ensures Fair(Concluded(x, k, decision), id)
  {
    hide Fair, Answered, Dropped, Resolved;
    if Throws(x, k) {
      LostFair(x, k, decision, id);
    } else {
      ResolvedFair(x, k, decision, id);
      SettledFair(Resolved(x, k, decision), x.pending[k].session, id);
    }
  }

  lemma RecordsDoNotCount(x: Adapter, y: Adapter, id: ApprovalId)
    requires Fair(x, id) && y.events == x.events && y.attempts == x.attempts && y.pending == x.pending
    ensures Fair(y, id)
  {
  }

  lemma UpdatedFair(x: Adapter, session: SessionId, id: ApprovalId)
    requires Fair(x, id)
    ensures Fair(Updated(x, session), id)
  {
    hide Fair, Noted;
    var record := Record(x.records, session);
    NotedFair(x, SessionUpdated(record.state, record.activeTurn, record.pendingApproval), id);
  }

  lemma SettledFair(x: Adapter, session: SessionId, id: ApprovalId)
    requires Fair(x, id)
    ensures Fair(Settled(x, session), id)
  {
    hide Fair, Updated;
    var record := Record(x.records, session);
    var settled := record.(pendingApproval := None, state := if record.activeTurn.None? then Idle else Working);
    var y := x.(records := x.records[session := settled]);
    RecordsDoNotCount(x, y, id);
    UpdatedFair(y, session, id);
  }

  lemma {:induction false} CancelledFair(x: Adapter, k: nat, session: SessionId, turn: TurnId, id: ApprovalId)
    requires Fair(x, id) && k <= |x.pending|
    ensures Fair(Cancelled(x, k, session, turn).0, id)
    decreases |x.pending| - k
  {
    hide Fair;
    if k == |x.pending| {
    } else if !(x.pending[k].session == session && x.pending[k].turn == turn) {
      CancelledFair(x, k + 1, session, turn, id);
    } else if Throws(x, k) {
      LostFair(x, k, Cancel, id);
    } else {
      ResolvedFair(x, k, Cancel, id);
      CancelledFair(Resolved(x, k, Cancel), k, session, turn, id);
    }
  }

  lemma EndedFair(x: Adapter, session: SessionId, turn: TurnId, outcome: TurnOutcome, id: ApprovalId)
    requires Fair(x, id)
    ensures Fair(Ended(x, session, turn, outcome), id)
  {
    hide Fair, Updated, Window, Finish;
    var text := Noted(x, TextCompleted(turn));
    NotedFair(x, TextCompleted(turn), id);
    var cut := if outcome.Interrupted? then Noted(text, TurnInterrupted(turn)) else text;
    NotedFair(text, TurnInterrupted(turn), id);
    NotedFair(cut, TurnCompleted(turn, outcome), id);
    var over := Noted(cut, TurnCompleted(turn, outcome));
    assert over.events == x.events + [TextCompleted(turn)] + (if outcome.Interrupted? then [TurnInterrupted(turn)] else [])
                          + [TurnCompleted(turn, outcome)];
    var y := x.(
      events := over.events,
      records := x.records[session := Session(if outcome.FailedTurn? then FailedState else Idle, None, None)],
      startedTurns := x.startedTurns - {turn},
      terminalTurns := if turn in x.terminalTurns then x.terminalTurns else Window(x.terminalTurns + [turn]),
      finished := Finish(x.finished, turn));
    RecordsDoNotCount(over, y, id);
    UpdatedFair(y, session, id);
  }

  /** What the loop of shutdown has still to go through. */
  function Tail(x: Adapter, k: nat): Adapter
    requires k <= |x.pending|
  {
    x.(pending := x.pending[k..])
  }

  lemma TailStep(x: Adapter, k: nat)
    requires k < |x.pending| && !Throws(x, k)
    ensures Tail(Noted(Answered(x, k, Cancel), ApprovalResolved(x.pending[k].id)), k + 1) == Resolved(Tail(x, k), 0, Cancel)
  {
    var y := Answered(x, k, Cancel);
    assert y.pending[k + 1..] == x.pending[k + 1..] == x.pending[k..][1..];
  }

  lemma KeptFair(x: Adapter, k: nat, id: ApprovalId)
    requires Fair(x, id) && k < |x.pending| && x.pending[k].responded
    ensures Fair(Noted(Answered(x, k, Cancel), ApprovalResolved(x.pending[k].id)), id)
  {
    hide Count;
    CountPush(x.events, ApprovalResolved(x.pending[k].id), Asks(id));
    CountPush(x.events, ApprovalResolved(x.pending[k].id), Settles(id));
    if x.pending[k].id == id {
      RespondedIsTried(x, k, id);
    }
  }

  lemma {:induction false} ShutFair(x: Adapter, k: nat, id: ApprovalId)
    requires k <= |x.pending| && Fair(Tail(x, k), id) && (!x.stdinOpen ==> Fair(x, id))
    ensures var (y, whole) := ShutFrom(x, k); Fair(if whole then y.(pending := []) else y, id)
    decreases |x.pending| - k
  {
    hide Fair, Resolved;
    if k == |x.pending| {
      assert x.pending[k..] == [];
    } else if Throws(x, k) {
      LostFair(x, k, Cancel, id);
    } else {
      assert Tail(x, k).pending[0] == x.pending[k];
      ResolvedFair(Tail(x, k), 0, Cancel, id);
      TailStep(x, k);
      if !x.stdinOpen {
        KeptFair(x, k, id);
      }
      ShutFair(Noted(Answered(x, k, Cancel), ApprovalResolved(x.pending[k].id)), k + 1, id);
    }
  }

  /** The operations that neither store nor answer approvals. */
  lemma QuietFair(x: Adapter, step: Step, id: ApprovalId)
    requires Fair(x, id) && (step.TurnStart? || step.Status? || step.ErrorNotice? || step.AgentExit?)
    ensures Fair(Apply(x, step), id)
  {
    hide Fair, Updated, Noted;
    match step
    case TurnStart(session, turn) =>
      var r := Registered(x, session);
      RecordsDoNotCount(x, r, id);
      if turn !in r.terminalTurns {
        var y := r.(records := r.records[session := Record(r.records, session).(activeTurn := Some(turn), state := Working)]);
        RecordsDoNotCount(r, y, id);
        RecordsDoNotCount(y, y.(startedTurns := y.startedTurns + {turn}), id);
        NotedFair(y.(startedTurns := y.startedTurns + {turn}), TurnStarted(turn), id);
        var z := if turn in r.startedTurns then y else Noted(y.(startedTurns := y.startedTurns + {turn}), TurnStarted(turn));
        UpdatedFair(z, session, id);
      }
    case Status(session, status) =>
      var y := Registered(x, session);
      RecordsDoNotCount(x, y, id);
      var z := y.(records := y.records[session := y.records[session].(state := status)]);
      RecordsDoNotCount(y, z, id);
      UpdatedFair(if y.records[session].pendingApproval.Some? then y else z, session, id);
    case ErrorNotice(session, retrying) =>
      RecordsDoNotCount(x, Registered(x, session), id);
      NotedFair(Registered(x, session), AgentError, id);
      var y := Noted(Registered(x, session), AgentError);
      if !retrying {
        ErrorRecords(x, session);
        var z := y.(records := y.records[session := y.records[session].(state := FailedState)]);
        RecordsDoNotCount(y, z, id);
        UpdatedFair(z, session, id);
      }
    case AgentExit =>
      RecordsDoNotCount(x, Apply(x, step), id);
  }

  lemma ErrorRecords(x: Adapter, session: SessionId)
    ensures session in Noted(Registered(x, session), AgentError).records
  {
  }

  lemma StepFair(x: Adapter, step: Step, id: ApprovalId)
    requires Enabled(x, step) && Fair(x, id) && (step.Request? ==> Fair(x, step.newId))
    ensures Fair(Apply(x, step), id)
  {
    hide Fair, Requested, Concluded, Cancelled, Ended, Started, StatusNoted, ErrorNoted, ShutFrom, Count, Asks;
    match step
    case Request(session, turn, newId) =>
      RequestFair(x, session, turn, newId, id);
    case Respond(session, it, decision) =>
      var k := Place(x.pending, it);
      if !x.closed && k < |x.pending| && x.pending[k].session == session {
        ConcludedFair(x, k, decision, id);
      }
    case Expire(it) =>
      var k := Place(x.pending, it);
      if k < |x.pending| {
        ConcludedFair(x, k, Cancel, id);
      }
    case TurnComplete(session, turn, outcome) =>
      var r := Registered(x, session);
      RecordsDoNotCount(x, r, id);
      CancelledFair(r, 0, session, turn, id);
      EndedFair(Cancelled(r, 0, session, turn).0, session, turn, outcome, id);
    case Shutdown =>
      if !x.closed {
        var y := x.(closed := true);
        RecordsDoNotCount(x, y, id);
        WholeTail(y);
        ShutFair(y, 0, id);
        var (z, whole) := ShutFrom(y, 0);
        if whole {
          RecordsDoNotCount(z.(pending := []), z.(pending := [], clientClosed := true), id);
        }
      }
    case _ =>
      QuietFair(x, step, id);
  }

  lemma WholeTail(x: Adapter)
    ensures Tail(x, 0) == x
  {
  }

  // -------------------------------------------------- what every step keeps ---

  ghost predicate AllWritten(attempts: seq<Attempt>) {
    forall i :: 0 <= i < |attempts| ==> attempts[i].written
  }

  ghost function Loses(id: ApprovalId): Attempt -> bool {
    (a: Attempt) => a.id == id && !a.written
  }

  ghost function WaitsIn(session: SessionId, id: ApprovalId): Entry -> bool {
    (e: Entry) => e.id == id && e.session == session && !e.responded
  }

  /** An answer to this approval could not be written. */
  ghost predicate Lost(x: Adapter, id: ApprovalId) {
    Count(x.attempts, Loses(id)) > 0
  }

  /** This approval of this session waits for an answer. */
  ghost predicate Live(x: Adapter, session: SessionId, id: ApprovalId) {
    Count(x.pending, WaitsIn(session, id)) > 0
  }

  ghost predicate Announces(x: Adapter, session: SessionId, id: ApprovalId) {
    session in x.records && x.records[session].pendingApproval == Some(id)
  }

  /** What a session announces waits for an answer, or its answer has been lost. */
  ghost predicate LiveOrLost(x: Adapter, session: SessionId, id: ApprovalId) {
    Announces(x, session, id) ==> Live(x, session, id) || Lost(x, id)
  }

  /** A shutdown that has come to its end has left nothing; one that has not has lost an answer. */
  ghost predicate ClosedOk(x: Adapter) {
    && (x.clientClosed ==> x.closed && x.pending == [])
    && (x.closed && !x.clientClosed ==> !AllWritten(x.attempts))
  }

  ghost predicate Inv(x: Adapter) {
    && (forall id :: Fair(x, id))
    && (!x.closed ==> forall session, id :: LiveOrLost(x, session, id))
    && Known(x) && TerminalIsWindow(x) && ClosedOk(x)
  }

  lemma AnsweredLiveness(x: Adapter, k: nat, decision: Decision, session: SessionId, id: ApprovalId)
    requires k < |x.pending| && !x.pending[k].responded
    ensures var y, e := Answered(x, k, decision), x.pending[k];
      && Count(y.pending, WaitsIn(session, id))
           == Count(x.pending, WaitsIn(session, id)) - (if e.id == id && e.session == session then 1 else 0)
      && Count(y.attempts, Loses(id)) == Count(x.attempts, Loses(id)) + (if e.id == id && !x.stdinOpen then 1 else 0)
  {
    hide Count;
    CountPush(x.attempts, Attempt(x.pending[k].id, decision, x.stdinOpen), Loses(id));
    CountUpdate(x.pending, k, x.pending[k].(responded := true), WaitsIn(session, id));
  }

  lemma DroppedLiveness(x: Adapter, k: nat, session: SessionId, id: ApprovalId)
    requires k < |x.pending| && x.pending[k].responded
    ensures Count(Dropped(x, k).pending, WaitsIn(session, id)) == Count(x.pending, WaitsIn(session, id))
  {
    hide Count;
    CountSplit(x.pending, k, WaitsIn(session, id));
  }

  lemma LostLiveness(x: Adapter, k: nat, decision: Decision, session: SessionId, id: ApprovalId)
    requires k < |x.pending| && Throws(x, k) && LiveOrLost(x, session, id)
    ensures LiveOrLost(Answered(x, k, decision), session, id) && LiveOrLost(Dropped(Answered(x, k, decision), k), session, id)
  {
    hide Count;
    AnsweredLiveness(x, k, decision, session, id);
    DroppedLiveness(Answered(x, k, decision), k, session, id);
  }

  lemma ResolvedLiveness(x: Adapter, k: nat, decision: Decision, session: SessionId, id: ApprovalId)
    requires k < |x.pending| && !Throws(x, k) && LiveOrLost(x, session, id)
    requires session != x.pending[k].session || x.pending[k].responded
    ensures LiveOrLost(Resolved(x, k, decision), session, id)
  {
    hide Count;
    if !x.pending[k].responded {
      AnsweredLiveness(x, k, decision, session, id);
    }
    DroppedLiveness(Answered(x, k, decision), k, session, id);
  }

  lemma {:induction false} CancelledLiveness(x: Adapter, k: nat, session: SessionId, turn: TurnId, s: SessionId, id: ApprovalId)
    requires k <= |x.pending| && LiveOrLost(x, s, id) && (s != session || !x.stdinOpen)
    ensures LiveOrLost(Cancelled(x, k, session, turn).0, s, id)
    decreases |x.pending| - k
  {
    hide LiveOrLost, Resolved, Answered;
    if k == |x.pending| {
    } else if !(x.pending[k].session == session && x.pending[k].turn == turn) {
      CancelledLiveness(x, k + 1, session, turn, s, id);
    } else if Throws(x, k) {
      LostLiveness(x, k, Cancel, s, id);
    } else {
      ResolvedLiveness(x, k, Cancel, s, id);
      ResolvedFrame(x, k, Cancel);
      CancelledLiveness(Resolved(x, k, Cancel), k, session, turn, s, id);
    }
  }

  /** Changes of records that announce nothing new. */
  lemma RecordsLiveness(x: Adapter, y: Adapter, session: SessionId, id: ApprovalId)
    requires LiveOrLost(x, session, id) && y.attempts == x.attempts && y.pending == x.pending
    requires Announces(y, session, id) ==> Announces(x, session, id)
    ensures LiveOrLost(y, session, id)
  {
  }

  lemma ConcludedLiveness(x: Adapter, k: nat, decision: Decision, session: SessionId, id: ApprovalId)
    requires k < |x.pending| && LiveOrLost(x, session, id)
    ensures LiveOrLost(Concluded(x, k, decision), session, id)
  {
    hide LiveOrLost, Resolved, Answered, Dropped, Throws;
    if Throws(x, k) {
      LostLiveness(x, k, decision, session, id);
    } else {
      var owner := x.pending[k].session;
      if session == owner {
        NothingAnnounced(Settled(Resolved(x, k, decision), owner), session, id);
      } else {
        ResolvedLiveness(x, k, decision, session, id);
        RecordsLiveness(Resolved(x, k, decision), Settled(Resolved(x, k, decision), owner), session, id);
      }
    }
  }

  lemma NothingAnnounced(x: Adapter, session: SessionId, id: ApprovalId)
    requires session in x.records && x.records[session].pendingApproval.None?
    ensures LiveOrLost(x, session, id)
  {
  }

  lemma CompletedLiveness(x: Adapter, session: SessionId, turn: TurnId, outcome: TurnOutcome, s: SessionId, id: ApprovalId)
    requires LiveOrLost(x, s, id)
    ensures LiveOrLost(Completed(x, session, turn, outcome), s, id)
  {
    hide LiveOrLost, Cancelled, Ended;
    var r := Registered(x, session);
    RecordsLiveness(x, r, s, id);
    CancelledFrame(r, 0, session, turn);
    var (y, whole) := Cancelled(r, 0, session, turn);
    if !whole || s != session {
      CancelledLiveness(r, 0, session, turn, s, id);
      if whole {
        EndedFrame(y, session, turn, outcome);
        RecordsLiveness(y, Ended(y, session, turn, outcome), s, id);
      }
    } else {
      EndedFrame(y, session, turn, outcome);
      NothingAnnounced(Ended(y, session, turn, outcome), s, id);
    }
  }

  lemma EndedFrame(x: Adapter, session: SessionId, turn: TurnId, outcome: TurnOutcome)
    ensures var y := Ended(x, session, turn, outcome);
      && y == x.(records := y.records, startedTurns := y.startedTurns, terminalTurns := y.terminalTurns, events := y.events,
                 finished := Finish(x.finished, turn))
      && y.records == x.records[session := Session(if outcome.FailedTurn? then FailedState else Idle, None, None)]
      && y.terminalTurns == if turn in x.terminalTurns then x.terminalTurns else Window(x.terminalTurns + [turn])
  {
    hide Window, Finish;
  }

  lemma RequestLiveness(x: Adapter, session: SessionId, turn: TurnId, newId: ApprovalId, s: SessionId, id: ApprovalId)
    requires LiveOrLost(x, s, id)
    ensures LiveOrLost(Requested(x, session, turn, newId), s, id)
  {
    hide Count;
    CountPush(x.pending, Entry(newId, session, turn, false), WaitsIn(s, id));
  }

  lemma StepLiveness(x: Adapter, step: Step, session: SessionId, id: ApprovalId)
    requires Enabled(x, step) && LiveOrLost(x, session, id) && !step.Shutdown?
    ensures LiveOrLost(Apply(x, step), session, id)
  {
    hide LiveOrLost, Requested, Concluded, Completed, Count, Asks;
    match step
    case Request(s, turn, newId) => RequestLiveness(x, s, turn, newId, session, id);
    case Respond(s, it, decision) =>
      var k := Place(x.pending, it);
      if !x.closed && k < |x.pending| && x.pending[k].session == s {
        ConcludedLiveness(x, k, decision, session, id);
      }
    case Expire(it) =>
      var k := Place(x.pending, it);
      if k < |x.pending| {
        ConcludedLiveness(x, k, Cancel, session, id);
      }
    case TurnComplete(s, turn, outcome) => CompletedLiveness(x, s, turn, outcome, session, id);
    case _ => QuietLiveness(x, step, session, id);
  }

  /** Nothing about approvals changes, and nothing about turns that are over. */
  ghost predicate QuietChange(x: Adapter, y: Adapter) {
    && y.pending == x.pending && y.attempts == x.attempts && y.closed == x.closed && y.clientClosed == x.clientClosed
    && y.finished == x.finished && y.terminalTurns == x.terminalTurns && x.records.Keys <= y.records.Keys
    && forall s :: Record(y.records, s).pendingApproval == Record(x.records, s).pendingApproval
  }

  lemma QuietTwice(x: Adapter, y: Adapter, z: Adapter)
    requires QuietChange(x, y) && QuietChange(y, z)
    ensures QuietChange(x, z)
  {
    forall s
      ensures Record(z.records, s).pendingApproval == Record(x.records, s).pendingApproval
    {
      assert Record(y.records, s).pendingApproval == Record(x.records, s).pendingApproval;
    }
  }

  lemma RecordIsQuiet(x: Adapter, session: SessionId, record: Session)
    requires record.pendingApproval == Record(x.records, session).pendingApproval
    ensures QuietChange(x, x.(records := x.records[session := record]))
  {
  }

  lemma UpdatedIsQuiet(x: Adapter, session: SessionId)
    ensures QuietChange(x, Updated(x, session))
  {
  }

  lemma StartedIsQuiet(x: Adapter, session: SessionId, turn: TurnId)
    ensures QuietChange(x, Started(Registered(x, session), session, turn))
  {
    hide QuietChange, Updated;
    var r := Registered(x, session);
    RecordIsQuiet(x, session, Record(x.records, session));
    if turn !in r.terminalTurns {
      var y := r.(records := r.records[session := Record(r.records, session).(activeTurn := Some(turn), state := Working)]);
      var z := if turn in r.startedTurns then y else Noted(y.(startedTurns := y.startedTurns + {turn}), TurnStarted(turn));
      RecordIsQuiet(r, session, Record(r.records, session).(activeTurn := Some(turn), state := Working));
      QuietTwice(x, r, y);
      TurnIsQuiet(y, turn);
      QuietTwice(x, y, z);
      UpdatedIsQuiet(z, session);
      QuietTwice(x, z, Updated(z, session));
    }
  }

  lemma TurnIsQuiet(x: Adapter, turn: TurnId)
    ensures QuietChange(x, x) && QuietChange(x, Noted(x.(startedTurns := x.startedTurns + {turn}), TurnStarted(turn)))
  {
  }

  lemma StatusIsQuiet(x: Adapter, session: SessionId, status: SessionState)
    ensures QuietChange(x, StatusNoted(x, session, status))
  {
    hide QuietChange, Updated;
    var r := Registered(x, session);
    RecordIsQuiet(x, session, Record(x.records, session));
    var y := if r.records[session].pendingApproval.Some? then r
             else r.(records := r.records[session := r.records[session].(state := status)]);
    RecordIsQuiet(r, session, r.records[session].(state := status));
    TurnIsQuiet(r, "");
    QuietTwice(x, r, y);
    UpdatedIsQuiet(y, session);
    QuietTwice(x, y, Updated(y, session));
  }

  lemma ErrorIsQuiet(x: Adapter, session: SessionId, retrying: bool)
    ensures QuietChange(x, ErrorNoted(x, session, retrying))
  {
  }

  lemma QuietSteps(x: Adapter, step: Step)
    requires step.TurnStart? || step.Status? || step.ErrorNotice? || step.AgentExit?
    ensures QuietChange(x, Apply(x, step))
  {
    hide QuietChange, Started, StatusNoted, ErrorNoted;
    match step
    case TurnStart(session, turn) => StartedIsQuiet(x, session, turn);
    case Status(session, status) => StatusIsQuiet(x, session, status);
    case ErrorNotice(session, retrying) => ErrorIsQuiet(x, session, retrying);
    case AgentExit => ExitIsQuiet(x);
  }

  lemma ExitIsQuiet(x: Adapter)
    ensures QuietChange(x, x.(stdinOpen := false))
  {
  }

  lemma QuietLiveness(x: Adapter, step: Step, session: SessionId, id: ApprovalId)
    requires LiveOrLost(x, session, id) && (step.TurnStart? || step.Status? || step.ErrorNotice? || step.AgentExit?)
    ensures LiveOrLost(Apply(x, step), session, id)
  {
    hide LiveOrLost, Apply;
    QuietSteps(x, step);
    assert Record(Apply(x, step).records, session).pendingApproval == Record(x.records, session).pendingApproval;
    RecordsLiveness(x, Apply(x, step), session, id);
  }

  /** Whoever is taken out of the map or marked, those in it were there before, in their sessions and turns. */
  ghost predicate Within(later: seq<Entry>, earlier: seq<Entry>) {
    forall k :: 0 <= k < |later| ==> Has(earlier, later[k])
  }

  ghost predicate Has(entries: seq<Entry>, e: Entry) {
    exists j :: 0 <= j < |entries| && Same(e, entries[j])
  }

  ghost predicate Same(e: Entry, f: Entry) {
    e.id == f.id && e.session == f.session && e.turn == f.turn
  }

  lemma WithoutWithin(entries: seq<Entry>, k: nat)
    requires k < |entries|
    ensures Within(Without(entries, k), entries)
  {
    forall i | 0 <= i < |Without(entries, k)|
      ensures Has(entries, Without(entries, k)[i])
    {
      assert Same(Without(entries, k)[i], entries[if i < k then i else i + 1]);
    }
  }

  lemma MarkedWithin(entries: seq<Entry>, k: nat)
    requires k < |entries|
    ensures Within(entries[k := entries[k].(responded := true)], entries)
    ensures Within(Without(entries[k := entries[k].(responded := true)], k), entries)
  {
    var marked := entries[k := entries[k].(responded := true)];
    forall i | 0 <= i < |marked|
      ensures Has(entries, marked[i])
    {
      assert Same(marked[i], entries[i]);
    }
    assert Without(marked, k) == Without(entries, k);
    WithoutWithin(entries, k);
  }

  lemma SameWithin(entries: seq<Entry>)
    ensures Within(entries, entries)
  {
    forall k | 0 <= k < |entries|
      ensures Has(entries, entries[k])
    {
      assert Same(entries[k], entries[k]);
    }
  }

  lemma WithinTwice(last: seq<Entry>, later: seq<Entry>, earlier: seq<Entry>)
    requires Within(last, later) && Within(later, earlier)
    ensures Within(last, earlier)
  {
    forall k | 0 <= k < |last|
      ensures Has(earlier, last[k])
    {
      assert Has(later, last[k]);
      var i :| 0 <= i < |later| && Same(last[k], later[i]);
      assert Has(earlier, later[i]);
      var j :| 0 <= j < |earlier| && Same(later[i], earlier[j]);
      assert Same(last[k], earlier[j]);
    }
  }

  lemma {:induction false} CancelledWithin(x: Adapter, k: nat, session: SessionId, turn: TurnId)
    requires k <= |x.pending|
    ensures Within(Cancelled(x, k, session, turn).0.pending, x.pending)
    decreases |x.pending| - k
  {
    hide Resolved, Answered, Within, Without;
    if k == |x.pending| {
      SameWithin(x.pending);
    } else if !(x.pending[k].session == session && x.pending[k].turn == turn) {
      CancelledWithin(x, k + 1, session, turn);
    } else {
      ResolvedFrame(x, k, Cancel);
      if Throws(x, k) {
        MarkedWithin(x.pending, k);
      } else {
        WithoutWithin(x.pending, k);
        var y := Resolved(x, k, Cancel);
        WithoutShrinks(x.pending, k);
        CancelledWithin(y, k, session, turn);
        WithinTwice(Cancelled(y, k, session, turn).0.pending, y.pending, x.pending);
      }
    }
  }

  lemma {:induction false} ShutFrame(x: Adapter, k: nat)
    requires k <= |x.pending|
    ensures var (y, whole) := ShutFrom(x, k);
      && y == x.(pending := y.pending, events := y.events, attempts := y.attempts) && x.attempts <= y.attempts
      && Within(y.pending, x.pending) && (!whole ==> !AllWritten(y.attempts))
    decreases |x.pending| - k
  {
    hide Within;
    if k == |x.pending| {
      SameWithin(x.pending);
    } else {
      var z := Answered(x, k, Cancel);
      ResolvedFrame(x, k, Cancel);
      MarkedWithin(x.pending, k);
      if Throws(x, k) {
        assert !z.attempts[|x.attempts|].written;
      } else {
        var y := Noted(z, ApprovalResolved(x.pending[k].id));
        ShutFrame(y, k + 1);
        WithinTwice(ShutFrom(y, k + 1).0.pending, y.pending, x.pending);
      }
    }
  }

  /** What a step does to everything but the counts. */
  ghost predicate Frame(x: Adapter, y: Adapter) {
    && Within(y.pending, x.pending) && x.records.Keys <= y.records.Keys && x.attempts <= y.attempts
    && y.closed == x.closed && y.clientClosed == x.clientClosed
  }

  lemma ConcludedFrame(x: Adapter, k: nat, decision: Decision)
    requires k < |x.pending|
    ensures var y := Concluded(x, k, decision); Frame(x, y) && y.finished == x.finished && y.terminalTurns == x.terminalTurns
  {
    hide Within, Without;
    MarkedWithin(x.pending, k);
    WithoutWithin(x.pending, k);
    ResolvedFrame(x, k, decision);
  }

  lemma CompletedFrame(x: Adapter, session: SessionId, turn: TurnId, outcome: TurnOutcome)
    requires TerminalIsWindow(x)
    ensures Frame(x, Completed(x, session, turn, outcome)) && TerminalIsWindow(Completed(x, session, turn, outcome))
  {
    hide Within, Cancelled, Ended, TerminalIsWindow;
    var r := Registered(x, session);
    CancelledFrame(r, 0, session, turn);
    CancelledWithin(r, 0, session, turn);
    var (y, whole) := Cancelled(r, 0, session, turn);
    if whole {
      EndedFrame(y, session, turn, outcome);
      RememberedStays(x.terminalTurns, x.finished, turn);
    }
    TerminalOf(x, Completed(x, session, turn, outcome), turn, whole);
  }

  lemma RememberedStays(terminal: seq<TurnId>, finished: seq<TurnId>, turn: TurnId)
    ensures terminal == Window(finished) && turn !in terminal ==>
      Window(terminal + [turn]) == Window(finished + [turn]) && turn in Window(finished + [turn])
  {
    hide Window;
    if terminal == Window(finished) && turn !in terminal {
      WindowGrows(finished, turn);
    }
  }

  lemma TerminalOf(x: Adapter, y: Adapter, turn: TurnId, ended: bool)
    requires TerminalIsWindow(x)
    requires !ended ==> y.terminalTurns == x.terminalTurns && y.finished == x.finished
    requires ended ==> y.finished == Finish(x.finished, turn)
    requires ended ==> y.terminalTurns == if turn in x.terminalTurns then x.terminalTurns else Window(x.terminalTurns + [turn])
    ensures TerminalIsWindow(y)
  {
    hide Window;
    RememberedStays(x.terminalTurns, x.finished, turn);
  }

  lemma FrameKeeps(x: Adapter, y: Adapter)
    requires Known(x) && ClosedOk(x) && Frame(x, y)
    ensures Known(y) && ClosedOk(y)
  {
    WrittenPrefix(x.attempts, y.attempts);
    assert y.pending != [] ==> Has(x.pending, y.pending[0]);
    forall k | 0 <= k < |y.pending|
      ensures y.pending[k].session in y.records
    {
      assert Has(x.pending, y.pending[k]);
      var j :| 0 <= j < |x.pending| && Same(y.pending[k], x.pending[j]);
    }
  }

  lemma WrittenPrefix(earlier: seq<Attempt>, later: seq<Attempt>)
    requires earlier <= later
    ensures AllWritten(later) ==> AllWritten(earlier)
  {
  }

  lemma QuietFrame(x: Adapter, step: Step)
    requires step.TurnStart? || step.Status? || step.ErrorNotice? || step.AgentExit?
    ensures var y := Apply(x, step);
      Frame(x, y) && y.finished == x.finished && y.terminalTurns == x.terminalTurns
  {
    hide Within, Apply;
    QuietSteps(x, step);
    SameWithin(x.pending);
  }

  lemma RequestKeeps(x: Adapter, session: SessionId, turn: TurnId, newId: ApprovalId)
    requires Known(x) && ClosedOk(x) && TerminalIsWindow(x) && !x.clientClosed
    ensures var y := Requested(x, session, turn, newId); Known(y) && ClosedOk(y) && TerminalIsWindow(y)
  {
    hide Window;
  }

  lemma ShutDownKeeps(x: Adapter)
    requires Known(x) && ClosedOk(x) && TerminalIsWindow(x)
    ensures Known(ShutDown(x)) && ClosedOk(ShutDown(x)) && TerminalIsWindow(ShutDown(x)) && ShutDown(x).closed
  {
    hide Window, ShutFrom, Within, AllWritten;
    if !x.closed {
      var c := x.(closed := true);
      ShutFrame(c, 0);
      KnownWithin(c, ShutFrom(c, 0).0);
    }
  }

  lemma KnownWithin(x: Adapter, y: Adapter)
    requires Known(x) && Within(y.pending, x.pending) && y.records == x.records
    ensures Known(y)
  {
    forall k | 0 <= k < |y.pending|
      ensures y.pending[k].session in y.records
    {
      assert Has(x.pending, y.pending[k]);
      var j :| 0 <= j < |x.pending| && Same(y.pending[k], x.pending[j]);
    }
  }

  lemma StepKeepsFrame(x: Adapter, step: Step)
    requires Enabled(x, step) && Known(x) && ClosedOk(x) && TerminalIsWindow(x)
    ensures var y := Apply(x, step); Known(y) && ClosedOk(y) && TerminalIsWindow(y) && (x.closed ==> y.closed)
  {
    hide Known, ClosedOk, TerminalIsWindow, Requested, Concluded, Completed, ShutDown, Window, Within, Count, Asks;
    match step
    case Request(s, turn, newId) =>
      RequestKeeps(x, s, turn, newId);
      RequestClosed(x, s, turn, newId);
    case Respond(s, it, decision) =>
      var k := Place(x.pending, it);
      if !x.closed && k < |x.pending| && x.pending[k].session == s {
        ConcludedFrame(x, k, decision);
        FrameKeeps(x, Apply(x, step));
        TerminalOf(x, Apply(x, step), "", false);
      }
    case Expire(it) =>
      var k := Place(x.pending, it);
      if k < |x.pending| {
        ConcludedFrame(x, k, Cancel);
        FrameKeeps(x, Apply(x, step));
        TerminalOf(x, Apply(x, step), "", false);
      }
    case TurnComplete(s, turn, outcome) =>
      CompletedFrame(x, s, turn, outcome);
      FrameKeeps(x, Apply(x, step));
    case Shutdown =>
      ShutDownKeeps(x);
    case _ =>
      QuietFrame(x, step);
      FrameKeeps(x, Apply(x, step));
      TerminalOf(x, Apply(x, step), "", false);
  }

  lemma RequestClosed(x: Adapter, session: SessionId, turn: TurnId, newId: ApprovalId)
    ensures Requested(x, session, turn, newId).closed == x.closed
  {
  }

  lemma StepKeepsInv(x: Adapter, step: Step)
    requires Inv(x) && Enabled(x, step)
    ensures Inv(Apply(x, step))
  {
    hide Fair, LiveOrLost, Known, ClosedOk, TerminalIsWindow, Enabled, Apply;
    var y := Apply(x, step);
    StepKeepsFrame(x, step);
    forall id
      ensures Fair(y, id)
    {
      StepFair(x, step, id);
    }
    if !y.closed {
      NotShutdown(x, step);
      forall session, id
        ensures LiveOrLost(y, session, id)
      {
        StepLiveness(x, step, session, id);
      }
    }
  }

  lemma NotShutdown(x: Adapter, step: Step)
    requires Known(x) && ClosedOk(x) && TerminalIsWindow(x) && Enabled(x, step)
    ensures step.Shutdown? ==> Apply(x, step).closed
  {
    hide Known, ClosedOk, TerminalIsWindow, ShutDown;
    ShutDownKeeps(x);
  }

  lemma InitialInv()
    ensures Inv(Initial())
  {
    hide Window;
    assert Window([]) == [];
  }

  lemma {:induction false} RunKeepsInv(steps: seq<Step>, states: seq<Adapter>, i: nat)
    requires IsRun(steps, states) && i <= |steps|
    ensures i < |states| && Inv(states[i])
  {
    hide Inv, Enabled, Apply;
    if i == 0 {
      InitialInv();
    } else {
      RunKeepsInv(steps, states, i - 1);
      StepKeepsInv(states[i - 1], steps[i - 1]);
    }
  }

  // ----------------------------------------------- every approval is answered ---

  /** Answered by a write that went through, and reported resolved, each exactly once. */
  ghost predicate AnsweredOnce(x: Adapter, id: ApprovalId) {
    Count(x.attempts, Answers(id)) == 1 && Count(x.events, Settles(id)) == 1
  }

  ghost predicate WasRequested(x: Adapter, id: ApprovalId) {
    Count(x.events, Asks(id)) > 0
  }

  lemma {:induction false} AnswersOrLoses(attempts: seq<Attempt>, id: ApprovalId)
    ensures Count(attempts, Tries(id)) == Count(attempts, Answers(id)) + Count(attempts, Loses(id))
  {
    if attempts != [] {
      AnswersOrLoses(attempts[..|attempts| - 1], id);
    }
  }

  lemma {:induction false} NoneLost(attempts: seq<Attempt>, id: ApprovalId)
    requires AllWritten(attempts)
    ensures Count(attempts, Loses(id)) == 0
  {
    if attempts != [] {
      NoneLost(attempts[..|attempts| - 1], id);
    }
  }

  /**
   Whenever it is looked at, a stored approval has been answered once and resolved once if and only if
   it no longer waits and its one answer found the agent's stdin there.
   */
  lemma AnsweredUnlessLost(x: Adapter, id: ApprovalId)
    requires Inv(x) && WasRequested(x, id)
    ensures AnsweredOnce(x, id) <==> Count(x.pending, Waits(id)) == 0 && !Lost(x, id)
    ensures Count(x.attempts, Answers(id)) <= 1
  {
    hide Count, LiveOrLost, Known, TerminalIsWindow, ClosedOk;
    assert Fair(x, id);
    AnswersOrLoses(x.attempts, id);
  }

  /**
   In every run, once shutdown has been called every approval ever stored has been answered exactly
   once and resolved exactly once if and only if the agent's stdin was there at every answer.
   */
  lemma AnsweredExactlyOnce(steps: seq<Step>, states: seq<Adapter>, i: nat)
    requires IsRun(steps, states) && i <= |steps| && states[i].closed
    ensures (forall id :: WasRequested(states[i], id) ==> AnsweredOnce(states[i], id)) <==> AllWritten(states[i].attempts)
  {
    hide Count, IsRun, LiveOrLost, Known, TerminalIsWindow, Fair, AnsweredOnce, WasRequested, Lost;
    RunKeepsInv(steps, states, i);
    var x := states[i];
    if AllWritten(x.attempts) {
      forall id | WasRequested(x, id)
        ensures AnsweredOnce(x, id)
      {
        AnsweredUnlessLost(x, id);
        NoneWaits(x, id);
        NotLost(x, id);
      }
    } else {
      var j :| 0 <= j < |x.attempts| && !x.attempts[j].written;
      LostIsUnanswered(x, j);
      assert WasRequested(x, x.attempts[j].id) && !AnsweredOnce(x, x.attempts[j].id);
    }
  }

  lemma NoneWaits(x: Adapter, id: ApprovalId)
    requires x.pending == []
    ensures Count(x.pending, Waits(id)) == 0
  {
  }

  lemma NotLost(x: Adapter, id: ApprovalId)
    requires AllWritten(x.attempts)
    ensures !Lost(x, id)
  {
    NoneLost(x.attempts, id);
  }

  lemma LostIsUnanswered(x: Adapter, j: nat)
    requires Inv(x) && j < |x.attempts| && !x.attempts[j].written
    ensures WasRequested(x, x.attempts[j].id) && !AnsweredOnce(x, x.attempts[j].id)
  {
    hide Count, LiveOrLost, Known, TerminalIsWindow, ClosedOk;
    var id := x.attempts[j].id;
    assert Fair(x, id);
    CountSplit(x.attempts, j, Loses(id));
    AnswersOrLoses(x.attempts, id);
  }

  /** A shutdown that comes to its end leaves nothing waiting, and one that does not has lost an answer. */
  lemma ShutdownLeavesNothing(steps: seq<Step>, states: seq<Adapter>, i: nat)
    requires IsRun(steps, states) && i <= |steps| && states[i].closed
    ensures if states[i].clientClosed then states[i].pending == [] else !AllWritten(states[i].attempts)
  {
    hide Fair, LiveOrLost, Known, TerminalIsWindow, AllWritten, IsRun;
    RunKeepsInv(steps, states, i);
  }

  // ------------------------------------------------ turns that are remembered ---

  /** In every run, exactly the last 256 turns that newly finished are remembered, and so are not started again. */
  lemma FinishedIsRemembered(steps: seq<Step>, states: seq<Adapter>, i: nat, turn: TurnId)
    requires IsRun(steps, states) && i <= |steps|
    ensures var x := states[i];
      turn in x.terminalTurns <==> exists j :: 0 <= j < |x.finished| && |x.finished| - j <= REMEMBERED_TURNS && x.finished[j] == turn
  {
    hide IsRun, Window, Fair, LiveOrLost, Known, ClosedOk;
    RunKeepsInv(steps, states, i);
    WindowHolds(states[i].finished, turn);
  }

  lemma WindowHolds(finished: seq<TurnId>, turn: TurnId)
    ensures turn in Window(finished)
       <==> exists j :: 0 <= j < |finished| && |finished| - j <= REMEMBERED_TURNS && finished[j] == turn
  {
    hide Window;
    var window := Window(finished);
    if turn in window {
      var k :| 0 <= k < |window| && window[k] == turn;
      assert finished[|finished| - |window| + k] == turn;
    }
    if j :| 0 <= j < |finished| && |finished| - j <= REMEMBERED_TURNS && finished[j] == turn {
      assert window[j - (|finished| - |window|)] == turn;
    }
  }

  /** Names of turns, all different. */
  function Name(i: nat): TurnId {
    seq(i + 1, _ => 't')
  }

  function Names(n: nat): (names: seq<TurnId>)
    ensures |names| == n && forall i :: 0 <= i < n ==> names[i] == Name(i)
  {
    seq(n, i requires 0 <= i => Name(i))
  }

  lemma NamesDiffer(i: nat, j: nat)
    ensures Name(i) == Name(j) ==> i == j
  {
    assert |Name(i)| == i + 1 && |Name(j)| == j + 1;
  }

  lemma FinishPush(turns: seq<TurnId>, turn: TurnId)
    ensures FinishAll(turns + [turn]) == Finish(FinishAll(turns), turn)
  {
    assert (turns + [turn])[..|turns|] == turns;
  }

  lemma NextNameIsNew(n: nat)
    ensures Name(n) !in Names(n) && Names(n) + [Name(n)] == Names(n + 1)
  {
    hide Name;
    forall i | 0 <= i < n
      ensures Names(n)[i] != Name(n)
    {
      NamesDiffer(i, n);
    }
  }

  lemma WindowIsPart(finished: seq<TurnId>)
    ensures forall turn :: turn in Window(finished) ==> turn in finished
  {
  }

  lemma {:induction false} FreshTurnsAllFinish(n: nat)
    ensures FinishAll(Names(n)) == Names(n)
  {
    hide Name, Names, FinishAll, Window, Finish;
    if n == 0 {
      assert Names(0) == [];
      NothingFinished();
    } else {
      FreshTurnsAllFinish(n - 1);
      NextNameIsNew(n - 1);
      FinishedFirst(Names(n - 1), Name(n - 1));
      FinishPush(Names(n - 1), Name(n - 1));
    }
  }

  lemma NothingFinished()
    ensures FinishAll([]) == []
  {
  }

  lemma FirstIsForgotten()
    ensures Name(0) in Window(Names(REMEMBERED_TURNS))
    ensures Name(0) !in Window(Names(REMEMBERED_TURNS + 1))
  {
    hide Name;
    var all := Names(REMEMBERED_TURNS + 1);
    assert Window(Names(REMEMBERED_TURNS))[0] == Name(0);
    forall i | 0 <= i < REMEMBERED_TURNS
      ensures Window(all)[i] != Name(0)
    {
      NamesDiffer(0, i + 1);
    }
  }

  lemma FinishedAgain(finished: seq<TurnId>, turn: TurnId)
    requires turn in Window(finished)
    ensures Finish(finished, turn) == finished
  {
    hide Window;
  }

  lemma FinishedFirst(finished: seq<TurnId>, turn: TurnId)
    requires turn !in finished
    ensures Finish(finished, turn) == finished + [turn]
  {
    hide Window;
    WindowIsPart(finished);
  }

  /**
   Being among the last 256 turns completed is not enough to be remembered: completing a turn again
   does not renew it, so one of the last two completed here is forgotten.
   */
  lemma CompletedAgainIsForgotten() returns (turns: seq<TurnId>)
    ensures |turns| >= 2 && turns[|turns| - 2] !in Window(FinishAll(turns))
  {
    hide Name, Names, FinishAll, Window, Finish;
    var once := Names(REMEMBERED_TURNS);
    turns := once + [Name(0)] + [Name(REMEMBERED_TURNS)];
    FreshTurnsAllFinish(REMEMBERED_TURNS);
    FirstIsForgotten();
    FinishPush(once, Name(0));
    FinishPush(once + [Name(0)], Name(REMEMBERED_TURNS));
    FinishedAgain(once, Name(0));
    NextNameIsNew(REMEMBERED_TURNS);
    FinishedFirst(once, Name(REMEMBERED_TURNS));
  }
}

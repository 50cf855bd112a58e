/**
 The bridge's built-in agent and the handheld's screen: what the screen shows after applying the
 agent's events one by one is what it would show after a resync from the agent's snapshot.
 */
module FakeAgent {
  import opened Options

  type ApprovalId = string

  datatype SessionState = Idle | Working | WaitingForUser

  datatype Outcome = Completed | Stopped

  datatype Event =
    | ConnectionReady
    | SessionUpdated(state: SessionState)
    | CaptureAccepted(audio: bool)
    | CaptureNoted
    | TurnStarted(turn: nat)
    | TextDelta(turn: nat, text: string)
    | TextCompleted(turn: nat, text: string)
    | ApprovalRequested(approval: ApprovalId)
    | ApprovalResolved(approval: ApprovalId)
    | TurnInterrupted(turn: nat)
    | TurnCompleted(turn: nat, outcome: Outcome)

  // ---------------------------------------------------- the handheld's screen ---

  /** None is the state shown before anything has been received. */
  datatype Screen = Screen(agentState: Option<SessionState>, turnActive: bool, pendingApproval: Option<ApprovalId>)

  /** attach_to_current_session */
  const ATTACHED := Screen(None, false, None)

  predicate IsTurnState(state: SessionState) {
    state == Working || state == WaitingForUser
  }

  /** handle_protocol_event */
  function Shown(screen: Screen, event: Event): Screen {
    match event
    case SessionUpdated(state) =>
      Screen(Some(state), IsTurnState(state), if state == Idle then None else screen.pendingApproval)
    case TurnStarted(_) => screen.(turnActive := true)
    case ApprovalRequested(id) => screen.(pendingApproval := Some(id), turnActive := true)
    case ApprovalResolved(_) => screen.(pendingApproval := None)
    case TurnInterrupted(_) => screen.(turnActive := false)
    case TurnCompleted(_, _) => screen.(turnActive := false)
    case _ => screen
  }

  function ShownAll(screen: Screen, events: seq<Event>): Screen {
    if events == [] then screen else Shown(ShownAll(screen, events[..|events| - 1]), events[|events| - 1])
  }

  /** The part of a session's summary that a resync carries. */
  datatype Snapshot = Snapshot(state: SessionState, pendingApproval: Option<ApprovalId>)

  /** apply_session_snapshot: nothing of what was shown before remains. */
  function Resynced(screen: Screen, snapshot: Snapshot): Screen {
    Screen(Some(snapshot.state), IsTurnState(snapshot.state), snapshot.pendingApproval)
  }

  lemma ShownPush(screen: Screen, events: seq<Event>, event: Event)
    ensures ShownAll(screen, events + [event]) == Shown(ShownAll(screen, events), event)
  {
    assert (events + [event])[..|events|] == events;
  }

  lemma {:induction false} ShownInParts(screen: Screen, a: seq<Event>, b: seq<Event>)
    ensures ShownAll(screen, a + b) == ShownAll(ShownAll(screen, a), b)
    decreases |b|
  {
    if b == [] {
      assert a + b == a;
    } else {
      var front, last := b[..|b| - 1], b[|b| - 1];
      assert a + b == (a + front) + [last];
      ShownPush(screen, a + front, last);
      ShownInParts(screen, a, front);
    }
  }

  /** The globals of the main loop that the screen is made of. */
  class TaskScreen {
    var agentState: Option<SessionState>
    var turnActive: bool
    var pendingApproval: Option<ApprovalId>

    function Now(): Screen
      reads this
    {
      Screen(agentState, turnActive, pendingApproval)
    }

    constructor ()
      ensures Now() == ATTACHED
    {
      agentState, turnActive, pendingApproval := None, false, None;
    }

    /** handle_protocol_event */
    method HandleProtocolEvent(event: Event)
      modifies this
      ensures Now() == Shown(old(Now()), event)
    {
      match event
      case SessionUpdated(state) =>
        agentState := Some(state);
        turnActive := state == Working || state == WaitingForUser;
        if state == Idle {
          pendingApproval := None;
        }
      case TurnStarted(_) => turnActive := true;
      case ApprovalRequested(id) =>
        pendingApproval := Some(id);
        turnActive := true;
      case ApprovalResolved(_) => pendingApproval := None;
      case TurnInterrupted(_) => turnActive := false;
      case TurnCompleted(_, _) => turnActive := false;
      case _ =>
    }

    /** apply_session_snapshot */
    method ApplySessionSnapshot(snapshot: Snapshot)
      modifies this
      ensures Now() == Resynced(old(Now()), snapshot)
    {
      agentState := Some(snapshot.state);
      turnActive := snapshot.state == Working || snapshot.state == WaitingForUser;
      pendingApproval := snapshot.pendingApproval;
    }

    /** The events of a batch, one frame after another. */
    method HandleAll(events: seq<Event>)
      modifies this
      ensures Now() == ShownAll(old(Now()), events)
    {
      for i := 0 to |events|
        invariant Now() == ShownAll(old(Now()), events[..i])
      {
        assert events[..i + 1] == events[..i] + [events[i]];
        ShownPush(old(Now()), events[..i], events[i]);
        HandleProtocolEvent(events[i]);
      }
      assert events[..|events|] == events;
    }
  }

  // ------------------------------------------------------- what a log may say ---

  /** What a well-formed log is in the middle of: a turn, an approval within it, and the turn's text so far. */
  datatype Ledger = Ledger(turn: Option<nat>, approval: Option<ApprovalId>, text: string)

  /** Reads one more event of a well-formed log; None if it does not belong there. */
  function Audit(ledger: Option<Ledger>, event: Event): Option<Ledger> {
    match ledger
    case None => None
    case Some(l) =>
      match event
      case TurnStarted(t) => if l.turn.None? then Some(Ledger(Some(t), None, "")) else None
      case TextDelta(t, text) => if l.turn == Some(t) && l.approval.None? then Some(l.(text := l.text + text)) else None
      case TextCompleted(t, text) => if l.turn == Some(t) && l.approval.None? && text == l.text then ledger else None
      case ApprovalRequested(id) => if l.turn.Some? && l.approval.None? then Some(l.(approval := Some(id))) else None
      case ApprovalResolved(id) => if l.approval == Some(id) then Some(l.(approval := None)) else None
      case TurnInterrupted(t) => if l.turn == Some(t) && l.approval.None? then ledger else None
      case TurnCompleted(t, _) => if l.turn == Some(t) && l.approval.None? then Some(Ledger(None, None, "")) else None
      case _ => ledger
  }

  function AuditAll(events: seq<Event>): Option<Ledger> {
    if events == [] then Some(Ledger(None, None, "")) else Audit(AuditAll(events[..|events| - 1]), events[|events| - 1])
  }

  lemma AuditPush(events: seq<Event>, event: Event)
    ensures AuditAll(events + [event]) == Audit(AuditAll(events), event)
  {
    assert (events + [event])[..|events|] == events;
  }

  // -------------------------------------------------------------- the agent ---

  datatype AgentError = SessionBusy | NoActiveTurn | ApprovalNotPending

  datatype Turn = Turn(
    id: nat,
    pieces: seq<string>,
    nextPiece: nat,
    fullText: string,
    approvalAfterPiece: Option<nat>,
    timer: bool)

  datatype Choice = ApproveOnce | Decline | Cancel

  /** events are those appended to the session's log, and turns is how many there have been. */
  datatype Agent = Agent(
    state: SessionState,
    activeTurn: Option<Turn>,
    pendingApproval: Option<ApprovalId>,
    events: seq<Event>,
    turns: nat)

  /** What may happen to the agent; the last is an event about a capture that the bridge appends itself. */
  datatype Operation =
    | Submit(audio: bool, pieces: seq<string>, needsApproval: bool)
    | Interrupt
    | Respond(approval: ApprovalId, choice: Choice)
    | TimerFires(turn: nat, freshApproval: ApprovalId)
    | NoteCapture

  /** session() */
  function SessionOf(a: Agent): Snapshot {
    Snapshot(a.state, a.pendingApproval)
  }

  function Created(): Agent {
    Agent(Idle, None, None, [ConnectionReady] + [SessionUpdated(Idle)], 0)
  }

  function Emitted(a: Agent, event: Event): Agent {
    a.(events := a.events + [event])
  }

  /** #setState */
  function WithState(a: Agent, state: SessionState): Agent {
    Emitted(a.(state := state), SessionUpdated(state))
  }

  /** submitText and submitAudio, which differ in the kind of capture and the prompt made of it. */
  function Submitted(a: Agent, audio: bool, pieces: seq<string>, needsApproval: bool): Agent {
    if a.activeTurn.Some? then a else
    var turn := Turn(a.turns, pieces, 0, "", if needsApproval then Some(1) else None, true);
    WithState(Emitted(Emitted(a, CaptureAccepted(audio)), TurnStarted(a.turns)).(activeTurn := Some(turn), turns := a.turns + 1), Working)
  }

  function Interrupted(a: Agent): Agent {
    if a.activeTurn.None? then a else
    var turn := a.activeTurn.value;
    var resolved := if a.pendingApproval.Some? then Emitted(a, ApprovalResolved(a.pendingApproval.value)) else a;
    WithState(
      Emitted(Emitted(resolved, TurnInterrupted(turn.id)), TurnCompleted(turn.id, Stopped)).(activeTurn := None, pendingApproval := None),
      Idle)
  }

  /** The last piece of a turn that needed an approval. */
  function Resolution(choice: Choice): string {
    if choice == ApproveOnce then "Approval accepted. The fake command completed safely.\n"
    else "Approval declined. The fake command was not run.\n"
  }

  function Responded(a: Agent, approval: ApprovalId, choice: Choice): Agent {
    if a.activeTurn.None? || a.pendingApproval != Some(approval) then a else
    var turn := a.activeTurn.value;
    WithState(
      Emitted(a, ApprovalResolved(approval))
        .(pendingApproval := None, activeTurn := Some(turn.(pieces := turn.pieces + [Resolution(choice)], timer := true))),
      Working)
  }

  /** #emitNextDelta, when the timer of a turn fires; freshApproval is the ID that a request would get. */
  function Fired(a: Agent, turn: nat, freshApproval: ApprovalId): Agent {
    if a.activeTurn.None? || a.activeTurn.value.id != turn || a.state != Working then a
    else if a.activeTurn.value.nextPiece >= |a.activeTurn.value.pieces| then Finished(a)
    else
      var before := a.activeTurn.value;
      var piece := before.pieces[before.nextPiece];
      var asks := before.approvalAfterPiece == Some(before.nextPiece + 1);
      var told := Emitted(a, TextDelta(turn, piece)).(activeTurn :=
        Some(before.(nextPiece := before.nextPiece + 1, fullText := before.fullText + piece, timer := !asks)));
      if asks then WithState(Emitted(told, ApprovalRequested(freshApproval)).(pendingApproval := Some(freshApproval)), WaitingForUser)
      else told
  }

  /** #completeTurn: the completed text is all the deltas together. */
  function Finished(a: Agent): Agent
    requires a.activeTurn.Some?
  {
    var turn := a.activeTurn.value;
    WithState(Emitted(Emitted(a, TextCompleted(turn.id, turn.fullText)), TurnCompleted(turn.id, Completed)).(activeTurn := None), Idle)
  }

  function Operated(a: Agent, op: Operation): Agent {
    match op
    case Submit(audio, pieces, needsApproval) => Submitted(a, audio, pieces, needsApproval)
    case Interrupt => Interrupted(a)
    case Respond(approval, choice) => Responded(a, approval, choice)
    case TimerFires(turn, freshApproval) => Fired(a, turn, freshApproval)
    case NoteCapture => Emitted(a, CaptureNoted)
  }

  // ----------------------------------------------------------- what it keeps ---

  /**
   Folding the log into a screen gives what the session's summary says, the log is a well-formed
   story, and state, turn and pending approval agree.
   */
  ghost predicate AgentOk(a: Agent) {
    && ShownAll(ATTACHED, a.events) == Resynced(ATTACHED, SessionOf(a))
    && AuditAll(a.events) == Some(LedgerOf(a))
    && (a.state == Idle <==> a.activeTurn.None?)
    && (a.state == WaitingForUser <==> a.pendingApproval.Some?)
    && (a.activeTurn.Some? ==>
        && a.activeTurn.value.nextPiece <= |a.activeTurn.value.pieces|
        && a.activeTurn.value.timer == (a.state == Working)
        && a.activeTurn.value.id < a.turns)
  }

  function LedgerOf(a: Agent): Ledger {
    if a.activeTurn.Some? then Ledger(Some(a.activeTurn.value.id), a.pendingApproval, a.activeTurn.value.fullText)
    else Ledger(None, None, "")
  }

  lemma EmittedIs(a: Agent, event: Event)
    ensures ShownAll(ATTACHED, Emitted(a, event).events) == Shown(ShownAll(ATTACHED, a.events), event)
    ensures AuditAll(Emitted(a, event).events) == Audit(AuditAll(a.events), event)
  {
    ShownPush(ATTACHED, a.events, event);
    AuditPush(a.events, event);
  }

  lemma NothingShown()
    ensures ShownAll(ATTACHED, []) == ATTACHED && AuditAll([]) == Some(Ledger(None, None, ""))
  {
  }

  lemma CreatedOk()
    ensures AgentOk(Created())
  {
    hide ShownAll, AuditAll;
    var blank := Agent(Idle, None, None, [], 0);
    NothingShown();
    EmittedIs(blank, ConnectionReady);
    EmittedIs(Emitted(blank, ConnectionReady), SessionUpdated(Idle));
    assert Created() == Emitted(Emitted(blank, ConnectionReady), SessionUpdated(Idle));
  }

  lemma SubmittedOk(a: Agent, audio: bool, pieces: seq<string>, needsApproval: bool)
    requires AgentOk(a)
    ensures AgentOk(Submitted(a, audio, pieces, needsApproval))
  {
    hide ShownAll, AuditAll;
    if a.activeTurn.None? {
      var b := Emitted(a, CaptureAccepted(audio));
      EmittedIs(a, CaptureAccepted(audio));
      EmittedIs(b, TurnStarted(a.turns));
      EmittedIs(Emitted(b, TurnStarted(a.turns)), SessionUpdated(Working));
    }
  }

  lemma InterruptedOk(a: Agent)
    requires AgentOk(a)
    ensures AgentOk(Interrupted(a))
  {
    hide ShownAll, AuditAll;
    if a.activeTurn.Some? {
      var turn := a.activeTurn.value;
      var b := if a.pendingApproval.Some? then Emitted(a, ApprovalResolved(a.pendingApproval.value)) else a;
      if a.pendingApproval.Some? {
        EmittedIs(a, ApprovalResolved(a.pendingApproval.value));
      }
      EmittedIs(b, TurnInterrupted(turn.id));
      var c := Emitted(b, TurnInterrupted(turn.id));
      EmittedIs(c, TurnCompleted(turn.id, Stopped));
      EmittedIs(Emitted(c, TurnCompleted(turn.id, Stopped)), SessionUpdated(Idle));
    }
  }

  lemma RespondedOk(a: Agent, approval: ApprovalId, choice: Choice)
    requires AgentOk(a)
    ensures AgentOk(Responded(a, approval, choice))
  {
    hide ShownAll, AuditAll, Resolution;
    if a.activeTurn.Some? && a.pendingApproval == Some(approval) {
      EmittedIs(a, ApprovalResolved(approval));
      EmittedIs(Emitted(a, ApprovalResolved(approval)), SessionUpdated(Working));
    }
  }

  lemma FinishedOk(a: Agent)
    requires AgentOk(a) && a.state == Working
    ensures AgentOk(Finished(a))
  {
    hide ShownAll, AuditAll;
    var turn := a.activeTurn.value;
    EmittedIs(a, TextCompleted(turn.id, turn.fullText));
    var b := Emitted(a, TextCompleted(turn.id, turn.fullText));
    EmittedIs(b, TurnCompleted(turn.id, Completed));
    EmittedIs(Emitted(b, TurnCompleted(turn.id, Completed)), SessionUpdated(Idle));
  }

  lemma FiredOk(a: Agent, turn: nat, freshApproval: ApprovalId)
    requires AgentOk(a)
    ensures AgentOk(Fired(a, turn, freshApproval))
  {
    hide ShownAll, AuditAll, Finished;
    if a.activeTurn.Some? && a.activeTurn.value.id == turn && a.state == Working {
      var before := a.activeTurn.value;
      if before.nextPiece >= |before.pieces| {
        FinishedOk(a);
      } else {
        var b := Emitted(a, TextDelta(turn, before.pieces[before.nextPiece]));
        EmittedIs(a, TextDelta(turn, before.pieces[before.nextPiece]));
        EmittedIs(b, ApprovalRequested(freshApproval));
        EmittedIs(Emitted(b, ApprovalRequested(freshApproval)), SessionUpdated(WaitingForUser));
      }
    }
  }

  /** Every operation leaves a log whose fold is the session's summary. */
  lemma OperatedOk(a: Agent, op: Operation)
    requires AgentOk(a)
    ensures AgentOk(Operated(a, op))
  {
    hide AgentOk, Submitted, Interrupted, Responded, Fired;
    match op
    case Submit(audio, pieces, needsApproval) => SubmittedOk(a, audio, pieces, needsApproval);
    case Interrupt => InterruptedOk(a);
    case Respond(approval, choice) => RespondedOk(a, approval, choice);
    case TimerFires(turn, freshApproval) => FiredOk(a, turn, freshApproval);
    case NoteCapture => NotedOk(a);
  }

  lemma NotedOk(a: Agent)
    requires AgentOk(a)
    ensures AgentOk(Emitted(a, CaptureNoted))
  {
    hide ShownAll, AuditAll;
    EmittedIs(a, CaptureNoted);
  }

  lemma OperatedAppends(a: Agent, op: Operation)
    ensures a.events <= Operated(a, op).events
  {
  }

  /** What an operation appends to the log. */
  function Appended(a: Agent, op: Operation): seq<Event> {
    OperatedAppends(a, op);
    Operated(a, op).events[|a.events|..]
  }

  /** The agent after these operations. */
  function AfterAll(ops: seq<Operation>): Agent {
    if ops == [] then Created() else Operated(AfterAll(ops[..|ops| - 1]), ops[|ops| - 1])
  }

  lemma {:induction false} AfterAllOk(ops: seq<Operation>)
    ensures AgentOk(AfterAll(ops))
  {
    hide AgentOk, Operated;
    if ops == [] {
      CreatedOk();
    } else {
      AfterAllOk(ops[..|ops| - 1]);
      OperatedOk(AfterAll(ops[..|ops| - 1]), ops[|ops| - 1]);
    }
  }

  lemma {:induction false} EventsGrow(ops: seq<Operation>, n: nat)
    requires n <= |ops|
    ensures AfterAll(ops[..n]).events <= AfterAll(ops).events
    decreases |ops|
  {
    hide Operated;
    if n == |ops| {
      assert ops[..n] == ops;
    } else {
      var front := ops[..|ops| - 1];
      assert front[..n] == ops[..n];
      EventsGrow(front, n);
      OperatedAppends(AfterAll(front), ops[|ops| - 1]);
    }
  }

  /**
   After any operations, a screen that lost the start of the log and was given the session's summary
   as it was after the first n of them shows, once it has applied the events since, what a screen that
   saw everything shows: and that is the session as it is now.
   */
  lemma ResyncLosesNothing(ops: seq<Operation>, n: nat, before: Screen)
    requires n <= |ops|
    ensures var then_, now := AfterAll(ops[..n]), AfterAll(ops);
      && then_.events <= now.events
      && ShownAll(Resynced(before, SessionOf(then_)), now.events[|then_.events|..]) == ShownAll(ATTACHED, now.events)
      && ShownAll(ATTACHED, now.events) == Resynced(before, SessionOf(now))
  {
    hide ShownAll, Operated, AuditAll;
    EventsGrow(ops, n);
    AfterAllOk(ops[..n]);
    AfterAllOk(ops);
    var past, all := AfterAll(ops[..n]).events, AfterAll(ops).events;
    ShownInParts(ATTACHED, past, all[|past|..]);
    assert past + all[|past|..] == all;
  }

  // ----------------------------------------------------------- as an object ---

  class FakeAgent {
    var state: SessionState
    var activeTurn: Option<Turn>
    var pendingApproval: Option<ApprovalId>
    /** The events appended to the store, and how many turns there have been. */
    var events: seq<Event>
    var turns: nat

    ghost function View(): Agent
      reads this
    {
      Agent(state, activeTurn, pendingApproval, events, turns)
    }

    /** session() */
    function Session(): Snapshot
      reads this
    {
      Snapshot(state, pendingApproval)
    }

    constructor ()
      ensures View() == Created()
    {
      state, activeTurn, pendingApproval, turns := Idle, None, None, 0;
      events := [ConnectionReady, SessionUpdated(Idle)];
    }

    method Append(event: Event)
      modifies this`events
      ensures View() == Emitted(old(View()), event)
    {
      events := events + [event];
    }

    /** #setState */
    method SetState(state': SessionState)
      modifies this`state, this`events
      ensures View() == WithState(old(View()), state')
    {
      state := state';
      Append(SessionUpdated(state'));
    }

    /** submitText and submitAudio */
    method SubmitCapture(audio: bool, pieces: seq<string>, needsApproval: bool) returns (result: Result<nat, AgentError>)
      modifies this
      ensures View() == Operated(old(View()), Submit(audio, pieces, needsApproval))
      ensures result == if old(activeTurn).Some? then Err(SessionBusy) else Ok(old(turns))
    {
      if activeTurn.Some? {
        return Err(SessionBusy);
      }
      Append(CaptureAccepted(audio));
      activeTurn := Some(Turn(turns, pieces, 0, "", if needsApproval then Some(1) else None, false));
      turns := turns + 1;
      Append(TurnStarted(activeTurn.value.id));
      SetState(Working);
      ScheduleNextDelta();
      result := Ok(activeTurn.value.id);
    }

    method ScheduleNextDelta()
      requires activeTurn.Some?
      modifies this`activeTurn
      ensures activeTurn == Some(old(activeTurn).value.(timer := true))
    {
      activeTurn := Some(activeTurn.value.(timer := true));
    }

    /** interrupt() */
    method InterruptTurn() returns (result: Result<(), AgentError>)
      modifies this
      ensures View() == Operated(old(View()), Interrupt)
      ensures result == if old(activeTurn).None? then Err(NoActiveTurn) else Ok(())
    {
      if activeTurn.None? {
        return Err(NoActiveTurn);
      }
      var turn := activeTurn.value;
      if pendingApproval.Some? {
        Append(ApprovalResolved(pendingApproval.value));
        pendingApproval := None;
      }
      Append(TurnInterrupted(turn.id));
      Append(TurnCompleted(turn.id, Stopped));
      activeTurn := None;
      SetState(Idle);
      result := Ok(());
    }

    /** respondToApproval() */
    method RespondToApproval(approval: ApprovalId, choice: Choice) returns (result: Result<(), AgentError>)
      modifies this
      ensures View() == Operated(old(View()), Respond(approval, choice))
      ensures result == if old(activeTurn).None? || old(pendingApproval) != Some(approval) then Err(ApprovalNotPending) else Ok(())
    {
      hide Resolution;
      if activeTurn.None? || pendingApproval != Some(approval) {
        return Err(ApprovalNotPending);
      }
      var turn := activeTurn.value;
      Append(ApprovalResolved(approval));
      pendingApproval := None;
      activeTurn := Some(turn.(pieces := turn.pieces + [Resolution(choice)]));
      SetState(Working);
      ScheduleNextDelta();
      result := Ok(());
    }

    /** #emitNextDelta, when the timer of a turn fires. */
    method EmitNextDelta(turn: nat, freshApproval: ApprovalId)
      modifies this
      ensures View() == Operated(old(View()), TimerFires(turn, freshApproval))
    {
      if activeTurn.None? || activeTurn.value.id != turn || state != Working {
        return;
      }
      var current := activeTurn.value.(timer := false);
      if current.nextPiece >= |current.pieces| {
        CompleteTurn();
        return;
      }
      var piece := current.pieces[current.nextPiece];
      current := current.(nextPiece := current.nextPiece + 1, fullText := current.fullText + piece);
      activeTurn := Some(current);
      Append(TextDelta(turn, piece));
      if current.approvalAfterPiece == Some(current.nextPiece) {
        pendingApproval := Some(freshApproval);
        Append(ApprovalRequested(freshApproval));
        SetState(WaitingForUser);
        return;
      }
      ScheduleNextDelta();
    }

    /** #completeTurn */
    method CompleteTurn()
      requires activeTurn.Some?
      modifies this
      ensures View() == Finished(old(View()))
    {
      var turn := activeTurn.value;
      Append(TextCompleted(turn.id, turn.fullText));
      Append(TurnCompleted(turn.id, Completed));
      activeTurn := None;
      SetState(Idle);
    }
  }
}

/**
 Approvals and turns of the Codex adapter, as a machine over its operations and the messages, timers
 and exit of the agent process. Whoever comes first, the user, the expiry timer, the end of the turn or
 the bridge's shutdown, answers an approval, and nobody does so again. An answer is a write to the
 agent's stdin, which throws once the agent is gone; what then becomes of an approval depends on who
 was answering.
 */
module CodexApprovals {
  import opened Options

  type SessionId = string
  type TurnId = string
  type ApprovalId = string

  datatype SessionState = Offline | Idle | Working | WaitingForUser | FailedState

  datatype Decision = Accept | Decline | Cancel

  datatype TurnOutcome = Done | Interrupted | FailedTurn

  datatype Session = Session(state: SessionState, activeTurn: Option<TurnId>, pendingApproval: Option<ApprovalId>)

  /** A pending approval. Once its responder has been used, successfully or not, it only reports further use. */
  datatype Entry = Entry(id: ApprovalId, session: SessionId, turn: TurnId, responded: bool)

  datatype Event =
    | ApprovalRequested(approval: ApprovalId)
    | ApprovalResolved(approval: ApprovalId)
    | TurnStarted(turn: TurnId)
    | TextCompleted(turn: TurnId)
    | TurnInterrupted(turn: TurnId)
    | TurnCompleted(turn: TurnId, outcome: TurnOutcome)
    | SessionUpdated(state: SessionState, activeTurn: Option<TurnId>, pendingApproval: Option<ApprovalId>)
    | AgentError

  /** An answer to a stored approval, and whether it could be written. */
  datatype Attempt = Attempt(id: ApprovalId, decision: Decision, written: bool)

  /** A second request of a session, cancelled at once, and whether that could be written. */
  datatype Refusal = Refusal(session: SessionId, turn: TurnId, written: bool)

  datatype Adapter = Adapter(
    records: map<SessionId, Session>,
    pending: seq<Entry>,
    startedTurns: set<TurnId>,
    terminalTurns: seq<TurnId>,
    closed: bool,
    clientClosed: bool,
    stdinOpen: bool,
    events: seq<Event>,
    attempts: seq<Attempt>,
    refusals: seq<Refusal>,
    finished: seq<TurnId>)

  const REMEMBERED_TURNS: nat := 256

  // ------------------------------------------------------- turns that are over ---

  function Window(finished: seq<TurnId>): (window: seq<TurnId>)
    ensures |window| == (if |finished| < REMEMBERED_TURNS then |finished| else REMEMBERED_TURNS)
    ensures window == finished[|finished| - |window|..]
  {
    if |finished| < REMEMBERED_TURNS then finished else finished[|finished| - REMEMBERED_TURNS..]
  }

  /** A turn that is still remembered does not count as newly finished when it completes again. */
  function Finish(finished: seq<TurnId>, turn: TurnId): seq<TurnId> {
    if turn in Window(finished) then finished else finished + [turn]
  }

  lemma WindowGrows(finished: seq<TurnId>, turn: TurnId)
    ensures Window(Window(finished) + [turn]) == Window(finished + [turn]) && turn in Window(finished + [turn])
  {
    hide Window;
    var w, longer := Window(finished), finished + [turn];
    var d, e := |finished| - |w|, |w| + 1 - |Window(w + [turn])|;
    PushDropped(finished, d, turn);
    DropTwice(longer, d, e);
    assert Window(longer)[|Window(longer)| - 1] == turn;
  }

  lemma PushDropped(turns: seq<TurnId>, d: nat, turn: TurnId)
    requires d <= |turns|
    ensures turns[d..] + [turn] == (turns + [turn])[d..]
  {
  }

  lemma DropTwice(turns: seq<TurnId>, d: nat, e: nat)
    requires d + e <= |turns|
    ensures turns[d..][e..] == turns[d + e..]
  {
  }

  lemma DropNext(turns: seq<TurnId>, m: nat)
    requires m < |turns|
    ensures turns[m..][1..] == turns[m + 1..]
  {
  }

  /** Completing these turns one after another. */
  function FinishAll(turns: seq<TurnId>): seq<TurnId> {
    if turns == [] then [] else Finish(FinishAll(turns[..|turns| - 1]), turns[|turns| - 1])
  }

  // ----------------------------------------------------------- operations ---

  /** A session's record; one that a message mentions first is taken to be working. */
  function Record(records: map<SessionId, Session>, session: SessionId): Session {
    if session in records then records[session] else Session(Working, None, None)
  }

  /** Where an approval stands among the pending ones; their number if it is not there. */
  function Place(entries: seq<Entry>, id: ApprovalId): (k: nat)
    ensures k <= |entries| && (k < |entries| ==> entries[k].id == id)
    ensures forall j :: 0 <= j < k ==> entries[j].id != id
  {
    if entries == [] || entries[0].id == id then 0 else Place(entries[1..], id) + 1
  }

  function Without(entries: seq<Entry>, k: nat): seq<Entry>
    requires k < |entries|
  {
    entries[..k] + entries[k + 1..]
  }

  /** The responder writes once; the write throws if the agent's stdin is gone. */
  predicate Throws(x: Adapter, k: nat)
    requires k < |x.pending|
  {
    !x.pending[k].responded && !x.stdinOpen
  }

  function Answered(x: Adapter, k: nat, decision: Decision): Adapter
    requires k < |x.pending|
  {
    if x.pending[k].responded then x else
      x.(pending := x.pending[k := x.pending[k].(responded := true)],
         attempts := x.attempts + [Attempt(x.pending[k].id, decision, x.stdinOpen)])
  }

  function Dropped(x: Adapter, k: nat): Adapter
    requires k < |x.pending|
  {
    x.(pending := Without(x.pending, k))
  }

  function Noted(x: Adapter, event: Event): Adapter {
    x.(events := x.events + [event])
  }

  /** Answered, out of the map, and reported resolved. */
  function Resolved(x: Adapter, k: nat, decision: Decision): Adapter
    requires k < |x.pending|
  {
    Noted(Dropped(Answered(x, k, decision), k), ApprovalResolved(x.pending[k].id))
  }

  /** The session of an approval that is over announces none, and its state follows its turn. */
  function Settled(x: Adapter, session: SessionId): Adapter {
    var record := Record(x.records, session);
    Updated(x.(records := x.records[session :=
      record.(pendingApproval := None, state := if record.activeTurn.None? then Idle else Working)]), session)
  }

  function Updated(x: Adapter, session: SessionId): Adapter {
    var record := Record(x.records, session);
    Noted(x, SessionUpdated(record.state, record.activeTurn, record.pendingApproval))
  }

  /** An answer by the user or by the timer: the approval leaves the map before the write that may throw. */
  function Concluded(x: Adapter, k: nat, decision: Decision): Adapter
    requires k < |x.pending|
  {
    if Throws(x, k) then Dropped(Answered(x, k, decision), k)
    else Settled(Resolved(x, k, decision), x.pending[k].session)
  }

  function Registered(x: Adapter, session: SessionId): Adapter {
    x.(records := x.records[session := Record(x.records, session)])
  }

  /** #onServerRequest for an approval: a session has one announced at a time, and a second is cancelled at once. */
  function Requested(x: Adapter, session: SessionId, turn: TurnId, newId: ApprovalId): Adapter {
    var y := Registered(x, session);
    if y.records[session].pendingApproval.Some? then
      var z := y.(refusals := y.refusals + [Refusal(session, turn, y.stdinOpen)]);
      if y.stdinOpen then Noted(z, AgentError) else z
    else
      Updated(Noted(
        y.(pending := y.pending + [Entry(newId, session, turn, false)],
           records := y.records[session := y.records[session].(pendingApproval := Some(newId), state := WaitingForUser)]),
        ApprovalRequested(newId)), session)
  }

  /** #markTurnStarted: a turn remembered as over is not started again. */
  function Started(x: Adapter, session: SessionId, turn: TurnId): Adapter {
    if turn in x.terminalTurns then x else
    var y := x.(records := x.records[session := Record(x.records, session).(activeTurn := Some(turn), state := Working)]);
    Updated(if turn in x.startedTurns then y else Noted(y.(startedTurns := y.startedTurns + {turn}), TurnStarted(turn)), session)
  }

  /** The loop of #completeTurn over the pending approvals, from the k-th on, and whether it came to its end. */
  function Cancelled(x: Adapter, k: nat, session: SessionId, turn: TurnId): (Adapter, bool)
    requires k <= |x.pending|
    decreases |x.pending| - k
  {
    if k == |x.pending| then (x, true)
    else if !(x.pending[k].session == session && x.pending[k].turn == turn) then Cancelled(x, k + 1, session, turn)
    else if Throws(x, k) then (Answered(x, k, Cancel), false)
    else Cancelled(Resolved(x, k, Cancel), k, session, turn)
  }

  /** The rest of #completeTurn. */
  function Ended(x: Adapter, session: SessionId, turn: TurnId, outcome: TurnOutcome): Adapter {
    var noted := x.events + [TextCompleted(turn)] + (if outcome.Interrupted? then [TurnInterrupted(turn)] else [])
                 + [TurnCompleted(turn, outcome)];
    Updated(x.(
      events := noted,
      records := x.records[session := Session(if outcome.FailedTurn? then FailedState else Idle, None, None)],
      startedTurns := x.startedTurns - {turn},
      terminalTurns := if turn in x.terminalTurns then x.terminalTurns else Window(x.terminalTurns + [turn]),
      finished := Finish(x.finished, turn)), session)
  }

  function Completed(x: Adapter, session: SessionId, turn: TurnId, outcome: TurnOutcome): Adapter {
    var (y, whole) := Cancelled(Registered(x, session), 0, session, turn);
    if whole then Ended(y, session, turn, outcome) else y
  }

  /** thread/status/changed: a session that waits for the user keeps waiting. */
  function StatusNoted(x: Adapter, session: SessionId, status: SessionState): Adapter {
    var y := Registered(x, session);
    Updated(if y.records[session].pendingApproval.Some? then y
            else y.(records := y.records[session := y.records[session].(state := status)]), session)
  }

  function ErrorNoted(x: Adapter, session: SessionId, retrying: bool): Adapter {
    var y := Noted(Registered(x, session), AgentError);
    if retrying then y else
      Updated(y.(records := y.records[session := y.records[session].(state := FailedState)]), session)
  }

  /** The loop of shutdown, which leaves what it has answered in the map until its end. */
  function ShutFrom(x: Adapter, k: nat): (Adapter, bool)
    requires k <= |x.pending|
    decreases |x.pending| - k
  {
    if k == |x.pending| then (x, true)
    else if Throws(x, k) then (Answered(x, k, Cancel), false)
    else ShutFrom(Noted(Answered(x, k, Cancel), ApprovalResolved(x.pending[k].id)), k + 1)
  }

  /** shutdown, up to and with closing the client. */
  function ShutDown(x: Adapter): Adapter {
    if x.closed then x else
    var (y, whole) := ShutFrom(x.(closed := true), 0);
    if whole then y.(pending := [], clientClosed := true) else y
  }

  // ------------------------------------------------------------------ runs ---

  datatype Step =
    | Request(session: SessionId, turn: TurnId, newId: ApprovalId)
    | Respond(session: SessionId, id: ApprovalId, decision: Decision)
    | Expire(id: ApprovalId)
    | TurnStart(session: SessionId, turn: TurnId)
    | TurnComplete(session: SessionId, turn: TurnId, outcome: TurnOutcome)
    | Status(session: SessionId, status: SessionState)
    | ErrorNotice(session: SessionId, retrying: bool)
    | AgentExit
    | Shutdown

  function Initial(): Adapter {
    Adapter(map[], [], {}, [], false, false, true, [], [], [], [])
  }

  /** A timer that has been cleared does not fire, and a closed client passes nothing on. */
  ghost predicate Enabled(x: Adapter, step: Step) {
    match step
    case Request(_, _, newId) => !x.clientClosed && Count(x.events, Asks(newId)) == 0
    case Expire(id) => Place(x.pending, id) < |x.pending| ==> !x.pending[Place(x.pending, id)].responded
    case TurnComplete(_, _, _) => !x.clientClosed
    case Status(_, _) => !x.clientClosed
    case ErrorNotice(_, _) => !x.clientClosed
    case _ => true
  }

  function Apply(x: Adapter, step: Step): Adapter {
    match step
    case Request(session, turn, newId) => Requested(x, session, turn, newId)
    case Respond(session, id, decision) =>
      var k := Place(x.pending, id);
      if x.closed || k == |x.pending| || x.pending[k].session != session then x else Concluded(x, k, decision)
    case Expire(id) =>
      var k := Place(x.pending, id);
      if k == |x.pending| then x else Concluded(x, k, Cancel)
    case TurnStart(session, turn) => Started(Registered(x, session), session, turn)
    case TurnComplete(session, turn, outcome) => Completed(x, session, turn, outcome)
    case Status(session, status) => StatusNoted(x, session, status)
    case ErrorNotice(session, retrying) => ErrorNoted(x, session, retrying)
    case AgentExit => x.(stdinOpen := false)
    case Shutdown => ShutDown(x)
  }

  ghost predicate IsRun(steps: seq<Step>, states: seq<Adapter>) {
    && |states| == |steps| + 1 && states[0] == Initial()
    && forall i :: 0 <= i < |steps| ==> Enabled(states[i], steps[i]) && states[i + 1] == Apply(states[i], steps[i])
  }

  // -------------------------------------------------------------- counting ---

  ghost function Count<T(!new)>(s: seq<T>, p: T -> bool): nat {
    if s == [] then 0 else Count(s[..|s| - 1], p) + if p(s[|s| - 1]) then 1 else 0
  }

  lemma CountPush<T(!new)>(s: seq<T>, e: T, p: T -> bool)
    ensures Count(s + [e], p) == Count(s, p) + if p(e) then 1 else 0
  {
    assert (s + [e])[..|s|] == s;
  }

  lemma {:induction false} CountConcat<T(!new)>(a: seq<T>, b: seq<T>, p: T -> bool)
    ensures Count(a + b, p) == Count(a, p) + Count(b, p)
  {
    if b == [] {
      assert a + b == a;
    } else {
      assert (a + b)[..|a + b| - 1] == a + b[..|b| - 1];
      CountConcat(a, b[..|b| - 1], p);
    }
  }

  lemma CountSplit<T(!new)>(s: seq<T>, k: nat, p: T -> bool)
    requires k < |s|
    ensures Count(s, p) == Count(s[..k] + s[k + 1..], p) + if p(s[k]) then 1 else 0
  {
    hide Count;
    var front, back := s[..k], s[k + 1..];
    assert s == front + [s[k]] + back;
    CountPush(front, s[k], p);
    CountConcat(front + [s[k]], back, p);
    CountConcat(front, back, p);
  }

  lemma CountUpdate<T(!new)>(s: seq<T>, k: nat, e: T, p: T -> bool)
    requires k < |s|
    ensures Count(s[k := e], p) + (if p(s[k]) then 1 else 0) == Count(s, p) + if p(e) then 1 else 0
  {
    CountSplit(s, k, p);
    CountSplit(s[k := e], k, p);
    assert s[k := e][..k] == s[..k] && s[k := e][k + 1..] == s[k + 1..];
  }

  lemma {:induction false} CountLess<T(!new)>(s: seq<T>, p: T -> bool, q: T -> bool)
    requires forall e :: p(e) ==> q(e)
    ensures Count(s, p) <= Count(s, q)
  {
    if s != [] {
      CountLess(s[..|s| - 1], p, q);
    }
  }

  lemma CountTwo<T(!new)>(s: seq<T>, i: nat, j: nat, p: T -> bool)
    requires i < j < |s| && p(s[i]) && p(s[j])
    ensures Count(s, p) >= 2
  {
    CountSplit(s, j, p);
    var rest := s[..j] + s[j + 1..];
    assert rest[i] == s[i];
    CountSplit(rest, i, p);
  }

  ghost function Asks(id: ApprovalId): Event -> bool {
    (e: Event) => e == ApprovalRequested(id)
  }

  ghost function Settles(id: ApprovalId): Event -> bool {
    (e: Event) => e == ApprovalResolved(id)
  }

  ghost function Tries(id: ApprovalId): Attempt -> bool {
    (a: Attempt) => a.id == id
  }

  ghost function Answers(id: ApprovalId): Attempt -> bool {
    (a: Attempt) => a.id == id && a.written
  }

  ghost function Holds(id: ApprovalId): Entry -> bool {
    (e: Entry) => e.id == id
  }

  ghost function Waits(id: ApprovalId): Entry -> bool {
    (e: Entry) => e.id == id && !e.responded
  }

  // ----------------------------------------------------------- what changes what ---

  ghost predicate Known(x: Adapter) {
    forall k :: 0 <= k < |x.pending| ==> x.pending[k].session in x.records
  }

  ghost predicate TerminalIsWindow(x: Adapter) {
    x.terminalTurns == Window(x.finished)
  }

  /** The loop of #completeTurn changes the map and the logs only; its own session is put right afterwards. */
  lemma {:induction false} CancelledFrame(x: Adapter, k: nat, session: SessionId, turn: TurnId)
    requires k <= |x.pending|
    ensures var (y, whole) := Cancelled(x, k, session, turn);
      && y == x.(pending := y.pending, events := y.events, attempts := y.attempts)
      && x.attempts <= y.attempts && (x.stdinOpen ==> whole)
    decreases |x.pending| - k
  {
    hide Resolved, Answered;
    if k == |x.pending| {
    } else if !(x.pending[k].session == session && x.pending[k].turn == turn) {
      CancelledFrame(x, k + 1, session, turn);
    } else if Throws(x, k) {
      ResolvedFrame(x, k, Cancel);
    } else {
      ResolvedFrame(x, k, Cancel);
      CancelledFrame(Resolved(x, k, Cancel), k, session, turn);
    }
  }

  lemma ResolvedFrame(x: Adapter, k: nat, decision: Decision)
    requires k < |x.pending|
    ensures var y := Answered(x, k, decision); y == x.(pending := y.pending, attempts := y.attempts) && x.attempts <= y.attempts
    ensures var y := Resolved(x, k, decision);
      y == x.(pending := y.pending, events := y.events, attempts := y.attempts) && x.attempts <= y.attempts
    ensures Answered(x, k, decision).pending == x.pending[k := x.pending[k].(responded := true)]
    ensures Resolved(x, k, decision).pending == Without(x.pending, k)
  {
    assert x.pending[k].responded ==> x.pending[k].(responded := true) == x.pending[k];
    assert Without(Answered(x, k, decision).pending, k) == Without(x.pending, k);
  }

  lemma WithoutShrinks(entries: seq<Entry>, k: nat)
    requires k < |entries|
    ensures |Without(entries, k)| == |entries| - 1
  {
  }

  // ------------------------------------------------------------ the adapter ---

  datatype AdapterError = AdapterOffline | ApprovalNotPending | StdinUnavailable

  class CodexAdapter {
    var records: map<SessionId, Session>
    /** #pendingApprovals, in insertion order. */
    var pending: seq<Entry>
    var startedTurns: set<TurnId>
    /** #terminalTurns, in insertion order. */
    var terminalTurns: seq<TurnId>
    var closed: bool
    /** The client's state is closed, and its process still takes input. */
    var clientClosed: bool
    var stdinOpen: bool
    var events: seq<Event>
    /** Every answer tried, every second request turned away, and every turn ever put into #terminalTurns. */
    ghost var attempts: seq<Attempt>
    ghost var refusals: seq<Refusal>
    ghost var finished: seq<TurnId>

    ghost function View(): Adapter
      reads this
    {
      Adapter(records, pending, startedTurns, terminalTurns, closed, clientClosed, stdinOpen, events, attempts, refusals, finished)
    }

    constructor ()
      ensures View() == Initial()
    {
      records, pending, startedTurns, terminalTurns := map[], [], {}, [];
      closed, clientClosed, stdinOpen, events := false, false, true, [];
      attempts, refusals, finished := [], [], [];
    }

    method EmitSessionUpdated(session: SessionId)
      requires session in records
      modifies this`events
      ensures View() == Updated(old(View()), session)
    {
      var record := records[session];
      events := events + [SessionUpdated(record.state, record.activeTurn, record.pendingApproval)];
    }

    /** A pending approval's responder: its first use is a write to the agent, any other is reported. */
    method Answer(entry: Entry, decision: Decision) returns (thrown: bool)
      modifies this`attempts
      ensures thrown <==> !entry.responded && !stdinOpen
      ensures attempts == old(attempts) + if entry.responded then [] else [Attempt(entry.id, decision, stdinOpen)]
    {
      if entry.responded {
        return false;
      }
      attempts := attempts + [Attempt(entry.id, decision, stdinOpen)];
      thrown := !stdinOpen;
    }

    /** respondToApproval */
    method RespondToApproval(session: SessionId, id: ApprovalId, decision: Decision) returns (result: Result<(), AdapterError>)
      requires Known(View())
      modifies this`pending, this`attempts, this`events, this`records
      ensures View() == Apply(old(View()), Respond(session, id, decision))
      ensures var k := Place(old(pending), id);
        result == if old(closed) then Err(AdapterOffline)
                  else if k == |old(pending)| || old(pending)[k].session != session then Err(ApprovalNotPending)
                  else if !old(pending)[k].responded && !old(stdinOpen) then Err(StdinUnavailable)
                  else Ok(())
    {
      hide Settled, Resolved, Dropped, Answered, Updated, Known;
      if closed {
        return Err(AdapterOffline);
      }
      var k := Place(pending, id);
      if k == |pending| || pending[k].session != session {
        return Err(ApprovalNotPending);
      }
      var thrown := Conclude(k, decision);
      result := if thrown then Err(StdinUnavailable) else Ok(());
    }

    /** The expiry timer of an approval, if it has not been cleared. */
    method OnExpired(id: ApprovalId)
      requires Known(View()) && Enabled(View(), Expire(id))
      modifies this`pending, this`attempts, this`events, this`records
      ensures View() == Apply(old(View()), Expire(id))
    {
      hide Concluded, Known;
      var k := Place(pending, id);
      if k < |pending| {
        var thrown := Conclude(k, Cancel);
      }
    }

    /** The common course of an answer by the user and of an expiry. */
    method Conclude(k: nat, decision: Decision) returns (thrown: bool)
      requires Known(View()) && k < |pending|
      modifies this`pending, this`attempts, this`events, this`records
      ensures View() == Concluded(old(View()), k, decision) && thrown == Throws(old(View()), k)
    {
      var entry := pending[k];
      ResolvedFrame(View(), k, decision);
      DroppedAnswered(View(), k, decision);
      pending := Without(pending, k);
      thrown := Answer(entry, decision);
      if thrown {
        return;
      }
      events := events + [ApprovalResolved(entry.id)];
      var record := records[entry.session];
      records := records[entry.session := record.(pendingApproval := None, state := if record.activeTurn.None? then Idle else Working)];
      EmitSessionUpdated(entry.session);
    }

    /** #recordForThreadId */
    method RegisterThread(session: SessionId)
      modifies this`records
      ensures View() == Registered(old(View()), session)
    {
      if session !in records {
        records := records[session := Session(Working, None, None)];
      } else {
        assert records == records[session := records[session]];
      }
    }

    /** #onServerRequest for an approval; newId is the ID it would get. */
    method OnServerRequest(session: SessionId, turn: TurnId, newId: ApprovalId) returns (stored: bool)
      modifies this`records, this`pending, this`events, this`refusals
      ensures View() == Requested(old(View()), session, turn, newId)
      ensures stored <==> Record(old(records), session).pendingApproval.None?
    {
      RegisterThread(session);
      if records[session].pendingApproval.Some? {
        refusals := refusals + [Refusal(session, turn, stdinOpen)];
        if stdinOpen {
          events := events + [AgentError];
        }
        return false;
      }
      pending := pending + [Entry(newId, session, turn, false)];
      records := records[session := records[session].(pendingApproval := Some(newId), state := WaitingForUser)];
      events := events + [ApprovalRequested(newId)];
      EmitSessionUpdated(session);
      stored := true;
    }

    /** #markTurnStarted, for a session that has a record. */
    method MarkTurnStarted(session: SessionId, turn: TurnId)
      requires session in records
      modifies this`records, this`startedTurns, this`events
      ensures View() == Started(old(View()), session, turn)
    {
      if turn in terminalTurns {
        return;
      }
      records := records[session := records[session].(activeTurn := Some(turn), state := Working)];
      if turn !in startedTurns {
        startedTurns := startedTurns + {turn};
        events := events + [TurnStarted(turn)];
      }
      EmitSessionUpdated(session);
    }

    /** The loop of #completeTurn over the pending approvals: those of the turn are cancelled. */
    method CancelApprovalsOf(session: SessionId, turn: TurnId) returns (whole: bool)
      modifies this`pending, this`events, this`attempts
      ensures (View(), whole) == Cancelled(old(View()), 0, session, turn)
    {
      hide Answered, Resolved, Cancelled, Without;
      var k := 0;
      while k < |pending|
        invariant k <= |pending| && Cancelled(View(), k, session, turn) == Cancelled(old(View()), 0, session, turn)
        decreases |pending| - k
      {
        CancelledNext(View(), k, session, turn);
        if pending[k].session == session && pending[k].turn == turn {
          var thrown := CancelOne(k);
          if thrown {
            return false;
          }
        } else {
          k := k + 1;
        }
      }
      CancelledNext(View(), k, session, turn);
      whole := true;
    }

    /** The responder is used before the entry leaves the map. */
    method CancelOne(k: nat) returns (thrown: bool)
      requires k < |pending|
      modifies this`pending, this`events, this`attempts
      ensures thrown == Throws(old(View()), k)
      ensures View() == if thrown then Answered(old(View()), k, Cancel) else Resolved(old(View()), k, Cancel)
      ensures !thrown ==> |pending| == |old(pending)| - 1
    {
      var entry := pending[k];
      ResolvedFrame(View(), k, Cancel);
      thrown := Answer(entry, Cancel);
      pending := pending[k := entry.(responded := true)];
      if !thrown {
        pending := Without(pending, k);
        events := events + [ApprovalResolved(entry.id)];
      }
    }

    /** #completeTurn */
    method CompleteTurn(session: SessionId, turn: TurnId, outcome: TurnOutcome)
      modifies this`records, this`pending, this`events, this`attempts, this`startedTurns, this`terminalTurns, this`finished
      ensures View() == Completed(old(View()), session, turn, outcome)
    {
      hide Cancelled, Ended;
      RegisterThread(session);
      CancelledFrame(View(), 0, session, turn);
      var whole := CancelApprovalsOf(session, turn);
      if whole {
        EndTurn(session, turn, outcome);
      }
    }

    /** The rest of #completeTurn. */
    method EndTurn(session: SessionId, turn: TurnId, outcome: TurnOutcome)
      modifies this`records, this`events, this`startedTurns, this`terminalTurns, this`finished
      ensures View() == Ended(old(View()), session, turn, outcome)
    {
      hide Window, Finish;
      NoteEnd(turn, outcome);
      records := records[session := Session(if outcome.FailedTurn? then FailedState else Idle, None, None)];
      startedTurns := startedTurns - {turn};
      RememberTerminal(turn);
      EmitSessionUpdated(session);
    }

    /** The events of a turn that is over. */
    method NoteEnd(turn: TurnId, outcome: TurnOutcome)
      modifies this`events
      ensures events == old(events) + [TextCompleted(turn)] + (if outcome.Interrupted? then [TurnInterrupted(turn)] else [])
                        + [TurnCompleted(turn, outcome)]
    {
      events := events + [TextCompleted(turn)];
      if outcome.Interrupted? {
        events := events + [TurnInterrupted(turn)];
      }
      events := events + [TurnCompleted(turn, outcome)];
    }

    /** The turn joins those remembered as over, the oldest of which may be forgotten. */
    method RememberTerminal(turn: TurnId)
      modifies this`terminalTurns, this`finished
      ensures terminalTurns == if turn in old(terminalTurns) then old(terminalTurns) else Window(old(terminalTurns) + [turn])
      ensures finished == Finish(old(finished), turn)
    {
      hide Window;
      finished := Finish(finished, turn);
      if turn !in terminalTurns {
        terminalTurns := KeepNewest(terminalTurns + [turn]);
      }
    }

    /** The loop that forgets the oldest turns. */
    static method KeepNewest(turns: seq<TurnId>) returns (kept: seq<TurnId>)
      ensures kept == Window(turns)
    {
      hide Window;
      kept := turns;
      while |kept| > REMEMBERED_TURNS
        invariant |kept| <= |turns| && kept == turns[|turns| - |kept|..]
        invariant |kept| >= (if |turns| < REMEMBERED_TURNS then |turns| else REMEMBERED_TURNS)
        decreases |kept|
      {
        DropNext(turns, |turns| - |kept|);
        kept := kept[1..];
      }
    }

    /** thread/status/changed */
    method StatusChanged(session: SessionId, status: SessionState)
      modifies this`records, this`events
      ensures View() == StatusNoted(old(View()), session, status)
    {
      RegisterThread(session);
      if records[session].pendingApproval.None? {
        records := records[session := records[session].(state := status)];
      }
      EmitSessionUpdated(session);
    }

    /** error */
    method ErrorReported(session: SessionId, retrying: bool)
      modifies this`records, this`events
      ensures View() == ErrorNoted(old(View()), session, retrying)
    {
      RegisterThread(session);
      events := events + [AgentError];
      if !retrying {
        records := records[session := records[session].(state := FailedState)];
        EmitSessionUpdated(session);
      }
    }

    /** shutdown, up to and with closing the client; it breaks off at an answer that cannot be written. */
    method Shutdown() returns (thrown: bool)
      requires !closed ==> !clientClosed
      modifies this`closed, this`pending, this`events, this`attempts, this`clientClosed
      ensures View() == ShutDown(old(View()))
      ensures thrown <==> !old(closed) && !clientClosed
    {
      hide Answered, ShutFrom;
      if closed {
        return false;
      }
      closed := true;
      ghost var begun := View();
      var k := 0;
      while k < |pending|
        invariant k <= |pending| && closed && !clientClosed && ShutFrom(View(), k) == ShutFrom(begun, 0)
        invariant records == old(records) && startedTurns == old(startedTurns)
        decreases |pending| - k
        modifies this`pending, this`events, this`attempts
      {
        ShutNext(View(), k);
        thrown := AnswerAt(k);
        if thrown {
          return;
        }
        events := events + [ApprovalResolved(pending[k].id)];
        k := k + 1;
      }
      ShutNext(View(), k);
      pending := [];
      clientClosed := true;
      thrown := false;
    }

    /** Uses the responder of an entry that stays in the map. */
    method AnswerAt(k: nat) returns (thrown: bool)
      requires k < |pending|
      modifies this`pending, this`attempts
      ensures thrown == Throws(old(View()), k) && View() == Answered(old(View()), k, Cancel)
      ensures |pending| == |old(pending)| && pending[k].id == old(pending)[k].id
    {
      var entry := pending[k];
      ResolvedFrame(View(), k, Cancel);
      thrown := Answer(entry, Cancel);
      pending := pending[k := entry.(responded := true)];
    }
  }

  lemma DroppedAnswered(x: Adapter, k: nat, decision: Decision)
    requires k < |x.pending|
    ensures Dropped(Answered(x, k, decision), k).pending == Without(x.pending, k)
  {
    ResolvedFrame(x, k, decision);
    assert Without(Answered(x, k, decision).pending, k) == Without(x.pending, k);
  }

  lemma CancelledNext(x: Adapter, k: nat, session: SessionId, turn: TurnId)
    requires k <= |x.pending|
    ensures Cancelled(x, k, session, turn) ==
      if k == |x.pending| then (x, true)
      else if !(x.pending[k].session == session && x.pending[k].turn == turn) then Cancelled(x, k + 1, session, turn)
      else if Throws(x, k) then (Answered(x, k, Cancel), false)
      else Cancelled(Resolved(x, k, Cancel), k, session, turn)
  {
    hide Answered, Resolved;
  }

  lemma ShutNext(x: Adapter, k: nat)
    requires k <= |x.pending|
    ensures ShutFrom(x, k) ==
      if k == |x.pending| then (x, true)
      else if Throws(x, k) then (Answered(x, k, Cancel), false)
      else ShutFrom(Noted(Answered(x, k, Cancel), ApprovalResolved(x.pending[k].id)), k + 1)
  {
    hide Answered;
  }
}

/**
 Which decision an approval is answered with: the user's own if the user answers first, and a cancellation
 from everyone else. What each step writes to the agent, and what follows for every run.
 */
module CodexDecisions {
  import opened Options
  import opened CodexApprovals
  import opened CodexAnswers

  // ------------------------------------------------ what each step writes ---

  /** The IDs of the entries that wait and that p picks, in order. */
  ghost function WaitingIds(entries: seq<Entry>, p: Entry -> bool): (ids: seq<ApprovalId>) {
    if entries == [] then [] else
    (if p(entries[0]) && !entries[0].responded then [entries[0].id] else []) + WaitingIds(entries[1..], p)
  }

  /** One cancellation for each ID; without an agent to write to, the first of them throws and is the last. */
  ghost function Cancels(ids: seq<ApprovalId>, stdinOpen: bool): (attempts: seq<Attempt>) {
    if ids == [] then []
    else if stdinOpen then [Attempt(ids[0], Cancel, true)] + Cancels(ids[1..], true)
    else [Attempt(ids[0], Cancel, false)]
  }

  ghost function Named(id: ApprovalId): Entry -> bool {
    (e: Entry) => e.id == id
  }

  ghost function OfSession(session: SessionId, id: ApprovalId): Entry -> bool {
    (e: Entry) => e.id == id && e.session == session
  }

  ghost function OfTurn(session: SessionId, turn: TurnId): Entry -> bool {
    (e: Entry) => e.session == session && e.turn == turn
  }

  ghost function Anyone(): Entry -> bool {
    (e: Entry) => true
  }

  /** Whether a user's answer is accepted: its approval waits, in the session it names, and the bridge is not shut down. */
  ghost predicate Accepted(x: Adapter, session: SessionId, id: ApprovalId) {
    !x.closed && WaitingIds(x.pending, OfSession(session, id)) == [id]
  }

  /** Everything a step tries to write. */
  ghost function Writes(x: Adapter, step: Step): seq<Attempt> {
    match step
    case Respond(session, id, decision) => if Accepted(x, session, id) then [Attempt(id, decision, x.stdinOpen)] else []
    case Expire(id) => Cancels(WaitingIds(x.pending, Named(id)), x.stdinOpen)
    case TurnComplete(session, turn, _) => Cancels(WaitingIds(x.pending, OfTurn(session, turn)), x.stdinOpen)
    case Shutdown => if x.closed then [] else Cancels(WaitingIds(x.pending, Anyone()), x.stdinOpen)
    case _ => []
  }

  // ------------------------------------------------- one entry among many ---

  lemma {:induction false} NoneWaiting(entries: seq<Entry>, p: Entry -> bool)
    requires forall j :: 0 <= j < |entries| ==> !(p(entries[j]) && !entries[j].responded)
    ensures WaitingIds(entries, p) == []
  {
    if entries != [] {
      NoneWaiting(entries[1..], p);
    }
  }

  lemma {:induction false} OneWaiting(entries: seq<Entry>, k: nat, p: Entry -> bool)
    requires k < |entries| && forall j :: 0 <= j < |entries| ==> (p(entries[j]) && !entries[j].responded <==> j == k)
    ensures WaitingIds(entries, p) == [entries[k].id]
  {
    if k == 0 {
      NoneWaiting(entries[1..], p);
    } else {
      OneWaiting(entries[1..], k - 1, p);
    }
  }

  lemma OnlyHolder(x: Adapter, k: nat, j: nat)
    requires k < |x.pending| && j < |x.pending| && x.pending[j].id == x.pending[k].id && Fair(x, x.pending[k].id)
    ensures j == k
  {
    hide Count;
    if j < k {
      CountTwo(x.pending, j, k, Holds(x.pending[k].id));
    } else if k < j {
      CountTwo(x.pending, k, j, Holds(x.pending[k].id));
    }
  }

  /** The entry of an ID is the only one that can wait under it. */
  lemma WaitingAt(x: Adapter, id: ApprovalId, p: Entry -> bool)
    requires Fair(x, id) && forall e: Entry :: p(e) ==> e.id == id
    ensures var k := Place(x.pending, id);
      WaitingIds(x.pending, p)
        == if k < |x.pending| && p(x.pending[k]) && !x.pending[k].responded then [id] else []
  {
    hide Fair;
    var k := Place(x.pending, id);
    if k < |x.pending| {
      forall j: nat | j < |x.pending| && x.pending[j].id == id
        ensures j == k
      {
        OnlyHolder(x, k, j);
      }
      if p(x.pending[k]) && !x.pending[k].responded {
        OneWaiting(x.pending, k, p);
      } else {
        NoneWaiting(x.pending, p);
      }
    } else {
      NoneWaiting(x.pending, p);
    }
  }

  lemma ConcludedWrites(x: Adapter, k: nat, decision: Decision)
    requires k < |x.pending|
    ensures Concluded(x, k, decision).attempts
         == x.attempts + if x.pending[k].responded then [] else [Attempt(x.pending[k].id, decision, x.stdinOpen)]
  {
  }

  // -------------------------------------------------------------- the loops ---

  lemma CancelsStep(entries: seq<Entry>, p: Entry -> bool, stdinOpen: bool)
    requires entries != []
    ensures !p(entries[0]) || entries[0].responded ==>
              Cancels(WaitingIds(entries, p), stdinOpen) == Cancels(WaitingIds(entries[1..], p), stdinOpen)
    ensures p(entries[0]) && !entries[0].responded ==>
              Cancels(WaitingIds(entries, p), stdinOpen) == [Attempt(entries[0].id, Cancel, stdinOpen)]
                + if stdinOpen then Cancels(WaitingIds(entries[1..], p), true) else []
  {
    assert [entries[0].id] + WaitingIds(entries[1..], p) != [];
    assert ([entries[0].id] + WaitingIds(entries[1..], p))[1..] == WaitingIds(entries[1..], p);
    assert [] + WaitingIds(entries[1..], p) == WaitingIds(entries[1..], p);
  }

  lemma NothingCancelled(p: Entry -> bool, stdinOpen: bool)
    ensures Cancels(WaitingIds([], p), stdinOpen) == []
  {
  }

  /** Completing a turn cancels the approvals of that turn that still wait, in the order in which they came. */
  lemma {:induction false} CancelledWrites(x: Adapter, k: nat, session: SessionId, turn: TurnId)
    requires k <= |x.pending|
    ensures Cancelled(x, k, session, turn).0.attempts
         == x.attempts + Cancels(WaitingIds(x.pending[k..], OfTurn(session, turn)), x.stdinOpen)
    decreases |x.pending| - k
  {
    hide Cancelled, Resolved, WaitingIds, Cancels;
    CancelledNext(x, k, session, turn);
    if k == |x.pending| {
      assert x.pending[k..] == [];
      NothingCancelled(OfTurn(session, turn), x.stdinOpen);
    } else {
      var rest := x.pending[k..];
      assert rest[0] == x.pending[k] && rest[1..] == x.pending[k + 1..];
      CancelsStep(rest, OfTurn(session, turn), x.stdinOpen);
      ResolvedFrame(x, k, Cancel);
      ResolvedWrites(x, k);
      if !(x.pending[k].session == session && x.pending[k].turn == turn) {
        CancelledWrites(x, k + 1, session, turn);
      } else if !Throws(x, k) {
        assert Without(x.pending, k)[k..] == x.pending[k + 1..];
        CancelledWrites(Resolved(x, k, Cancel), k, session, turn);
      }
    }
  }

  lemma ResolvedWrites(x: Adapter, k: nat)
    requires k < |x.pending|
    ensures var added := if x.pending[k].responded then [] else [Attempt(x.pending[k].id, Cancel, x.stdinOpen)];
      Answered(x, k, Cancel).attempts == x.attempts + added == Resolved(x, k, Cancel).attempts
  {
  }

  /** Shutdown cancels every approval that still waits. */
  lemma {:induction false} ShutWrites(x: Adapter, k: nat)
    requires k <= |x.pending|
    ensures ShutFrom(x, k).0.attempts == x.attempts + Cancels(WaitingIds(x.pending[k..], Anyone()), x.stdinOpen)
    decreases |x.pending| - k
  {
    hide ShutFrom, Answered, WaitingIds, Cancels, Resolved;
    ShutNext(x, k);
    if k == |x.pending| {
      assert x.pending[k..] == [];
      NothingCancelled(Anyone(), x.stdinOpen);
    } else {
      var rest := x.pending[k..];
      assert rest[0] == x.pending[k] && rest[1..] == x.pending[k + 1..];
      CancelsStep(rest, Anyone(), x.stdinOpen);
      ResolvedFrame(x, k, Cancel);
      ResolvedWrites(x, k);
      if !Throws(x, k) {
        var y := Noted(Answered(x, k, Cancel), ApprovalResolved(x.pending[k].id));
        assert y.pending[k + 1..] == x.pending[k + 1..];
        ShutWrites(y, k + 1);
      }
    }
  }

  // ------------------------------------------------------------- every step ---

  lemma CompletedWrites(x: Adapter, session: SessionId, turn: TurnId, outcome: TurnOutcome)
    ensures Completed(x, session, turn, outcome).attempts
         == x.attempts + Cancels(WaitingIds(x.pending, OfTurn(session, turn)), x.stdinOpen)
  {
    hide Cancelled, WaitingIds, Cancels, Window, Finish;
    var y := Registered(x, session);
    assert y.pending[0..] == x.pending;
    CancelledWrites(y, 0, session, turn);
  }

  lemma ShutDownWrites(x: Adapter)
    ensures ShutDown(x).attempts == x.attempts + if x.closed then [] else Cancels(WaitingIds(x.pending, Anyone()), x.stdinOpen)
  {
    hide ShutFrom, WaitingIds, Cancels;
    if !x.closed {
      assert x.pending[0..] == x.pending;
      ShutWrites(x.(closed := true), 0);
    }
  }

  lemma RespondWrites(x: Adapter, session: SessionId, id: ApprovalId, decision: Decision)
    requires Fair(x, id)
    ensures Apply(x, Respond(session, id, decision)).attempts == x.attempts + Writes(x, Respond(session, id, decision))
  {
    hide Fair, Concluded, WaitingIds;
    WaitingAt(x, id, OfSession(session, id));
    var k := Place(x.pending, id);
    if k < |x.pending| {
      ConcludedWrites(x, k, decision);
    }
  }

  lemma ExpireWrites(x: Adapter, id: ApprovalId)
    requires Fair(x, id) && Enabled(x, Expire(id))
    ensures Apply(x, Expire(id)).attempts == x.attempts + Writes(x, Expire(id))
  {
    hide Fair, Concluded, WaitingIds;
    WaitingAt(x, id, Named(id));
    var k := Place(x.pending, id);
    if k < |x.pending| {
      ConcludedWrites(x, k, Cancel);
      assert Cancels([id], x.stdinOpen) == [Attempt(id, Cancel, x.stdinOpen)];
    }
  }

  /**
   Exactly what every step writes: the user's decision for an approval that waits, cancellations for the
   approvals that have expired, whose turn is over or that are left at shutdown, and nothing else.
   */
  lemma StepWrites(x: Adapter, step: Step)
    requires Inv(x) && Enabled(x, step)
    ensures Apply(x, step).attempts == x.attempts + Writes(x, step)
  {
    hide Fair, Concluded, Completed, ShutDown, WaitingIds, Cancels, LiveOrLost, Known, ClosedOk, TerminalIsWindow;
    match step
    case Respond(session, id, decision) => RespondWrites(x, session, id, decision);
    case Expire(id) => ExpireWrites(x, id);
    case TurnComplete(session, turn, outcome) => CompletedWrites(x, session, turn, outcome);
    case Shutdown => ShutDownWrites(x);
    case Request(_, _, _) =>
    case TurnStart(_, _) =>
    case Status(_, _) =>
    case ErrorNotice(_, _) =>
    case AgentExit =>
  }

  // -------------------------------------------------------------- every run ---

  ghost predicate AllCancel(attempts: seq<Attempt>) {
    forall j :: 0 <= j < |attempts| ==> attempts[j].decision == Cancel
  }

  lemma {:induction false} CancelsCancel(ids: seq<ApprovalId>, stdinOpen: bool)
    ensures AllCancel(Cancels(ids, stdinOpen))
  {
    if ids != [] {
      CancelsCancel(ids[1..], true);
    }
  }

  /** Only the user decides anything but a cancellation. */
  lemma OnlyTheUserDecides(x: Adapter, step: Step)
    ensures step.Respond? || AllCancel(Writes(x, step))
  {
    hide WaitingIds, Cancels;
    match step
    case Expire(id) => CancelsCancel(WaitingIds(x.pending, Named(id)), x.stdinOpen);
    case TurnComplete(session, turn, _) => CancelsCancel(WaitingIds(x.pending, OfTurn(session, turn)), x.stdinOpen);
    case Shutdown => CancelsCancel(WaitingIds(x.pending, Anyone()), x.stdinOpen);
    case _ =>
  }

  /** Step number j of a run is the user's answer to this approval, and it is accepted. */
  ghost predicate Chosen(steps: seq<Step>, states: seq<Adapter>, j: nat, id: ApprovalId) {
    j < |steps| && j < |states| && steps[j].Respond? && steps[j].id == id && Accepted(states[j], steps[j].session, id)
  }

  lemma {:induction false} AttemptsGrow(steps: seq<Step>, states: seq<Adapter>, j: nat, i: nat)
    requires IsRun(steps, states) && j <= i <= |steps|
    ensures states[j].attempts <= states[i].attempts
  {
    hide Enabled, Apply, Writes, Inv;
    if j < i {
      AttemptsGrow(steps, states, j, i - 1);
      RunKeepsInv(steps, states, i - 1);
      StepWrites(states[i - 1], steps[i - 1]);
    }
  }

  lemma OneTry(x: Adapter, a: Attempt, b: Attempt)
    requires Fair(x, a.id) && a in x.attempts && b in x.attempts && a.id == b.id
    ensures a == b
  {
    hide Count;
    var i, j :| 0 <= i < |x.attempts| && 0 <= j < |x.attempts| && x.attempts[i] == a && x.attempts[j] == b;
    if i < j {
      CountTwo(x.attempts, i, j, Tries(a.id));
    } else if j < i {
      CountTwo(x.attempts, j, i, Tries(a.id));
    }
  }

  /** Once the user's answer has been accepted, it is the one answer of its approval for ever. */
  lemma TheChoiceStands(steps: seq<Step>, states: seq<Adapter>, j: nat, i: nat, id: ApprovalId, a: Attempt)
    requires IsRun(steps, states) && j < i <= |steps| && Chosen(steps, states, j, id)
    ensures a in states[i].attempts && a.id == id <==> a == Attempt(id, steps[j].decision, states[j].stdinOpen)
  {
    hide Enabled, Apply, Fair, LiveOrLost, Known, TerminalIsWindow, ClosedOk, Accepted;
    var chosen := Attempt(id, steps[j].decision, states[j].stdinOpen);
    RunKeepsInv(steps, states, j);
    RunKeepsInv(steps, states, i);
    StepWrites(states[j], steps[j]);
    AttemptsGrow(steps, states, j + 1, i);
    assert states[j + 1].attempts[|states[j].attempts|] == chosen;
    assert chosen in states[i].attempts;
    if a in states[i].attempts && a.id == id {
      OneTry(states[i], chosen, a);
    }
  }

  /** An answer that is not a cancellation was chosen by the user. */
  lemma {:induction false} DecisionWasChosen(steps: seq<Step>, states: seq<Adapter>, i: nat, a: Attempt) returns (j: nat)
    requires IsRun(steps, states) && i <= |steps| && a in states[i].attempts && a.decision != Cancel
    ensures j < i && Chosen(steps, states, j, a.id) && a == Attempt(a.id, steps[j].decision, states[j].stdinOpen)
  {
    hide Enabled, Apply, Inv, Accepted, WaitingIds, Cancels;
    j := 0;
    if i == 0 {
      assert false;
    } else {
      var x := states[i - 1];
      RunKeepsInv(steps, states, i - 1);
      StepWrites(x, steps[i - 1]);
      if a in x.attempts {
        j := DecisionWasChosen(steps, states, i - 1, a);
      } else {
        assert a in Writes(x, steps[i - 1]);
        OnlyTheUserDecides(x, steps[i - 1]);
        j := i - 1;
      }
    }
  }

  /**
   In every run, what is written for an approval is the decision of the one answer of the user that was accepted,
   if there was one, and a cancellation if there was none.
   */
  lemma AnswerIsTheChoice(steps: seq<Step>, states: seq<Adapter>, i: nat, a: Attempt)
    requires IsRun(steps, states) && i <= |steps| && a in states[i].attempts
    ensures (exists j: nat :: j < i && Chosen(steps, states, j, a.id)) || a.decision == Cancel
    ensures forall j: nat :: j < i && Chosen(steps, states, j, a.id) ==> a.decision == steps[j].decision
  {
    hide IsRun, Accepted;
    if a.decision != Cancel {
      var j := DecisionWasChosen(steps, states, i, a);
    }
    forall j: nat | j < i && Chosen(steps, states, j, a.id)
      ensures a.decision == steps[j].decision
    {
      TheChoiceStands(steps, states, j, i, a.id, a);
    }
  }
}

/**
 What a session announces as its pending approval, and what waits in it: when the one can still be
 answered, and when the other is announced.
 */
module CodexAnnouncements {
  import opened Options
  import opened CodexApprovals
  import opened CodexAnswers

  // ------------------------------------------------- what is announced is live ---

  /**
   In every run, before shutdown, the approval a session announces can still be answered if and only
   if no answer to it has been lost.
   */
  lemma AnnouncedIsLive(steps: seq<Step>, states: seq<Adapter>, i: nat, session: SessionId, id: ApprovalId)
    requires IsRun(steps, states) && i <= |steps| && !states[i].closed && Announces(states[i], session, id)
    ensures Live(states[i], session, id) <==> !Lost(states[i], id)
  {
    hide IsRun, Live, Lost;
    RunKeepsInv(steps, states, i);
    LiveUnlessLost(states[i], session, id);
  }

  lemma LiveUnlessLost(x: Adapter, session: SessionId, id: ApprovalId)
    requires Inv(x) && !x.closed && Announces(x, session, id)
    ensures Live(x, session, id) <==> !Lost(x, id)
  {
    hide Count, Known, TerminalIsWindow, ClosedOk;
    assert LiveOrLost(x, session, id) && Fair(x, id);
    if Live(x, session, id) {
      LiveIsNotTried(x, session, id);
    }
  }

  lemma LiveIsNotTried(x: Adapter, session: SessionId, id: ApprovalId)
    requires Fair(x, id) && Live(x, session, id)
    ensures Count(x.attempts, Tries(id)) == 0 && !Lost(x, id)
  {
    hide Count;
    CountLess(x.pending, WaitsIn(session, id), Waits(id));
    CountLess(x.attempts, Loses(id), Tries(id));
  }

  ghost predicate AllLive(x: Adapter) {
    forall session, id :: Announces(x, session, id) ==> Live(x, session, id)
  }

  datatype Target = NoTarget | Target(session: SessionId, id: ApprovalId)

  /** The first entry of this turn whose responder has not been used. */
  function FirstUnused(entries: seq<Entry>, session: SessionId, turn: TurnId): Target {
    if entries == [] then NoTarget
    else if entries[0].session == session && entries[0].turn == turn && !entries[0].responded then Target(session, entries[0].id)
    else FirstUnused(entries[1..], session, turn)
  }

  /** The approval that a step answers first, and in whose session. */
  function TargetOf(x: Adapter, step: Step): Target {
    match step
    case Respond(session, id, _) =>
      var k := Place(x.pending, id);
      if x.closed || k == |x.pending| || x.pending[k].session != session || x.pending[k].responded then NoTarget else Target(session, id)
    case Expire(id) =>
      var k := Place(x.pending, id);
      if k == |x.pending| || x.pending[k].responded then NoTarget else Target(x.pending[k].session, id)
    case TurnComplete(session, turn, _) => FirstUnused(x.pending, session, turn)
    case _ => NoTarget
  }

  /** The step answers an approval that its session announces, and the agent's stdin is gone. */
  predicate LosesAnnounced(x: Adapter, step: Step) {
    var target := TargetOf(x, step);
    && !x.stdinOpen && target.Target? && target.session in x.records
    && x.records[target.session].pendingApproval == Some(target.id)
  }

  lemma ConcludedLosses(x: Adapter, k: nat, decision: Decision, id: ApprovalId)
    requires k < |x.pending|
    ensures Count(Concluded(x, k, decision).attempts, Loses(id))
         == Count(x.attempts, Loses(id)) + if Throws(x, k) && x.pending[k].id == id then 1 else 0
    ensures Throws(x, k) ==> Concluded(x, k, decision).records == x.records
  {
    hide Count;
    if !x.pending[k].responded {
      AnsweredLiveness(x, k, decision, "", id);
    }
  }

  lemma {:induction false} CancelledLosses(x: Adapter, k: nat, session: SessionId, turn: TurnId, id: ApprovalId)
    requires k <= |x.pending|
    ensures var (y, whole), target := Cancelled(x, k, session, turn), FirstUnused(x.pending[k..], session, turn);
      && whole == (x.stdinOpen || target.NoTarget?)
      && Count(y.attempts, Loses(id)) == Count(x.attempts, Loses(id)) + if !whole && target.id == id then 1 else 0
    decreases |x.pending| - k
  {
    hide Count, Resolved, Answered, Loses;
    if k == |x.pending| {
    } else {
      assert x.pending[k..][1..] == x.pending[k + 1..];
      if !(x.pending[k].session == session && x.pending[k].turn == turn) {
        CancelledLosses(x, k + 1, session, turn, id);
      } else if Throws(x, k) {
        AnsweredLiveness(x, k, Cancel, "", id);
      } else {
        ResolvedLosses(x, k, id);
        CancelledLosses(Resolved(x, k, Cancel), k, session, turn, id);
      }
    }
  }

  lemma ResolvedLosses(x: Adapter, k: nat, id: ApprovalId)
    requires k < |x.pending| && !Throws(x, k)
    ensures var y := Resolved(x, k, Cancel);
      Count(y.attempts, Loses(id)) == Count(x.attempts, Loses(id)) && k <= |y.pending| == |x.pending| - 1
      && y.pending[k..] == x.pending[k + 1..] && y.stdinOpen == x.stdinOpen
  {
    hide Count;
    ResolvedFrame(x, k, Cancel);
    if !x.pending[k].responded {
      AnsweredLiveness(x, k, Cancel, "", id);
    }
  }

  lemma CompletedLosses(x: Adapter, session: SessionId, turn: TurnId, outcome: TurnOutcome, id: ApprovalId)
    ensures var y, target := Completed(x, session, turn, outcome), FirstUnused(x.pending, session, turn);
      && Count(y.attempts, Loses(id)) == Count(x.attempts, Loses(id)) + (if !x.stdinOpen && target.Target? && target.id == id then 1 else 0)
      && (!x.stdinOpen && target.Target? ==> y.records == Registered(x, session).records)
  {
    hide Count, Cancelled, Ended, Loses, FirstUnused;
    var r := Registered(x, session);
    assert r.pending[0..] == x.pending;
    CancelledLosses(r, 0, session, turn, id);
    CancelledFrame(r, 0, session, turn);
    var (y, whole) := Cancelled(r, 0, session, turn);
    if whole {
      EndedFrame(y, session, turn, outcome);
    }
  }

  /** A step loses at most one answer: that to its target, if the agent's stdin is gone. */
  lemma StepLosses(x: Adapter, step: Step, id: ApprovalId)
    requires !step.Shutdown?
    ensures var y, target := Apply(x, step), TargetOf(x, step);
      Count(y.attempts, Loses(id)) == Count(x.attempts, Loses(id)) + if !x.stdinOpen && target.Target? && target.id == id then 1 else 0
  {
    hide Count, Loses, Requested, Concluded, Completed, FirstUnused;
    match step
    case Request(s, turn, newId) => RequestedAttempts(x, s, turn, newId);
    case Respond(s, it, decision) =>
      var k := Place(x.pending, it);
      if !x.closed && k < |x.pending| && x.pending[k].session == s {
        ConcludedLosses(x, k, decision, id);
      }
    case Expire(it) =>
      var k := Place(x.pending, it);
      if k < |x.pending| {
        ConcludedLosses(x, k, Cancel, id);
      }
    case TurnComplete(s, turn, outcome) => CompletedLosses(x, s, turn, outcome, id);
    case _ => QuietSteps(x, step);
  }

  lemma RequestedAttempts(x: Adapter, session: SessionId, turn: TurnId, newId: ApprovalId)
    ensures Requested(x, session, turn, newId).attempts == x.attempts
  {
  }

  /** Only a request announces something. */
  lemma StepAnnouncements(x: Adapter, step: Step, session: SessionId, id: ApprovalId)
    requires !step.Shutdown? && Announces(Apply(x, step), session, id)
    ensures Announces(x, session, id) || (step.Request? && id == step.newId)
  {
    hide Concluded, Completed;
    match step
    case Request(s, turn, newId) =>
    case Respond(s, it, decision) =>
      var k := Place(x.pending, it);
      if !x.closed && k < |x.pending| && x.pending[k].session == s {
        ConcludedAnnounces(x, k, decision, session, id);
      }
    case Expire(it) =>
      var k := Place(x.pending, it);
      if k < |x.pending| {
        ConcludedAnnounces(x, k, Cancel, session, id);
      }
    case TurnComplete(s, turn, outcome) => CompletedAnnounces(x, s, turn, outcome, session, id);
    case _ =>
      QuietAnnounces(x, step, session);
  }

  lemma QuietAnnounces(x: Adapter, step: Step, session: SessionId)
    requires step.TurnStart? || step.Status? || step.ErrorNotice? || step.AgentExit?
    ensures Record(Apply(x, step).records, session).pendingApproval == Record(x.records, session).pendingApproval
  {
    hide Apply;
    QuietSteps(x, step);
  }

  lemma ConcludedAnnounces(x: Adapter, k: nat, decision: Decision, session: SessionId, id: ApprovalId)
    requires k < |x.pending| && Announces(Concluded(x, k, decision), session, id)
    ensures Announces(x, session, id)
  {
    ResolvedFrame(x, k, decision);
  }

  lemma CompletedAnnounces(x: Adapter, session: SessionId, turn: TurnId, outcome: TurnOutcome, s: SessionId, id: ApprovalId)
    requires Announces(Completed(x, session, turn, outcome), s, id)
    ensures Announces(x, s, id)
  {
    hide Cancelled, Ended;
    var r := Registered(x, session);
    CancelledFrame(r, 0, session, turn);
    var (y, whole) := Cancelled(r, 0, session, turn);
    if whole {
      EndedFrame(y, session, turn, outcome);
    }
  }

  lemma {:induction false} FirstUnusedWaits(entries: seq<Entry>, session: SessionId, turn: TurnId)
    requires FirstUnused(entries, session, turn).Target?
    ensures var target := FirstUnused(entries, session, turn);
      target.session == session && Count(entries, WaitsIn(session, target.id)) > 0
  {
    hide Count;
    var target := FirstUnused(entries, session, turn);
    CountSplit(entries, 0, WaitsIn(session, target.id));
    assert entries[..0] + entries[1..] == entries[1..];
    if !(entries[0].session == session && entries[0].turn == turn && !entries[0].responded) {
      FirstUnusedWaits(entries[1..], session, turn);
    }
  }

  lemma TargetIsLive(x: Adapter, step: Step)
    requires TargetOf(x, step).Target?
    ensures var target := TargetOf(x, step); Live(x, target.session, target.id)
  {
    hide Count;
    match step
    case Respond(session, id, _) => CountSplit(x.pending, Place(x.pending, id), WaitsIn(session, id));
    case Expire(id) =>
      var k := Place(x.pending, id);
      CountSplit(x.pending, k, WaitsIn(x.pending[k].session, id));
    case TurnComplete(session, turn, _) => FirstUnusedWaits(x.pending, session, turn);
  }

  /** An approval belongs to one session. */
  lemma LiveInOneSession(x: Adapter, s: SessionId, t: SessionId, id: ApprovalId)
    requires Fair(x, id) && Live(x, s, id) && Live(x, t, id)
    ensures s == t
  {
    hide Count;
    if s != t {
      CountBoth(x.pending, s, t, id);
    }
  }

  lemma {:induction false} CountBoth(entries: seq<Entry>, s: SessionId, t: SessionId, id: ApprovalId)
    requires s != t
    ensures Count(entries, WaitsIn(s, id)) + Count(entries, WaitsIn(t, id)) <= Count(entries, Waits(id))
  {
    if entries != [] {
      CountBoth(entries[..|entries| - 1], s, t, id);
    }
  }

  /** A step that loses what is announced leaves it announced. */
  lemma LostStaysAnnounced(x: Adapter, step: Step)
    requires LosesAnnounced(x, step) && !step.Shutdown?
    ensures var target := TargetOf(x, step); Announces(Apply(x, step), target.session, target.id)
  {
    hide Concluded, Completed, FirstUnused;
    match step
    case Respond(s, it, decision) => ConcludedLosses(x, Place(x.pending, it), decision, it);
    case Expire(it) => ConcludedLosses(x, Place(x.pending, it), Cancel, it);
    case TurnComplete(s, turn, outcome) => CompletedLosses(x, s, turn, outcome, TargetOf(x, step).id);
  }

  /** One step: what is announced stays live unless the step loses it. */
  lemma StepKeepsAllLive(x: Adapter, step: Step)
    requires Inv(x) && Enabled(x, step) && AllLive(x) && !x.closed && !step.Shutdown?
    ensures AllLive(Apply(x, step)) <==> !LosesAnnounced(x, step)
  {
    hide Apply, Enabled, Fair, LiveOrLost, Known, TerminalIsWindow, ClosedOk, Live, TargetOf;
    var y, target := Apply(x, step), TargetOf(x, step);
    StepKeepsInv(x, step);
    StaysOpen(x, step);
    if LosesAnnounced(x, step) {
      LostStaysAnnounced(x, step);
      StepLosses(x, step, target.id);
      LiveUnlessLost(y, target.session, target.id);
      assert !Live(y, target.session, target.id);
    } else {
      forall session, id | Announces(y, session, id)
        ensures Live(y, session, id)
      {
        LiveUnlessLost(y, session, id);
        NotNewlyLost(x, step, session, id);
      }
    }
  }

  lemma StaysOpen(x: Adapter, step: Step)
    requires !step.Shutdown?
    ensures Apply(x, step).closed == x.closed
  {
    hide Concluded, Completed, Cancelled, Ended, Started, StatusNoted, ErrorNoted;
    match step
    case Respond(s, it, decision) =>
      var k := Place(x.pending, it);
      if !x.closed && k < |x.pending| && x.pending[k].session == s {
        ConcludedFrame(x, k, decision);
      }
    case Expire(it) =>
      var k := Place(x.pending, it);
      if k < |x.pending| {
        ConcludedFrame(x, k, Cancel);
      }
    case TurnComplete(s, turn, outcome) => CompletedOpen(x, s, turn, outcome);
    case Request(s, turn, newId) => RequestClosed(x, s, turn, newId);
    case _ => QuietSteps(x, step);
  }

  lemma CompletedOpen(x: Adapter, session: SessionId, turn: TurnId, outcome: TurnOutcome)
    ensures Completed(x, session, turn, outcome).closed == x.closed
  {
    hide Cancelled, Ended;
    var r := Registered(x, session);
    CancelledFrame(r, 0, session, turn);
    EndedFrame(Cancelled(r, 0, session, turn).0, session, turn, outcome);
  }

  lemma NotNewlyLost(x: Adapter, step: Step, session: SessionId, id: ApprovalId)
    requires Inv(x) && Enabled(x, step) && AllLive(x) && !x.closed && !step.Shutdown?
    requires !LosesAnnounced(x, step) && Announces(Apply(x, step), session, id)
    ensures !Lost(Apply(x, step), id)
  {
    hide Apply, LiveOrLost, Known, TerminalIsWindow, ClosedOk, TargetOf, Count;
    var target := TargetOf(x, step);
    StepLosses(x, step, id);
    StepAnnouncements(x, step, session, id);
    assert Fair(x, id);
    if Announces(x, session, id) {
      LiveIsNotTried(x, session, id);
    } else {
      CountLess(x.attempts, Loses(id), Tries(id));
    }
    if target.Target? && target.id == id {
      TargetIsLive(x, step);
      if Announces(x, session, id) {
        LiveInOneSession(x, session, target.session, id);
      } else {
        CountLess(x.pending, WaitsIn(target.session, id), Waits(id));
      }
    }
  }

  /**
   In every run up to shutdown: what the sessions announce was live at every moment if and only if
   nobody answered an announced approval when the agent's stdin was gone.
   */
  lemma {:induction false} AnnouncedStaysLive(steps: seq<Step>, states: seq<Adapter>, n: nat)
    requires IsRun(steps, states) && n <= |steps| && !states[n].closed
    ensures (forall i :: 0 <= i <= n ==> AllLive(states[i])) <==> (forall i :: 0 <= i < n ==> !LosesAnnounced(states[i], steps[i]))
  {
    hide Apply, Enabled, AllLive, LosesAnnounced, Inv;
    if n == 0 {
      NothingAnnouncedYet();
    } else {
      RunKeepsInv(steps, states, n - 1);
      OpenBefore(states[n - 1], steps[n - 1]);
      AnnouncedStaysLive(steps, states, n - 1);
      if AllLive(states[n - 1]) {
        StepKeepsAllLive(states[n - 1], steps[n - 1]);
      }
    }
  }

  lemma OpenBefore(x: Adapter, step: Step)
    requires Inv(x) && Enabled(x, step) && !Apply(x, step).closed
    ensures !x.closed && !step.Shutdown?
  {
    hide Apply, Enabled, Fair, LiveOrLost, Known, TerminalIsWindow, ClosedOk;
    StepKeepsFrame(x, step);
    NotShutdown(x, step);
  }

  lemma NothingAnnouncedYet()
    ensures AllLive(Initial())
  {
  }

  // --------------------------------------------- what waits is announced ---

  /** Every approval of this session that is in the map is the one the session announces. */
  ghost predicate SessionAnnounces(x: Adapter, session: SessionId) {
    forall k :: 0 <= k < |x.pending| && x.pending[k].session == session ==> Announces(x, session, x.pending[k].id)
  }

  ghost predicate AllAnnounced(x: Adapter) {
    forall k :: 0 <= k < |x.pending| ==> Announces(x, x.pending[k].session, x.pending[k].id)
  }

  /** The session has an approval in the map besides this entry. */
  ghost predicate HasAnother(entries: seq<Entry>, k: nat)
    requires k < |entries|
  {
    exists j :: 0 <= j < |entries| && j != k && entries[j].session == entries[k].session
  }

  /** The session has an approval in the map that belongs to another turn. */
  ghost predicate HasOtherTurn(entries: seq<Entry>, session: SessionId, turn: TurnId) {
    exists j :: 0 <= j < |entries| && entries[j].session == session && entries[j].turn != turn
  }

  /** The entries that do not belong to this turn. */
  function Others(entries: seq<Entry>, session: SessionId, turn: TurnId): seq<Entry> {
    if entries == [] then []
    else (if entries[0].session == session && entries[0].turn == turn then [] else [entries[0]]) + Others(entries[1..], session, turn)
  }

  lemma {:induction false} OthersAre(entries: seq<Entry>, session: SessionId, turn: TurnId, e: Entry)
    ensures e in Others(entries, session, turn) <==> e in entries && !(e.session == session && e.turn == turn)
  {
    if entries != [] {
      OthersAre(entries[1..], session, turn, e);
    }
  }

  lemma {:induction false} CancelledRest(x: Adapter, k: nat, session: SessionId, turn: TurnId)
    requires k <= |x.pending|
    ensures var (y, whole) := Cancelled(x, k, session, turn);
      whole ==> y.pending == x.pending[..k] + Others(x.pending[k..], session, turn)
    decreases |x.pending| - k
  {
    hide Resolved, Answered;
    if k == |x.pending| {
    } else {
      assert x.pending[k..][1..] == x.pending[k + 1..];
      if !(x.pending[k].session == session && x.pending[k].turn == turn) {
        assert x.pending[..k + 1] == x.pending[..k] + [x.pending[k]];
        CancelledRest(x, k + 1, session, turn);
      } else if !Throws(x, k) {
        ResolvedFrame(x, k, Cancel);
        WithoutShrinks(x.pending, k);
        assert Without(x.pending, k)[..k] == x.pending[..k] && Without(x.pending, k)[k..] == x.pending[k + 1..];
        CancelledRest(Resolved(x, k, Cancel), k, session, turn);
      }
    }
  }

  /**
   After a turn of the session has been completed, the session announces nothing, so what waits in it
   is announced if and only if nothing waits: no approval of another turn.
   */
  lemma CompletionAnnounces(x: Adapter, session: SessionId, turn: TurnId, outcome: TurnOutcome)
    requires Cancelled(Registered(x, session), 0, session, turn).1
    ensures SessionAnnounces(Completed(x, session, turn, outcome), session) <==> !HasOtherTurn(x.pending, session, turn)
  {
    hide Cancelled, Ended, Others;
    var r := Registered(x, session);
    CancelledRest(r, 0, session, turn);
    CancelledFrame(r, 0, session, turn);
    var y := Completed(x, session, turn, outcome);
    EndedFrame(Cancelled(r, 0, session, turn).0, session, turn, outcome);
    assert r.pending[0..] == x.pending && y.pending == Others(x.pending, session, turn);
    OthersHere(x.pending, session, turn);
  }

  lemma OthersHere(entries: seq<Entry>, session: SessionId, turn: TurnId)
    ensures HasOtherTurn(entries, session, turn)
       <==> exists k :: 0 <= k < |Others(entries, session, turn)| && Others(entries, session, turn)[k].session == session
  {
    hide Others;
    var others := Others(entries, session, turn);
    if k :| 0 <= k < |others| && others[k].session == session {
      OthersAre(entries, session, turn, others[k]);
    }
    if j :| 0 <= j < |entries| && entries[j].session == session && entries[j].turn != turn {
      OthersAre(entries, session, turn, entries[j]);
    }
  }

  /**
   After an approval has been answered, by the user or its timer, its session announces nothing, even
   if it announced another one before: what waits in it is announced if and only if nothing waits.
   */
  lemma ConclusionAnnounces(x: Adapter, k: nat, decision: Decision)
    requires k < |x.pending| && !Throws(x, k)
    ensures SessionAnnounces(Concluded(x, k, decision), x.pending[k].session) <==> !HasAnother(x.pending, k)
  {
    hide Answered;
    ResolvedFrame(x, k, decision);
    var session, y := x.pending[k].session, Concluded(x, k, decision);
    assert forall j :: 0 <= j < |y.pending| ==> y.pending[j] == x.pending[if j < k then j else j + 1];
    if j :| 0 <= j < |x.pending| && j != k && x.pending[j].session == session {
      assert y.pending[if j < k then j else j - 1] == x.pending[j];
    }
  }

  /** A second approval is stored only when the session announces none; then a waiting one stays unannounced. */
  lemma RequestAnnounces(x: Adapter, session: SessionId, turn: TurnId, newId: ApprovalId)
    requires Fair(x, newId) && Count(x.events, Asks(newId)) == 0
    ensures SessionAnnounces(Requested(x, session, turn, newId), session) <==> SessionAnnounces(x, session)
  {
    hide Count, Asks;
    var y := Requested(x, session, turn, newId);
    var r := Registered(x, session);
    if r.records[session].pendingApproval.None? {
      assert y.pending == x.pending + [Entry(newId, session, turn, false)];
      forall k | 0 <= k < |x.pending|
        ensures x.pending[k].id != newId && y.pending[k] == x.pending[k]
      {
        if x.pending[k].id == newId {
          CountSplit(x.pending, k, Holds(newId));
        }
      }
    }
  }

  /** The step ends a turn of a session in which an approval of another turn waits. */
  ghost predicate Overtakes(x: Adapter, step: Step) {
    step.TurnComplete? && HasOtherTurn(x.pending, step.session, step.turn)
  }

  lemma OneEach(x: Adapter, i: nat, j: nat)
    requires (forall id :: Fair(x, id)) && AllAnnounced(x) && i < |x.pending| && j < |x.pending|
    requires x.pending[i].session == x.pending[j].session
    ensures i == j
  {
    hide Count;
    var id := x.pending[i].id;
    assert Announces(x, x.pending[i].session, id) && Announces(x, x.pending[j].session, x.pending[j].id);
    assert Fair(x, id);
    if i < j {
      CountTwo(x.pending, i, j, Holds(id));
    } else if j < i {
      CountTwo(x.pending, j, i, Holds(id));
    }
  }

  /** With the records as they were, whatever is still in the map is announced. */
  lemma WithinAnnounced(x: Adapter, y: Adapter)
    requires AllAnnounced(x) && Within(y.pending, x.pending)
    requires forall k :: 0 <= k < |y.pending| ==>
      Record(y.records, y.pending[k].session).pendingApproval == Record(x.records, y.pending[k].session).pendingApproval
    requires x.records.Keys <= y.records.Keys
    ensures AllAnnounced(y)
  {
    forall k | 0 <= k < |y.pending|
      ensures Announces(y, y.pending[k].session, y.pending[k].id)
    {
      assert Has(x.pending, y.pending[k]);
      var j :| 0 <= j < |x.pending| && Same(y.pending[k], x.pending[j]);
      assert Announces(x, x.pending[j].session, x.pending[j].id);
    }
  }

  lemma ConcludedAnnounced(x: Adapter, k: nat, decision: Decision)
    requires (forall id :: Fair(x, id)) && AllAnnounced(x) && k < |x.pending|
    ensures AllAnnounced(Concluded(x, k, decision))
  {
    hide Fair, Within, Answered;
    var y := Concluded(x, k, decision);
    ResolvedFrame(x, k, decision);
    ConcludedFrame(x, k, decision);
    assert y.pending == Without(x.pending, k);
    forall j | 0 <= j < |y.pending|
      ensures Record(y.records, y.pending[j].session).pendingApproval == Record(x.records, y.pending[j].session).pendingApproval
    {
      var i := if j < k then j else j + 1;
      assert y.pending[j] == x.pending[i];
      if x.pending[i].session == x.pending[k].session {
        OneEach(x, i, k);
      }
    }
    WithinAnnounced(x, y);
  }

  lemma RequestedAnnounced(x: Adapter, session: SessionId, turn: TurnId, newId: ApprovalId)
    requires AllAnnounced(x)
    ensures AllAnnounced(Requested(x, session, turn, newId))
  {
    var y := Requested(x, session, turn, newId);
    forall k | 0 <= k < |y.pending|
      ensures Announces(y, y.pending[k].session, y.pending[k].id)
    {
      if k < |x.pending| {
        assert Announces(x, x.pending[k].session, x.pending[k].id);
      }
    }
  }

  lemma CompletedAnnounced(x: Adapter, session: SessionId, turn: TurnId, outcome: TurnOutcome)
    requires (forall id :: Fair(x, id)) && AllAnnounced(x)
    ensures AllAnnounced(Completed(x, session, turn, outcome)) <==> !HasOtherTurn(x.pending, session, turn)
  {
    hide Fair, Within, Cancelled, Ended;
    var r := Registered(x, session);
    var (z, whole) := Cancelled(r, 0, session, turn);
    var y := Completed(x, session, turn, outcome);
    CancelledFrame(r, 0, session, turn);
    CancelledWithin(r, 0, session, turn);
    if whole {
      CompletionAnnounces(x, session, turn, outcome);
      EndedFrame(z, session, turn, outcome);
      if !HasOtherTurn(x.pending, session, turn) {
        WithinAnnounced(x, y);
      } else {
        NotAll(y, session);
      }
    } else {
      WithinAnnounced(x, y);
      if HasOtherTurn(x.pending, session, turn) {
        StoppedAtItsOwn(x, session, turn);
      }
    }
  }

  lemma NotAll(x: Adapter, session: SessionId)
    requires !SessionAnnounces(x, session)
    ensures !AllAnnounced(x)
  {
  }

  /** The loop stops only at an approval of the turn, which then is the only one of its session. */
  lemma StoppedAtItsOwn(x: Adapter, session: SessionId, turn: TurnId)
    requires (forall id :: Fair(x, id)) && AllAnnounced(x) && !Cancelled(Registered(x, session), 0, session, turn).1
    ensures !HasOtherTurn(x.pending, session, turn)
  {
    hide Fair, Cancelled, FirstUnused, Count;
    var r := Registered(x, session);
    assert r.pending[0..] == x.pending;
    CancelledLosses(r, 0, session, turn, "");
    var i := UnusedPlace(x.pending, session, turn);
    if j :| 0 <= j < |x.pending| && x.pending[j].session == session && x.pending[j].turn != turn {
      OneEach(x, i, j);
    }
  }

  lemma {:induction false} UnusedPlace(entries: seq<Entry>, session: SessionId, turn: TurnId) returns (i: nat)
    requires FirstUnused(entries, session, turn).Target?
    ensures i < |entries| && entries[i].session == session && entries[i].turn == turn
  {
    if entries[0].session == session && entries[0].turn == turn {
      i := 0;
    } else {
      i := UnusedPlace(entries[1..], session, turn);
      i := i + 1;
    }
  }

  /** One step: what waits stays announced unless the step ends another turn of its session. */
  lemma StepKeepsAllAnnounced(x: Adapter, step: Step)
    requires Inv(x) && Enabled(x, step) && AllAnnounced(x)
    ensures AllAnnounced(Apply(x, step)) <==> !Overtakes(x, step)
  {
    hide Fair, LiveOrLost, Known, TerminalIsWindow, ClosedOk, AllAnnounced, HasOtherTurn,
      Requested, Concluded, Completed, ShutDown, Count, Asks;
    match step
    case Request(s, turn, newId) => RequestedAnnounced(x, s, turn, newId);
    case Respond(s, it, decision) =>
      var k := Place(x.pending, it);
      if !x.closed && k < |x.pending| && x.pending[k].session == s {
        ConcludedAnnounced(x, k, decision);
      }
    case Expire(it) =>
      var k := Place(x.pending, it);
      if k < |x.pending| {
        ConcludedAnnounced(x, k, Cancel);
      }
    case TurnComplete(s, turn, outcome) => CompletedAnnounced(x, s, turn, outcome);
    case Shutdown => ShutDownAnnounced(x);
    case _ => QuietAnnounced(x, step);
  }

  lemma ShutDownAnnounced(x: Adapter)
    requires AllAnnounced(x)
    ensures AllAnnounced(ShutDown(x))
  {
    hide Within, ShutFrom, AllAnnounced;
    if !x.closed {
      var c := x.(closed := true);
      ShutFrame(c, 0);
      NoneWithin(x.pending);
      WithinAnnounced(x, ShutDown(x));
    }
  }

  lemma NoneWithin(entries: seq<Entry>)
    ensures Within([], entries)
  {
  }

  lemma QuietAnnounced(x: Adapter, step: Step)
    requires AllAnnounced(x) && (step.TurnStart? || step.Status? || step.ErrorNotice? || step.AgentExit?)
    ensures AllAnnounced(Apply(x, step))
  {
    hide Within, Apply, AllAnnounced;
    QuietSteps(x, step);
    SameWithin(x.pending);
    WithinAnnounced(x, Apply(x, step));
  }

  /**
   In every run: whatever waited was announced by its session at every moment if and only if no turn was
   completed while an approval of another turn of its session waited.
   */
  lemma {:induction false} WaitingIsAnnounced(steps: seq<Step>, states: seq<Adapter>, n: nat)
    requires IsRun(steps, states) && n <= |steps|
    ensures (forall i :: 0 <= i <= n ==> AllAnnounced(states[i])) <==> (forall i :: 0 <= i < n ==> !Overtakes(states[i], steps[i]))
  {
    hide Apply, Enabled, AllAnnounced, Overtakes, Inv;
    if n == 0 {
      NothingWaitsYet();
    } else {
      RunKeepsInv(steps, states, n - 1);
      WaitingIsAnnounced(steps, states, n - 1);
      assert states[n] == Apply(states[n - 1], steps[n - 1]);
      if AllAnnounced(states[n - 1]) {
        StepKeepsAllAnnounced(states[n - 1], steps[n - 1]);
      }
    }
  }

  lemma NothingWaitsYet()
    ensures AllAnnounced(Initial())
  {
  }

  // ------------------------------------------------------------ runs to look at ---

  lemma {:induction false} NeverAsked(events: seq<Event>, id: ApprovalId)
    requires forall i :: 0 <= i < |events| ==> events[i] != ApprovalRequested(id)
    ensures Count(events, Asks(id)) == 0
  {
    if events != [] {
      NeverAsked(events[..|events| - 1], id);
    }
  }

  lemma {:induction false} NeverTried(attempts: seq<Attempt>, id: ApprovalId)
    requires forall i :: 0 <= i < |attempts| ==> attempts[i].id != id
    ensures Count(attempts, Tries(id)) == 0
  {
    if attempts != [] {
      NeverTried(attempts[..|attempts| - 1], id);
    }
  }

  lemma RunPush(steps: seq<Step>, states: seq<Adapter>, step: Step, next: Adapter) returns (longer: seq<Step>, further: seq<Adapter>)
    requires IsRun(steps, states) && Enabled(states[|steps|], step) && next == Apply(states[|steps|], step)
    ensures IsRun(longer, further) && longer == steps + [step] && further == states + [next]
    ensures |further| == |longer| + 1 == |states| + 1 && further[|longer|] == next && longer[|steps|] == step
    ensures forall i :: 0 <= i < |states| ==> further[i] == states[i]
    ensures forall i :: 0 <= i < |steps| ==> longer[i] == steps[i]
  {
    hide Enabled, Apply;
    longer, further := steps + [step], states + [next];
  }

  /** A session that is waiting for this approval, and one that waits for nothing. */
  const WAITING_A := Session(WaitingForUser, None, Some("a"))
  const WAITING_B := Session(WaitingForUser, None, Some("b"))
  const IDLE := Session(Idle, None, None)

  /** The state after a first request. */
  function Stored(): Adapter {
    Initial().(
      records := map["s" := WAITING_A],
      pending := [Entry("a", "s", "t", false)],
      events := [ApprovalRequested("a"), SessionUpdated(WaitingForUser, None, Some("a"))])
  }

  lemma StoredRun() returns (steps: seq<Step>, states: seq<Adapter>)
    ensures IsRun(steps, states) && |steps| == 1 && |states| == 2 && states[1] == Stored()
  {
    hide Count;
    NeverAsked([], "a");
    assert IsRun([], [Initial()]);
    assert Registered(Initial(), "s").records == map["s" := Session(Working, None, None)];
    steps, states := RunPush([], [Initial()], Request("s", "t", "a"), Stored());
  }

  lemma RespondAfterExit(x: Adapter) returns (y: Adapter)
    requires x == Stored().(stdinOpen := false)
    ensures y == x.(pending := [], attempts := [Attempt("a", Accept, false)]) && y == Apply(x, Respond("s", "a", Accept))
  {
    assert x.pending[0].id == "a";
    assert Without([Entry("a", "s", "t", true)], 0) == [];
    y := x.(pending := [], attempts := [Attempt("a", Accept, false)]);
  }

  /**
   An approval is stored, the agent exits, and the user answers. The answer is lost: the session goes on
   announcing an approval that nobody can answer any more, and shutdown completes all the same.
   */
  lemma AnswerLostAtExit() returns (steps: seq<Step>, states: seq<Adapter>)
    ensures IsRun(steps, states) && |steps| == 4
    ensures steps[1..] == [AgentExit, Respond("s", "a", Accept), Shutdown]
    ensures !states[3].closed && Announces(states[3], "s", "a") && !Live(states[3], "s", "a")
    ensures states[4].clientClosed && WasRequested(states[4], "a") && !AnsweredOnce(states[4], "a")
  {
    hide Apply, Fair, LiveOrLost, Known, TerminalIsWindow, ClosedOk, Count, Loses, IsRun, LosesAnnounced;
    steps, states := StoredRun();
    var x2 := ExitStep(Stored());
    var x3 := RespondAfterExit(x2);
    var x4 := ShutStep(x3);
    steps, states := RunPush(steps, states, AgentExit, x2);
    steps, states := RunPush(steps, states, Respond("s", "a", Accept), x3);
    steps, states := RunPush(steps, states, Shutdown, x4);
    RunKeepsInv(steps, states, 4);
    assert !x4.attempts[0].written;
    LostIsUnanswered(x4, 0);
    NothingLives(x3);
  }

  lemma ExitStep(x: Adapter) returns (y: Adapter)
    ensures y == Apply(x, AgentExit) && y == x.(stdinOpen := false)
  {
    y := x.(stdinOpen := false);
  }

  lemma ShutStep(x: Adapter) returns (y: Adapter)
    requires x.pending == [] && !x.closed
    ensures y == Apply(x, Shutdown) && y == x.(closed := true, clientClosed := true)
  {
    y := x.(closed := true, clientClosed := true);
  }

  lemma NothingLives(x: Adapter)
    requires x.pending == []
    ensures !Live(x, "s", "a")
  {
  }

  /** The state after another session's request. */
  function StoredTwo(): Adapter {
    Stored().(
      records := Stored().records["r" := WAITING_B],
      pending := [Entry("a", "s", "t", false), Entry("b", "r", "u", false)],
      events := Stored().events + [ApprovalRequested("b")] + [SessionUpdated(WaitingForUser, None, Some("b"))])
  }

  lemma SecondRequest()
    ensures Apply(Stored(), Request("r", "u", "b")) == StoredTwo() && Enabled(Stored(), Request("r", "u", "b"))
  {
    hide Count;
    assert "r"[0] != "s"[0] && "a"[0] != "b"[0];
    NeverAsked(Stored().events, "b");
    var y := Registered(Stored(), "r");
    assert y.records["r"] == Session(Working, None, None);
    assert y.records["r" := WAITING_B] == StoredTwo().records;
  }

  /** Shutdown meets the agent gone: it breaks off at the first of two approvals, and the second is never answered. */
  lemma ShutdownBreaksOff() returns (steps: seq<Step>, states: seq<Adapter>)
    ensures IsRun(steps, states) && |steps| == 4 && steps[2..] == [AgentExit, Shutdown]
    ensures var x := states[4];
      && x.closed && !x.clientClosed && Entry("b", "r", "u", false) in x.pending
      && Count(x.attempts, Tries("b")) == 0
  {
    hide Apply, Count, IsRun, Enabled;
    steps, states := StoredRun();
    SecondRequest();
    var x3 := ExitStep(StoredTwo());
    var x4 := BreakOff(x3);
    steps, states := RunPush(steps, states, Request("r", "u", "b"), StoredTwo());
    AlwaysEnabled(StoredTwo());
    steps, states := RunPush(steps, states, AgentExit, x3);
    AlwaysEnabled(x3);
    steps, states := RunPush(steps, states, Shutdown, x4);
    assert "a"[0] != "b"[0];
    NeverTried(x4.attempts, "b");
    assert x4.pending[1] == Entry("b", "r", "u", false);
  }

  lemma AlwaysEnabled(x: Adapter)
    ensures Enabled(x, AgentExit) && Enabled(x, Shutdown)
  {
  }

  lemma BreakOff(x: Adapter) returns (y: Adapter)
    requires x == StoredTwo().(stdinOpen := false)
    ensures y == Apply(x, Shutdown)
    ensures y == x.(closed := true, attempts := [Attempt("a", Cancel, false)],
                    pending := [Entry("a", "s", "t", true), Entry("b", "r", "u", false)])
  {
    y := Apply(x, Shutdown);
  }

  /** The state after another turn of the session has been completed. */
  function Passed(): Adapter {
    Stored().(
      records := map["s" := IDLE],
      terminalTurns := ["v"], finished := ["v"],
      events := Stored().events + [TextCompleted("v")] + [] + [TurnCompleted("v", Done)] + [SessionUpdated(Idle, None, None)])
  }

  lemma PassedStep()
    ensures Apply(Stored(), TurnComplete("s", "v", Done)) == Passed()
  {
    hide Ended, Resolved, Answered, Cancelled;
    assert "t"[0] != "v"[0];
    var r := Registered(Stored(), "s");
    assert r.records == Stored().records;
    CancelledNext(r, 0, "s", "v");
    CancelledNext(r, 1, "s", "v");
    PassedEnd(r);
  }

  lemma PassedEnd(x: Adapter)
    requires x == Stored()
    ensures Ended(x, "s", "v", Done) == Passed()
  {
    hide Window, Finish;
    FirstFinish();
    assert x.records["s" := IDLE] == Passed().records;
    assert x.startedTurns - {"v"} == {};
    assert x.terminalTurns + ["v"] == ["v"];
  }

  lemma FirstFinish()
    ensures Finish([], "v") == ["v"] && Window(["v"]) == ["v"]
  {
    assert Window([]) == [];
  }

  /** A second request is stored beside the one that its session no longer announces. */
  function Beside(): Adapter {
    Passed().(
      records := map["s" := WAITING_B],
      pending := [Entry("a", "s", "t", false), Entry("b", "s", "u", false)],
      events := Passed().events + [ApprovalRequested("b")] + [SessionUpdated(WaitingForUser, None, Some("b"))])
  }

  /** And its expiry makes the session announce nothing, though the second one waits. */
  function Expired(): Adapter {
    Beside().(
      records := map["s" := IDLE],
      pending := [Entry("b", "s", "u", false)],
      attempts := [Attempt("a", Cancel, true)],
      events := Beside().events + [ApprovalResolved("a")] + [SessionUpdated(Idle, None, None)])
  }

  lemma BesideStep()
    ensures Apply(Passed(), Request("s", "u", "b")) == Beside() && Enabled(Passed(), Request("s", "u", "b"))
  {
    hide Count;
    assert "a"[0] != "b"[0];
    NeverAsked(Passed().events, "b");
    var y := Registered(Passed(), "s");
    assert y.records == Passed().records;
    assert y.records["s" := WAITING_B] == Beside().records;
  }

  lemma ExpiredStep()
    ensures Enabled(Beside(), Expire("a")) && Apply(Beside(), Expire("a")) == Expired()
  {
    var x := Beside();
    assert x.pending[0].id == "a" && Place(x.pending, "a") == 0;
    assert Without([Entry("a", "s", "t", true), Entry("b", "s", "u", false)], 0) == Expired().pending;
    assert x.records["s" := IDLE] == Expired().records;
  }

  lemma PassedIsOvertaken()
    ensures Enabled(Stored(), TurnComplete("s", "v", Done)) && Overtakes(Stored(), TurnComplete("s", "v", Done))
    ensures !SessionAnnounces(Passed(), "s") && !SessionAnnounces(Expired(), "s")
  {
    assert "t"[0] != "v"[0];
    assert Stored().pending[0].session == "s" && Stored().pending[0].turn != "v";
    assert !Announces(Passed(), "s", Passed().pending[0].id) && !Announces(Expired(), "s", Expired().pending[0].id);
  }

  /**
   The completion of another turn leaves an approval waiting unannounced, and when its timer has
   answered it, one stored since goes unannounced in its turn.
   */
  lemma UnannouncedApproval() returns (steps: seq<Step>, states: seq<Adapter>)
    ensures IsRun(steps, states) && |steps| == 4 && Overtakes(states[1], steps[1]) && steps[3] == Expire("a")
    ensures states[2].pending == [Entry("a", "s", "t", false)] && !SessionAnnounces(states[2], "s")
    ensures states[4].pending == [Entry("b", "s", "u", false)] && !SessionAnnounces(states[4], "s")
  {
    hide Apply, IsRun, Enabled, Overtakes, SessionAnnounces;
    steps, states := StoredRun();
    PassedStep();
    BesideStep();
    ExpiredStep();
    PassedIsOvertaken();
    steps, states := RunPush(steps, states, TurnComplete("s", "v", Done), Passed());
    steps, states := RunPush(steps, states, Request("s", "u", "b"), Beside());
    steps, states := RunPush(steps, states, Expire("a"), Expired());
  }
}

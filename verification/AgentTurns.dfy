/** What a turn of the built-in agent tells: its pieces, in order and whole, and the answer to its question. */
module AgentTurns {
  import opened Options
  import opened FakeAgent

  function Concat(pieces: seq<string>): string {
    if pieces == [] then "" else Concat(pieces[..|pieces| - 1]) + pieces[|pieces| - 1]
  }

  lemma ConcatPush(pieces: seq<string>, piece: string)
    ensures Concat(pieces + [piece]) == Concat(pieces) + piece
  {
    assert (pieces + [piece])[..|pieces|] == pieces;
  }

  // ---------------------------------------------- a turn that nobody disturbs ---

  /** The timer of a turn fires n times. */
  function FiredTimes(a: Agent, turn: nat, freshApproval: ApprovalId, n: nat): Agent {
    if n == 0 then a else Fired(FiredTimes(a, turn, freshApproval, n - 1), turn, freshApproval)
  }

  function Deltas(turn: nat, pieces: seq<string>): (events: seq<Event>)
    ensures |events| == |pieces|
  {
    if pieces == [] then [] else Deltas(turn, pieces[..|pieces| - 1]) + [TextDelta(turn, pieces[|pieces| - 1])]
  }

  lemma DeltasPush(turn: nat, pieces: seq<string>, piece: string)
    ensures Deltas(turn, pieces + [piece]) == Deltas(turn, pieces) + [TextDelta(turn, piece)]
  {
    assert (pieces + [piece])[..|pieces|] == pieces;
  }

  /** No question comes up any more. */
  predicate AsksNothing(turn: Turn) {
    turn.approvalAfterPiece.None? || turn.approvalAfterPiece.value <= turn.nextPiece
  }

  lemma Together(front: seq<Event>, middle: seq<Event>, last: Event)
    ensures (front + middle) + [last] == front + (middle + [last])
  {
  }

  lemma Joined(front: string, middle: string, last: string)
    ensures (front + middle) + last == front + (middle + last)
  {
  }

  lemma OnePieceIsTold(a: Agent, freshApproval: ApprovalId)
    requires a.state == Working && a.activeTurn.Some? && AsksNothing(a.activeTurn.value)
    requires a.activeTurn.value.nextPiece < |a.activeTurn.value.pieces|
    ensures var turn := a.activeTurn.value;
      var piece := turn.pieces[turn.nextPiece];
      Fired(a, turn.id, freshApproval) == Emitted(a, TextDelta(turn.id, piece)).(activeTurn :=
        Some(turn.(nextPiece := turn.nextPiece + 1, fullText := turn.fullText + piece, timer := true)))
  {
  }

  /** From a to z the turn has told its next n pieces, and nothing else has changed. */
  ghost predicate HasTold(a: Agent, z: Agent, n: nat) {
    a.activeTurn.Some? && a.activeTurn.value.nextPiece + n <= |a.activeTurn.value.pieces| &&
    var turn := a.activeTurn.value;
    var told := turn.pieces[turn.nextPiece..turn.nextPiece + n];
    && z.events == a.events + Deltas(turn.id, told)
    && z.state == a.state && z.pendingApproval == a.pendingApproval && z.turns == a.turns && z.activeTurn.Some?
    && z.activeTurn.value == turn.(nextPiece := turn.nextPiece + n, fullText := turn.fullText + Concat(told),
                                   timer := z.activeTurn.value.timer)
  }

  lemma NoneTold(a: Agent)
    requires a.activeTurn.Some? && a.activeTurn.value.nextPiece <= |a.activeTurn.value.pieces|
    ensures HasTold(a, a, 0)
  {
    var turn := a.activeTurn.value;
    assert turn.pieces[turn.nextPiece..turn.nextPiece] == [];
    assert turn.fullText + "" == turn.fullText && a.events + [] == a.events;
  }

  lemma OneMoreTold(a: Agent, y: Agent, n: nat, freshApproval: ApprovalId)
    requires HasTold(a, y, n) && a.state == Working && AsksNothing(a.activeTurn.value)
    requires a.activeTurn.value.nextPiece + n < |a.activeTurn.value.pieces|
    ensures HasTold(a, Fired(y, a.activeTurn.value.id, freshApproval), n + 1)
  {
    hide Fired, Deltas, Concat;
    var turn := a.activeTurn.value;
    var before, piece := turn.pieces[turn.nextPiece..turn.nextPiece + n], turn.pieces[turn.nextPiece + n];
    OnePieceIsTold(y, freshApproval);
    assert turn.pieces[turn.nextPiece..turn.nextPiece + (n + 1)] == before + [piece];
    ConcatPush(before, piece);
    DeltasPush(turn.id, before, piece);
    Together(a.events, Deltas(turn.id, before), TextDelta(turn.id, piece));
    Joined(turn.fullText, Concat(before), piece);
  }

  /** The next n pieces, each told by one firing. */
  lemma {:induction false} PiecesAreTold(a: Agent, freshApproval: ApprovalId, n: nat)
    requires a.state == Working && a.activeTurn.Some? && AsksNothing(a.activeTurn.value)
    requires a.activeTurn.value.nextPiece + n <= |a.activeTurn.value.pieces|
    ensures HasTold(a, FiredTimes(a, a.activeTurn.value.id, freshApproval, n), n)
  {
    hide HasTold, Fired;
    if n == 0 {
      NoneTold(a);
    } else {
      PiecesAreTold(a, freshApproval, n - 1);
      OneMoreTold(a, FiredTimes(a, a.activeTurn.value.id, freshApproval, n - 1), n - 1, freshApproval);
    }
  }

  /** The rest of a turn: its remaining pieces, then its whole text. */
  lemma TurnEnds(a: Agent, freshApproval: ApprovalId)
    requires a.state == Working && a.activeTurn.Some? && AsksNothing(a.activeTurn.value)
    requires a.activeTurn.value.nextPiece <= |a.activeTurn.value.pieces|
    ensures var turn := a.activeTurn.value;
      var rest := turn.pieces[turn.nextPiece..];
      var z := FiredTimes(a, turn.id, freshApproval, |rest| + 1);
      && z.events == a.events + Deltas(turn.id, rest)
           + [TextCompleted(turn.id, turn.fullText + Concat(rest)), TurnCompleted(turn.id, Completed), SessionUpdated(Idle)]
      && z.state == Idle && z.activeTurn.None?
  {
    hide Deltas, Concat;
    var turn := a.activeTurn.value;
    var rest := turn.pieces[turn.nextPiece..];
    PiecesAreTold(a, freshApproval, |rest|);
    var y := FiredTimes(a, turn.id, freshApproval, |rest|);
    assert turn.pieces[turn.nextPiece..turn.nextPiece + |rest|] == rest;
    assert FiredTimes(a, turn.id, freshApproval, |rest| + 1) == Fired(y, turn.id, freshApproval) == Finished(y);
  }

  /** A turn without a question logs its pieces one by one and then, completed, all of them together. */
  lemma PlainTurn(a: Agent, audio: bool, pieces: seq<string>, freshApproval: ApprovalId)
    requires a.activeTurn.None?
    ensures var begun := Operated(a, Submit(audio, pieces, false));
      var z := FiredTimes(begun, a.turns, freshApproval, |pieces| + 1);
      && z.events == a.events + [CaptureAccepted(audio), TurnStarted(a.turns), SessionUpdated(Working)] + Deltas(a.turns, pieces)
           + [TextCompleted(a.turns, Concat(pieces)), TurnCompleted(a.turns, Completed), SessionUpdated(Idle)]
      && z.state == Idle && z.activeTurn.None?
  {
    hide Deltas, Concat, FiredTimes;
    var begun := Operated(a, Submit(audio, pieces, false));
    assert begun.events == a.events + [CaptureAccepted(audio), TurnStarted(a.turns), SessionUpdated(Working)];
    assert pieces[0..] == pieces && "" + Concat(pieces) == Concat(pieces);
    TurnEnds(begun, freshApproval);
  }

  /**
   A turn with a question asks it after its first piece and waits; answered, it tells the other pieces and what
   became of the question.
   */
  lemma TurnWithQuestion(a: Agent, audio: bool, pieces: seq<string>, approval: ApprovalId, choice: Choice)
    requires a.activeTurn.None? && pieces != []
    ensures var t := a.turns;
      var asked := Fired(Operated(a, Submit(audio, pieces, true)), t, approval);
      var answered := Operated(asked, Respond(approval, choice));
      var z := FiredTimes(answered, t, approval, |pieces| + 1);
      && asked.state == WaitingForUser && asked.pendingApproval == Some(approval)
      && answered.events == a.events + [CaptureAccepted(audio), TurnStarted(t), SessionUpdated(Working)]
           + [TextDelta(t, pieces[0]), ApprovalRequested(approval), SessionUpdated(WaitingForUser)]
           + [ApprovalResolved(approval), SessionUpdated(Working)]
      && z.events == answered.events + Deltas(t, pieces[1..] + [Resolution(choice)])
           + [TextCompleted(t, Concat(pieces) + Resolution(choice)), TurnCompleted(t, Completed), SessionUpdated(Idle)]
      && z.state == Idle && z.activeTurn.None?
  {
    hide Deltas, Concat, FiredTimes, Resolution;
    var t := a.turns;
    var begun := Operated(a, Submit(audio, pieces, true));
    var asked := Fired(begun, t, approval);
    var answered := Operated(asked, Respond(approval, choice));
    assert begun.events == a.events + [CaptureAccepted(audio), TurnStarted(t), SessionUpdated(Working)];
    assert asked.events == begun.events + [TextDelta(t, pieces[0]), ApprovalRequested(approval), SessionUpdated(WaitingForUser)];
    assert answered.events == asked.events + [ApprovalResolved(approval), SessionUpdated(Working)];
    var turn := answered.activeTurn.value;
    var rest := pieces[1..] + [Resolution(choice)];
    assert turn.pieces[1..] == rest;
    TurnEnds(answered, approval);
    TextIsWhole(pieces, Resolution(choice));
    assert "" + pieces[0] == pieces[0];
  }

  lemma {:induction false} ConcatFirst(pieces: seq<string>)
    requires pieces != []
    ensures Concat(pieces) == pieces[0] + Concat(pieces[1..])
  {
    var front, last := pieces[..|pieces| - 1], pieces[|pieces| - 1];
    if front == [] {
      assert pieces[1..] == [];
    } else {
      ConcatFirst(front);
      assert pieces[1..] == front[1..] + [last];
      ConcatPush(front[1..], last);
    }
  }

  lemma TextIsWhole(pieces: seq<string>, last: string)
    requires pieces != []
    ensures pieces[0] + Concat(pieces[1..] + [last]) == Concat(pieces) + last
  {
    hide Concat;
    ConcatFirst(pieces);
    ConcatPush(pieces[1..], last);
  }

  /** An interruption ends the turn there and then: a question is resolved first, and no text is completed. */
  lemma InterruptionEnds(a: Agent)
    requires a.activeTurn.Some?
    ensures var t, z := a.activeTurn.value.id, Operated(a, Interrupt);
      && z.events == a.events + (if a.pendingApproval.Some? then [ApprovalResolved(a.pendingApproval.value)] else [])
                       + [TurnInterrupted(t), TurnCompleted(t, Stopped), SessionUpdated(Idle)]
      && z.state == Idle && z.activeTurn.None? && z.pendingApproval.None?
  {
    assert a.events + [] == a.events;
  }

  /** What became of the question is what the user chose. */
  lemma ResolutionTells(choice: Choice)
    ensures choice == ApproveOnce ==> Resolution(choice) == "Approval accepted. The fake command completed safely.\n"
    ensures choice != ApproveOnce ==> Resolution(choice) == "Approval declined. The fake command was not run.\n"
  {
  }

  // ------------------------------------------------------------ every run ---

  /** The turn is under way: what it has told so far, and whether its question has been answered. */
  ghost predicate Telling(a: Agent, t: nat, pieces: seq<string>, question: bool, answer: Option<Choice>) {
    a.activeTurn.Some? && a.activeTurn.value.id == t &&
    var turn := a.activeTurn.value;
    && turn.pieces == pieces + (if answer.Some? then [Resolution(answer.value)] else [])
    && turn.nextPiece <= |turn.pieces| && turn.fullText == Concat(turn.pieces[..turn.nextPiece])
    && turn.approvalAfterPiece == (if question then Some(1) else None)
    && (a.state == WaitingForUser <==> a.pendingApproval.Some?)
    && (a.pendingApproval.Some? ==> question && answer.None? && turn.nextPiece == 1)
    && (answer.Some? ==> question && turn.nextPiece >= 1 && pieces != [])
    && (question && answer.None? && a.pendingApproval.None? ==> turn.nextPiece == 0)
  }

  /** The turn is over, and its completed text has been logged. */
  ghost predicate Told(events: seq<Event>, t: nat, pieces: seq<string>, question: bool, answer: Option<Choice>) {
    && (answer.Some? <==> question && pieces != [])
    && |events| >= 3 && events[|events| - 3..] == [TextCompleted(t, Concat(pieces) + if answer.Some? then Resolution(answer.value) else ""),
                                  TurnCompleted(t, Completed), SessionUpdated(Idle)]
  }

  lemma SubmitTells(a: Agent, audio: bool, pieces: seq<string>, question: bool)
    requires a.activeTurn.None? && a.pendingApproval.None?
    ensures Telling(Operated(a, Submit(audio, pieces, question)), a.turns, pieces, question, None)
  {
    assert pieces + [] == pieces && pieces[..0] == [];
  }

  lemma LastThree(events: seq<Event>, x: Event, y: Event, z: Event)
    ensures |events + [x] + [y] + [z]| == |events| + 3
    ensures (events + [x] + [y] + [z])[|events|..] == [x, y, z]
  {
  }

  lemma FinishTells(a: Agent, t: nat, pieces: seq<string>, question: bool, answer: Option<Choice>)
    requires Telling(a, t, pieces, question, answer) && a.state == Working
    requires a.activeTurn.value.nextPiece == |a.activeTurn.value.pieces|
    ensures Told(Finished(a).events, t, pieces, question, answer) && Finished(a).activeTurn.None?
  {
    hide Concat, Resolution;
    var turn := a.activeTurn.value;
    assert turn.pieces[..turn.nextPiece] == turn.pieces;
    LastThree(a.events, TextCompleted(t, turn.fullText), TurnCompleted(t, Completed), SessionUpdated(Idle));
    if answer.Some? {
      ConcatPush(pieces, Resolution(answer.value));
    } else {
      assert turn.pieces == pieces && Concat(pieces) + "" == Concat(pieces);
    }
  }

  lemma PieceTells(a: Agent, t: nat, pieces: seq<string>, question: bool, answer: Option<Choice>, newId: ApprovalId)
    requires Telling(a, t, pieces, question, answer) && a.state == Working
    requires a.activeTurn.value.nextPiece < |a.activeTurn.value.pieces|
    ensures Telling(Fired(a, t, newId), t, pieces, question, answer)
  {
    hide Concat, Resolution;
    var turn := a.activeTurn.value;
    var k := turn.nextPiece;
    assert turn.pieces[..k + 1] == turn.pieces[..k] + [turn.pieces[k]];
    ConcatPush(turn.pieces[..k], turn.pieces[k]);
  }

  lemma FiringTells(a: Agent, t: nat, pieces: seq<string>, question: bool, answer: Option<Choice>, newId: ApprovalId)
    requires Telling(a, t, pieces, question, answer) && a.state == Working
    ensures var z := Fired(a, t, newId);
      if a.activeTurn.value.nextPiece == |a.activeTurn.value.pieces|
      then Told(z.events, t, pieces, question, answer) && z.activeTurn.None?
      else Telling(z, t, pieces, question, answer)
  {
    hide Concat, Resolution, Told, Finished;
    if a.activeTurn.value.nextPiece == |a.activeTurn.value.pieces| {
      FinishTells(a, t, pieces, question, answer);
    } else {
      PieceTells(a, t, pieces, question, answer, newId);
    }
  }

  /** Anything but an interruption either leaves the turn where it is, moves it on, or ends it with its whole text. */
  lemma OperationTells(a: Agent, op: Operation, t: nat, pieces: seq<string>, question: bool, answer: Option<Choice>)
    returns (after: Option<Choice>)
    requires Telling(a, t, pieces, question, answer) && !op.Interrupt?
    requires a.state == Working || a.state == WaitingForUser
    ensures after == answer || (answer.None? && op.Respond? && after == Some(op.choice))
    ensures var z := Operated(a, op);
      || (Telling(z, t, pieces, question, after) && (z.state == Working || z.state == WaitingForUser))
      || (Told(z.events, t, pieces, question, after) && z.activeTurn.None?)
  {
    hide Concat, Resolution, Fired;
    after := answer;
    match op {
      case TimerFires(turn, newId) =>
        if turn != t || a.state != Working {
          StaleFires(a, turn, newId);
        } else {
          FiringTells(a, t, pieces, question, answer, newId);
          FiringKeepsWorking(a, newId);
        }
      case Respond(approval, choice) =>
        if a.pendingApproval == Some(approval) {
          after := Some(choice);
          var turn := a.activeTurn.value;
          assert turn.pieces == pieces;
          assert (pieces + [Resolution(choice)])[..1] == pieces[..1];
        }
      case _ =>
    }
  }

  lemma StaleFires(a: Agent, turn: nat, newId: ApprovalId)
    requires a.activeTurn.Some? && (turn != a.activeTurn.value.id || a.state != Working)
    ensures Fired(a, turn, newId) == a
  {
  }

  lemma FiringKeepsWorking(a: Agent, newId: ApprovalId)
    requires a.activeTurn.Some? && a.state == Working
    ensures var z := Fired(a, a.activeTurn.value.id, newId);
      z.activeTurn.Some? ==> z.state == Working || z.state == WaitingForUser
  {
  }

  function OperateAll(a: Agent, ops: seq<Operation>): Agent {
    if ops == [] then a else Operated(OperateAll(a, ops[..|ops| - 1]), ops[|ops| - 1])
  }

  /**
   Whatever happens besides, stale timers, refused captures, answers to other questions, as long as nobody interrupts
   it a turn is either under way or has logged, as its completed text, the submitted pieces in order, followed by what
   the user's answer gives exactly if it had a question to ask.
   */
  lemma {:induction false} UninterruptedTurnTells(a: Agent, audio: bool, pieces: seq<string>, question: bool, ops: seq<Operation>)
    returns (answer: Option<Choice>, end: nat)
    requires a.activeTurn.None? && a.pendingApproval.None?
    requires forall k :: 0 <= k < |ops| ==> !ops[k].Interrupt?
    ensures end <= |ops|
    ensures answer.Some? ==> exists k :: 0 <= k < end && ops[k].Respond? && ops[k].choice == answer.value
    ensures var begun := Operated(a, Submit(audio, pieces, question));
      var z := OperateAll(begun, ops[..end]);
      || (end == |ops| && Telling(z, a.turns, pieces, question, answer) && (z.state == Working || z.state == WaitingForUser))
      || (Told(z.events, a.turns, pieces, question, answer) && z.activeTurn.None?)
  {
    hide Telling, Told, Operated;
    var begun := Operated(a, Submit(audio, pieces, question));
    if ops == [] {
      SubmitTells(a, audio, pieces, question);
      SubmitWorks(a, audio, pieces, question);
      answer, end := None, 0;
      assert ops[..0] == [];
    } else {
      var n := |ops| - 1;
      answer, end := UninterruptedTurnTells(a, audio, pieces, question, ops[..n]);
      assert ops[..n][..end] == ops[..end];
      var y := OperateAll(begun, ops[..end]);
      if end == n && Telling(y, a.turns, pieces, question, answer) && (y.state == Working || y.state == WaitingForUser) {
        assert ops[..n + 1] == ops && OperateAll(begun, ops) == Operated(y, ops[n]);
        answer := OperationTells(y, ops[n], a.turns, pieces, question, answer);
        end := n + 1;
      }
    }
  }

  lemma SubmitWorks(a: Agent, audio: bool, pieces: seq<string>, question: bool)
    requires a.activeTurn.None?
    ensures Operated(a, Submit(audio, pieces, question)).state == Working
  {
  }
}

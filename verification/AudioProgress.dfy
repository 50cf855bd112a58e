/**
 What a turn of the audio upload does to the bytes in hand, told by what the socket does: when it fails, when it
 waits, and that a finished recording reaches the server however slowly the socket takes it.
 */
module AudioProgress {
  import opened Arithmetic
  import opened Framing
  import opened AudioStream
  import Chunked

  /** The socket is gone: an error, or nothing taken at all. */
  predicate Breaks(sent: Sent) {
    sent == SendFailed || sent == Accepted(0)
  }

  predicate Takes(sent: Sent) {
    sent.Accepted? && sent.bytes > 0
  }

  // ------------------------------------------------ when a turn fails ---

  /** A transaction with bytes in hand, or with the terminal chunk still to come, calls send. */
  predicate HasWork(s: Sending) {
    s.phase == SendingEnd || (s.phase == Streaming && (s.unsent != [] || s.finish))
  }

  /** The answers of the socket that a turn asks for, in order: it goes on as long as whatever is in hand is taken whole. */
  function Attempts(s: Sending, connected: bool, sent: nat -> Sent, t: nat): seq<Sent>
    decreases 4 - t
  {
    if t >= 4 then [] else
    match s.phase
    case Failed => []
    case Receiving => []
    case Starting => if connected then Attempts(s.(phase := Streaming), connected, sent, t + 1) else []
    case Streaming =>
      if s.unsent == [] then
        if s.finish then Attempts(s.(phase := SendingEnd, unsent := Chunked.LAST_CHUNK), connected, sent, t + 1) else []
      else if Takes(sent(t)) && sent(t).bytes >= |s.unsent| then
        [sent(t)] + Attempts(s.(unsent := [], wire := s.wire + s.unsent), connected, sent, t + 1)
      else [sent(t)]
    case SendingEnd => [sent(t)]
  }

  /** A turn ends in failure exactly when it began so, or the socket broke in one of the attempts it made. */
  lemma {:induction false} FailsExactlyWhenBroken(s: Sending, connected: bool, sent: nat -> Sent, t: nat)
    ensures Turned(s, connected, sent, t).phase == Failed
        <==> s.phase == Failed || exists a :: a in Attempts(s, connected, sent, t) && Breaks(a)
    decreases 4 - t
  {
    if t < 4 {
      match s.phase
      case Failed =>
      case Receiving =>
      case Starting =>
        if connected {
          FailsExactlyWhenBroken(s.(phase := Streaming), connected, sent, t + 1);
        }
      case Streaming =>
        if s.unsent != [] {
          OneAttempt(s, sent(t));
          if Takes(sent(t)) && sent(t).bytes >= |s.unsent| {
            var emptied := s.(unsent := [], wire := s.wire + s.unsent);
            FailsExactlyWhenBroken(emptied, connected, sent, t + 1);
            InFrontOf(sent(t), Attempts(emptied, connected, sent, t + 1));
          } else {
            assert sent(t) in Attempts(s, connected, sent, t);
          }
        } else if s.finish {
          FailsExactlyWhenBroken(s.(phase := SendingEnd, unsent := Chunked.LAST_CHUNK), connected, sent, t + 1);
        }
      case SendingEnd =>
        OneAttempt(s, sent(t));
        assert sent(t) in Attempts(s, connected, sent, t);
        EndIsFinal(s, connected, sent, t);
    }
  }

  lemma InFrontOf(a: Sent, rest: seq<Sent>)
    requires !Breaks(a)
    ensures (exists b :: b in [a] + rest && Breaks(b)) <==> exists b :: b in rest && Breaks(b)
  {
    forall b | b in rest
      ensures b in [a] + rest
    {
    }
  }

  lemma OneAttempt(s: Sending, sent: Sent)
    requires s.phase != Failed
    ensures Attempted(s, sent).phase == (if Breaks(sent) then Failed else s.phase)
    ensures sent == Pending ==> Attempted(s, sent) == s
    ensures Takes(sent) ==>
      var n := Min(sent.bytes, |s.unsent|);
      Attempted(s, sent) == s.(unsent := s.unsent[n..], wire := s.wire + s.unsent[..n])
    ensures Takes(sent) && sent.bytes >= |s.unsent| ==> Attempted(s, sent) == s.(unsent := [], wire := s.wire + s.unsent)
  {
    assert s.unsent[..|s.unsent|] == s.unsent && s.unsent[|s.unsent|..] == [];
  }

  /** After the terminal chunk there is nothing more to send in a turn. */
  lemma EndIsFinal(s: Sending, connected: bool, sent: nat -> Sent, t: nat)
    requires s.phase == SendingEnd && t < 4
    ensures var tried := Attempted(s, sent(t));
      Turned(s, connected, sent, t)
        == if tried.phase != Failed && tried.unsent == [] then tried.(phase := Receiving) else tried
  {
    hide Attempted;
    var tried := Attempted(s, sent(t));
    TurnUnfolds(s, connected, sent, t);
    TurnUnfolds(tried.(phase := Receiving), connected, sent, t + 1);
  }

  /** A socket that never breaks never fails an upload. */
  lemma SoundSocketNeverFails(s: Sending, connected: bool, sent: nat -> Sent)
    requires s.phase != Failed && forall t: nat :: !Breaks(sent(t))
    ensures Turned(s, connected, sent, 0).phase != Failed
  {
    FailsExactlyWhenBroken(s, connected, sent, 0);
    AttemptsAreAnswers(s, connected, sent, 0);
  }

  lemma {:induction false} AttemptsAreAnswers(s: Sending, connected: bool, sent: nat -> Sent, t: nat)
    ensures forall a :: a in Attempts(s, connected, sent, t) ==> exists k: nat :: sent(k) == a
    decreases 4 - t
  {
    if t < 4 {
      match s.phase
      case Failed =>
      case Receiving =>
      case Starting =>
        AttemptsAreAnswers(s.(phase := Streaming), connected, sent, t + 1);
      case Streaming =>
        AttemptsAreAnswers(s.(unsent := [], wire := s.wire + s.unsent), connected, sent, t + 1);
        AttemptsAreAnswers(s.(phase := SendingEnd, unsent := Chunked.LAST_CHUNK), connected, sent, t + 1);
      case SendingEnd =>
    }
  }

  /** A broken socket fails an upload that has something to send. */
  lemma BrokenSocketFails(s: Sending, connected: bool, sent: nat -> Sent)
    requires HasWork(s) && forall t: nat :: Breaks(sent(t))
    ensures Turned(s, connected, sent, 0).phase == Failed
  {
    FailsExactlyWhenBroken(s, connected, sent, 0);
    if s.phase == Streaming && s.unsent == [] {
      var ending := s.(phase := SendingEnd, unsent := Chunked.LAST_CHUNK);
      assert Attempts(s, connected, sent, 0) == Attempts(ending, connected, sent, 1);
      assert sent(1) in Attempts(ending, connected, sent, 1);
    } else {
      assert sent(0) in Attempts(s, connected, sent, 0);
    }
  }

  /** A socket that pushes back at once leaves phase, bytes in hand and wire as they were. */
  lemma PushBackChangesNothing(s: Sending, connected: bool, sent: nat -> Sent)
    requires s.unsent != [] && s.phase in {Streaming, SendingEnd} && sent(0) == Pending
    ensures Turned(s, connected, sent, 0) == s
  {
  }

  // ------------------------------------------------ progress over turns ---

  /** The socket waits or takes something; it does not break. */
  ghost predicate Patient(sent: nat -> Sent) {
    forall t: nat :: sent(t) == Pending || Takes(sent(t))
  }

  ghost predicate Willing(sent: nat -> Sent) {
    forall t: nat :: Takes(sent(t))
  }

  ghost function AfterTurns(s: Sending, turns: seq<nat -> Sent>): Sending {
    if turns == [] then s else Turned(AfterTurns(s, turns[..|turns| - 1]), true, turns[|turns| - 1], 0)
  }

  ghost function WillingTurns(turns: seq<nat -> Sent>): nat {
    if turns == [] then 0 else WillingTurns(turns[..|turns| - 1]) + if Willing(turns[|turns| - 1]) then 1 else 0
  }

  ghost predicate Finishing(s: Sending) {
    && s.phase != Failed && s.finish
    && (s.phase == SendingEnd ==> s.unsent != []) && (s.phase == Receiving ==> s.unsent == [])
  }

  /** Everything that is on the wire in the end. */
  function Whole(s: Sending): seq<byte> {
    s.wire + s.unsent + if s.phase in {SendingEnd, Receiving} then [] else Chunked.LAST_CHUNK
  }

  function Left(s: Sending): nat {
    |s.unsent| + if s.phase in {SendingEnd, Receiving} then 0 else |Chunked.LAST_CHUNK|
  }

  lemma AttemptKeeps(s: Sending, sent: Sent)
    requires Finishing(s) && s.unsent != [] && s.phase in {Streaming, SendingEnd} && (sent == Pending || Takes(sent))
    ensures var tried := Attempted(s, sent);
      && tried.phase == s.phase && tried.finish && tried.wire + tried.unsent == s.wire + s.unsent
      && |tried.unsent| <= |s.unsent| && (Takes(sent) ==> |tried.unsent| < |s.unsent|)
  {
    OneAttempt(s, sent);
    NothingIsLost(s, sent);
  }

  /** One patient turn; once the socket takes something, less is left. */
  lemma {:induction false} PatientTurn(s: Sending, sent: nat -> Sent, t: nat)
    requires Finishing(s) && Patient(sent)
    ensures var r := Turned(s, true, sent, t);
      && Finishing(r) && Whole(r) == Whole(s) && Left(r) <= Left(s)
      && (t <= 1 && Willing(sent) && s.phase != Receiving ==> Left(r) < Left(s))
      && (t <= 2 && Willing(sent) && s.phase !in {Starting, Receiving} ==> Left(r) < Left(s))
      && (t <= 3 && Willing(sent) && s.phase == SendingEnd ==> Left(r) < Left(s))
    decreases 4 - t
  {
    hide Attempted, Turned;
    TurnUnfolds(s, true, sent, t);
    if t < 4 && s.phase != Receiving {
      if s.phase == Starting {
        PatientTurn(s.(phase := Streaming), sent, t + 1);
      } else if s.phase == Streaming && s.unsent == [] {
        var ending := s.(phase := SendingEnd, unsent := Chunked.LAST_CHUNK);
        assert Whole(ending) == Whole(s) && Left(ending) == Left(s);
        PatientTurn(ending, sent, t + 1);
      } else {
        AttemptKeeps(s, sent(t));
        var tried := Attempted(s, sent(t));
        var next := if s.phase == SendingEnd && tried.unsent == [] then tried.(phase := Receiving) else tried;
        assert Whole(next) == Whole(s);
        if tried.unsent == [] {
          PatientTurn(next, sent, t + 1);
        }
      }
    }
  }

  lemma {:induction false} TurnsKeep(s: Sending, turns: seq<nat -> Sent>)
    requires Finishing(s) && forall k :: 0 <= k < |turns| ==> Patient(turns[k])
    ensures var r := AfterTurns(s, turns);
      Finishing(r) && Whole(r) == Whole(s) && (r.phase == Receiving || Left(r) + WillingTurns(turns) <= Left(s))
  {
    hide Turned, Patient, Willing, Finishing, Whole, Left;
    if turns != [] {
      var front, last := turns[..|turns| - 1], turns[|turns| - 1];
      TurnsKeep(s, front);
      PatientTurn(AfterTurns(s, front), last, 0);
      if AfterTurns(s, front).phase == Receiving {
        TurnUnfolds(AfterTurns(s, front), true, last, 0);
      }
    }
  }

  /**
   However often the socket pushes back, and however little it takes at a time, a finished upload is over after at
   most as many willing turns as there are bytes to send, with exactly those bytes on the wire.
   */
  lemma FinishedUploadArrives(s: Sending, turns: seq<nat -> Sent>)
    requires s.phase in {Starting, Streaming} && s.finish
    requires forall k :: 0 <= k < |turns| ==> Patient(turns[k])
    requires WillingTurns(turns) >= |s.unsent| + |Chunked.LAST_CHUNK|
    ensures AfterTurns(s, turns) == Sending(Receiving, [], s.wire + s.unsent + Chunked.LAST_CHUNK, true)
  {
    TurnsKeep(s, turns);
    var r := AfterTurns(s, turns);
    assert r.phase == Receiving || Left(r) == 0;
    assert r.phase == Receiving && r.wire + r.unsent + [] == r.wire;
  }
}

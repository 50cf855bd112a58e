/** One push connection of the bridge, as the object that its socket's events drive. */
module PushServer {
  import opened Options
  import opened CommandRegistry
  import P = PushProtocol
  import Fake = FakeAgent
  import Exec = CommandExecutor
  import Store = EventStore

  type SessionId = string

  const EVENT_HISTORY_LIMIT: nat := 256

  ghost function PayloadsOf(log: seq<Store.Envelope>, lookOf: string -> P.Look): (payloads: seq<P.Payload>)
    ensures |payloads| == |log|
  {
    seq(|log|, i requires 0 <= i < |log| => P.Payload(log[i].content, lookOf(log[i].content)))
  }

  // ----------------------------------------------------- what a flush sends ---

  /**
   Flushing as far as it goes: until the socket pushes back, the log is used up, or the cursor is
   refused. answers tells for the n-th frame ever written whether the socket asked for more.
   */
  ghost function Flushed(b: P.Bridge, c: P.Conn, answers: nat -> bool): P.Conn
    decreases if c.session.Some? then |P.Log(b, c.session.value)| - c.sendCursor else 0
  {
    if c.closed || c.blocked || c.session.None? then c
    else if P.CursorRefused(b, c.session.value, c.sendCursor) then P.FlushOne(b, c, answers(|c.out|))
    else if c.sendCursor == |P.Log(b, c.session.value)| then c
    else Flushed(b, P.FlushOne(b, c, answers(|c.out|)), answers)
  }

  ghost function FlushSteps(b: P.Bridge, i: nat, c: P.Conn, answers: nat -> bool): seq<P.Step>
    decreases if c.session.Some? then |P.Log(b, c.session.value)| - c.sendCursor else 0
  {
    if c.closed || c.blocked || c.session.None? then []
    else if P.CursorRefused(b, c.session.value, c.sendCursor) then [P.Flush(i, answers(|c.out|))]
    else if c.sendCursor == |P.Log(b, c.session.value)| then []
    else [P.Flush(i, answers(|c.out|))] + FlushSteps(b, i, P.FlushOne(b, c, answers(|c.out|)), answers)
  }

  /** A whole flush is a run of the protocol machine's flush steps. */
  lemma {:induction false} FlushIsARun(w: P.World, i: nat, answers: nat -> bool)
    requires i < |w.bridge.conns|
    ensures P.Reaches(w, FlushSteps(w.bridge, i, w.bridge.conns[i], answers),
              w.(bridge := P.SetConn(w.bridge, i, Flushed(w.bridge, w.bridge.conns[i], answers))))
    decreases if w.bridge.conns[i].session.Some?
              then |P.Log(w.bridge, w.bridge.conns[i].session.value)| - w.bridge.conns[i].sendCursor else 0
  {
    hide P.FlushOne;
    var b, c := w.bridge, w.bridge.conns[i];
    var steps := FlushSteps(b, i, c, answers);
    if steps == [] {
      assert b.conns[i := c] == b.conns;
    } else {
      var next := P.FlushOne(b, c, answers(|c.out|));
      var w' := P.Apply(w, steps[0]);
      FlushMoves(b, c, answers(|c.out|));
      assert w'.bridge == P.SetConn(b, i, next);
      LogsAlone(b, w'.bridge, i, next, answers);
      if |steps| == 1 && Flushed(b, c, answers) == next {
        assert steps[1..] == [];
      } else {
        FlushIsARun(w', i, answers);
        assert w'.bridge.conns[i := Flushed(b, next, answers)] == b.conns[i := Flushed(b, next, answers)];
        assert steps[1..] == FlushSteps(b, i, next, answers);
      }
    }
  }

  lemma FlushMoves(b: P.Bridge, c: P.Conn, writable: bool)
    ensures P.FlushOne(b, c, writable).session == c.session
    ensures !c.closed && !c.blocked && c.session.Some? && c.sendCursor < |P.Log(b, c.session.value)| ==>
              P.CursorRefused(b, c.session.value, c.sendCursor) || P.FlushOne(b, c, writable).sendCursor == c.sendCursor + 1
  {
  }

  /** Flushing looks at nothing in the bridge but its logs. */
  lemma {:induction false} LogsAlone(b: P.Bridge, b': P.Bridge, i: nat, c: P.Conn, answers: nat -> bool)
    requires b.logs == b'.logs && b.evicted == b'.evicted && b.summaries == b'.summaries
    ensures Flushed(b, c, answers) == Flushed(b', c, answers)
    ensures FlushSteps(b, i, c, answers) == FlushSteps(b', i, c, answers)
    decreases if c.session.Some? then |P.Log(b, c.session.value)| - c.sendCursor else 0
  {
    if c.closed || c.blocked || c.session.None? {
    } else if P.CursorRefused(b, c.session.value, c.sendCursor) {
    } else if c.sendCursor == |P.Log(b, c.session.value)| {
    } else {
      LogsAlone(b, b', i, P.FlushOne(b, c, answers(|c.out|)), answers);
    }
  }

  // ------------------------------------------------------------- the object ---

  /** The application's sessions, as their agents report them. */
  class Sessions {
    var summaries: map<SessionId, Fake.Snapshot>

    ghost function Known(ids: set<SessionId>): map<SessionId, Fake.Snapshot>
      reads this
    {
      map id | id in ids :: Of(id)
    }

    /** session() */
    function Of(id: SessionId): Fake.Snapshot
      reads this
    {
      if id in summaries then summaries[id] else Fake.Snapshot(Fake.Idle, None)
    }
  }

  class PushConnection {
    const store: Store.EventStore
    const sessions: Sessions
    const service: Exec.CommandService
    /** Whether the socket asks for more after the n-th frame written to it. */
    const answers: nat -> bool
    const lookOf: string -> P.Look

    var sessionId: Option<SessionId>
    var sendCursor: nat
    var blocked: bool
    var closed: bool
    /** The socket's end() has been called, and what has been written to it before that. */
    var ended: bool
    var written: seq<P.Frame>
    /** The command being processed, if any: which answer it will be given. */
    var processing: P.Busy
    /** What the machine records of the other end. */
    ghost var peer: P.Conn

    ghost predicate Valid()
      reads this, store
    {
      store.Valid() && store.limits.bytes > Store.MAX_EVENT_LINE_BYTES
    }

    ghost function Abs(): P.Conn
      reads this
    {
      peer.(session := sessionId, sendCursor := sendCursor, blocked := blocked, ended := ended, closed := closed,
            busy := processing, out := written)
    }

    /** The event logs as the machine sees them. */
    ghost function Logs(known: set<SessionId>): P.Bridge
      requires store.Valid()
      reads store, sessions
    {
      P.Bridge(map id | id in known :: PayloadsOf(store.Log(id), lookOf),
               map id | id in known :: Dropped(id),
               sessions.Known(known),
               Exec.Initial(1), [])
    }

    ghost function Dropped(id: SessionId): nat
      requires store.Valid()
      reads store
    {
      if |store.Retained(id)| <= |store.Log(id)| then |store.Log(id)| - |store.Retained(id)| else 0
    }

    constructor (store: Store.EventStore, sessions: Sessions, service: Exec.CommandService, answers: nat -> bool,
                 lookOf: string -> P.Look, ghost peer: P.Conn)
      requires store.Valid() && store.limits.bytes > Store.MAX_EVENT_LINE_BYTES
      ensures Valid() && this.store == store && this.sessions == sessions && this.service == service
      ensures this.answers == answers && this.lookOf == lookOf
      ensures Abs() == P.Conn(None, 0, false, false, false, P.Idle, [], peer.inbox, peer.processed, peer.target, peer.after, peer.base)
    {
      this.store, this.sessions, this.service, this.answers, this.lookOf, this.peer := store, sessions, service, answers, lookOf, peer;
      sessionId, sendCursor, blocked, closed, ended, written, processing := None, 0, false, false, false, [], P.Idle;
    }

    /** #send */
    method Send(frame: P.Frame) returns (accepted: bool)
      modifies this`blocked, this`closed, this`written
      ensures Abs() == P.Send(old(Abs()), frame, answers(|old(written)|))
      ensures accepted <==> !closed && !blocked
    {
      if closed {
        return false;
      }
      if blocked {
        closed := true;
        return false;
      }
      if ended {
        blocked := true;
        return false;
      }
      accepted := answers(|written|);
      written := written + [frame];
      blocked := !accepted;
    }

    /** #fail */
    method Fail(closeAfterWrite: bool)
      modifies this`blocked, this`closed, this`written, this`ended
      ensures var sent := P.Send(old(Abs()), P.ErrorFrame, answers(|old(written)|));
        Abs() == if closeAfterWrite then sent.(ended := true) else sent
    {
      var _ := Send(P.ErrorFrame);
      if closeAfterWrite {
        ended := true;
      }
    }

    /** #sendResync */
    method SendResync(session: SessionId, ghost known: set<SessionId>)
      requires Valid() && session in known
      modifies this, store
      ensures Valid() && Logs(known) == old(Logs(known))
      ensures Abs() == P.SendResync(Logs(known), old(Abs()), session, answers(|old(written)|))
    {
      hide Logs, P.Send, Store.ValidSession;
      var latest := LatestSequence(session, known);
      LogsAt(known, session);
      var summary := sessions.Of(session);
      var _ := Send(P.ResyncFrame(latest, summary));
      ended := true;
    }

    /** The store's answer, in terms of the logs as the machine sees them. */
    method EventsAfter(session: SessionId, cursor: nat, limit: nat, ghost known: set<SessionId>)
      returns (events: Result<seq<Store.Envelope>, Store.StoreError>)
      requires Valid() && session in known && limit > 0
      modifies store
      ensures Valid() && Logs(known) == old(Logs(known))
      ensures events.Err? <==> P.CursorRefused(Logs(known), session, cursor)
      ensures events.Ok? ==> IsBatch(events.value, P.Log(Logs(known), session), cursor, lookOf)
      ensures events.Ok? ==> (events.value == [] <==> cursor == |P.Log(Logs(known), session)|)
    {
      hide Logs, PayloadsOf, Store.ValidSession, Store.AfterSpec;
      events := store.After(session, cursor, limit);
      LogsStay(known);
      LogsAt(known, session);
      BatchIs(store, session, cursor, limit, lookOf);
    }

    twostate lemma LogsStay(known: set<SessionId>)
      requires old(store.Valid()) && store.Valid() && sessions.summaries == old(sessions.summaries)
      requires forall id :: store.Log(id) == old(store.Log(id)) && store.Retained(id) == old(store.Retained(id))
      ensures Logs(known) == old(Logs(known))
    {
      hide Store.ValidSession, PayloadsOf;
      forall id | id in known
        ensures Dropped(id) == old(Dropped(id)) && PayloadsOf(store.Log(id), lookOf) == old(PayloadsOf(store.Log(id), lookOf))
      {
      }
    }

    method LatestSequence(session: SessionId, ghost known: set<SessionId>) returns (latest: nat)
      requires Valid() && session in known
      modifies store
      ensures Valid() && Logs(known) == old(Logs(known))
      ensures latest == |P.Log(Logs(known), session)|
    {
      hide Logs, Store.ValidSession;
      latest := store.LatestSequence(session);
      LogsStay(known);
      LogsAt(known, session);
    }

    lemma LogsAt(known: set<SessionId>, id: SessionId)
      requires Valid() && id in known
      ensures P.Log(Logs(known), id) == PayloadsOf(store.Log(id), lookOf)
      ensures P.Evicted(Logs(known), id) == Dropped(id) && P.Summary(Logs(known), id) == sessions.Of(id)
    {
    }

    lemma LogsAreKnown(known: set<SessionId>)
      requires Valid()
      ensures Logs(known).logs.Keys == known
    {
    }

    /** #flushEvents */
    method FlushEvents(ghost known: set<SessionId>)
      requires Valid() && (sessionId.Some? ==> sessionId.value in known)
      modifies this, store
      ensures Valid() && Logs(known) == old(Logs(known))
      ensures Abs() == Flushed(Logs(known), old(Abs()), answers)
    {
      hide P.FlushOne, P.SendResync, PayloadsOf, Logs, P.Log, P.CursorRefused, IsBatch, Store.ValidSession;
      if closed || blocked || sessionId.None? {
        return;
      }
      ghost var b := Logs(known);
      ghost var goal := Flushed(b, Abs(), answers);
      while !blocked
        invariant Valid() && Logs(known) == b && sessionId == old(sessionId) && !closed
        invariant Flushed(b, Abs(), answers) == goal
        decreases !blocked, |P.Log(b, sessionId.value)| - sendCursor
      {
        var events := EventsAfter(sessionId.value, sendCursor, EVENT_HISTORY_LIMIT, known);
        match events {
          case Err(_) =>
            ResyncIsFlush(b, Abs(), answers(|written|));
            SendResync(sessionId.value, known);
            return;
          case Ok(batch) =>
            if batch == [] {
              return;
            }
            var accepted := SendBatch(batch, b);
            if !accepted {
              return;
            }
        }
      }
    }

    /** The inner loop of #flushEvents: until the batch is used up or the socket pushes back. */
    method SendBatch(batch: seq<Store.Envelope>, ghost b: P.Bridge) returns (accepted: bool)
      requires !closed && !blocked && sessionId.Some? && !P.CursorRefused(b, sessionId.value, sendCursor)
      requires IsBatch(batch, P.Log(b, sessionId.value), sendCursor, lookOf)
      modifies this
      ensures !closed && sessionId == old(sessionId)
      ensures accepted <==> !blocked
      ensures accepted ==> sendCursor == old(sendCursor) + |batch| <= |P.Log(b, sessionId.value)|
      ensures Flushed(b, Abs(), answers) == Flushed(b, old(Abs()), answers)
    {
      hide P.FlushOne, P.Log, P.Evicted;
      for i := 0 to |batch|
        invariant !closed && !blocked && sessionId == old(sessionId)
        invariant sendCursor == old(sendCursor) + i <= |P.Log(b, sessionId.value)|
        invariant Flushed(b, Abs(), answers) == Flushed(b, old(Abs()), answers)
      {
        EventIsFlush(b, Abs(), answers(|written|));
        accepted := SendEvent(batch[i]);
        if !accepted {
          return;
        }
      }
      accepted := true;
    }

    /** #sendEvent */
    method SendEvent(event: Store.Envelope) returns (accepted: bool)
      modifies this
      ensures var frame := P.EventFrame(event.sequence, P.Payload(event.content, lookOf(event.content)));
        Abs() == P.Send(old(Abs()), frame, answers(|old(written)|)).(sendCursor := event.sequence)
      ensures accepted <==> !closed && !blocked
    {
      accepted := Send(P.EventFrame(event.sequence, P.Payload(event.content, lookOf(event.content))));
      sendCursor := event.sequence;
    }

    /** #onDrain */
    method OnDrain(ghost known: set<SessionId>)
      requires Valid() && (sessionId.Some? ==> sessionId.value in known)
      modifies this, store
      ensures Valid() && Logs(known) == old(Logs(known))
      ensures Abs() == if old(closed) then old(Abs()) else Flushed(Logs(known), old(Abs()).(blocked := false), answers)
    {
      if closed {
        return;
      }
      blocked := false;
      FlushEvents(known);
    }

    /** #handleHello, with the error handling of its caller; known are the sessions the bridge has. */
    method HandleHello(session: SessionId, after: nat, known: set<SessionId>)
      requires Valid() && (sessionId.Some? ==> sessionId.value in known)
      modifies this, store
      ensures Valid() && Logs(known) == old(Logs(known))
      ensures var answered := P.HandleHello(Logs(known), old(Abs()), session, after, answers(|old(written)|));
        Abs() == if old(sessionId).Some? || session !in known || P.CursorRefused(Logs(known), session, after) then answered
                 else Flushed(Logs(known), answered, answers)
    {
      hide PayloadsOf, Flushed, P.Log, P.CursorRefused, IsBatch, P.Send, P.SendResync, Logs, Store.ValidSession;
      if sessionId.Some? {
        Fail(false);
        return;
      }
      LogsAreKnown(known);
      if session !in known {
        Fail(true);
        return;
      }
      sessionId := Some(session);
      sendCursor := after;
      var events := EventsAfter(session, sendCursor, 1, known);
      if events.Err? {
        SendResync(session, known);
        return;
      }
      var _ := Send(P.ReadyFrame);
      FlushEvents(known);
    }

    /** #handlePing, with the error handling of its caller. */
    method HandlePing()
      modifies this
      ensures Abs() == P.HandlePing(old(Abs()), answers(|old(written)|))
    {
      if sessionId.None? {
        Fail(false);
        return;
      }
      var _ := Send(P.PongFrame);
    }

    /** A command frame, up to the first await of its handler. */
    method HandleCommand(id: CommandId)
      requires service.Valid()
      modifies this, service
      ensures service.Valid()
      ensures (service.Abs(), Abs()) == P.HandleCommand(old(service.Abs()), old(Abs()), id, answers(|old(written)|))
    {
      hide Exec.Inv, Exec.Begin;
      if processing != P.Idle || sessionId.None? {
        Fail(false);
        return;
      }
      var outcome := service.Enter(sessionId.value, id);
      processing := match outcome
        case Cached(ack) => P.Answering(ack)
        case Joined(op) => P.Waiting(op)
        case Started(op) => P.Waiting(op);
    }

    /** The handler resumes with the command's acknowledgement, or with the error it failed with. */
    method FinishCommand(result: Option<Ack>)
      requires P.CanReply(service.Abs(), Abs())
      requires match processing
        case Idle => true
        case Answering(ack) => result == Some(ack)
        case Waiting(op) =>
          result == if service.ops[op].state.Succeeded? then Some(service.ops[op].state.ack) else None
      modifies this
      ensures Abs() == P.ReplyTo(service.Abs(), old(Abs()), answers(|old(written)|))
      ensures processing == P.Idle
      ensures var frame := if result.Some? then P.AckFrame(result.value.commandId) else P.ErrorFrame;
        written == old(written) + if old(closed) || old(blocked) || old(ended) then [] else [frame]
    {
      match result
      case Some(ack) =>
        var _ := Send(P.AckFrame(ack.commandId));
        processing := P.Idle;
      case None =>
        Fail(false);
        processing := P.Idle;
    }
  }

  /** Consecutive events of a log, the first one right after a cursor. */
  ghost predicate IsBatch(batch: seq<Store.Envelope>, log: seq<P.Payload>, cursor: nat, lookOf: string -> P.Look) {
    && cursor + |batch| <= |log|
    && forall k :: 0 <= k < |batch| ==>
         && batch[k].sequence == cursor + k + 1
         && log[cursor + k] == P.Payload(batch[k].content, lookOf(batch[k].content))
  }

  lemma Numbered(store: Store.EventStore, id: SessionId)
    requires store.Valid()
    ensures |store.Retained(id)| <= |store.Log(id)|
    ensures forall k :: 0 <= k < |store.Log(id)| ==> store.Log(id)[k].sequence == k + 1
    ensures store.limits.bytes > Store.MAX_EVENT_LINE_BYTES && store.Log(id) != [] ==> store.Retained(id) != []
  {
    hide Store.WithinLimits, Store.Sum, Store.Sizes;
  }

  /** What the store's answer says about the cursor, given that it never empties a history. */
  lemma AnswerMeans(store: Store.EventStore, id: SessionId, cursor: nat, limit: nat)
    requires store.Valid() && store.limits.bytes > Store.MAX_EVENT_LINE_BYTES && limit > 0
    ensures var log, retained := store.Log(id), store.Retained(id);
      && |retained| <= |log|
      && var answer := Store.AfterSpec(log, retained, cursor, limit);
      && (answer.Err? <==> cursor > |log| || cursor < |log| - |retained|)
      && (answer.Ok? ==>
          && (answer.value == [] <==> cursor == |log|)
          && cursor + |answer.value| <= |log| && answer.value == log[cursor..cursor + |answer.value|])
  {
    hide Store.ValidSession;
    Numbered(store, id);
  }

  lemma BatchIs(store: Store.EventStore, id: SessionId, cursor: nat, limit: nat, lookOf: string -> P.Look)
    requires store.Valid() && store.limits.bytes > Store.MAX_EVENT_LINE_BYTES && limit > 0
    ensures var log, retained := store.Log(id), store.Retained(id);
      && |retained| <= |log|
      && var answer := Store.AfterSpec(log, retained, cursor, limit);
      && (answer.Err? <==> cursor > |log| || cursor < |log| - |retained|)
      && (answer.Ok? ==> (answer.value == [] <==> cursor == |log|))
      && (answer.Ok? ==> IsBatch(answer.value, PayloadsOf(log, lookOf), cursor, lookOf))
  {
    hide Store.AfterSpec, Store.ValidSession;
    AnswerMeans(store, id, cursor, limit);
    Numbered(store, id);
  }

  lemma ResyncIsFlush(b: P.Bridge, c: P.Conn, writable: bool)
    requires !c.closed && !c.blocked && c.session.Some? && P.CursorRefused(b, c.session.value, c.sendCursor)
    ensures P.FlushOne(b, c, writable) == P.SendResync(b, c, c.session.value, writable)
  {
  }

  lemma EventIsFlush(b: P.Bridge, c: P.Conn, writable: bool)
    requires !c.closed && !c.blocked && c.session.Some?
    requires P.Evicted(b, c.session.value) <= c.sendCursor < |P.Log(b, c.session.value)|
    ensures P.FlushOne(b, c, writable) ==
      P.Send(c, P.EventFrame(c.sendCursor + 1, P.Log(b, c.session.value)[c.sendCursor]), writable).(sendCursor := c.sendCursor + 1)
  {
  }
}

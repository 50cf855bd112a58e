/**
 Event delivery over every run of the push protocol: the handheld applies a session's events in
 order, each at most once, and skips none except across a resync it applied.
 */
module PushDelivery {
  import opened Options
  import opened CommandRegistry
  import opened PushProtocol
  import Fake = FakeAgent
  import Exec = CommandExecutor

  // ------------------------------------------------- one frame stream ---

  /** The last event sequence in a stream, or where it started. */
  ghost function Pos(after: nat, out: seq<Frame>): nat {
    if out == [] then after else
    match out[|out| - 1]
    case EventFrame(n, _) => n
    case _ => Pos(after, out[..|out| - 1])
  }

  ghost predicate HasResync(out: seq<Frame>) {
    exists i :: 0 <= i < |out| && out[i].ResyncFrame?
  }

  /** A frame that may come next in the stream of a connection that began after a cursor. */
  ghost predicate NextFrameOk(log: seq<Payload>, after: nat, base: nat, sent: seq<Frame>, frame: Frame) {
    && !HasResync(sent)
    && match frame
       case EventFrame(n, payload) => n == Pos(after, sent) + 1 && n <= |log| && payload == log[n - 1]
       case ResyncFrame(n, _) => base <= n <= |log| && Pos(after, sent) <= n
       case _ => true
  }

  /** Consecutive events of the log, and a resync only at the very end. */
  ghost predicate StreamOk(log: seq<Payload>, after: nat, base: nat, out: seq<Frame>) {
    forall i :: 0 <= i < |out| ==> NextFrameOk(log, after, base, out[..i], out[i])
  }

  lemma StreamPush(log: seq<Payload>, after: nat, base: nat, out: seq<Frame>, frame: Frame)
    requires StreamOk(log, after, base, out) && NextFrameOk(log, after, base, out, frame)
    ensures StreamOk(log, after, base, out + [frame])
    ensures Pos(after, out + [frame]) == if frame.EventFrame? then frame.sequence else Pos(after, out)
    ensures HasResync(out + [frame]) == (HasResync(out) || frame.ResyncFrame?)
  {
    hide NextFrameOk;
    var longer := out + [frame];
    forall i | 0 <= i < |longer|
      ensures NextFrameOk(log, after, base, longer[..i], longer[i])
    {
      if i < |out| {
        assert longer[..i] == out[..i];
      } else {
        assert longer[..i] == out;
      }
    }
    assert longer[..|out|] == out;
    assert longer[|out|] == frame;
    if HasResync(out) {
      var i :| 0 <= i < |out| && out[i].ResyncFrame?;
      assert longer[i].ResyncFrame?;
    }
  }

  lemma StreamOfLongerLog(log: seq<Payload>, longer: seq<Payload>, after: nat, base: nat, out: seq<Frame>)
    requires StreamOk(log, after, base, out) && log <= longer
    ensures StreamOk(longer, after, base, out)
  {
    forall i | 0 <= i < |out|
      ensures NextFrameOk(longer, after, base, out[..i], out[i])
    {
      assert NextFrameOk(log, after, base, out[..i], out[i]);
    }
  }

  lemma {:induction false} PosBound(log: seq<Payload>, after: nat, base: nat, out: seq<Frame>)
    requires StreamOk(log, after, base, out) && after <= |log|
    ensures after <= Pos(after, out) <= |log|
  {
    if out != [] {
      var front := out[..|out| - 1];
      assert forall i :: 0 <= i < |front| ==> front[..i] == out[..i];
      assert NextFrameOk(log, after, base, out[..|out| - 1], out[|out| - 1]);
      assert StreamOk(log, after, base, front);
      PosBound(log, after, base, front);
    }
  }

  // ----------------------------------------------------- the invariant ---

  /** What the bridge knows about one of its connections. */
  ghost predicate ConnOk(b: Bridge, c: Conn) {
    var log := Log(b, c.target);
    && c.processed <= |c.inbox|
    && c.after <= c.base <= |log|
    && StreamOk(log, c.after, c.base, c.out)
    && (c.session.Some? ==> c.session.value == c.target && c.processed > 0)
    && (HasResync(c.out) ==> c.ended)
    && (c.session.None? ==> Pos(c.after, c.out) == c.after && !HasResync(c.out))
    && (c.session.Some? && !c.ended && !c.closed ==> Pos(c.after, c.out) == c.sendCursor)
    && (c.processed == 0 ==> c.session.None?)
    && (forall k :: 0 <= k < |c.inbox| && c.inbox[k].Hello? ==> k == 0)
    && (c.inbox != [] ==> c.inbox[0] == Hello(c.target, c.after))
  }

  ghost predicate LogsOk(b: Bridge) {
    forall session :: Evicted(b, session) <= |Log(b, session)|
  }

  /** The value a frame would move the event cursor to. */
  ghost function FrameValue(frame: Frame): nat {
    match frame
    case EventFrame(n, _) => n
    case ResyncFrame(n, _) => n
    case _ => 0
  }

  /** A frame the handheld may safely handle next. */
  ghost predicate FrameFits(log: seq<Payload>, eventCursor: nat, frame: Frame) {
    match frame
    case EventFrame(n, payload) => 1 <= n <= eventCursor + 1 && n <= |log| && payload == log[n - 1]
    case ResyncFrame(n, _) => eventCursor <= n <= |log|
    case _ => true
  }

  /** Where a history of applied events and resyncs leaves the cursor. */
  ghost function CursorOf(applied: seq<Applied>): nat {
    if applied == [] then 0 else
    match applied[|applied| - 1]
    case AppliedEvent(n, _) => n
    case AppliedResync(n, _) => n
  }

  /** Each applied event is the log's next one; a resync may only move forward. */
  ghost predicate AppliedOk(log: seq<Payload>, applied: seq<Applied>) {
    forall i :: 0 <= i < |applied| ==>
      match applied[i]
      case AppliedEvent(n, payload) => n == CursorOf(applied[..i]) + 1 && n <= |log| && payload == log[n - 1]
      case AppliedResync(n, _) => CursorOf(applied[..i]) <= n <= |log|
  }

  ghost predicate ViewOk(b: Bridge, h: Handheld) {
    var log := Log(b, h.view);
    && AppliedOk(log, h.applied) && CursorOf(h.applied) == h.eventCursor <= |log|
    && (h.phase != Stopped ==> h.link == h.view && h.cursor <= h.eventCursor)
    && (h.held.Some? ==> h.phase != Stopped && FrameFits(log, h.eventCursor, h.held.value))
  }

  /** How far the frames taken from the connection, and those from earlier ones, may have moved the cursor. */
  ghost function Bound(c: Conn, received: nat): nat
    requires received <= |c.out|
  {
    var pos := Pos(c.after, c.out[..received]);
    var floor := if pos < c.base then c.base else pos;
    if received > 0 && c.out[received - 1].ResyncFrame? && floor < FrameValue(c.out[received - 1])
    then FrameValue(c.out[received - 1]) else floor
  }

  ghost predicate LinkOk(b: Bridge, h: Handheld) {
    && (h.conn.Some? ==> h.conn.value < |b.conns|)
    && (h.conn.Some? <==> h.phase in {SendingHello, WaitingReady, IsReady})
    && (h.output.Some? ==> h.conn.Some?)
    && (h.phase == SendingHello ==> h.output.Some? && h.output.value.Hello? && b.conns[h.conn.value].inbox == [])
    && (h.phase == WaitingReady ==> h.output.None?)
    && (h.phase == IsReady ==> h.output.Some? ==> !h.output.value.Hello?)
    && (h.phase in {WaitingReady, IsReady} ==> b.conns[h.conn.value].inbox != [])
    && (h.conn.Some? ==>
        var c := b.conns[h.conn.value];
        && c.target == h.link && h.received <= |c.out|
        && (h.phase == SendingHello ==> h.output.value == Hello(c.target, c.after) && h.received == 0)
        && h.eventCursor <= Bound(c, h.received)
        && (h.held.Some? ==> FrameValue(h.held.value) <= Bound(c, h.received))
        && (|| Pos(c.after, c.out[..h.received]) <= h.eventCursor
            || (h.held.Some? && h.held.value.EventFrame? && h.held.value.sequence == Pos(c.after, c.out[..h.received]))))
  }

  ghost predicate Inv(w: World) {
    && LogsOk(w.bridge)
    && (forall i :: 0 <= i < |w.bridge.conns| ==> ConnOk(w.bridge, w.bridge.conns[i]))
    && ViewOk(w.bridge, w.handheld)
    && LinkOk(w.bridge, w.handheld)
  }

  lemma StartInv(capacity: nat, view: SessionId)
    ensures Inv(Start(capacity, view))
  {
  }

  // ------------------------------------------------- bridge-side steps ---

  lemma SendPlain(b: Bridge, c: Conn, frame: Frame, writable: bool)
    requires ConnOk(b, c) && !frame.EventFrame? && !frame.ResyncFrame?
    ensures ConnOk(b, Send(c, frame, writable)) && c.out <= Send(c, frame, writable).out
  {
    if !c.closed && !c.blocked && !c.ended {
      StreamPush(Log(b, c.target), c.after, c.base, c.out, frame);
    }
  }

  lemma ResyncKeepsConn(b: Bridge, c: Conn, writable: bool)
    requires ConnOk(b, c) && c.session == Some(c.target)
    ensures ConnOk(b, SendResync(b, c, c.target, writable)) && c.out <= SendResync(b, c, c.target, writable).out
  {
    var log := Log(b, c.target);
    PosBound(log, c.after, c.base, c.out);
    if !c.closed && !c.blocked && !c.ended {
      StreamPush(log, c.after, c.base, c.out, ResyncFrame(|log|, Summary(b, c.target)));
    }
  }

  lemma HelloKeepsConn(b: Bridge, c: Conn, writable: bool)
    requires ConnOk(b, c) && c.processed > 0
    ensures var d := HandleHello(b, c, c.target, c.after, writable);
      ConnOk(b, d) && c.out <= d.out
  {
    hide StreamOk, HasResync, Pos, NextFrameOk;
    if c.session.Some? || c.target !in b.logs {
      SendPlain(b, c, ErrorFrame, writable);
    } else {
      var subscribed := c.(session := Some(c.target), sendCursor := c.after);
      if CursorRefused(b, c.target, c.after) {
        ResyncKeepsConn(b, subscribed, writable);
      } else {
        SendPlain(b, subscribed, ReadyFrame, writable);
      }
    }
  }

  lemma FlushKeepsConn(b: Bridge, c: Conn, writable: bool)
    requires ConnOk(b, c)
    ensures ConnOk(b, FlushOne(b, c, writable)) && c.out <= FlushOne(b, c, writable).out
  {
    hide StreamOk;
    if !c.closed && !c.blocked && !c.ended && c.session.Some? {
      if CursorRefused(b, c.target, c.sendCursor) {
        ResyncKeepsConn(b, c, writable);
      } else if c.sendCursor != |Log(b, c.target)| {
        StreamPush(Log(b, c.target), c.after, c.base, c.out, EventFrame(c.sendCursor + 1, Log(b, c.target)[c.sendCursor]));
      }
    }
  }

  lemma TakingKeepsConn(b: Bridge, c: Conn)
    requires ConnOk(b, c) && c.processed < |c.inbox|
    ensures ConnOk(b, c.(processed := c.processed + 1))
    ensures c.inbox[c.processed].Hello? ==> c.inbox[c.processed] == Hello(c.target, c.after)
  {
    hide StreamOk, HasResync, Pos;
  }

  lemma CommandKeepsConn(b: Bridge, c: Conn, id: CommandId, writable: bool)
    requires ConnOk(b, c)
    ensures var d := HandleCommand(b.exec, c, id, writable).1;
      ConnOk(b, d) && OnlyGrows(c, d)
  {
    hide StreamOk, HasResync, Pos;
    if c.busy != Idle || c.session.None? {
      SendPlain(b, c, ErrorFrame, writable);
    }
  }

  lemma ReceiveKeepsConn(b: Bridge, i: nat, writable: bool)
    requires i < |b.conns| && ConnOk(b, b.conns[i]) && b.conns[i].processed < |b.conns[i].inbox|
    ensures var b' := ReceiveOn(b, i, writable);
      && |b'.conns| == |b.conns| && b'.logs == b.logs && b'.evicted == b.evicted
      && (forall j :: 0 <= j < |b.conns| && j != i ==> b'.conns[j] == b.conns[j])
      && ConnOk(b, b'.conns[i])
      && OnlyGrows(b.conns[i], b'.conns[i])
  {
    hide ConnOk, HandleHello, HandlePing, HandleCommand, Send;
    var c := b.conns[i].(processed := b.conns[i].processed + 1);
    TakingKeepsConn(b, b.conns[i]);
    match b.conns[i].inbox[b.conns[i].processed]
    case Hello(session, after) => HelloOnlyGrows(b, c, writable);
    case Ping => PingKeepsConn(b, c, writable);
    case Command(id, _) => CommandKeepsConn(b, c, id, writable);
  }

  lemma HelloOnlyGrows(b: Bridge, c: Conn, writable: bool)
    requires ConnOk(b, c) && c.processed > 0
    ensures var d := HandleHello(b, c, c.target, c.after, writable);
      ConnOk(b, d) && OnlyGrows(c, d)
  {
    hide ConnOk;
    HelloKeepsConn(b, c, writable);
  }

  lemma PingKeepsConn(b: Bridge, c: Conn, writable: bool)
    requires ConnOk(b, c)
    ensures ConnOk(b, HandlePing(c, writable)) && OnlyGrows(c, HandlePing(c, writable))
  {
    hide ConnOk;
    SendPlain(b, c, if c.session.None? then ErrorFrame else PongFrame, writable);
  }

  /** What no step of the bridge changes about a connection. */
  ghost predicate OnlyGrows(c: Conn, d: Conn) {
    && c.out <= d.out && c.inbox == d.inbox
    && c.target == d.target && c.after == d.after && c.base == d.base
  }

  /** The bridge touched one connection and nothing else that delivery depends on. */
  lemma BridgeStepKeepsInv(w: World, i: nat, b': Bridge)
    requires Inv(w) && i < |w.bridge.conns| == |b'.conns|
    requires b'.logs == w.bridge.logs && b'.evicted == w.bridge.evicted
    requires forall j :: 0 <= j < |b'.conns| && j != i ==> b'.conns[j] == w.bridge.conns[j]
    requires ConnOk(w.bridge, b'.conns[i]) && OnlyGrows(w.bridge.conns[i], b'.conns[i])
    ensures Inv(w.(bridge := b'))
  {
    hide StreamOk, HasResync, Pos, AppliedOk, CursorOf, FrameFits, FrameValue;
    var b, h := w.bridge, w.handheld;
    forall session
      ensures Log(b', session) == Log(b, session) && Evicted(b', session) == Evicted(b, session)
    {
    }
    forall j | 0 <= j < |b'.conns|
      ensures ConnOk(b', b'.conns[j])
    {
      assert j != i ==> ConnOk(b, b.conns[j]);
    }
    if h.conn.Some? {
      var c, d := b.conns[h.conn.value], b'.conns[h.conn.value];
      assert d.out[..h.received] == c.out[..h.received];
    }
  }

  lemma AppliedOfLongerLog(log: seq<Payload>, longer: seq<Payload>, applied: seq<Applied>)
    requires AppliedOk(log, applied) && log <= longer
    ensures AppliedOk(longer, applied)
  {
  }

  lemma LogGrowthKeepsInv(w: World, b': Bridge)
    requires Inv(w) && LogsOk(b')
    requires b'.conns == w.bridge.conns
    requires forall session :: Log(w.bridge, session) <= Log(b', session)
    ensures Inv(w.(bridge := b'))
  {
    hide StreamOk, HasResync, Pos, AppliedOk, CursorOf, Log;
    var b, h := w.bridge, w.handheld;
    forall j | 0 <= j < |b'.conns|
      ensures ConnOk(b', b'.conns[j])
    {
      var c := b.conns[j];
      assert ConnOk(b, c);
      StreamOfLongerLog(Log(b, c.target), Log(b', c.target), c.after, c.base, c.out);
    }
    AppliedOfLongerLog(Log(b, h.view), Log(b', h.view), h.applied);
  }

  lemma ReplyKeepsConn(b: Bridge, c: Conn, writable: bool)
    requires ConnOk(b, c) && CanReply(b.exec, c)
    ensures ConnOk(b, ReplyTo(b.exec, c, writable)) && OnlyGrows(c, ReplyTo(b.exec, c, writable))
  {
    var frame := match c.busy
      case Answering(ack) => AckFrame(ack.commandId)
      case Waiting(op) =>
        if b.exec.ops[op].state.Succeeded? then AckFrame(b.exec.ops[op].state.ack.commandId) else ErrorFrame;
    SendPlain(b, c, frame, writable);
  }

  // ----------------------------------------------- handheld-side steps ---

  /** Steps that change neither what was applied nor what was taken from the connection. */
  lemma QuietStepKeepsInv(w: World, h': Handheld)
    requires Inv(w)
    requires var h := w.handheld;
      && h'.view == h.view && h'.applied == h.applied && h'.eventCursor == h.eventCursor
      && h'.held == h.held && h'.conn == h.conn && h'.received == h.received
      && h'.link == h.link && h'.cursor == h.cursor && h'.phase == h.phase
      && (h'.output == h.output || (h.phase == IsReady && h'.output.Some? && !h'.output.value.Hello?))
    ensures Inv(w.(handheld := h'))
  {
  }

  lemma ConnectedKeepsInv(w: World)
    requires Inv(w) && Enabled(w, Connected)
    ensures Inv(Apply(w, Connected))
  {
    hide AppliedOk, CursorOf;
    var b, h := w.bridge, w.handheld;
    var z := Apply(w, Connected);
    var c := NewConn(h, |Log(b, h.link)|);
    forall session
      ensures Log(z.bridge, session) == Log(b, session) && Evicted(z.bridge, session) == Evicted(b, session)
    {
    }
    forall j | 0 <= j < |z.bridge.conns|
      ensures ConnOk(z.bridge, z.bridge.conns[j])
    {
      assert j < |b.conns| ==> ConnOk(b, b.conns[j]);
    }
  }

  lemma DrainKeepsInv(w: World)
    requires Inv(w) && Enabled(w, Drain)
    ensures Inv(Apply(w, Drain))
  {
    hide StreamOk, HasResync, Pos, AppliedOk, CursorOf, FrameFits, FrameValue;
    var b, h := w.bridge, w.handheld;
    var i := h.conn.value;
    var z := Apply(w, Drain);
    forall session
      ensures Log(z.bridge, session) == Log(b, session) && Evicted(z.bridge, session) == Evicted(b, session)
    {
    }
    assert ConnOk(b, b.conns[i]);
    forall j | 0 <= j < |z.bridge.conns|
      ensures ConnOk(z.bridge, z.bridge.conns[j])
    {
      assert j != i ==> ConnOk(b, b.conns[j]);
    }
    assert z.bridge.conns[i].out == b.conns[i].out;
  }

  /** The next frame of a connection, seen from a cursor that has kept up with it. */
  lemma NextFrameFits(b: Bridge, c: Conn, received: nat, eventCursor: nat)
    requires ConnOk(b, c) && received < |c.out|
    requires Pos(c.after, c.out[..received]) <= eventCursor <= Bound(c, received)
    ensures var log, frame := Log(b, c.target), c.out[received];
      && FrameFits(log, eventCursor, frame)
      && eventCursor <= Bound(c, received + 1) && FrameValue(frame) <= Bound(c, received + 1)
      && (if frame.EventFrame? then frame.sequence == Pos(c.after, c.out[..received + 1])
          else Pos(c.after, c.out[..received + 1]) <= eventCursor)
  {
    hide HasResync;
    var frame := c.out[received];
    assert NextFrameOk(Log(b, c.target), c.after, c.base, c.out[..received], frame);
    var taken := c.out[..received + 1];
    assert taken[..|taken| - 1] == c.out[..received] && taken[|taken| - 1] == frame;
    NoResyncBefore(c.out[..received]);
  }

  lemma ExtractKeepsInv(w: World)
    requires Inv(w) && Enabled(w, Extract)
    ensures Inv(Apply(w, Extract))
  {
    hide AppliedOk, CursorOf, LogsOk, Pos, Bound, FrameFits, FrameValue, ConnOk;
    var b, h := w.bridge, w.handheld;
    var c := b.conns[h.conn.value];
    assert ConnOk(b, c);
    NextFrameFits(b, c, h.received, h.eventCursor);
  }

  lemma NoResyncBefore(out: seq<Frame>)
    requires !HasResync(out)
    ensures |out| > 0 ==> !out[|out| - 1].ResyncFrame?
  {
  }

  lemma AppliedPush(log: seq<Payload>, applied: seq<Applied>, next: Applied)
    requires AppliedOk(log, applied)
    requires match next
      case AppliedEvent(n, payload) => n == CursorOf(applied) + 1 && n <= |log| && payload == log[n - 1]
      case AppliedResync(n, _) => CursorOf(applied) <= n <= |log|
    ensures AppliedOk(log, applied + [next])
    ensures CursorOf(applied + [next]) == match next case AppliedEvent(n, _) => n case AppliedResync(n, _) => n
  {
    var longer := applied + [next];
    forall i | 0 <= i < |longer|
      ensures match longer[i]
        case AppliedEvent(n, payload) => n == CursorOf(longer[..i]) + 1 && n <= |log| && payload == log[n - 1]
        case AppliedResync(n, _) => CursorOf(longer[..i]) <= n <= |log|
    {
      assert longer[..i] == if i < |applied| then applied[..i] else applied;
    }
  }

  lemma ConsumeKeepsInv(w: World)
    requires Inv(w) && Enabled(w, Consume)
    ensures Inv(Apply(w, Consume))
  {
    hide AppliedOk, CursorOf, HasResync, LogsOk, ConnOk, Pos;
    var b, h := w.bridge, w.handheld;
    match h.held.value
    case EventFrame(n, payload) =>
      if n > h.eventCursor {
        AppliedPush(Log(b, h.view), h.applied, AppliedEvent(n, payload));
      }
    case ResyncFrame(n, snapshot) => AppliedPush(Log(b, h.view), h.applied, AppliedResync(n, snapshot));
    case _ =>
  }

  lemma LinkStepKeepsInv(w: World, h': Handheld)
    requires Inv(w)
    requires var h := w.handheld;
      || (h' == DropLink(h) && h.phase != Stopped)
      || h' == StopLink(h)
      || h' == StartLink(h, h.view, h.eventCursor)
      || (h' == h.(phase := Connecting) && h.phase == Retrying)
      || (exists session :: h' == StartLink(h.(view := session, eventCursor := 0, applied := []), session, 0))
    ensures Inv(w.(handheld := h'))
  {
    hide ConnOk, LogsOk;
  }

  lemma StepKeepsInv(w: World, step: Step)
    requires Inv(w) && Enabled(w, step)
    ensures Inv(Apply(w, step))
  {
    hide Inv, ConnOk, ReceiveOn, FlushOne, ReplyTo, ConsumeFrame, ExtractFrame;
    var b, h := w.bridge, w.handheld;
    match step
    case NewSession(session) => NewSessionKeepsInv(w, session);
    case Append(session, payload, evicted) => AppendKeepsInv(w, session, payload, evicted);
    case Report(session, snapshot) => ReportKeepsInv(w, session, snapshot);
    case Receive(i, writable) => ConnStepKeepsInv(w, step);
    case Flush(i, writable) => ConnStepKeepsInv(w, step);
    case Writable(i) => ConnStepKeepsInv(w, step);
    case CloseConn(i) => ConnStepKeepsInv(w, step);
    case Reply(i, writable) => ConnStepKeepsInv(w, step);
    case Execute(x) => ExecuteKeepsInv(w, x);
    case BeginConnect => LinkStepKeepsInv(w, h.(phase := Connecting));
    case Connected => ConnectedKeepsInv(w);
    case Drain => DrainKeepsInv(w);
    case OfferCommand => QuietStepKeepsInv(w, Apply(w, step).handheld);
    case OfferPing => QuietStepKeepsInv(w, Apply(w, step).handheld);
    case Extract => ExtractKeepsInv(w);
    case Consume => ConsumeKeepsInv(w);
    case Drop => LinkStepKeepsInv(w, DropLink(h));
    case Queue(id, text) => QueueKeepsInv(w, id, text);
    case Stop => LinkStepKeepsInv(w, StopLink(h));
    case Attach(session) => LinkStepKeepsInv(w, Apply(w, step).handheld);
    case Restart => LinkStepKeepsInv(w, StartLink(h, h.view, h.eventCursor));
  }

  lemma NewSessionKeepsInv(w: World, session: SessionId)
    requires Inv(w) && Enabled(w, NewSession(session))
    ensures Inv(Apply(w, NewSession(session)))
  {
    hide ConnOk, ViewOk, LinkOk;
    var b' := Apply(w, NewSession(session)).bridge;
    forall s
      ensures Evicted(b', s) <= |Log(b', s)| && Log(w.bridge, s) <= Log(b', s)
    {
      assert Evicted(w.bridge, s) <= |Log(w.bridge, s)|;
    }
    LogGrowthKeepsInv(w, b');
  }

  lemma AppendKeepsInv(w: World, session: SessionId, payload: Payload, evicted: nat)
    requires Inv(w) && Enabled(w, Append(session, payload, evicted))
    ensures Inv(Apply(w, Append(session, payload, evicted)))
  {
    hide ConnOk, ViewOk, LinkOk;
    var b' := Apply(w, Append(session, payload, evicted)).bridge;
    forall s
      ensures Evicted(b', s) <= |Log(b', s)| && Log(w.bridge, s) <= Log(b', s)
    {
      assert Evicted(w.bridge, s) <= |Log(w.bridge, s)|;
    }
    LogGrowthKeepsInv(w, b');
  }

  lemma ReportKeepsInv(w: World, session: SessionId, snapshot: Fake.Snapshot)
    requires Inv(w) && Enabled(w, Report(session, snapshot))
    ensures Inv(Apply(w, Report(session, snapshot)))
  {
    hide ConnOk, ViewOk, LinkOk;
    var b' := Apply(w, Report(session, snapshot)).bridge;
    forall s
      ensures Evicted(b', s) <= |Log(b', s)| && Log(w.bridge, s) <= Log(b', s)
    {
      assert Evicted(w.bridge, s) <= |Log(w.bridge, s)|;
    }
    LogGrowthKeepsInv(w, b');
  }

  lemma ExecuteKeepsInv(w: World, x: Exec.Step)
    requires Inv(w) && Enabled(w, Execute(x))
    ensures Inv(Apply(w, Execute(x)))
  {
    hide ConnOk, ViewOk, LinkOk, Exec.Apply;
    var b' := Apply(w, Execute(x)).bridge;
    forall s
      ensures Evicted(b', s) <= |Log(b', s)| && Log(w.bridge, s) <= Log(b', s)
    {
      assert Evicted(w.bridge, s) <= |Log(w.bridge, s)|;
    }
    LogGrowthKeepsInv(w, b');
    assert w.(bridge := b') == Apply(w, Execute(x));
  }

  lemma QueueKeepsInv(w: World, id: CommandId, text: string)
    requires Inv(w) && Enabled(w, Queue(id, text))
    ensures Inv(Apply(w, Queue(id, text)))
  {
    QuietStepKeepsInv(w, Apply(w, Queue(id, text)).handheld);
  }

  lemma ConnStepKeepsInv(w: World, step: Step)
    requires Inv(w) && Enabled(w, step)
    requires step.Receive? || step.Flush? || step.Writable? || step.CloseConn? || step.Reply?
    ensures Inv(Apply(w, step))
  {
    hide ViewOk, LinkOk, LogsOk, StreamOk, Pos, HasResync, ReceiveOn, FlushOne, ReplyTo;
    var b := w.bridge;
    var i := step.conn;
    var b' := Apply(w, step).bridge;
    assert ConnOk(b, b.conns[i]);
    match step {
      case Receive(_, writable) => ReceiveKeepsConn(b, i, writable);
      case Flush(_, writable) =>
        FlushKeepsConn(b, b.conns[i], writable);
        FlushKeepsIdentity(b, b.conns[i], writable);
      case Reply(_, writable) => ReplyKeepsConn(b, b.conns[i], writable);
      case _ =>
    }
    BridgeStepKeepsInv(w, i, b');
  }

  lemma FlushKeepsIdentity(b: Bridge, c: Conn, writable: bool)
    requires c.out <= FlushOne(b, c, writable).out
    ensures OnlyGrows(c, FlushOne(b, c, writable))
  {
  }

  // ------------------------------------------------------------ all runs ---

  lemma {:induction false} RunKeepsInv(w: World, steps: seq<Step>, z: World)
    requires Inv(w) && Reaches(w, steps, z)
    ensures Inv(z)
    decreases |steps|
  {
    hide Inv, Apply, Enabled;
    if steps != [] {
      StepKeepsInv(w, steps[0]);
      RunKeepsInv(Apply(w, steps[0]), steps[1..], z);
    }
  }

  lemma ReachableInv(capacity: nat, view: SessionId, z: World)
    requires Reachable(capacity, view, z)
    ensures Inv(z)
  {
    hide Inv, Apply, Enabled, Reaches, Start;
    var steps :| Reaches(Start(capacity, view), steps, z);
    StartInv(capacity, view);
    RunKeepsInv(Start(capacity, view), steps, z);
  }

  /** The sequence number that an entry of the history moved the cursor to. */
  ghost function SequenceOf(entry: Applied): nat {
    match entry
    case AppliedEvent(n, _) => n
    case AppliedResync(n, _) => n
  }

  /** Entries i to j - 1 of the history are all events. */
  ghost predicate AllEvents(applied: seq<Applied>, i: nat, j: nat) {
    forall k :: i <= k < j && k < |applied| ==> applied[k].AppliedEvent?
  }

  ghost function Payloads(applied: seq<Applied>): (payloads: seq<Payload>)
    requires AllEvents(applied, 0, |applied|)
    ensures |payloads| == |applied|
  {
    seq(|applied|, k requires 0 <= k < |applied| => applied[k].payload)
  }

  lemma {:induction false} HistoryAscends(log: seq<Payload>, applied: seq<Applied>, i: nat, j: nat)
    requires AppliedOk(log, applied) && i < j < |applied|
    ensures SequenceOf(applied[i]) <= SequenceOf(applied[j])
    ensures applied[j].AppliedEvent? ==> SequenceOf(applied[i]) < SequenceOf(applied[j])
    decreases j
  {
    assert applied[..j][|applied[..j]| - 1] == applied[j - 1];
    assert CursorOf(applied[..j]) == SequenceOf(applied[j - 1]);
    if i < j - 1 {
      HistoryAscends(log, applied, i, j - 1);
    }
  }

  /** In every run, no event is applied twice and none after a later one. */
  lemma EachEventAtMostOnceInOrder(capacity: nat, view: SessionId, z: World, i: nat, j: nat)
    requires Reachable(capacity, view, z) && i < j < |z.handheld.applied|
    requires z.handheld.applied[j].AppliedEvent?
    ensures SequenceOf(z.handheld.applied[i]) < SequenceOf(z.handheld.applied[j])
  {
    ReachableInv(capacity, view, z);
    HistoryAscends(Log(z.bridge, z.handheld.view), z.handheld.applied, i, j);
  }

  lemma {:induction false} StretchIsLogSlice(log: seq<Payload>, applied: seq<Applied>, i: nat, j: nat)
    requires AppliedOk(log, applied) && i <= j <= |applied| && AllEvents(applied, i, j)
    ensures var start := CursorOf(applied[..i]);
      && CursorOf(applied[..j]) == start + (j - i) <= |log|
      && Payloads(applied[i..j]) == log[start..start + (j - i)]
    decreases j
  {
    if i == j {
      CursorWithinLog(log, applied, i);
    } else {
      hide Payloads, CursorOf, AppliedOk;
      StretchIsLogSlice(log, applied, i, j - 1);
      NextEvent(log, applied, j);
      StretchGrows(log, applied, i, j, CursorOf(applied[..i]));
    }
  }

  lemma StretchGrows(log: seq<Payload>, applied: seq<Applied>, i: nat, j: nat, start: nat)
    requires i < j <= |applied| && AllEvents(applied, i, j) && start + (j - i) <= |log|
    requires Payloads(applied[i..j - 1]) == log[start..start + (j - 1 - i)]
    requires applied[j - 1].payload == log[start + (j - 1 - i)]
    ensures Payloads(applied[i..j]) == log[start..start + (j - i)]
  {
    hide Payloads;
    assert applied[i..j] == applied[i..j - 1] + [applied[j - 1]];
    PayloadsPush(applied[i..j - 1], applied[j - 1]);
  }

  lemma NextEvent(log: seq<Payload>, applied: seq<Applied>, j: nat)
    requires AppliedOk(log, applied) && 0 < j <= |applied| && applied[j - 1].AppliedEvent?
    ensures var before := CursorOf(applied[..j - 1]);
      CursorOf(applied[..j]) == before + 1 <= |log| && applied[j - 1].payload == log[before]
  {
    assert applied[..j][|applied[..j]| - 1] == applied[j - 1];
  }

  lemma PayloadsPush(applied: seq<Applied>, entry: Applied)
    requires AllEvents(applied, 0, |applied|) && entry.AppliedEvent?
    ensures AllEvents(applied + [entry], 0, |applied| + 1)
    ensures Payloads(applied + [entry]) == Payloads(applied) + [entry.payload]
  {
  }

  lemma CursorWithinLog(log: seq<Payload>, applied: seq<Applied>, i: nat)
    requires AppliedOk(log, applied) && i <= |applied|
    ensures CursorOf(applied[..i]) <= |log|
  {
    if i > 0 {
      assert applied[..i][|applied[..i]| - 1] == applied[i - 1];
    }
  }

  /**
   In every run, a stretch of the history without a resync is a contiguous slice of the log of the
   session on screen: nothing skipped, nothing altered, nothing from another session.
   */
  lemma NoGapExceptAcrossResync(capacity: nat, view: SessionId, z: World, i: nat, j: nat)
    requires Reachable(capacity, view, z)
    requires i <= j <= |z.handheld.applied| && AllEvents(z.handheld.applied, i, j)
    ensures var log, applied := Log(z.bridge, z.handheld.view), z.handheld.applied;
      var start := CursorOf(applied[..i]);
      start + (j - i) <= |log| && Payloads(applied[i..j]) == log[start..start + (j - i)]
  {
    ReachableInv(capacity, view, z);
    StretchIsLogSlice(Log(z.bridge, z.handheld.view), z.handheld.applied, i, j);
  }

  /** In every run without a resync, what has been applied is exactly the log up to the cursor. */
  lemma WithoutResyncHistoryIsLogPrefix(capacity: nat, view: SessionId, z: World)
    requires Reachable(capacity, view, z)
    requires AllEvents(z.handheld.applied, 0, |z.handheld.applied|)
    ensures z.handheld.eventCursor == |z.handheld.applied| <= |Log(z.bridge, z.handheld.view)|
    ensures Payloads(z.handheld.applied) == Log(z.bridge, z.handheld.view)[..z.handheld.eventCursor]
  {
    ReachableInv(capacity, view, z);
    var applied := z.handheld.applied;
    StretchIsLogSlice(Log(z.bridge, z.handheld.view), applied, 0, |applied|);
    assert applied[..0] == [] && applied[..|applied|] == applied && applied[0..|applied|] == applied;
  }

  /** In every run, the connection frames are read from is one whose hello named the session on screen. */
  lemma FramesComeFromTheHelloSession(capacity: nat, view: SessionId, z: World)
    requires Reachable(capacity, view, z)
    requires z.handheld.conn.Some? && z.handheld.received > 0
    ensures z.handheld.conn.value < |z.bridge.conns|
    ensures var c := z.bridge.conns[z.handheld.conn.value];
      && c.inbox != [] && c.inbox[0].Hello? && c.inbox[0].session == z.handheld.view
      && (c.session.Some? ==> c.session.value == z.handheld.view)
  {
    ReachableInv(capacity, view, z);
    assert ConnOk(z.bridge, z.bridge.conns[z.handheld.conn.value]);
  }

  /** In every run, a link that has nothing in transit and nothing left to flush is up to date. */
  lemma QuietLinkIsCaughtUp(capacity: nat, view: SessionId, z: World)
    requires Reachable(capacity, view, z)
    requires z.handheld.conn.Some? && z.handheld.held.None? && z.handheld.conn.value < |z.bridge.conns|
    requires var c := z.bridge.conns[z.handheld.conn.value];
      && c.session.Some? && !c.ended && !c.closed && !c.blocked
      && z.handheld.received == |c.out|
      && FlushOne(z.bridge, c, true) == c
    ensures z.handheld.eventCursor == |Log(z.bridge, z.handheld.view)|
  {
    hide AppliedOk, StreamOk;
    ReachableInv(capacity, view, z);
    var c := z.bridge.conns[z.handheld.conn.value];
    assert ConnOk(z.bridge, c);
    assert c.out[..|c.out|] == c.out;
    assert c.sendCursor == |Log(z.bridge, c.target)|;
  }
}

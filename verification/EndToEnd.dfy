/**
 From the agent's operations to the handheld's screen: the agents, the bridge with its connections,
 the network and the handheld as one machine. In every run, with whatever connections dropped and
 histories evicted, the screen shows the session as of the handheld's cursor.

 The bridge's event handlers run to completion. An agent's operation appends its events one by one,
 each append flushes the connections subscribed to the session, and what the agent reports of itself
 in the midst of an operation is anything at all.
 */
module EndToEnd {
  import opened Options
  import opened PushProtocol
  import opened FakeAgent
  import PushDelivery
  import PushServer

  type Meaning = Payload -> Event

  /** The agent's events that a log's payloads stand for. */
  ghost function Events(log: seq<Payload>, meaning: Meaning): (events: seq<Event>)
    ensures |events| == |log|
  {
    seq(|log|, i requires 0 <= i < |log| => meaning(log[i]))
  }

  /** The screen after everything the handheld applied. */
  ghost function ScreenOf(applied: seq<Applied>, meaning: Meaning): Screen {
    if applied == [] then ATTACHED else
    var before := ScreenOf(applied[..|applied| - 1], meaning);
    match applied[|applied| - 1]
    case AppliedEvent(_, payload) => Shown(before, meaning(payload))
    case AppliedResync(_, snapshot) => Resynced(before, snapshot)
  }

  // --------------------------------------------------------------- the machine ---

  datatype System = System(world: World, agents: map<SessionId, Agent>)

  /**
   One event of an operation: how it is written, how much history it evicts, what the agent would have
   reported of itself by then, and how each connection's socket takes the frames it is sent.
   */
  datatype Part = Part(payload: Payload, evicted: nat, midway: Snapshot, answers: nat -> nat -> bool)

  datatype Move =
    | Create(session: SessionId, parts: seq<Part>)
    | Operate(session: SessionId, op: Operation, parts: seq<Part>)
    | Take(conn: nat, answers: nat -> bool)
    | Unblock(conn: nat, answers: nat -> bool)
    | Other(step: Step)

  ghost function Reported(b: Bridge, session: SessionId, snapshot: Snapshot): Bridge {
    b.(summaries := b.summaries[session := snapshot])
  }

  /** The store's listeners, from the k-th connection on: each flushes as far as it goes. */
  ghost function FlushFrom(b: Bridge, k: nat, session: SessionId, answers: nat -> nat -> bool): (r: Bridge)
    requires k <= |b.conns|
    ensures |r.conns| == |b.conns|
    decreases |b.conns| - k
  {
    if k == |b.conns| then b
    else
      var c := b.conns[k];
      FlushFrom(if c.session == Some(session) then SetConn(b, k, PushServer.Flushed(b, c, answers(k))) else b, k + 1, session, answers)
  }

  ghost function Emit(b: Bridge, session: SessionId, part: Part): Bridge {
    FlushFrom(AppendTo(Reported(b, session, part.midway), session, part.payload, part.evicted), 0, session, part.answers)
  }

  ghost function EmitAll(b: Bridge, session: SessionId, parts: seq<Part>): Bridge
    decreases |parts|
  {
    if parts == [] then b else EmitAll(Emit(b, session, parts[0]), session, parts[1..])
  }

  /** Evictions go forward and keep the newest event. */
  ghost predicate CanEmit(b: Bridge, session: SessionId, parts: seq<Part>)
    decreases |parts|
  {
    parts != [] ==>
      && Evicted(b, session) <= parts[0].evicted <= |Log(b, session)|
      && CanEmit(Emit(b, session, parts[0]), session, parts[1..])
  }

  /** These parts write these events. */
  ghost predicate Write(parts: seq<Part>, events: seq<Event>, meaning: Meaning) {
    && |parts| == |events|
    && forall i :: 0 <= i < |parts| ==> meaning(parts[i].payload) == events[i]
  }

  /** A hello that is answered with ready is followed by a flush. */
  ghost function TakeOn(b: Bridge, i: nat, answers: nat -> bool): Bridge
    requires i < |b.conns| && b.conns[i].processed < |b.conns[i].inbox|
  {
    var b' := ReceiveOn(b, i, answers(|b.conns[i].out|));
    var c, d := b.conns[i], b'.conns[i];
    if c.session.None? && d.session.Some? && !d.ended then SetConn(b', i, PushServer.Flushed(b', d, answers)) else b'
  }

  ghost function UnblockOn(b: Bridge, i: nat, answers: nat -> bool): Bridge
    requires i < |b.conns|
  {
    var c := b.conns[i];
    if c.closed then b else SetConn(b, i, PushServer.Flushed(b, c.(blocked := false), answers))
  }

  ghost function WithSession(b: Bridge, session: SessionId): Bridge {
    b.(logs := b.logs[session := []], evicted := b.evicted[session := 0])
  }

  ghost predicate Allowed(x: System, move: Move, meaning: Meaning) {
    var b := x.world.bridge;
    match move
    case Create(session, parts) =>
      && session !in b.logs && Write(parts, Created().events, meaning)
      && CanEmit(WithSession(b, session), session, parts)
    case Operate(session, op, parts) =>
      && session in x.agents && Write(parts, Appended(x.agents[session], op), meaning)
      && CanEmit(b, session, parts)
    case Take(i, _) => i < |b.conns| && !b.conns[i].closed && b.conns[i].processed < |b.conns[i].inbox|
    case Unblock(i, _) => i < |b.conns|
    case Other(step) =>
      && Enabled(x.world, step)
      && !step.NewSession? && !step.Append? && !step.Report? && !step.Receive? && !step.Flush? && !step.Writable?
  }

  ghost function Perform(x: System, move: Move, meaning: Meaning): System
    requires Allowed(x, move, meaning)
  {
    var b := x.world.bridge;
    match move
    case Create(session, parts) =>
      var b' := EmitAll(WithSession(b, session), session, parts);
      System(x.world.(bridge := Reported(b', session, SessionOf(Created()))), x.agents[session := Created()])
    case Operate(session, op, parts) =>
      var after := Operated(x.agents[session], op);
      var b' := EmitAll(b, session, parts);
      System(x.world.(bridge := Reported(b', session, SessionOf(after))), x.agents[session := after])
    case Take(i, answers) => x.(world := x.world.(bridge := TakeOn(b, i, answers)))
    case Unblock(i, answers) => x.(world := x.world.(bridge := UnblockOn(b, i, answers)))
    case Other(step) => x.(world := Apply(x.world, step))
  }

  ghost predicate Leads(x: System, moves: seq<Move>, meaning: Meaning, z: System)
    decreases |moves|
  {
    if moves == [] then x == z
    else Allowed(x, moves[0], meaning) && Leads(Perform(x, moves[0], meaning), moves[1..], meaning, z)
  }

  /** A system that some run leads to from the start. */
  ghost predicate Possible(capacity: nat, view: SessionId, meaning: Meaning, z: System) {
    exists moves :: Leads(System(Start(capacity, view), map[]), moves, meaning, z)
  }

  // ------------------------------------------------- its runs are protocol runs ---

  ghost predicate RunsTo(w: World, z: World) {
    exists steps :: Reaches(w, steps, z)
  }

  lemma StaysPut(w: World)
    ensures RunsTo(w, w)
  {
    assert Reaches(w, [], w);
  }

  lemma OneStep(w: World, step: Step)
    requires Enabled(w, step)
    ensures RunsTo(w, Apply(w, step))
  {
    hide Enabled, Apply;
    var z := Apply(w, step);
    assert [step][1..] == [] && Reaches(z, [], z);
    assert Reaches(w, [step], z);
  }

  lemma OneRun(w: World, m: World, z: World)
    requires RunsTo(w, m) && RunsTo(m, z)
    ensures RunsTo(w, z)
  {
    hide Reaches;
    var first :| Reaches(w, first, m);
    var second :| Reaches(m, second, z);
    ReachesOn(w, first, m, second, z);
  }

  lemma FlushRuns(w: World, i: nat, answers: nat -> bool)
    requires i < |w.bridge.conns|
    ensures RunsTo(w, w.(bridge := SetConn(w.bridge, i, PushServer.Flushed(w.bridge, w.bridge.conns[i], answers))))
  {
    hide Reaches, PushServer.Flushed, PushServer.FlushSteps;
    PushServer.FlushIsARun(w, i, answers);
  }

  lemma {:induction false} FlushFromRuns(w: World, k: nat, session: SessionId, answers: nat -> nat -> bool)
    requires k <= |w.bridge.conns|
    ensures RunsTo(w, w.(bridge := FlushFrom(w.bridge, k, session, answers)))
    decreases |w.bridge.conns| - k
  {
    hide RunsTo, PushServer.Flushed;
    var b := w.bridge;
    if k == |b.conns| {
      StaysPut(w);
    } else {
      var c := b.conns[k];
      if c.session == Some(session) {
        FlushRuns(w, k, answers(k));
        var m := w.(bridge := SetConn(b, k, PushServer.Flushed(b, c, answers(k))));
        FlushFromRuns(m, k + 1, session, answers);
        OneRun(w, m, w.(bridge := FlushFrom(b, k, session, answers)));
      } else {
        FlushFromRuns(w, k + 1, session, answers);
      }
    }
  }

  lemma EmitRuns(w: World, session: SessionId, part: Part)
    requires session in w.bridge.logs && Evicted(w.bridge, session) <= part.evicted <= |Log(w.bridge, session)|
    ensures RunsTo(w, w.(bridge := Emit(w.bridge, session, part)))
  {
    hide RunsTo, FlushFrom;
    var reported := Apply(w, Report(session, part.midway));
    OneStep(w, Report(session, part.midway));
    var appended := Apply(reported, Append(session, part.payload, part.evicted));
    OneStep(reported, Append(session, part.payload, part.evicted));
    OneRun(w, reported, appended);
    FlushFromRuns(appended, 0, session, part.answers);
    OneRun(w, appended, w.(bridge := Emit(w.bridge, session, part)));
  }

  lemma {:induction false} FlushFromFrame(b: Bridge, k: nat, session: SessionId, answers: nat -> nat -> bool)
    requires k <= |b.conns|
    ensures var r := FlushFrom(b, k, session, answers);
      r == b.(conns := r.conns) && r.conns[..k] == b.conns[..k]
    decreases |b.conns| - k
  {
    hide PushServer.Flushed;
    if k < |b.conns| {
      var c := b.conns[k];
      var next := if c.session == Some(session) then SetConn(b, k, PushServer.Flushed(b, c, answers(k))) else b;
      FlushFromFrame(next, k + 1, session, answers);
      var r := FlushFrom(next, k + 1, session, answers);
      assert r.conns[..k] == r.conns[..k + 1][..k] && next.conns[..k] == next.conns[..k + 1][..k];
    }
  }

  /** An emission adds its event to its session's log, and to no other. */
  lemma EmitFrame(b: Bridge, session: SessionId, part: Part)
    ensures var r := Emit(b, session, part);
      && r.logs == b.logs[session := Log(b, session) + [part.payload]]
      && r.evicted == b.evicted[session := part.evicted]
      && r.summaries == b.summaries[session := part.midway]
      && |r.conns| == |b.conns|
  {
    hide FlushFrom;
    FlushFromFrame(AppendTo(Reported(b, session, part.midway), session, part.payload, part.evicted), 0, session, part.answers);
  }

  lemma {:induction false} EmitAllRuns(w: World, session: SessionId, parts: seq<Part>)
    requires session in w.bridge.logs && CanEmit(w.bridge, session, parts)
    ensures RunsTo(w, w.(bridge := EmitAll(w.bridge, session, parts)))
    ensures session in EmitAll(w.bridge, session, parts).logs
    decreases |parts|
  {
    hide RunsTo, Emit;
    if parts == [] {
      StaysPut(w);
    } else {
      var m := w.(bridge := Emit(w.bridge, session, parts[0]));
      EmitRuns(w, session, parts[0]);
      EmitFrame(w.bridge, session, parts[0]);
      EmitAllRuns(m, session, parts[1..]);
      OneRun(w, m, w.(bridge := EmitAll(w.bridge, session, parts)));
    }
  }

  lemma OperationRuns(w: World, session: SessionId, parts: seq<Part>, snapshot: Snapshot)
    requires session in w.bridge.logs && CanEmit(w.bridge, session, parts)
    ensures RunsTo(w, w.(bridge := Reported(EmitAll(w.bridge, session, parts), session, snapshot)))
  {
    hide RunsTo, EmitAll, CanEmit;
    EmitAllRuns(w, session, parts);
    var m := w.(bridge := EmitAll(w.bridge, session, parts));
    OneStep(m, Report(session, snapshot));
    OneRun(w, m, Apply(m, Report(session, snapshot)));
  }

  lemma TakeRuns(w: World, i: nat, answers: nat -> bool)
    requires i < |w.bridge.conns| && !w.bridge.conns[i].closed && w.bridge.conns[i].processed < |w.bridge.conns[i].inbox|
    ensures RunsTo(w, w.(bridge := TakeOn(w.bridge, i, answers)))
  {
    hide RunsTo, ReceiveOn, PushServer.Flushed;
    var step := Receive(i, answers(|w.bridge.conns[i].out|));
    OneStep(w, step);
    var m := Apply(w, step);
    TakenConns(w.bridge, i, answers(|w.bridge.conns[i].out|));
    FlushRuns(m, i, answers);
    OneRun(w, m, m.(bridge := SetConn(m.bridge, i, PushServer.Flushed(m.bridge, m.bridge.conns[i], answers))));
  }

  lemma TakenConns(b: Bridge, i: nat, writable: bool)
    requires i < |b.conns| && b.conns[i].processed < |b.conns[i].inbox|
    ensures |ReceiveOn(b, i, writable).conns| == |b.conns|
  {
  }

  lemma UnblockRuns(w: World, i: nat, answers: nat -> bool)
    requires i < |w.bridge.conns|
    ensures RunsTo(w, w.(bridge := UnblockOn(w.bridge, i, answers)))
  {
    hide RunsTo, PushServer.Flushed;
    var b := w.bridge;
    var c := b.conns[i].(blocked := false);
    if b.conns[i].closed {
      StaysPut(w);
    } else {
      var m := Apply(w, Writable(i));
      OneStep(w, Writable(i));
      FlushRuns(m, i, answers);
      PushServer.LogsAlone(m.bridge, b, i, c, answers);
      assert m.bridge.conns[i := PushServer.Flushed(b, c, answers)] == b.conns[i := PushServer.Flushed(b, c, answers)];
      OneRun(w, m, m.(bridge := SetConn(m.bridge, i, PushServer.Flushed(m.bridge, c, answers))));
    }
  }

  lemma MoveRuns(x: System, move: Move, meaning: Meaning)
    requires Allowed(x, move, meaning) && x.agents.Keys <= x.world.bridge.logs.Keys
    ensures RunsTo(x.world, Perform(x, move, meaning).world)
  {
    hide RunsTo, EmitAll, CanEmit, TakeOn, UnblockOn, Write, Operated, Appended, Apply, Enabled;
    match move
    case Create(session, parts) => CreationRuns(x.world, session, parts);
    case Operate(session, op, parts) => OperationRuns(x.world, session, parts, SessionOf(Operated(x.agents[session], op)));
    case Take(i, answers) => TakeRuns(x.world, i, answers);
    case Unblock(i, answers) => UnblockRuns(x.world, i, answers);
    case Other(step) => OneStep(x.world, step);
  }

  lemma CreationRuns(w: World, session: SessionId, parts: seq<Part>)
    requires session !in w.bridge.logs && CanEmit(WithSession(w.bridge, session), session, parts)
    ensures RunsTo(w, w.(bridge := Reported(EmitAll(WithSession(w.bridge, session), session, parts), session, SessionOf(Created()))))
  {
    hide RunsTo, EmitAll, CanEmit;
    OneStep(w, NewSession(session));
    var m := Apply(w, NewSession(session));
    assert m.bridge == WithSession(w.bridge, session);
    OperationRuns(m, session, parts, SessionOf(Created()));
    OneRun(w, m, m.(bridge := Reported(EmitAll(m.bridge, session, parts), session, SessionOf(Created()))));
  }

  // -------------------------------------------------- what every move keeps ---

  /** The snapshot is what a screen shows that has seen the first n events. */
  ghost predicate SnapshotTrue(log: seq<Payload>, meaning: Meaning, n: nat, snapshot: Snapshot) {
    n <= |log| && ShownAll(ATTACHED, Events(log, meaning)[..n]) == Resynced(ATTACHED, snapshot)
  }

  ghost predicate ResyncsTrue(log: seq<Payload>, meaning: Meaning, out: seq<Frame>) {
    forall i :: 0 <= i < |out| && out[i].ResyncFrame? ==> SnapshotTrue(log, meaning, out[i].lastSequence, out[i].snapshot)
  }

  ghost predicate AppliedTrue(log: seq<Payload>, meaning: Meaning, applied: seq<Applied>) {
    forall i :: 0 <= i < |applied| && applied[i].AppliedResync? ==>
      SnapshotTrue(log, meaning, applied[i].lastSequence, applied[i].snapshot)
  }

  /** Between two events that the bridge handles, an open connection has nothing left to flush. */
  ghost predicate SettledConn(b: Bridge, c: Conn) {
    c.session.Some? ==>
      && c.session.value in b.logs
      && (!c.closed && !c.blocked && !c.ended ==> c.sendCursor == |Log(b, c.session.value)|)
  }

  ghost predicate ConnTrue(b: Bridge, meaning: Meaning, c: Conn) {
    && SettledConn(b, c) && ResyncsTrue(Log(b, c.target), meaning, c.out)
    && (c.session.Some? ==> c.session.value == c.target)
  }

  ghost predicate ConnsTrue(b: Bridge, meaning: Meaning) {
    forall i :: 0 <= i < |b.conns| ==> ConnTrue(b, meaning, b.conns[i])
  }

  /** An agent's events are its session's log, and the bridge reports the agent as it is. */
  ghost predicate AgentTrue(b: Bridge, meaning: Meaning, session: SessionId, agent: Agent) {
    && session in b.logs && Events(Log(b, session), meaning) == agent.events
    && AgentOk(agent) && Summary(b, session) == SessionOf(agent)
  }

  ghost predicate AgentsTrue(x: System, meaning: Meaning) {
    && x.agents.Keys == x.world.bridge.logs.Keys
    && forall session :: session in x.agents ==> AgentTrue(x.world.bridge, meaning, session, x.agents[session])
  }

  ghost predicate HandheldTrue(b: Bridge, meaning: Meaning, h: Handheld) {
    && AppliedTrue(Log(b, h.view), meaning, h.applied)
    && (h.held.Some? && h.held.value.ResyncFrame? ==>
          SnapshotTrue(Log(b, h.view), meaning, h.held.value.lastSequence, h.held.value.snapshot))
  }

  ghost predicate Inv(x: System, meaning: Meaning) {
    && PushDelivery.Inv(x.world) && ConnsTrue(x.world.bridge, meaning) && AgentsTrue(x, meaning)
    && HandheldTrue(x.world.bridge, meaning, x.world.handheld)
  }

  lemma SnapshotStays(log: seq<Payload>, longer: seq<Payload>, meaning: Meaning, n: nat, snapshot: Snapshot)
    requires SnapshotTrue(log, meaning, n, snapshot) && log <= longer
    ensures SnapshotTrue(longer, meaning, n, snapshot)
  {
    hide ShownAll;
    assert Events(longer, meaning)[..n] == Events(log, meaning)[..n];
  }

  lemma ResyncsStay(log: seq<Payload>, longer: seq<Payload>, meaning: Meaning, out: seq<Frame>)
    requires ResyncsTrue(log, meaning, out) && log <= longer
    ensures ResyncsTrue(longer, meaning, out)
  {
    hide SnapshotTrue;
    forall i | 0 <= i < |out| && out[i].ResyncFrame?
      ensures SnapshotTrue(longer, meaning, out[i].lastSequence, out[i].snapshot)
    {
      SnapshotStays(log, longer, meaning, out[i].lastSequence, out[i].snapshot);
    }
  }

  lemma ResyncsPush(log: seq<Payload>, meaning: Meaning, out: seq<Frame>, frame: Frame)
    requires ResyncsTrue(log, meaning, out)
    requires frame.ResyncFrame? ==> SnapshotTrue(log, meaning, frame.lastSequence, frame.snapshot)
    ensures ResyncsTrue(log, meaning, out + [frame])
  {
    hide SnapshotTrue;
  }

  lemma HandheldStays(b: Bridge, b': Bridge, meaning: Meaning, h: Handheld)
    requires HandheldTrue(b, meaning, h) && Log(b, h.view) <= Log(b', h.view)
    ensures HandheldTrue(b', meaning, h)
  {
    hide SnapshotTrue;
    var log, longer := Log(b, h.view), Log(b', h.view);
    forall i | 0 <= i < |h.applied| && h.applied[i].AppliedResync?
      ensures SnapshotTrue(longer, meaning, h.applied[i].lastSequence, h.applied[i].snapshot)
    {
      SnapshotStays(log, longer, meaning, h.applied[i].lastSequence, h.applied[i].snapshot);
    }
    if h.held.Some? && h.held.value.ResyncFrame? {
      SnapshotStays(log, longer, meaning, h.held.value.lastSequence, h.held.value.snapshot);
    }
  }

  // ---------------------------------------------------------- an emission ---

  /**
   What the flush after an append does to a connection that had nothing left to flush: the event if the
   connection is open, and nothing, a resync least of all, if it is not.
   */
  lemma AppendFlushed(b: Bridge, c: Conn, meaning: Meaning, answers: nat -> bool)
    requires c.session.Some? && c.session.value == c.target && c.target in b.logs && Log(b, c.target) != []
    requires Evicted(b, c.target) < |Log(b, c.target)| && ResyncsTrue(Log(b, c.target), meaning, c.out)
    requires !c.closed && !c.blocked && !c.ended ==> c.sendCursor == |Log(b, c.target)| - 1
    ensures ConnTrue(b, meaning, PushServer.Flushed(b, c, answers))
  {
    hide SnapshotTrue, ResyncsTrue, PushServer.Flushed;
    FlushedOnce(b, c, answers);
    var d := FlushOne(b, c, answers(|c.out|));
    if !c.closed && !c.blocked && !c.ended {
      ResyncsPush(Log(b, c.target), meaning, c.out, d.out[|c.out|]);
    }
  }

  lemma FlushedOnce(b: Bridge, c: Conn, answers: nat -> bool)
    requires c.session.Some? && Log(b, c.session.value) != [] && Evicted(b, c.session.value) < |Log(b, c.session.value)|
    requires !c.closed && !c.blocked && !c.ended ==> c.sendCursor == |Log(b, c.session.value)| - 1
    ensures PushServer.Flushed(b, c, answers) == FlushOne(b, c, answers(|c.out|))
  {
    hide CursorRefused;
    RefusedStays(b, c);
    if !c.closed && !c.blocked && !CursorRefused(b, c.session.value, c.sendCursor) && c.sendCursor != |Log(b, c.session.value)| {
      FlushedTwice(b, FlushOne(b, c, answers(|c.out|)), answers);
    }
  }

  lemma RefusedStays(b: Bridge, c: Conn)
    requires c.session.Some? && Log(b, c.session.value) != [] && Evicted(b, c.session.value) < |Log(b, c.session.value)|
    ensures c.sendCursor == |Log(b, c.session.value)| - 1 ==> !CursorRefused(b, c.session.value, c.sendCursor)
    ensures !CursorRefused(b, c.session.value, |Log(b, c.session.value)|)
  {
  }

  lemma FlushedTwice(b: Bridge, d: Conn, answers: nat -> bool)
    requires d.closed || d.blocked || d.session.None?
          || (d.sendCursor == |Log(b, d.session.value)| && !CursorRefused(b, d.session.value, d.sendCursor))
    ensures PushServer.Flushed(b, d, answers) == d
  {
  }

  /** A connection subscribed to a session whose log has just grown by one event. */
  ghost predicate Behind(b: Bridge, meaning: Meaning, c: Conn) {
    && c.session == Some(c.target) && c.target in b.logs && ResyncsTrue(Log(b, c.target), meaning, c.out)
    && (!c.closed && !c.blocked && !c.ended ==> c.sendCursor == |Log(b, c.target)| - 1)
  }

  ghost predicate MayBeBehind(b: Bridge, meaning: Meaning, session: SessionId, c: Conn) {
    if c.session == Some(session) then Behind(b, meaning, c) else ConnTrue(b, meaning, c)
  }

  lemma SameLogs(b: Bridge, b': Bridge, meaning: Meaning, session: SessionId, c: Conn)
    requires b'.logs == b.logs
    ensures ConnTrue(b', meaning, c) == ConnTrue(b, meaning, c)
    ensures MayBeBehind(b', meaning, session, c) == MayBeBehind(b, meaning, session, c)
  {
  }

  lemma {:induction false} FlushFromTrue(b: Bridge, meaning: Meaning, k: nat, session: SessionId, answers: nat -> nat -> bool)
    requires k <= |b.conns| && session in b.logs && Log(b, session) != [] && Evicted(b, session) < |Log(b, session)|
    requires forall i :: 0 <= i < k ==> ConnTrue(b, meaning, b.conns[i])
    requires forall i :: k <= i < |b.conns| ==> MayBeBehind(b, meaning, session, b.conns[i])
    ensures ConnsTrue(FlushFrom(b, k, session, answers), meaning)
    decreases |b.conns| - k
  {
    hide PushServer.Flushed, ConnTrue, MayBeBehind;
    if k < |b.conns| {
      var c := b.conns[k];
      var next := if c.session == Some(session) then SetConn(b, k, PushServer.Flushed(b, c, answers(k))) else b;
      CaughtUp(b, meaning, session, c, answers(k));
      forall i | 0 <= i < |b.conns|
        ensures ConnTrue(next, meaning, b.conns[i]) == ConnTrue(b, meaning, b.conns[i])
        ensures MayBeBehind(next, meaning, session, b.conns[i]) == MayBeBehind(b, meaning, session, b.conns[i])
        ensures ConnTrue(next, meaning, next.conns[k]) == ConnTrue(b, meaning, next.conns[k])
      {
        SameLogs(b, next, meaning, session, b.conns[i]);
        SameLogs(b, next, meaning, session, next.conns[k]);
      }
      FlushFromTrue(next, meaning, k + 1, session, answers);
    }
  }

  lemma CaughtUp(b: Bridge, meaning: Meaning, session: SessionId, c: Conn, answers: nat -> bool)
    requires session in b.logs && Log(b, session) != [] && Evicted(b, session) < |Log(b, session)|
    requires MayBeBehind(b, meaning, session, c)
    ensures ConnTrue(b, meaning, if c.session == Some(session) then PushServer.Flushed(b, c, answers) else c)
  {
    hide PushServer.Flushed, ResyncsTrue;
    if c.session == Some(session) {
      AppendFlushed(b, c, meaning, answers);
    }
  }

  /** What an append makes of the connections, before the flush. */
  lemma AppendLeavesBehind(b: Bridge, b': Bridge, meaning: Meaning, session: SessionId, payload: Payload, c: Conn)
    requires ConnTrue(b, meaning, c) && session in b.logs
    requires b'.logs == b.logs[session := Log(b, session) + [payload]]
    ensures MayBeBehind(b', meaning, session, c)
  {
    hide ResyncsTrue;
    ResyncsStay(Log(b, c.target), Log(b', c.target), meaning, c.out);
  }

  /** An emission writes no resync, and leaves nothing to flush. */
  lemma EmitTrue(b: Bridge, meaning: Meaning, session: SessionId, part: Part)
    requires ConnsTrue(b, meaning) && session in b.logs && part.evicted <= |Log(b, session)|
    ensures ConnsTrue(Emit(b, session, part), meaning)
  {
    hide ConnTrue, MayBeBehind, FlushFrom;
    var b' := AppendTo(Reported(b, session, part.midway), session, part.payload, part.evicted);
    forall i | 0 <= i < |b.conns|
      ensures MayBeBehind(b', meaning, session, b.conns[i])
    {
      AppendLeavesBehind(b, b', meaning, session, part.payload, b.conns[i]);
    }
    FlushFromTrue(b', meaning, 0, session, part.answers);
  }

  lemma {:induction false} EmitAllTrue(b: Bridge, meaning: Meaning, session: SessionId, parts: seq<Part>)
    requires ConnsTrue(b, meaning) && session in b.logs && CanEmit(b, session, parts)
    ensures ConnsTrue(EmitAll(b, session, parts), meaning)
    decreases |parts|
  {
    hide ConnsTrue, Emit;
    if parts != [] {
      EmitTrue(b, meaning, session, parts[0]);
      EmitFrame(b, session, parts[0]);
      EmitAllTrue(Emit(b, session, parts[0]), meaning, session, parts[1..]);
    }
  }

  /** The logs of other sessions, and what is reported of them, stay; this session's log grows by these events. */
  ghost predicate Grown(b: Bridge, r: Bridge, meaning: Meaning, session: SessionId, events: seq<Event>) {
    && r.logs.Keys == b.logs.Keys && Log(b, session) <= Log(r, session)
    && Events(Log(r, session), meaning) == Events(Log(b, session), meaning) + events
    && forall s :: s != session ==> Log(r, s) == Log(b, s) && Summary(r, s) == Summary(b, s)
  }

  lemma EmitGrows(b: Bridge, meaning: Meaning, session: SessionId, part: Part)
    requires session in b.logs
    ensures Grown(b, Emit(b, session, part), meaning, session, [meaning(part.payload)])
  {
    hide Emit, Events;
    EmitFrame(b, session, part);
    EventsPush(Log(b, session), part.payload, meaning);
  }

  lemma GrownTwice(b: Bridge, m: Bridge, r: Bridge, meaning: Meaning, session: SessionId, event: Event, rest: seq<Event>)
    requires Grown(b, m, meaning, session, [event]) && Grown(m, r, meaning, session, rest)
    ensures Grown(b, r, meaning, session, [event] + rest)
  {
    hide Events, Log, Summary;
    assert Events(Log(b, session), meaning) + ([event] + rest) == Events(Log(b, session), meaning) + [event] + rest;
  }

  lemma {:induction false} EmitAllFrame(b: Bridge, meaning: Meaning, session: SessionId, parts: seq<Part>, events: seq<Event>)
    requires session in b.logs && Write(parts, events, meaning)
    ensures Grown(b, EmitAll(b, session, parts), meaning, session, events)
    decreases |parts|
  {
    hide Emit, Grown;
    if parts == [] {
      NothingGrows(b, meaning, session);
    } else {
      var m := Emit(b, session, parts[0]);
      EmitGrows(b, meaning, session, parts[0]);
      EmitFrame(b, session, parts[0]);
      EmitAllFrame(m, meaning, session, parts[1..], events[1..]);
      GrownTwice(b, m, EmitAll(b, session, parts), meaning, session, events[0], events[1..]);
      assert events == [events[0]] + events[1..];
    }
  }

  lemma NothingGrows(b: Bridge, meaning: Meaning, session: SessionId)
    ensures Grown(b, b, meaning, session, [])
  {
  }

  lemma EventsPush(log: seq<Payload>, payload: Payload, meaning: Meaning)
    ensures Events(log + [payload], meaning) == Events(log, meaning) + [meaning(payload)]
  {
  }

  // ------------------------------------------------ a hello, and a drained socket ---

  /** A connection with whatever left to flush, at a time when the agent is as the bridge reports it. */
  ghost predicate Flushable(b: Bridge, meaning: Meaning, c: Conn) {
    && c.session == Some(c.target) && c.target in b.logs && ResyncsTrue(Log(b, c.target), meaning, c.out)
    && SnapshotTrue(Log(b, c.target), meaning, |Log(b, c.target)|, Summary(b, c.target))
  }

  lemma {:induction false} FlushedTrue(b: Bridge, meaning: Meaning, c: Conn, answers: nat -> bool)
    requires Flushable(b, meaning, c)
    ensures ConnTrue(b, meaning, PushServer.Flushed(b, c, answers))
    decreases |Log(b, c.target)| - c.sendCursor
  {
    hide SnapshotTrue, ResyncsTrue, CursorRefused;
    var d := FlushOne(b, c, answers(|c.out|));
    if c.closed || c.blocked {
    } else {
      FlushOneTrue(b, meaning, c, answers(|c.out|));
      NotAhead(b, c);
      if CursorRefused(b, c.target, c.sendCursor) {
      } else if c.sendCursor != |Log(b, c.target)| {
        FlushedTrue(b, meaning, d, answers);
      }
    }
  }

  lemma NotAhead(b: Bridge, c: Conn)
    ensures !CursorRefused(b, c.target, c.sendCursor) ==> c.sendCursor <= |Log(b, c.target)|
  {
  }

  lemma FlushOneTrue(b: Bridge, meaning: Meaning, c: Conn, writable: bool)
    requires Flushable(b, meaning, c) && !c.closed && !c.blocked
    ensures var d := FlushOne(b, c, writable);
      && Flushable(b, meaning, d) && d.target == c.target
      && (CursorRefused(b, c.target, c.sendCursor) ==> ConnTrue(b, meaning, d))
      && (!CursorRefused(b, c.target, c.sendCursor) && c.sendCursor != |Log(b, c.target)| ==> d.sendCursor == c.sendCursor + 1)
  {
    hide SnapshotTrue, ResyncsTrue, CursorRefused;
    var log := Log(b, c.target);
    NotAhead(b, c);
    if CursorRefused(b, c.target, c.sendCursor) {
      ResyncsPush(log, meaning, c.out, ResyncFrame(|log|, Summary(b, c.target)));
    } else if c.sendCursor != |log| {
      ResyncsPush(log, meaning, c.out, EventFrame(c.sendCursor + 1, log[c.sendCursor]));
    }
  }

  /** At such a time what the bridge reports of a session is what its log amounts to. */
  lemma SummaryTrue(x: System, meaning: Meaning, session: SessionId)
    requires AgentsTrue(x, meaning) && session in x.world.bridge.logs
    ensures var b := x.world.bridge; SnapshotTrue(Log(b, session), meaning, |Log(b, session)|, Summary(b, session))
  {
    hide ShownAll, AuditAll;
    var b := x.world.bridge;
    assert AgentTrue(b, meaning, session, x.agents[session]);
    var events := Events(Log(b, session), meaning);
    assert events[..|events|] == events;
  }

  lemma SendTrue(b: Bridge, meaning: Meaning, c: Conn, frame: Frame, writable: bool)
    requires ConnTrue(b, meaning, c) && !frame.ResyncFrame?
    ensures ConnTrue(b, meaning, Send(c, frame, writable)) && ConnTrue(b, meaning, Send(c, frame, writable).(ended := true))
  {
    hide SnapshotTrue, ResyncsTrue;
    ResyncsPush(Log(b, c.target), meaning, c.out, frame);
  }

  /** The bridge takes a hello: to a connection without a session it answers an error, a resync, or ready and a flush. */
  lemma HelloTrue(x: System, meaning: Meaning, c: Conn, writable: bool)
    requires AgentsTrue(x, meaning) && ConnTrue(x.world.bridge, meaning, c)
    ensures TakenOk(x.world.bridge, meaning, c, HandleHello(x.world.bridge, c, c.target, c.after, writable))
  {
    hide SnapshotTrue, ResyncsTrue, CursorRefused;
    var b := x.world.bridge;
    if c.session.Some? || c.target !in b.logs {
      SendTrue(b, meaning, c, ErrorFrame, writable);
    } else {
      SummaryTrue(x, meaning, c.target);
      var log := Log(b, c.target);
      ResyncsPush(log, meaning, c.out, ReadyFrame);
      ResyncsPush(log, meaning, c.out, ResyncFrame(|log|, Summary(b, c.target)));
    }
  }

  lemma SameButExec(b: Bridge, b': Bridge, meaning: Meaning, c: Conn, answers: nat -> bool)
    requires b'.logs == b.logs && b'.evicted == b.evicted && b'.summaries == b.summaries
    ensures ConnTrue(b', meaning, c) == ConnTrue(b, meaning, c) && Flushable(b', meaning, c) == Flushable(b, meaning, c)
    ensures PushServer.Flushed(b', c, answers) == PushServer.Flushed(b, c, answers)
  {
    hide ResyncsTrue, SnapshotTrue, PushServer.Flushed;
    PushServer.LogsAlone(b', b, 0, c, answers);
  }

  /** What taking a request makes of its connection, before the flush. */
  ghost predicate TakenOk(b: Bridge, meaning: Meaning, c: Conn, d: Conn) {
    if c.session.None? && d.session.Some? && !d.ended then Flushable(b, meaning, d) else ConnTrue(b, meaning, d)
  }

  lemma AnswerOnly(b: Bridge, meaning: Meaning, c: Conn, frame: Frame, writable: bool)
    requires ConnTrue(b, meaning, c) && !frame.ResyncFrame?
    ensures TakenOk(b, meaning, c, Send(c, frame, writable))
  {
    hide ConnTrue;
    SendTrue(b, meaning, c, frame, writable);
    SendsNoHello(c, frame, writable);
  }

  lemma CommandTaken(b: Bridge, meaning: Meaning, c: Conn, id: string, writable: bool)
    requires ConnTrue(b, meaning, c)
    ensures TakenOk(b, meaning, c, HandleCommand(b.exec, c, id, writable).1)
  {
    hide ResyncsTrue, Send;
    AnswerOnly(b, meaning, c, ErrorFrame, writable);
  }

  lemma RequestTaken(x: System, meaning: Meaning, c: Conn, request: Request, writable: bool)
    requires AgentsTrue(x, meaning) && ConnTrue(x.world.bridge, meaning, c)
    requires request.Hello? ==> request == Hello(c.target, c.after)
    ensures var b := x.world.bridge;
      TakenOk(b, meaning, c,
        match request
        case Hello(session, after) => HandleHello(b, c, session, after, writable)
        case Ping => HandlePing(c, writable)
        case Command(id, _) => HandleCommand(b.exec, c, id, writable).1)
  {
    hide ConnTrue, Flushable, AgentsTrue, HandleHello, HandleCommand, Send;
    match request
    case Hello(session, after) => HelloTrue(x, meaning, c, writable);
    case Ping => AnswerOnly(x.world.bridge, meaning, c, if c.session.None? then ErrorFrame else PongFrame, writable);
    case Command(id, _) => CommandTaken(x.world.bridge, meaning, c, id, writable);
  }

  /** Taking a request touches its connection alone, and neither logs nor summaries. */
  lemma ReceiveFrame(b: Bridge, i: nat, writable: bool)
    requires i < |b.conns| && b.conns[i].processed < |b.conns[i].inbox|
    ensures var r, c := ReceiveOn(b, i, writable), b.conns[i].(processed := b.conns[i].processed + 1);
      && r.logs == b.logs && r.evicted == b.evicted && r.summaries == b.summaries && |r.conns| == |b.conns|
      && (forall j :: 0 <= j < |b.conns| && j != i ==> r.conns[j] == b.conns[j])
      && r.conns[i] ==
          match b.conns[i].inbox[b.conns[i].processed]
          case Hello(session, after) => HandleHello(b, c, session, after, writable)
          case Ping => HandlePing(c, writable)
          case Command(id, _) => HandleCommand(b.exec, c, id, writable).1
  {
    hide HandleHello, HandlePing, HandleCommand;
  }

  lemma TakenTrue(x: System, meaning: Meaning, i: nat, writable: bool)
    requires PushDelivery.Inv(x.world) && AgentsTrue(x, meaning) && ConnsTrue(x.world.bridge, meaning)
    requires i < |x.world.bridge.conns| && x.world.bridge.conns[i].processed < |x.world.bridge.conns[i].inbox|
    ensures var b := x.world.bridge; TakenOk(b, meaning, b.conns[i], ReceiveOn(b, i, writable).conns[i])
  {
    hide PushDelivery.Inv, PushDelivery.ConnOk, TakenOk, AgentsTrue, ResyncsTrue, ReceiveOn, HandleHello, HandlePing, HandleCommand;
    var b := x.world.bridge;
    ConnOkAt(x.world, i);
    PushDelivery.TakingKeepsConn(b, b.conns[i]);
    assert ConnTrue(b, meaning, b.conns[i]);
    var c := b.conns[i].(processed := b.conns[i].processed + 1);
    ReceiveFrame(b, i, writable);
    RequestTaken(x, meaning, c, b.conns[i].inbox[b.conns[i].processed], writable);
    TakenFrom(b, meaning, b.conns[i], c, ReceiveOn(b, i, writable).conns[i]);
  }

  lemma TakenFrom(b: Bridge, meaning: Meaning, c: Conn, taken: Conn, d: Conn)
    requires TakenOk(b, meaning, taken, d) && taken.session == c.session
    ensures TakenOk(b, meaning, c, d)
  {
    hide Flushable, ConnTrue;
  }

  lemma SendsNoHello(c: Conn, frame: Frame, writable: bool)
    ensures Send(c, frame, writable).session == c.session
  {
  }

  lemma ConnOkAt(w: World, i: nat)
    requires PushDelivery.Inv(w) && i < |w.bridge.conns|
    ensures PushDelivery.ConnOk(w.bridge, w.bridge.conns[i])
  {
    hide PushDelivery.ConnOk, PushDelivery.ViewOk, PushDelivery.LinkOk;
  }

  lemma TakeTrue(x: System, meaning: Meaning, i: nat, answers: nat -> bool)
    requires PushDelivery.Inv(x.world) && AgentsTrue(x, meaning) && ConnsTrue(x.world.bridge, meaning)
    requires i < |x.world.bridge.conns| && x.world.bridge.conns[i].processed < |x.world.bridge.conns[i].inbox|
    ensures var r := TakeOn(x.world.bridge, i, answers);
      ConnsTrue(r, meaning) && r.logs == x.world.bridge.logs && r.summaries == x.world.bridge.summaries
  {
    hide ConnTrue, Flushable, PushServer.Flushed, ReceiveOn, PushDelivery.Inv, AgentsTrue;
    var b := x.world.bridge;
    var writable := answers(|b.conns[i].out|);
    TakenTrue(x, meaning, i, writable);
    ReceiveFrame(b, i, writable);
    var m := ReceiveOn(b, i, writable);
    var d := m.conns[i];
    SameButExec(b, m, meaning, d, answers);
    var r := TakeOn(b, i, answers);
    if Flushable(b, meaning, d) {
      FlushedTrue(b, meaning, d, answers);
    }
    forall j | 0 <= j < |r.conns|
      ensures ConnTrue(r, meaning, r.conns[j])
    {
      SameButExec(b, r, meaning, r.conns[j], answers);
    }
  }

  lemma UnblockTrue(x: System, meaning: Meaning, i: nat, answers: nat -> bool)
    requires AgentsTrue(x, meaning) && ConnsTrue(x.world.bridge, meaning) && i < |x.world.bridge.conns|
    ensures var r := UnblockOn(x.world.bridge, i, answers);
      ConnsTrue(r, meaning) && r.logs == x.world.bridge.logs && r.summaries == x.world.bridge.summaries
  {
    hide PushServer.Flushed, AgentsTrue, ResyncsTrue, SnapshotTrue;
    var b := x.world.bridge;
    assert ConnTrue(b, meaning, b.conns[i]);
    var c := b.conns[i].(blocked := false);
    if c.session.Some? {
      SummaryTrue(x, meaning, c.target);
      FlushedTrue(b, meaning, c, answers);
    } else {
      NothingToFlush(b, c, answers);
    }
  }

  lemma NothingToFlush(b: Bridge, c: Conn, answers: nat -> bool)
    requires c.session.None?
    ensures PushServer.Flushed(b, c, answers) == c
  {
  }

  // ------------------------------------------------------------- the moves ---

  /** PushDelivery's invariant goes with every protocol run. */
  lemma RunKeepsDelivery(w: World, z: World)
    requires PushDelivery.Inv(w) && RunsTo(w, z)
    ensures PushDelivery.Inv(z)
  {
    hide PushDelivery.Inv, Reaches;
    var steps :| Reaches(w, steps, z);
    PushDelivery.RunKeepsInv(w, steps, z);
  }

  /** Agents other than the one that operates are as they were. */
  lemma OthersTrue(b: Bridge, b': Bridge, meaning: Meaning, session: SessionId, agent: Agent)
    requires AgentTrue(b, meaning, session, agent) && b.logs.Keys <= b'.logs.Keys
    requires Log(b', session) == Log(b, session) && Summary(b', session) == Summary(b, session)
    ensures AgentTrue(b', meaning, session, agent)
  {
    hide AgentOk;
  }

  lemma ReportedTrue(b: Bridge, meaning: Meaning, session: SessionId, snapshot: Snapshot)
    requires ConnsTrue(b, meaning)
    ensures ConnsTrue(Reported(b, session, snapshot), meaning)
  {
    hide ConnTrue;
    forall i | 0 <= i < |b.conns|
      ensures ConnTrue(Reported(b, session, snapshot), meaning, b.conns[i])
    {
      SameLogs(b, Reported(b, session, snapshot), meaning, session, b.conns[i]);
    }
  }

  lemma OperateTrue(x: System, meaning: Meaning, session: SessionId, op: Operation, parts: seq<Part>)
    requires AgentsTrue(x, meaning) && ConnsTrue(x.world.bridge, meaning)
    requires Allowed(x, Operate(session, op, parts), meaning)
    ensures var y := Perform(x, Operate(session, op, parts), meaning);
      && AgentsTrue(y, meaning) && ConnsTrue(y.world.bridge, meaning)
      && forall s :: Log(x.world.bridge, s) <= Log(y.world.bridge, s)
  {
    hide EmitAll, CanEmit, Write, ConnsTrue, Operated, AgentOk, Events, Log, Summary;
    var b, agent := x.world.bridge, x.agents[session];
    var after, m := Operated(agent, op), EmitAll(b, session, parts);
    var y := Perform(x, Operate(session, op, parts), meaning);
    assert AgentTrue(b, meaning, session, agent);
    EmitAllTrue(b, meaning, session, parts);
    ReportedTrue(m, meaning, session, SessionOf(after));
    EmitAllFrame(b, meaning, session, parts, Appended(agent, op));
    OperatedAppends(agent, op);
    assert after.events == agent.events + Appended(agent, op);
    OperatedOk(agent, op);
    LogsOfReported(m, session, SessionOf(after));
    AgentsAfter(x, y, meaning, session);
  }

  /** One agent has operated, or has been created. */
  lemma AgentsAfter(x: System, y: System, meaning: Meaning, session: SessionId)
    requires AgentsTrue(x, meaning) && y.agents.Keys == x.agents.Keys + {session} == y.world.bridge.logs.Keys
    requires AgentTrue(y.world.bridge, meaning, session, y.agents[session])
    requires forall s :: s in x.agents && s != session ==> y.agents[s] == x.agents[s]
    requires var b, b' := x.world.bridge, y.world.bridge;
      forall s :: s != session ==> Log(b', s) == Log(b, s) && Summary(b', s) == Summary(b, s)
    ensures AgentsTrue(y, meaning)
  {
    hide AgentOk, Events, Log, Summary;
    forall s | s in y.agents
      ensures AgentTrue(y.world.bridge, meaning, s, y.agents[s])
    {
      if s != session {
        assert AgentTrue(x.world.bridge, meaning, s, x.agents[s]);
        OthersTrue(x.world.bridge, y.world.bridge, meaning, s, x.agents[s]);
      }
    }
  }

  lemma LogsOfReported(b: Bridge, session: SessionId, snapshot: Snapshot)
    ensures var r := Reported(b, session, snapshot);
      && (forall s :: Log(r, s) == Log(b, s)) && Summary(r, session) == snapshot
      && (forall s :: s != session ==> Summary(r, s) == Summary(b, s))
  {
  }

  lemma WithSessionTrue(b: Bridge, meaning: Meaning, session: SessionId)
    requires ConnsTrue(b, meaning) && session !in b.logs
    ensures ConnsTrue(WithSession(b, session), meaning)
    ensures forall s :: Log(WithSession(b, session), s) == Log(b, s) && Summary(WithSession(b, session), s) == Summary(b, s)
  {
    hide ResyncsTrue;
  }

  lemma CreatedBridge(b: Bridge, meaning: Meaning, session: SessionId, parts: seq<Part>)
    requires ConnsTrue(b, meaning) && session !in b.logs && Write(parts, Created().events, meaning)
    requires CanEmit(WithSession(b, session), session, parts)
    ensures var r := Reported(EmitAll(WithSession(b, session), session, parts), session, SessionOf(Created()));
      && ConnsTrue(r, meaning) && r.logs.Keys == b.logs.Keys + {session} && AgentTrue(r, meaning, session, Created())
      && (forall s :: Log(b, s) <= Log(r, s))
      && (forall s :: s != session ==> Log(r, s) == Log(b, s) && Summary(r, s) == Summary(b, s))
  {
    hide EmitAll, CanEmit, Write, ConnsTrue, AgentOk, Events, Summary, Created;
    var w := WithSession(b, session);
    var m := EmitAll(w, session, parts);
    WithSessionTrue(b, meaning, session);
    EmitAllTrue(w, meaning, session, parts);
    ReportedTrue(m, meaning, session, SessionOf(Created()));
    EmitAllFrame(w, meaning, session, parts, Created().events);
    NoEvents(meaning);
    CreatedOk();
    LogsOfReported(m, session, SessionOf(Created()));
  }

  lemma CreateTrue(x: System, meaning: Meaning, session: SessionId, parts: seq<Part>)
    requires AgentsTrue(x, meaning) && ConnsTrue(x.world.bridge, meaning)
    requires Allowed(x, Create(session, parts), meaning)
    ensures var y := Perform(x, Create(session, parts), meaning);
      && AgentsTrue(y, meaning) && ConnsTrue(y.world.bridge, meaning)
      && forall s :: Log(x.world.bridge, s) <= Log(y.world.bridge, s)
  {
    hide EmitAll, CanEmit, Write, ConnsTrue, AgentTrue, Summary, Created, WithSession, Reported, Log;
    CreatedBridge(x.world.bridge, meaning, session, parts);
    AgentsAfter(x, Perform(x, Create(session, parts), meaning), meaning, session);
  }

  lemma NoEvents(meaning: Meaning)
    ensures Events([], meaning) == []
  {
  }

  lemma BridgeOnly(x: System, b': Bridge, meaning: Meaning)
    requires AgentsTrue(x, meaning) && b'.logs == x.world.bridge.logs && b'.summaries == x.world.bridge.summaries
    ensures AgentsTrue(x.(world := x.world.(bridge := b')), meaning)
  {
    hide AgentOk, Events;
    forall session | session in x.agents
      ensures AgentTrue(b', meaning, session, x.agents[session])
    {
      assert AgentTrue(x.world.bridge, meaning, session, x.agents[session]);
    }
  }

  /** The steps that are moves of their own leave logs and summaries alone, and write no resync. */
  lemma OtherConns(x: System, meaning: Meaning, step: Step)
    requires ConnsTrue(x.world.bridge, meaning) && Allowed(x, Other(step), meaning)
    ensures var b' := Apply(x.world, step).bridge;
      ConnsTrue(b', meaning) && b'.logs == x.world.bridge.logs && b'.summaries == x.world.bridge.summaries
  {
    hide ResyncsTrue, ReplyTo;
    match step
    case Reply(i, writable) => ReplyTrue(x, meaning, i, writable);
    case Connected => NothingWritten(Log(x.world.bridge, x.world.handheld.link), meaning);
    case _ =>
  }

  lemma NothingWritten(log: seq<Payload>, meaning: Meaning)
    ensures ResyncsTrue(log, meaning, [])
  {
  }

  lemma ReplyTrue(x: System, meaning: Meaning, i: nat, writable: bool)
    requires ConnsTrue(x.world.bridge, meaning) && Enabled(x.world, Reply(i, writable))
    ensures ConnsTrue(Apply(x.world, Reply(i, writable)).bridge, meaning)
  {
    hide ConnTrue, Send;
    var b := x.world.bridge;
    var c := b.conns[i];
    var frame := match c.busy
      case Answering(ack) => AckFrame(ack.commandId)
      case Waiting(op) =>
        if b.exec.ops[op].state.Succeeded? then AckFrame(b.exec.ops[op].state.ack.commandId) else ErrorFrame;
    SendTrue(b, meaning, c, frame, writable);
    BusyIsNothing(b, meaning, Send(c, frame, writable));
    var b' := Apply(x.world, Reply(i, writable)).bridge;
    forall j | 0 <= j < |b'.conns|
      ensures ConnTrue(b', meaning, b'.conns[j])
    {
      SameLogs(b, b', meaning, "", b'.conns[j]);
    }
  }

  lemma BusyIsNothing(b: Bridge, meaning: Meaning, c: Conn)
    requires ConnTrue(b, meaning, c)
    ensures ConnTrue(b, meaning, c.(busy := Busy.Idle))
  {
  }

  /** Reading, handling and forgetting frames keeps what is held and what was applied true. */
  lemma OtherHandheld(x: System, meaning: Meaning, step: Step)
    requires PushDelivery.Inv(x.world) && ConnsTrue(x.world.bridge, meaning)
    requires HandheldTrue(x.world.bridge, meaning, x.world.handheld) && Allowed(x, Other(step), meaning)
    ensures HandheldTrue(x.world.bridge, meaning, Apply(x.world, step).handheld)
  {
    hide SnapshotTrue, ConnTrue, PushDelivery.Inv, ReceiveOn, ReplyTo, FlushOne;
    match step
    case Extract => ExtractTrue(x, meaning);
    case _ =>
  }

  lemma ExtractTrue(x: System, meaning: Meaning)
    requires PushDelivery.Inv(x.world) && ConnsTrue(x.world.bridge, meaning)
    requires HandheldTrue(x.world.bridge, meaning, x.world.handheld) && Enabled(x.world, Extract)
    ensures HandheldTrue(x.world.bridge, meaning, Apply(x.world, Extract).handheld)
  {
    hide SnapshotTrue, PushDelivery.ConnOk, PushDelivery.Bound, PushDelivery.Pos;
    var h := x.world.handheld;
    assert ConnTrue(x.world.bridge, meaning, x.world.bridge.conns[h.conn.value]);
  }

  lemma OtherTrue(x: System, meaning: Meaning, step: Step)
    requires Inv(x, meaning) && Allowed(x, Other(step), meaning)
    ensures var y := Perform(x, Other(step), meaning);
      && AgentsTrue(y, meaning) && ConnsTrue(y.world.bridge, meaning) && HandheldTrue(y.world.bridge, meaning, y.world.handheld)
  {
    hide Apply, AgentsTrue, ConnsTrue, HandheldTrue, PushDelivery.Inv, Enabled;
    OtherConns(x, meaning, step);
    OtherHandheld(x, meaning, step);
    var y := Apply(x.world, step);
    BridgeOnly(x, y.bridge, meaning);
    AgentsOfBridge(x.(world := x.world.(bridge := y.bridge)), x.(world := y), meaning);
    HandheldOfLogs(x.world.bridge, y.bridge, meaning, y.handheld);
  }

  lemma AgentsOfBridge(x: System, y: System, meaning: Meaning)
    requires AgentsTrue(x, meaning) && y.agents == x.agents && y.world.bridge == x.world.bridge
    ensures AgentsTrue(y, meaning)
  {
    hide AgentTrue;
  }

  lemma HandheldOfLogs(b: Bridge, b': Bridge, meaning: Meaning, h: Handheld)
    requires HandheldTrue(b, meaning, h) && b'.logs == b.logs
    ensures HandheldTrue(b', meaning, h)
  {
    hide SnapshotTrue;
  }

  lemma MoveKeepsInv(x: System, move: Move, meaning: Meaning)
    requires Inv(x, meaning) && Allowed(x, move, meaning)
    ensures Inv(Perform(x, move, meaning), meaning)
  {
    hide AgentsTrue, ConnsTrue, HandheldTrue, PushDelivery.Inv, Apply, Enabled, EmitAll, CanEmit, TakeOn, UnblockOn, Operated, Write,
      RunsTo, Appended;
    var y, h := Perform(x, move, meaning), x.world.handheld;
    SameSessions(x, meaning);
    MoveRuns(x, move, meaning);
    RunKeepsDelivery(x.world, y.world);
    match move
    case Create(session, parts) =>
      CreateTrue(x, meaning, session, parts);
      HandheldStays(x.world.bridge, y.world.bridge, meaning, h);
    case Operate(session, op, parts) =>
      OperateTrue(x, meaning, session, op, parts);
      HandheldStays(x.world.bridge, y.world.bridge, meaning, h);
    case Take(i, answers) =>
      TakeTrue(x, meaning, i, answers);
      BridgeOnly(x, y.world.bridge, meaning);
      HandheldOfLogs(x.world.bridge, y.world.bridge, meaning, h);
    case Unblock(i, answers) =>
      UnblockTrue(x, meaning, i, answers);
      BridgeOnly(x, y.world.bridge, meaning);
      HandheldOfLogs(x.world.bridge, y.world.bridge, meaning, h);
    case Other(step) =>
      OtherTrue(x, meaning, step);
  }

  lemma SameSessions(x: System, meaning: Meaning)
    requires AgentsTrue(x, meaning)
    ensures x.agents.Keys == x.world.bridge.logs.Keys
  {
    hide AgentTrue;
  }

  // -------------------------------------------------------------- all runs ---

  lemma StartTrue(capacity: nat, view: SessionId, meaning: Meaning)
    ensures Inv(System(Start(capacity, view), map[]), meaning)
  {
    hide PushDelivery.Inv;
    PushDelivery.StartInv(capacity, view);
  }

  lemma {:induction false} RunKeepsInv(x: System, moves: seq<Move>, meaning: Meaning, z: System)
    requires Inv(x, meaning) && Leads(x, moves, meaning, z)
    ensures Inv(z, meaning) && RunsTo(x.world, z.world)
    decreases |moves|
  {
    hide Inv, Allowed, Perform, RunsTo;
    if moves == [] {
      StaysPut(x.world);
    } else {
      var y := Perform(x, moves[0], meaning);
      MoveKeepsInv(x, moves[0], meaning);
      InvSessions(x, meaning);
      MoveRuns(x, moves[0], meaning);
      RunKeepsInv(y, moves[1..], meaning, z);
      OneRun(x.world, y.world, z.world);
    }
  }

  lemma InvSessions(x: System, meaning: Meaning)
    requires Inv(x, meaning)
    ensures x.agents.Keys == x.world.bridge.logs.Keys
  {
    hide AgentTrue, ConnsTrue, HandheldTrue, PushDelivery.Inv;
  }

  /** Every run of the whole is a run of the protocol machine, so all its theorems hold here. */
  lemma PossibleInv(capacity: nat, view: SessionId, meaning: Meaning, z: System)
    requires Possible(capacity, view, meaning, z)
    ensures Inv(z, meaning) && Reachable(capacity, view, z.world)
  {
    hide Inv, Leads, Reaches, Start;
    var x := System(Start(capacity, view), map[]);
    var moves :| Leads(x, moves, meaning, z);
    StartTrue(capacity, view, meaning);
    RunKeepsInv(x, moves, meaning, z);
  }

  /** In every run, every resync that the handheld applied carried what its log said up to there. */
  lemma ResyncsAreTrue(capacity: nat, view: SessionId, meaning: Meaning, z: System, i: nat)
    requires Possible(capacity, view, meaning, z) && i < |z.world.handheld.applied| && z.world.handheld.applied[i].AppliedResync?
    ensures var resync := z.world.handheld.applied[i];
      SnapshotTrue(Log(z.world.bridge, z.world.handheld.view), meaning, resync.lastSequence, resync.snapshot)
  {
    hide Possible, SnapshotTrue, PushDelivery.Inv, ConnsTrue, AgentsTrue;
    PossibleInv(capacity, view, meaning, z);
  }

  lemma {:induction false} ScreenFollowsLog(log: seq<Payload>, applied: seq<Applied>, meaning: Meaning, n: nat)
    requires PushDelivery.AppliedOk(log, applied) && AppliedTrue(log, meaning, applied) && n <= |applied|
    ensures PushDelivery.CursorOf(applied[..n]) <= |log|
    ensures ScreenOf(applied[..n], meaning) == ShownAll(ATTACHED, Events(log, meaning)[..PushDelivery.CursorOf(applied[..n])])
    decreases n
  {
    hide Shown, Events, ShownAll, ScreenOf, PushDelivery.AppliedOk, PushDelivery.CursorOf, AppliedTrue;
    if n == 0 {
      NothingApplied(log, applied, meaning);
    } else {
      ScreenFollowsLog(log, applied, meaning, n - 1);
      ScreenStep(applied, meaning, n);
      if applied[n - 1].AppliedEvent? {
        PushDelivery.NextEvent(log, applied, n);
        EventShown(log, meaning, PushDelivery.CursorOf(applied[..n - 1]));
      } else {
        ResyncAt(log, applied, n);
        ResyncShown(log, meaning, applied, n - 1, ScreenOf(applied[..n - 1], meaning));
      }
    }
  }

  lemma NothingApplied(log: seq<Payload>, applied: seq<Applied>, meaning: Meaning)
    ensures PushDelivery.CursorOf(applied[..0]) == 0
    ensures ScreenOf(applied[..0], meaning) == ShownAll(ATTACHED, Events(log, meaning)[..0])
  {
    assert Events(log, meaning)[..0] == [];
  }

  lemma ScreenStep(applied: seq<Applied>, meaning: Meaning, n: nat)
    requires 0 < n <= |applied|
    ensures var before := ScreenOf(applied[..n - 1], meaning);
      ScreenOf(applied[..n], meaning) == match applied[n - 1]
        case AppliedEvent(_, payload) => Shown(before, meaning(payload))
        case AppliedResync(_, snapshot) => Resynced(before, snapshot)
  {
    hide Shown;
    assert applied[..n][..n - 1] == applied[..n - 1];
  }

  lemma EventShown(log: seq<Payload>, meaning: Meaning, k: nat)
    requires k < |log|
    ensures ShownAll(ATTACHED, Events(log, meaning)[..k + 1])
         == Shown(ShownAll(ATTACHED, Events(log, meaning)[..k]), meaning(log[k]))
  {
    hide Shown, ShownAll, Events;
    var events := Events(log, meaning);
    EventAt(log, meaning, k);
    assert events[..k + 1] == events[..k] + [events[k]];
    ShownPush(ATTACHED, events[..k], events[k]);
  }

  lemma EventAt(log: seq<Payload>, meaning: Meaning, i: nat)
    requires i < |log|
    ensures Events(log, meaning)[i] == meaning(log[i])
  {
  }

  lemma ResyncAt(log: seq<Payload>, applied: seq<Applied>, n: nat)
    requires PushDelivery.AppliedOk(log, applied) && 0 < n <= |applied| && applied[n - 1].AppliedResync?
    ensures PushDelivery.CursorOf(applied[..n]) == applied[n - 1].lastSequence <= |log|
  {
  }

  /** A resync forgets what was shown before. */
  lemma ResyncShown(log: seq<Payload>, meaning: Meaning, applied: seq<Applied>, i: nat, before: Screen)
    requires AppliedTrue(log, meaning, applied) && i < |applied| && applied[i].AppliedResync? && applied[i].lastSequence <= |log|
    ensures Resynced(before, applied[i].snapshot) == ShownAll(ATTACHED, Events(log, meaning)[..applied[i].lastSequence])
  {
    hide ShownAll, Events;
    assert SnapshotTrue(log, meaning, applied[i].lastSequence, applied[i].snapshot);
  }

  /** In every run, the screen is what the session's log up to the cursor amounts to. */
  lemma ScreenShowsTheSession(capacity: nat, view: SessionId, meaning: Meaning, z: System)
    requires Possible(capacity, view, meaning, z)
    ensures var h := z.world.handheld;
      var log := Log(z.world.bridge, h.view);
      h.eventCursor <= |log| && ScreenOf(h.applied, meaning) == ShownAll(ATTACHED, Events(log, meaning)[..h.eventCursor])
  {
    hide Possible, PushDelivery.AppliedOk, PushDelivery.ConnOk, PushDelivery.LinkOk, ScreenOf, ShownAll, Events, AppliedTrue,
      ConnsTrue, AgentsTrue;
    PossibleInv(capacity, view, meaning, z);
    var h := z.world.handheld;
    ScreenFollowsLog(Log(z.world.bridge, h.view), h.applied, meaning, |h.applied|);
    assert h.applied[..|h.applied|] == h.applied;
  }

  /** So once the link is quiet, the screen shows the agent as it is: state, turn and pending approval. */
  lemma QuietScreenShowsTheAgent(capacity: nat, view: SessionId, meaning: Meaning, z: System)
    requires Possible(capacity, view, meaning, z)
    requires var h := z.world.handheld; h.conn.Some? && h.held.None? && h.conn.value < |z.world.bridge.conns|
    requires var c := z.world.bridge.conns[z.world.handheld.conn.value];
      && c.session.Some? && !c.ended && !c.closed && !c.blocked && z.world.handheld.received == |c.out|
    ensures var h := z.world.handheld;
      h.view in z.agents && ScreenOf(h.applied, meaning) == Resynced(ATTACHED, SessionOf(z.agents[h.view]))
  {
    hide Possible, ScreenOf, ShownAll, AuditAll, Events, Reachable, PushDelivery.Inv;
    ScreenShowsTheSession(capacity, view, meaning, z);
    PossibleInv(capacity, view, meaning, z);
    ViewIsSession(capacity, view, z.world);
    var h := z.world.handheld;
    var c := z.world.bridge.conns[h.conn.value];
    assert ConnTrue(z.world.bridge, meaning, c);
    assert AgentTrue(z.world.bridge, meaning, h.view, z.agents[h.view]);
    AllFlushed(z.world.bridge, c);
    PushDelivery.QuietLinkIsCaughtUp(capacity, view, z.world);
    var events := z.agents[h.view].events;
    assert events[..|events|] == events;
  }

  lemma ViewIsSession(capacity: nat, view: SessionId, w: World)
    requires Reachable(capacity, view, w) && w.handheld.conn.Some?
    ensures w.handheld.conn.value < |w.bridge.conns| && w.bridge.conns[w.handheld.conn.value].target == w.handheld.view
    ensures Evicted(w.bridge, w.handheld.view) <= |Log(w.bridge, w.handheld.view)|
  {
    hide Reachable, PushDelivery.ConnOk, PushDelivery.Pos, PushDelivery.Bound, PushDelivery.AppliedOk;
    PushDelivery.ReachableInv(capacity, view, w);
  }

  lemma AllFlushed(b: Bridge, c: Conn)
    requires c.session.Some? && c.sendCursor == |Log(b, c.session.value)| && Evicted(b, c.session.value) <= c.sendCursor
    ensures FlushOne(b, c, true) == c
  {
  }
}
